/** The ladder of `GET /fetch_data`: for every request exactly one answer, told by the header, the body of
    the request and what the file system holds under the name. */
module RangeLadder {
  import opened Prelude
  import opened Decimal
  import opened RangeService

  ghost predicate DenotesRange(h: string) {
    exists start, end :: Denotes(h, start, end)
  }

  /** The header is there and denotes a range. */
  ghost predicate GoodHeader(range: Option<string>) {
    range.Some? && DenotesRange(range.value)
  }

  /** The body of the request names a file. */
  predicate Named(body: string, name: string) {
    ExtractFilename(body) == Some(name) && name != ""
  }

  predicate Nothing(disk: map<string, Entry>, name: string) {
    name !in disk || disk[name] == Absent
  }

  predicate Holds(disk: map<string, Entry>, name: string, content: seq<Byte>, reopens: bool) {
    name in disk && disk[name] == File(content, reopens)
  }

  /** The range lies in a file whose size is truncated to `int`. */
  ghost predicate Within(h: string, content: seq<Byte>) {
    exists start, end :: Denotes(h, start, end) && start <= end < ToInt(|content|)
  }

  lemma HeaderExactly(h: string)
    ensures RangeOf(h).Some? <==> DenotesRange(h)
  {
    if RangeOf(h).Some? {
      ParserExact(h, RangeOf(h).value.0, RangeOf(h).value.1);
    }
    if start, end :| Denotes(h, start, end) {
      ParserExact(h, start, end);
    }
  }

  lemma WithinExactly(h: string, content: seq<Byte>)
    ensures Within(h, content) <==>
              RangeOf(h).Some? && RangeOf(h).value.0 <= RangeOf(h).value.1 < ToInt(|content|)
  {
    if RangeOf(h).Some? {
      ParserExact(h, RangeOf(h).value.0, RangeOf(h).value.1);
    }
    if start, end :| Denotes(h, start, end) && start <= end < ToInt(|content|) {
      ParserExact(h, start, end);
    }
  }

  /** Without a header, or with one that denotes no range, the answer is 400, before anything else is looked at. */
  lemma BadRequests(range: Option<string>, body: string, disk: map<string, Entry>)
    ensures Fetch(range, body, disk) == Refused(400, MissingRange) <==> range.None?
    ensures Fetch(range, body, disk) == Refused(400, BadRangeHeader) <==> range.Some? && !DenotesRange(range.value)
    ensures Fetch(range, body, disk) == Refused(400, EmptyFilename) <==>
              GoodHeader(range) && ExtractFilename(body) == Some("")
  {
    if range.Some? {
      HeaderExactly(range.value);
    }
  }

  /** A body without a slash names no file: 500. Under a name that holds nothing: 404. */
  lemma MissingFiles(range: Option<string>, body: string, disk: map<string, Entry>)
    ensures Fetch(range, body, disk) == Refused(500, NoFilename) <==> GoodHeader(range) && '/' !in body
    ensures Fetch(range, body, disk) == Refused(404, NotFound) <==>
              GoodHeader(range) && exists name :: Named(body, name) && Nothing(disk, name)
  {
    if range.Some? {
      HeaderExactly(range.value);
    }
    if ExtractFilename(body).Some? {
      var name := ExtractFilename(body).value;
      assert Named(body, name) && Nothing(disk, name) ==> exists n :: Named(body, n) && Nothing(disk, n);
    }
  }

  /** A file that does not open: 500. A range that is not within the file: 416. A file that opens once and
      not twice: 500. */
  lemma FailingFiles(range: Option<string>, body: string, disk: map<string, Entry>, name: string)
    requires Named(body, name)
    ensures Fetch(range, body, disk) == Refused(500, CannotOpen) <==>
              GoodHeader(range) && name in disk && disk[name] == Unopenable
    ensures Fetch(range, body, disk) == Refused(416, OutOfRange) <==>
              && GoodHeader(range)
              && exists content, reopens :: Holds(disk, name, content, reopens) && !Within(range.value, content)
    ensures Fetch(range, body, disk) == Refused(500, ReadFailed) <==>
              && GoodHeader(range)
              && exists content :: Holds(disk, name, content, false) && Within(range.value, content)
  {
    if range.Some? {
      HeaderExactly(range.value);
      if name in disk && disk[name].File? {
        var content, reopens := disk[name].content, disk[name].reopens;
        assert Holds(disk, name, content, reopens);
        WithinExactly(range.value, content);
      }
    }
  }

  /** Everything else is served: 206, exactly if the header denotes a range within a file that opens twice. */
  lemma ServedExactly(range: Option<string>, body: string, disk: map<string, Entry>)
    ensures Fetch(range, body, disk).Partial? <==>
              && GoodHeader(range)
              && exists name, content :: Named(body, name) && Holds(disk, name, content, true) && Within(range.value, content)
  {
    if range.Some? {
      HeaderExactly(range.value);
      if ExtractFilename(body).Some? {
        var name := ExtractFilename(body).value;
        if name in disk && disk[name].File? {
          var content := disk[name].content;
          WithinExactly(range.value, content);
          assert Fetch(range, body, disk).Partial? ==> Named(body, name) && Holds(disk, name, content, true);
        }
      }
    }
  }

  /** A refusal always has one of the eight pairs of code and reason. */
  lemma RefusedAs(range: Option<string>, body: string, disk: map<string, Entry>)
    ensures var r := Fetch(range, body, disk);
            r.Refused? ==>
              (r.code, r.reason) in {
                (400, MissingRange), (400, BadRangeHeader), (500, NoFilename), (400, EmptyFilename), (404, NotFound),
                (500, CannotOpen), (416, OutOfRange), (500, ReadFailed)}
  {
  }
}
