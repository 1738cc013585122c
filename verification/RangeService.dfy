/** Serving byte ranges of stored files to the SND client: src/httpServer/src/HttpServer.cpp. */
module RangeService {
  import opened Prelude
  import opened Decimal
  import RequestUrl

  const INT_MAX: int := 0x7fff_ffff

  // ----- the Range header

  const RANGE_UNIT := "bytes="

  /** `std::regex_match` against `bytes=(\d*)-(\d*)?`: the two groups. */
  function MatchRange(h: string): Option<(string, string)> {
    if !StartsWith(h, RANGE_UNIT) then None
    else
      var first := LeadingDigits(h[|RANGE_UNIT|..]);
      var rest := h[|RANGE_UNIT| + |first|..];
      if rest == "" || rest[0] != '-' then None
      else
        var last := LeadingDigits(rest[1..]);
        if |last| + 1 == |rest| then Some((first, last)) else None
  }

  predicate InGrammar(h: string, first: string, last: string) {
    AllDigits(first) && AllDigits(last) && h == "bytes=" + first + "-" + last
  }

  /** `std::stoi` on a digit string; `None` when it throws `std::out_of_range`. */
  function Stoi(digits: string): Option<int>
    requires AllDigits(digits)
  {
    if Value(digits) > INT_MAX then None else Some(Value(digits))
  }

  /** The numbers of two groups: a missing first position is 0, a missing last position is -1. */
  function Numbers(first: string, last: string): (r: Option<(int, int)>)
    requires AllDigits(first) && AllDigits(last)
    ensures r.Some? ==> 0 <= r.value.0
  {
    var start := if first == "" then Some(0) else Stoi(first);
    var end := if last == "" then Some(-1) else Stoi(last);
    if start.None? || end.None? || (end.value != -1 && end.value < start.value) then None
    else Some((start.value, end.value))
  }

  /** The numbers a header denotes to this server. */
  function RangeOf(h: string): (r: Option<(int, int)>)
    ensures r.Some? ==> 0 <= r.value.0
  {
    match MatchRange(h)
    case None => None
    case Some((first, last)) => Numbers(first, last)
  }

  /** `parseRangeHeader`; `start` and `end` are reference parameters there, and `start` may be
      written even when the header is rejected. */
  method ParseRangeHeader(rangeHeader: string, start0: int, end0: int) returns (ok: bool, start: int, end: int)
    ensures ok <==> RangeOf(rangeHeader).Some?
    ensures ok ==> RangeOf(rangeHeader) == Some((start, end))
  {
    ok, start, end := false, start0, end0;
    var matched := MatchRange(rangeHeader);
    if matched.Some? {
      var first := if matched.value.0 == "" then Some(0) else Stoi(matched.value.0);
      if first.None? {
        return;
      }
      start := first.value;
      var last := if matched.value.1 == "" then Some(-1) else Stoi(matched.value.1);
      if last.None? {
        return;
      }
      end := last.value;
      if end != -1 && end < start {
        return;
      }
      ok := true;
    }
  }

  /** A text that is cut into a unit, a digit string, a dash and another digit string. */
  lemma CutIntoFour(h: string, unit: string, first: string, last: string)
    requires unit <= h && first <= h[|unit|..]
    requires var rest := h[|unit| + |first|..]; rest != "" && rest[0] == '-' && rest[1..] == last
    ensures h == unit + first + "-" + last
  {
    var tail, rest := h[|unit|..], h[|unit| + |first|..];
    assert h == unit + tail;
    assert tail == first + rest;
    assert rest == "-" + last;
    assert unit + (first + ("-" + last)) == unit + first + "-" + last;
  }

  lemma ScannerSound(h: string, first: string, last: string)
    requires MatchRange(h) == Some((first, last))
    ensures InGrammar(h, first, last)
  {
    var rest := h[|RANGE_UNIT| + |first|..];
    assert rest[1..] == last;
    CutIntoFour(h, RANGE_UNIT, first, last);
  }

  /** What lies behind the first part and behind the second part of a text. */
  lemma Behind(a: string, b: string, c: string, d: string)
    ensures var h := a + b + c + d; a <= h && h[|a|..] == b + (c + d) && h[|a| + |b|..] == c + d
  {
    assert a + b + c + d == a + (b + (c + d));
    assert a + b + c + d == (a + b) + (c + d);
  }

  /** The scan of a text that was put together from four parts finds them again. */
  lemma PutTogether(unit: string, first: string, last: string)
    requires AllDigits(first) && AllDigits(last)
    ensures var h := unit + first + "-" + last;
            && unit <= h && LeadingDigits(h[|unit|..]) == first
            && h[|unit| + |first|..] == "-" + last && LeadingDigits(last) == last
  {
    Behind(unit, first, "-", last);
    LeadingDigitsOf(first, "-" + last);
    assert last + "" == last;
    LeadingDigitsOf(last, "");
  }

  lemma ScannerComplete(h: string, first: string, last: string)
    requires InGrammar(h, first, last)
    ensures MatchRange(h) == Some((first, last))
  {
    PutTogether(RANGE_UNIT, first, last);
    assert ("-" + last)[1..] == last;
  }

  /** The scanner accepts exactly the grammar and finds its two digit strings. */
  lemma ScannerExact(h: string, first: string, last: string)
    ensures MatchRange(h) == Some((first, last)) <==> InGrammar(h, first, last)
  {
    if MatchRange(h) == Some((first, last)) {
      ScannerSound(h, first, last);
    } else if InGrammar(h, first, last) {
      ScannerComplete(h, first, last);
    }
  }

  /** A header of two numbers within `int`, in order where both are present. */
  predicate DenotedBy(h: string, first: string, last: string, start: int, end: int) {
    && InGrammar(h, first, last)
    && start == (if first == "" then 0 else Value(first)) && start <= 0x7fff_ffff
    && end == (if last == "" then -1 else Value(last)) && end <= 0x7fff_ffff
    && (last == "" || start <= end)
  }

  ghost predicate Denotes(h: string, start: int, end: int) {
    exists first, last :: DenotedBy(h, first, last, start, end)
  }

  lemma ParsedIsDenoted(h: string, start: int, end: int)
    requires RangeOf(h) == Some((start, end))
    ensures Denotes(h, start, end)
  {
    var (first, last) := MatchRange(h).value;
    ScannerSound(h, first, last);
    assert DenotedBy(h, first, last, start, end);
  }

  /** The parser accepts a header exactly when it denotes a range within `int`, and yields that range. */
  lemma ParserExact(h: string, start: int, end: int)
    ensures RangeOf(h) == Some((start, end)) <==> Denotes(h, start, end)
  {
    if RangeOf(h) == Some((start, end)) {
      ParsedIsDenoted(h, start, end);
    }
    if Denotes(h, start, end) {
      var first, last :| DenotedBy(h, first, last, start, end);
      ScannerComplete(h, first, last);
    }
  }

  lemma ScansTo(first: string, last: string)
    requires AllDigits(first) && AllDigits(last)
    ensures RangeOf(RANGE_UNIT + first + "-" + last) == Numbers(first, last)
  {
    ScannerExact(RANGE_UNIT + first + "-" + last, first, last);
  }

  /** The header a client sends to ask for the bytes from `start` to `end`. */
  function RangeText(start: nat, end: nat): string {
    RANGE_UNIT + Print(start) + "-" + Print(end)
  }

  lemma RangeRoundTrip(start: nat, end: nat)
    requires start <= end <= 0x7fff_ffff
    ensures RangeOf(RangeText(start, end)) == Some((start, end))
  {
    ScansTo(Print(start), Print(end));
    ValueOfPrint(start);
    ValueOfPrint(end);
  }

  // ----- the file name

  /** `find_last_of('/')`. */
  function FindLast(s: string, c: char): (r: Option<nat>)
    ensures r.None? ==> c !in s
    ensures r.Some? ==> r.value < |s| && s[r.value] == c && forall j :: r.value < j < |s| ==> s[j] != c
  {
    if s == "" then None else if s[|s| - 1] == c then Some(|s| - 1) else FindLast(s[..|s| - 1], c)
  }

  /** `find('?')`, from position `i` on. */
  function FindFirst(s: string, c: char, i: nat): (r: Option<nat>)
    requires i <= |s|
    ensures r.Some? ==> i <= r.value < |s| && s[r.value] == c
    ensures forall j :: i <= j < (if r.Some? then r.value else |s|) ==> s[j] != c
    decreases |s| - i
  {
    if i == |s| then None else if s[i] == c then Some(i) else FindFirst(s, c, i + 1)
  }

  /** `extractFilenameFromUrl`. A name is one component of a path: it holds no slash. */
  function ExtractFilename(url: string): (r: Option<string>)
    ensures r.None? <==> '/' !in url
    ensures r.Some? ==> '/' !in r.value
  {
    var slash, question := FindLast(url, '/'), FindFirst(url, '?', 0);
    if slash.None? then None
    else if question.Some? && slash.value < question.value then Some(url[slash.value + 1..question.value])
    else Some(url[slash.value + 1..])
  }

  /** The name is what lies between the last slash and the first question mark, if that comes later. */
  lemma NameCut(before: string, name: string, query: string)
    requires '?' !in before && '/' !in name && '?' !in name && '/' !in query && (query == "" || query[0] == '?')
    ensures ExtractFilename(before + "/" + name + query) == Some(name)
  {
    var url := before + "/" + name + query;
    assert url[|before|] == '/';
    assert forall j :: |before| < j < |url| ==> url[j] == (name + query)[j - |before| - 1];
    assert FindLast(url, '/') == Some(|before|);
    assert forall j :: 0 <= j < |before| ==> url[j] == before[j];
    if query == "" {
      assert FindFirst(url, '?', 0).None?;
      assert url[|before| + 1..] == name;
    } else {
      assert url[|before| + 1 + |name|] == '?';
      assert FindFirst(url, '?', 0) == Some(|before| + 1 + |name|);
      assert url[|before| + 1..|before| + 1 + |name|] == name;
    }
  }

  /** A question mark in front of the last slash cuts nothing, even if there is another one behind it. */
  lemma NameKept(before: string, tail: string)
    requires '?' in before && '/' !in tail
    ensures ExtractFilename(before + "/" + tail) == Some(tail)
  {
    var url := before + "/" + tail;
    assert url[|before|] == '/';
    assert forall j :: |before| < j < |url| ==> url[j] == tail[j - |before| - 1];
    assert FindLast(url, '/') == Some(|before|);
    var q :| 0 <= q < |before| && before[q] == '?';
    assert url[q] == '?';
    assert FindFirst(url, '?', 0).Some? && FindFirst(url, '?', 0).value <= q;
    assert url[|before| + 1..] == tail;
  }

  /** In `startDownload` the file name is never missing: a URL that passes the check has a slash. */
  lemma HttpUrlHasName(url: string)
    requires RequestUrl.IsHttp(url)
    ensures ExtractFilename(url).Some?
  {
    assert url[5] == '/' || url[6] == '/';
  }

  // ----- serving

  /** What the file system holds under a name: nothing, something that does not open, or a file. It is
      opened twice, once for its size and once for its bytes; `reopens` says whether the second succeeds. */
  datatype Entry = Absent | Unopenable | File(content: seq<Byte>, reopens: bool)

  datatype Reason =
    | MissingRange | BadRangeHeader | NoFilename | EmptyFilename | NotFound | CannotOpen | OutOfRange | ReadFailed

  /** `Partial` is status 206 with its `Content-Range` header. */
  datatype Response = Refused(code: nat, reason: Reason) | Partial(contentRange: string, body: seq<Byte>)

  function Lookup(disk: map<string, Entry>, name: string): Entry {
    if name in disk then disk[name] else Absent
  }

  /** `static_cast<int>` of a file position. */
  function ToInt(n: int): int {
    (n + 0x8000_0000) % 0x1_0000_0000 - 0x8000_0000
  }

  function ContentRange(start: nat, end: nat, size: nat): string {
    "bytes " + Print(start) + "-" + Print(end) + "/" + Print(size)
  }

  /** The answer to `GET /fetch_data`: the ladder of `handleGet`, top to bottom. */
  function Fetch(range: Option<string>, requestBody: string, disk: map<string, Entry>): Response {
    if range.None? then Refused(400, MissingRange)
    else if RangeOf(range.value).None? then Refused(400, BadRangeHeader)
    else
      var (start, end) := RangeOf(range.value).value;
      var name := ExtractFilename(requestBody);
      if name.None? then Refused(500, NoFilename)
      else if name.value == "" then Refused(400, EmptyFilename)
      else
        match Lookup(disk, name.value)
        case Absent => Refused(404, NotFound)
        case Unopenable => Refused(500, CannotOpen)
        case File(content, reopens) => Slice(start, end, content, reopens)
  }

  /** The last rungs: the range check against the truncated file size, and the read. */
  function Slice(start: int, end: int, content: seq<Byte>, reopens: bool): Response
    requires 0 <= start
  {
    var size := ToInt(|content|);
    if size <= start || end < start || end == -1 || size <= end then Refused(416, OutOfRange)
    else if !reopens then Refused(500, ReadFailed)
    else Partial(ContentRange(start, end, size), content[start..end + 1])
  }

  /** `readDataFromFile`: a zeroed buffer of the range's length, filled as far as the file reaches; it
      is empty if the file does not open. */
  method ReadDataFromFile(content: seq<Byte>, reopens: bool, start: nat, end: nat) returns (responseData: array<Byte>)
    ensures fresh(responseData)
    ensures responseData.Length == if start <= end && reopens then end - start + 1 else 0
    ensures forall i :: 0 <= i < responseData.Length ==>
              responseData[i] == if start + i < |content| then content[start + i] else 0
  {
    responseData := new Byte[0];
    if start <= end {
      if reopens {
        var rangeLength := end - start + 1;
        responseData := new Byte[rangeLength](_ => 0);
        forall i | 0 <= i < rangeLength && start + i < |content| {
          responseData[i] := content[start + i];
        }
      }
    }
  }

  method HandleFetch(range: Option<string>, requestBody: string, disk: map<string, Entry>) returns (r: Response)
    ensures r == Fetch(range, requestBody, disk)
  {
    if range.None? {
      return Refused(400, MissingRange);
    }
    var ok, start, end := ParseRangeHeader(range.value, 0, -1);
    if !ok {
      return Refused(400, BadRangeHeader);
    }
    var filename := ExtractFilename(requestBody);
    if filename.None? {
      return Refused(500, NoFilename);
    }
    if filename.value == "" {
      return Refused(400, EmptyFilename);
    }
    var entry := Lookup(disk, filename.value);
    if entry.Absent? {
      return Refused(404, NotFound);
    }
    if entry.Unopenable? {
      return Refused(500, CannotOpen);
    }
    var fileSize := ToInt(|entry.content|);
    if start >= fileSize || start > end || end == -1 || end >= fileSize {
      return Refused(416, OutOfRange);
    }
    var buffer := ReadDataFromFile(entry.content, entry.reopens, start, end);
    if buffer.Length == 0 {
      return Refused(500, ReadFailed);
    }
    assert buffer[..] == entry.content[start..end + 1];
    return Partial(ContentRange(start, end, fileSize), buffer[..]);
  }

  /** The request names the file `content` in a way that passes every check of the name. */
  predicate Names(requestBody: string, disk: map<string, Entry>, content: seq<Byte>) {
    var name := ExtractFilename(requestBody);
    name.Some? && name.value != "" && Lookup(disk, name.value) == File(content, true)
  }

  lemma FetchNamed(h: string, requestBody: string, disk: map<string, Entry>, content: seq<Byte>)
    requires Names(requestBody, disk, content)
    ensures Fetch(Some(h), requestBody, disk) ==
            if RangeOf(h).None? then Refused(400, BadRangeHeader)
            else Slice(RangeOf(h).value.0, RangeOf(h).value.1, content, true)
  {
  }

  lemma SliceExact(start: int, end: int, content: seq<Byte>)
    requires 0 <= start
    ensures Slice(start, end, content, true).Partial? <==> start <= end < ToInt(|content|)
    ensures start <= end < ToInt(|content|) ==>
              && end < |content| && 0 <= ToInt(|content|)
              && Slice(start, end, content, true) == Partial(ContentRange(start, end, ToInt(|content|)), content[start..end + 1])
  {
    TruncatedSize(content);
  }

  /** Whatever denotes a range within the file size truncated to `int` is served, and the body is
      exactly the slice asked for. */
  lemma ServedWhenInRange(h: string, requestBody: string, disk: map<string, Entry>, content: seq<Byte>, start: int, end: int)
    requires Names(requestBody, disk, content)
    requires Denotes(h, start, end) && start <= end < ToInt(|content|)
    ensures 0 <= start && end < |content| && 0 <= ToInt(|content|)
    ensures Fetch(Some(h), requestBody, disk)
            == Partial("bytes " + Print(start) + "-" + Print(end) + "/" + Print(ToInt(|content|)), content[start..end + 1])
  {
    FetchNamed(h, requestBody, disk, content);
    ParserExact(h, start, end);
    SliceExact(start, end, content);
  }

  /** Nothing else is served: whoever gets status 206 named a file that opens twice, and a range of it. */
  lemma ServedOnlyInRange(range: Option<string>, requestBody: string, disk: map<string, Entry>)
    returns (content: seq<Byte>, start: int, end: int)
    ensures Fetch(range, requestBody, disk).Partial? ==>
              && range.Some? && Names(requestBody, disk, content)
              && Denotes(range.value, start, end) && start <= end < ToInt(|content|)
  {
    content, start, end := [], 0, 0;
    if Fetch(range, requestBody, disk).Partial? {
      start, end := RangeOf(range.value).value.0, RangeOf(range.value).value.1;
      content := Lookup(disk, ExtractFilename(requestBody).value).content;
      ParserExact(range.value, start, end);
    }
  }

  /** The truncated size is the size exactly for files below 2 GiB; a larger file is served as if
      it were shorter, or not at all. */
  lemma TruncatedSize(content: seq<Byte>)
    ensures ToInt(|content|) == |content| <==> |content| <= 0x7fff_ffff
    ensures ToInt(|content|) <= |content|
    ensures -0x8000_0000 <= ToInt(|content|) <= 0x7fff_ffff && (|content| - ToInt(|content|)) % 0x1_0000_0000 == 0
  {
  }

  // ----- RFC 9110

  /** What section 14.1.2 of RFC 9110 makes of one range of a representation of `size` bytes: `next` is
      the position behind the last byte. */
  datatype Meaning = Invalid | Unsatisfiable | Satisfiable(first: nat, next: nat)

  /** `first-last`, where a last position behind the end means the end; `first-`, the rest; or `-n`, the
      last `n` bytes. Neither number is not a range. */
  function RfcMeaning(first: string, last: string, size: nat): (m: Meaning)
    requires AllDigits(first) && AllDigits(last)
    ensures m.Satisfiable? ==> m.first <= m.next <= size
  {
    if first == "" && last == "" then Invalid
    else if first == "" then
      if Value(last) == 0 then Unsatisfiable
      else Satisfiable(if Value(last) < size then size - Value(last) else 0, size)
    else if last != "" && Value(last) < Value(first) then Invalid
    else if size <= Value(first) then Unsatisfiable
    else Satisfiable(Value(first), if last == "" || size <= Value(last) then size else Value(last) + 1)
  }

  /** An answer that RFC 9110 allows: an invalid range may be rejected in any way (section 14.2), one that
      is not satisfiable gets 416 (section 15.5.17), and any other status 206 with exactly its bytes
      (section 15.3.7). No 206 can say that an empty file has an empty suffix. */
  predicate AnswersRfc(r: Response, m: Meaning, content: seq<Byte>)
    requires m.Satisfiable? ==> m.first <= m.next <= |content|
  {
    match m
    case Invalid => r.Refused?
    case Unsatisfiable => r.Refused? && r.code == 416
    case Satisfiable(first, next) =>
      first < next && r == Partial(ContentRange(first, next - 1, |content|), content[first..next])
  }

  /** When the server does as RFC 9110 says. With both positions: they are reversed, or inside the file, or
      both behind its end and within `int`. Open: behind the end and within `int`. Suffix: never, but for
      the empty suffix of an empty file. */
  predicate Conforms(first: string, last: string, size: nat)
    requires AllDigits(first) && AllDigits(last)
  {
    if first == "" then last == "" || (Value(last) == 0 && size == 0)
    else if last == "" then size <= Value(first) <= INT_MAX
    else Value(last) < Value(first) || Value(last) < size || (size <= Value(first) && Value(last) <= INT_MAX)
  }

  /** The answer to two groups of digits. */
  function Answer(first: string, last: string, content: seq<Byte>): Response
    requires AllDigits(first) && AllDigits(last)
  {
    match Numbers(first, last)
    case None => Refused(400, BadRangeHeader)
    case Some((start, end)) => Slice(start, end, content, true)
  }

  lemma SuffixConforms(last: string, content: seq<Byte>)
    requires AllDigits(last) && |content| <= INT_MAX
    ensures AnswersRfc(Answer("", last, content), RfcMeaning("", last, |content|), content) <==> Conforms("", last, |content|)
  {
    var n, size := Value(last), |content|;
    assert ToInt(size) == size;
    if last != "" && n < size {
      assert Answer("", last, content) == Partial(ContentRange(0, n, size), content[0..n + 1]);
      assert |content[size - n..size]| == n;
    }
  }

  lemma OpenConforms(first: string, content: seq<Byte>)
    requires AllDigits(first) && first != "" && |content| <= INT_MAX
    ensures AnswersRfc(Answer(first, "", content), RfcMeaning(first, "", |content|), content) <==> Conforms(first, "", |content|)
  {
    assert ToInt(|content|) == |content|;
  }

  lemma ClosedConforms(first: string, last: string, content: seq<Byte>)
    requires AllDigits(first) && AllDigits(last) && first != "" && last != "" && |content| <= INT_MAX
    ensures AnswersRfc(Answer(first, last, content), RfcMeaning(first, last, |content|), content)
            <==> Conforms(first, last, |content|)
  {
    assert ToInt(|content|) == |content|;
  }

  /** Exactly when the answer to one range of a file below 2 GiB is the one of RFC 9110. */
  lemma AgreesWithRfc(h: string, first: string, last: string, requestBody: string, disk: map<string, Entry>, content: seq<Byte>)
    requires InGrammar(h, first, last) && Names(requestBody, disk, content) && |content| <= INT_MAX
    ensures AnswersRfc(Fetch(Some(h), requestBody, disk), RfcMeaning(first, last, |content|), content)
            <==> Conforms(first, last, |content|)
  {
    FetchNamed(h, requestBody, disk, content);
    ScannerExact(h, first, last);
    assert Fetch(Some(h), requestBody, disk) == Answer(first, last, content);
    if first == "" {
      SuffixConforms(last, content);
    } else if last == "" {
      OpenConforms(first, content);
    } else {
      ClosedConforms(first, last, content);
    }
  }

  /** So `bytes=-n` asks for the bytes from 0 to n and not for the last n, and an open range is refused. */
  lemma OpenRanges(n: nat, content: seq<Byte>, reopens: bool)
    requires n <= INT_MAX
    ensures RangeOf(RANGE_UNIT + "" + "-" + Print(n)) == Some((0, n))
    ensures RangeOf(RANGE_UNIT + Print(n) + "-" + "") == Some((n, -1))
    ensures Slice(n, -1, content, reopens) == Refused(416, OutOfRange)
  {
    ValueOfPrint(n);
    ScansTo("", Print(n));
    ScansTo(Print(n), "");
  }

  // ----- fetching a file piece by piece

  /** `cuts` partitions the positions below `size` into consecutive non-empty ranges, from `cuts[0]` on. */
  predicate Partition(cuts: seq<nat>, size: nat) {
    && cuts != [] && cuts[|cuts| - 1] == size
    && forall i :: 0 <= i < |cuts| - 1 ==> cuts[i] < cuts[i + 1]
  }

  function Bodies(rs: seq<Response>): seq<Byte> {
    if rs == [] then [] else (if rs[0].Partial? then rs[0].body else []) + Bodies(rs[1..])
  }

  lemma {:induction false} SlicesConcatenate(rs: seq<Response>, cuts: seq<nat>, content: seq<Byte>)
    requires Partition(cuts, |content|) && |rs| == |cuts| - 1
    requires forall i :: 0 <= i < |cuts| ==> cuts[i] <= |content|
    requires forall i :: 0 <= i < |rs| ==> rs[i].Partial? && rs[i].body == content[cuts[i]..cuts[i + 1]]
    ensures Bodies(rs) == content[cuts[0]..]
  {
    if rs != [] {
      SlicesConcatenate(rs[1..], cuts[1..], content);
      assert content[cuts[0]..] == content[cuts[0]..cuts[1]] + content[cuts[1]..];
    }
  }

  /** `r` answers the request for the bytes from `first` up to and not including `next`. */
  predicate Answers(r: Response, first: nat, next: nat, requestBody: string, disk: map<string, Entry>) {
    0 < next && r == Fetch(Some(RangeText(first, next - 1)), requestBody, disk)
  }

  lemma ParsedServed(r: Response, h: string, start: nat, end: nat, requestBody: string, disk: map<string, Entry>, content: seq<Byte>)
    requires Names(requestBody, disk, content) && RangeOf(h) == Some((start, end)) && r == Fetch(Some(h), requestBody, disk)
    requires start <= end < |content| <= INT_MAX
    ensures r.Partial? && r.body == content[start..end + 1]
  {
    FetchNamed(h, requestBody, disk, content);
    SliceExact(start, end, content);
  }

  lemma PieceServed(r: Response, first: nat, next: nat, requestBody: string, disk: map<string, Entry>, content: seq<Byte>)
    requires Names(requestBody, disk, content) && Answers(r, first, next, requestBody, disk)
    requires first < next <= |content| <= INT_MAX
    ensures r.Partial? && r.body == content[first..next]
  {
    RangeRoundTrip(first, next - 1);
    ParsedServed(r, RangeText(first, next - 1), first, next - 1, requestBody, disk, content);
  }

  /** Whatever the partition of a file below 2 GiB, the request for each range is served, and the
      bodies of the responses concatenate to the file. */
  lemma PiecesMakeTheFile(cuts: seq<nat>, rs: seq<Response>, requestBody: string, disk: map<string, Entry>, content: seq<Byte>)
    requires Names(requestBody, disk, content) && |content| <= INT_MAX
    requires Partition(cuts, |content|) && cuts[0] == 0 && |rs| == |cuts| - 1
    requires forall i :: 0 <= i < |rs| ==> Answers(rs[i], cuts[i], cuts[i + 1], requestBody, disk)
    ensures forall i :: 0 <= i < |rs| ==> rs[i].Partial?
    ensures Bodies(rs) == content
  {
    CutsBounded(cuts, |content|);
    forall i | 0 <= i < |rs| ensures rs[i].Partial? && rs[i].body == content[cuts[i]..cuts[i + 1]] {
      PieceServed(rs[i], cuts[i], cuts[i + 1], requestBody, disk, content);
    }
    SlicesConcatenate(rs, cuts, content);
    assert content[0..] == content;
  }

  lemma {:induction false} CutsBounded(cuts: seq<nat>, size: nat)
    requires Partition(cuts, size)
    ensures forall i :: 0 <= i < |cuts| ==> cuts[i] <= size
  {
    if |cuts| >= 2 {
      CutsBounded(cuts[1..], size);
      forall i | 0 <= i < |cuts| ensures cuts[i] <= size {
        if i > 0 {
          assert cuts[1..][i - 1] <= size;
        } else {
          assert cuts[1..][0] <= size;
        }
      }
    }
  }
}
