/** What `handleClient` and `processUrl` of src/gatewayServer/src/Server.cpp read from the text of
    an RSU request: a URL, the keyword and a byte offset. */
module RequestUrl {
  import opened Prelude
  import opened Decimal

  const OFFSET_KEYWORD := "&offset="
  const ULONG_LIMIT: nat := 0x1_0000_0000_0000_0000

  /** `BadOffset` is a request on which `std::stoul` throws. */
  datatype Request = NotHttp | NoOffset | BadOffset(url: string) | Ask(url: string, offset: nat)

  predicate IsHttp(url: string) {
    StartsWith(url, "http://") || StartsWith(url, "https://")
  }

  predicate OccursAt(s: string, key: string, i: nat) {
    i + |key| <= |s| && s[i..i + |key|] == key
  }

  ghost predicate Contains(s: string, key: string) {
    exists i: nat :: OccursAt(s, key, i)
  }

  /** `std::string::find`, from position `i` on. */
  function Find(s: string, key: string, i: nat): (r: Option<nat>)
    ensures r.None? ==> forall j: nat :: i <= j ==> !OccursAt(s, key, j)
    ensures r.Some? ==> i <= r.value && OccursAt(s, key, r.value)
    ensures r.Some? ==> forall j: nat :: i <= j < r.value ==> !OccursAt(s, key, j)
    decreases |s| - i
  {
    if i + |key| > |s| then None
    else if OccursAt(s, key, i) then Some(i)
    else Find(s, key, i + 1)
  }

  predicate IsSpace(c: char) {
    c == ' ' || 9 as char <= c <= 13 as char
  }

  function SkipSpace(s: string): string {
    if s != "" && IsSpace(s[0]) then SkipSpace(s[1..]) else s
  }

  /** `std::stoul` in base 10 with a 64-bit `unsigned long`; `None` when it throws. Text behind the
      digits is ignored, and a minus sign negates modulo 2^64. */
  function Stoul(s: string): (r: Option<nat>)
    ensures r.Some? ==> r.value < ULONG_LIMIT
  {
    var t := SkipSpace(s);
    var signed := t != "" && (t[0] == '-' || t[0] == '+');
    var digits := LeadingDigits(if signed then t[1..] else t);
    if digits == "" || Value(digits) >= ULONG_LIMIT then None
    else if signed && t[0] == '-' && Value(digits) != 0 then Some(ULONG_LIMIT - Value(digits))
    else Some(Value(digits))
  }

  function ParseRequest(text: string): Request {
    if !IsHttp(text) then NotHttp
    else
      match Find(text, OFFSET_KEYWORD, 0)
      case None => NoOffset
      case Some(p) =>
        match Stoul(text[p + |OFFSET_KEYWORD|..])
        case None => BadOffset(text[..p])
        case Some(n) => Ask(text[..p], n)
  }

  /** The text a client sends to ask for `url` from byte `offset` on. */
  function RequestText(url: string, offset: nat): string {
    url + OFFSET_KEYWORD + Print(offset)
  }

  /** The keyword has no border: behind a text without the keyword, its first occurrence in
      `u + keyword + rest` is right after `u`. */
  lemma FirstOccurrence(u: string, rest: string)
    requires !Contains(u, OFFSET_KEYWORD)
    ensures Find(u + OFFSET_KEYWORD + rest, OFFSET_KEYWORD, 0) == Some(|u|)
  {
    var s, key := u + OFFSET_KEYWORD + rest, OFFSET_KEYWORD;
    assert s[|u|..|u| + |key|] == key;
    assert OccursAt(s, key, |u|);
    forall i: nat | i < |u| ensures !OccursAt(s, key, i) {
      if i + |key| <= |u| {
        assert u[i..i + |key|] == s[i..i + |key|];
        assert !OccursAt(u, key, i);
      } else {
        Mismatch(s, key, i, |u| - i);
      }
    }
  }

  lemma Mismatch(s: string, key: string, i: nat, d: nat)
    requires d < |key| && i + d < |s| && s[i + d] != key[d]
    ensures !OccursAt(s, key, i)
  {
    if i + |key| <= |s| {
      assert s[i..i + |key|][d] == s[i + d];
    }
  }

  lemma NothingToSkip(s: string)
    requires AllDigits(s) && s != ""
    ensures SkipSpace(s) == s && s[0] != '-' && s[0] != '+'
  {
    assert IsDigit(s[0]);
  }

  lemma StoulOfPrint(n: nat)
    requires n < ULONG_LIMIT
    ensures Stoul(Print(n)) == Some(n)
  {
    NothingToSkip(Print(n));
    LeadingDigitsOf(Print(n), "");
    assert Print(n) + "" == Print(n);
    ValueOfPrint(n);
  }

  /** The server reads back exactly the URL and the offset that the client wrote. */
  lemma RequestRoundTrip(url: string, offset: nat)
    requires IsHttp(url) && !Contains(url, OFFSET_KEYWORD) && offset < ULONG_LIMIT
    ensures ParseRequest(RequestText(url, offset)) == Ask(url, offset)
  {
    var text := RequestText(url, offset);
    FirstOccurrence(url, Print(offset));
    assert text[..|url|] == url && text[|url| + |OFFSET_KEYWORD|..] == Print(offset);
    StoulOfPrint(offset);
  }

  /** Whatever the server accepts was split at the first keyword. */
  lemma AcceptedRequest(text: string)
    requires ParseRequest(text).Ask?
    ensures var Ask(url, offset) := ParseRequest(text);
            && !Contains(url, OFFSET_KEYWORD)
            && exists rest :: text == url + OFFSET_KEYWORD + rest && Stoul(rest) == Some(offset)
  {
    var p := Find(text, OFFSET_KEYWORD, 0).value;
    SplitAtOccurrence(text, OFFSET_KEYWORD, p);
    assert Stoul(text[p + |OFFSET_KEYWORD|..]) == Some(ParseRequest(text).offset);
    if i: nat :| OccursAt(text[..p], OFFSET_KEYWORD, i) {
      OccursInPrefix(text, OFFSET_KEYWORD, p, i);
    }
  }

  lemma SplitAtOccurrence(s: string, key: string, p: nat)
    requires OccursAt(s, key, p)
    ensures s == s[..p] + key + s[p + |key|..]
  {
  }

  lemma OccursInPrefix(s: string, key: string, p: nat, i: nat)
    requires p <= |s| && OccursAt(s[..p], key, i)
    ensures OccursAt(s, key, i)
  {
    assert s[..p][i..i + |key|] == s[i..i + |key|];
  }

  // ----- what is accepted, character by character

  /** The URLs that are served: one of two schemes, and anything behind it. */
  lemma IsHttpExactly(url: string)
    ensures IsHttp(url) <==> (exists rest :: url == "http://" + rest) || (exists rest :: url == "https://" + rest)
  {
    if StartsWith(url, "http://") {
      assert url == "http://" + url[7..];
    }
    if StartsWith(url, "https://") {
      assert url == "https://" + url[8..];
    }
  }

  /** The characters that `isspace` accepts in the "C" locale: space, and 9 to 13. */
  predicate Blank(s: string) {
    forall i :: 0 <= i < |s| ==> 9 <= s[i] as int <= 13 || s[i] as int == 32
  }

  /** How `std::stoul` takes a text apart: white space, a sign or none, digits, and what follows them. */
  predicate Parts(space: string, sign: string, digits: string, tail: string) {
    && Blank(space) && (sign == "" || sign == "+" || sign == "-") && AllDigits(digits)
    && (tail == "" || !IsDigit(tail[0]))
    && (sign == "" && digits == "" && tail != "" ==> !Blank(tail[..1]) && tail[0] != '+' && tail[0] != '-')
  }

  lemma Regroup(a: string, b: string, c: string, d: string)
    ensures a + b + c + d == a + (b + (c + d))
  {
  }

  lemma SignAndDigits(t: string) returns (sign: string, digits: string, tail: string)
    requires t != "" ==> !Blank(t[..1])
    ensures t == sign + (digits + tail) && Parts("", sign, digits, tail)
  {
    var signed := t != "" && (t[0] == '-' || t[0] == '+');
    sign := if signed then t[..1] else "";
    var u := if signed then t[1..] else t;
    digits := LeadingDigits(u);
    tail := u[|digits|..];
    assert t == sign + u && u == digits + tail;
  }

  /** Every text can be taken apart so. */
  lemma PartsOf(s: string) returns (space: string, sign: string, digits: string, tail: string)
    ensures s == space + sign + digits + tail && Parts(space, sign, digits, tail)
  {
    var t;
    space, t := BlankPrefix(s);
    sign, digits, tail := SignAndDigits(t);
    Regroup(space, sign, digits, tail);
  }

  lemma {:induction false} BlankPrefix(s: string) returns (space: string, t: string)
    ensures s == space + t && Blank(space) && (t != "" ==> !Blank(t[..1]))
  {
    space, t := "", s;
    if s != "" && Blank(s[..1]) {
      var rest;
      rest, t := BlankPrefix(s[1..]);
      space := s[..1] + rest;
      assert s == s[..1] + s[1..];
    }
  }

  lemma {:induction false} SkipsBlank(space: string, t: string)
    requires Blank(space) && (t != "" ==> !Blank(t[..1]))
    ensures SkipSpace(space + t) == t
  {
    if space == "" {
      assert space + t == t;
      assert t != "" ==> t[..1][0] == t[0];
    } else {
      assert (space + t)[1..] == space[1..] + t;
      SkipsBlank(space[1..], t);
    }
  }

  /** The number that the parts denote: a minus sign negates modulo 2^64. */
  function NumberOf(sign: string, digits: string): nat
    requires AllDigits(digits) && Value(digits) < 0x1_0000_0000_0000_0000
  {
    if sign == "-" && Value(digits) != 0 then 0x1_0000_0000_0000_0000 - Value(digits) else Value(digits)
  }

  lemma StoulUnsigned(digits: string, tail: string)
    requires Parts("", "", digits, tail)
    ensures Stoul(digits + tail) == if digits == "" || Value(digits) >= 0x1_0000_0000_0000_0000 then None else Some(Value(digits))
  {
    var t := digits + tail;
    if digits != "" {
      assert t[0] == digits[0] && IsDigit(t[0]);
    } else {
      assert t == tail;
    }
    SkipsNothing(t);
    LeadingDigitsOf(digits, tail);
  }

  lemma SkipsNothing(t: string)
    requires t != "" ==> !Blank(t[..1])
    ensures SkipSpace(t) == t
  {
    assert t != "" ==> t[..1][0] == t[0];
  }

  lemma StoulSigned(sign: string, digits: string, tail: string)
    requires Parts("", sign, digits, tail) && sign != ""
    ensures Stoul(sign + (digits + tail))
            == if digits == "" || Value(digits) >= 0x1_0000_0000_0000_0000 then None else Some(NumberOf(sign, digits))
  {
    var t := sign + (digits + tail);
    assert t[0] == sign[0] && t[1..] == digits + tail;
    SkipsNothing(t);
    LeadingDigitsOf(digits, tail);
  }

  /** White space in front of a text that has none makes no difference. */
  lemma StoulSkips(space: string, t: string)
    requires Blank(space) && (t != "" ==> !Blank(t[..1]))
    ensures Stoul(space + t) == Stoul(t)
  {
    SkipsBlank(space, t);
    SkipsNothing(t);
  }

  lemma StoulOfParts(space: string, sign: string, digits: string, tail: string)
    requires Parts(space, sign, digits, tail)
    ensures Stoul(space + sign + digits + tail)
            == if digits == "" || Value(digits) >= 0x1_0000_0000_0000_0000 then None else Some(NumberOf(sign, digits))
  {
    Regroup(space, sign, digits, tail);
    if sign == "" {
      assert sign + (digits + tail) == digits + tail;
      StoulUnsigned(digits, tail);
    } else {
      StoulSigned(sign, digits, tail);
    }
    NoBlankFirst(sign, digits, tail);
    StoulSkips(space, sign + (digits + tail));
  }

  lemma NoBlankFirst(sign: string, digits: string, tail: string)
    requires Parts("", sign, digits, tail)
    ensures var t := sign + (digits + tail); t != "" ==> !Blank(t[..1])
  {
    var t := sign + (digits + tail);
    if t != "" {
      assert t[..1][0] == t[0];
      assert t[0] == if sign != "" then sign[0] else if digits != "" then digits[0] else tail[0];
      assert digits != "" ==> IsDigit(digits[0]);
      assert tail != "" ==> tail[..1][0] == tail[0];
    }
  }

  /** The request of a client that writes the offset in any way the library reads: the URL is the one
      before the first keyword, and the offset is the number; without digits, or from 2^64 on, it throws. */
  lemma RequestReads(url: string, space: string, sign: string, digits: string, tail: string)
    requires (exists rest :: url == "http://" + rest) || (exists rest :: url == "https://" + rest)
    requires !Contains(url, "&offset=") && Parts(space, sign, digits, tail)
    ensures ParseRequest(url + "&offset=" + (space + sign + digits + tail))
            == if digits == "" || Value(digits) >= 0x1_0000_0000_0000_0000 then BadOffset(url)
               else Ask(url, NumberOf(sign, digits))
  {
    var rest := space + sign + digits + tail;
    var text := url + "&offset=" + rest;
    IsHttpExactly(url);
    IsHttpExactly(text);
    SchemeStays(url, "&offset=" + rest);
    assert text == url + ("&offset=" + rest);
    FirstOccurrence(url, rest);
    assert text[..|url|] == url && text[|url| + 8..] == rest;
    StoulOfParts(space, sign, digits, tail);
  }

  lemma SchemeStays(url: string, more: string)
    requires IsHttp(url)
    ensures IsHttp(url + more)
  {
  }

  /** In the plain case: digits right behind the keyword, and anything that does not go on with a digit. */
  lemma PlainRequest(url: string, digits: string, tail: string)
    requires (exists rest :: url == "http://" + rest) || (exists rest :: url == "https://" + rest)
    requires !Contains(url, "&offset=") && AllDigits(digits) && digits != "" && Value(digits) < 0x1_0000_0000_0000_0000
    requires tail == "" || !IsDigit(tail[0])
    ensures ParseRequest(url + "&offset=" + (digits + tail)) == Ask(url, Value(digits))
  {
    RequestReads(url, "", "", digits, tail);
    NothingInFront(digits, tail);
  }

  lemma NothingInFront(digits: string, tail: string)
    ensures "" + "" + digits + tail == digits + tail
  {
  }

  /** The server throws on exactly those requests whose offset has no digits or is 2^64 or more. */
  lemma ThrowsExactly(url: string, offset: string)
    requires (exists rest :: url == "http://" + rest) || (exists rest :: url == "https://" + rest)
    requires !Contains(url, "&offset=")
    ensures ParseRequest(url + "&offset=" + offset).BadOffset? <==>
              forall space, sign, digits, tail :: Parts(space, sign, digits, tail) && offset == space + sign + digits + tail ==>
                digits == "" || Value(digits) >= 0x1_0000_0000_0000_0000
  {
    var space, sign, digits, tail := PartsOf(offset);
    RequestReads(url, space, sign, digits, tail);
    if digits == "" || Value(digits) >= 0x1_0000_0000_0000_0000 {
      forall a, b, c, d | Parts(a, b, c, d) && offset == a + b + c + d
        ensures c == "" || Value(c) >= 0x1_0000_0000_0000_0000
      {
        RequestReads(url, a, b, c, d);
      }
    }
  }
}
