/** `getSplittedLogs` of src/utils/src/Logger.cpp: a greedy line breaker. Positions refer to one
    fixed message `m`; a piece is named by where it starts. */
module LogSplitter {
  import opened Prelude

  /** `DLT_USER_BUF_MAX_SIZE - 100`. */
  const LIMIT: nat := 1200

  /** The last space among the positions from `k` up to and not including `hi`. */
  function LastSpace(m: string, k: nat, hi: nat): (r: Option<nat>)
    requires k <= hi <= |m|
    ensures r.None? ==> forall j :: k <= j < hi ==> m[j] != ' '
    ensures r.Some? ==> k <= r.value < hi && m[r.value] == ' ' && forall j :: r.value < j < hi ==> m[j] != ' '
  {
    if k == hi then None
    else if m[hi - 1] == ' ' then Some(hi - 1)
    else LastSpace(m, k, hi - 1)
  }

  /** `std::string_view::rfind(' ')`. */
  function RFind(s: string): Option<nat> {
    LastSpace(s, 0, |s|)
  }

  /** Where the piece that starts at `k` ends. */
  function PieceEnd(m: string, k: nat): (e: nat)
    requires k < |m|
    ensures k <= e <= |m| && e - k <= LIMIT
  {
    if |m| - k < LIMIT then |m|
    else
      var space := LastSpace(m, k, k + LIMIT);
      if space.None? then k + LIMIT else space.value
  }

  /** Where the next piece starts: a piece cut at LIMIT bytes drops nothing, any other drops a space. */
  function Next(m: string, k: nat): (n: nat)
    requires k < |m|
    ensures k < n <= |m| && PieceEnd(m, k) <= n
  {
    if |m| - k < LIMIT then |m|
    else if PieceEnd(m, k) == k + LIMIT then k + LIMIT
    else PieceEnd(m, k) + 1
  }

  function SplitFrom(m: string, k: nat): seq<string>
    requires k <= |m|
    decreases |m| - k
  {
    if k == |m| then [] else [m[k..PieceEnd(m, k)]] + SplitFrom(m, Next(m, k))
  }

  function Split(m: string): seq<string> {
    SplitFrom(m, 0)
  }

  lemma LastPiece(m: string, k: nat)
    requires 0 < |m| - k < LIMIT
    ensures SplitFrom(m, k) == [m[k..]]
  {
    assert SplitFrom(m, |m|) == [] && m[k..|m|] == m[k..];
  }

  lemma BlockSearch(m: string, k: nat, block: string)
    requires k + LIMIT <= |m| && block == m[k..k + LIMIT]
    ensures RFind(block).None? ==> LastSpace(m, k, k + LIMIT).None?
    ensures RFind(block).Some? ==> LastSpace(m, k, k + LIMIT) == Some(k + RFind(block).value)
  {
    var found, last := RFind(block), LastSpace(m, k, k + LIMIT);
    if last.Some? {
      assert block[last.value - k] == ' ';
    }
    if found.Some? {
      assert m[k + found.value] == ' ';
    }
  }

  /** One turn of the loop on a full block. */
  lemma Turn(m: string, k: nat, block: string)
    requires k + LIMIT <= |m| && block == m[k..k + LIMIT]
    ensures RFind(block).None? ==> SplitFrom(m, k) == [block] + SplitFrom(m, k + LIMIT)
    ensures RFind(block).Some? ==>
              SplitFrom(m, k) == [block[..RFind(block).value]] + SplitFrom(m, k + RFind(block).value + 1)
  {
    BlockSearch(m, k, block);
    var found := RFind(block);
    if found.None? {
      assert PieceEnd(m, k) == k + LIMIT && Next(m, k) == k + LIMIT;
    } else {
      assert PieceEnd(m, k) == k + found.value && Next(m, k) == k + found.value + 1;
      assert block[..found.value] == m[k..k + found.value];
    }
  }

  /** The pieces collected so far, followed by the split of the rest, are the split of the message. */
  ghost predicate SplitUpTo(m: string, k: nat, pieces: seq<string>) {
    k <= |m| && pieces + SplitFrom(m, k) == Split(m)
  }

  lemma Collect(m: string, k: nat, pieces: seq<string>, piece: string, next: nat)
    requires SplitUpTo(m, k, pieces) && next <= |m| && SplitFrom(m, k) == [piece] + SplitFrom(m, next)
    ensures SplitUpTo(m, next, pieces + [piece])
  {
    assert pieces + [piece] + SplitFrom(m, next) == pieces + SplitFrom(m, k);
  }

  method GetSplittedLogs(logMessage: string) returns (splittedLogs: seq<string>)
    ensures splittedLogs == Split(logMessage)
  {
    var k := 0;
    splittedLogs := [];
    var toProcess := |logMessage|;
    while k < |logMessage|
      invariant k <= |logMessage| && toProcess == |logMessage| - k
      invariant SplitUpTo(logMessage, k, splittedLogs)
    {
      if toProcess < LIMIT {
        LastPiece(logMessage, k);
        splittedLogs := splittedLogs + [logMessage[k..]];
        return;
      }
      var blockCandidate := logMessage[k..k + LIMIT];
      var lastSpace := RFind(blockCandidate);
      Turn(logMessage, k, blockCandidate);
      if lastSpace.None? {
        Collect(logMessage, k, splittedLogs, blockCandidate, k + LIMIT);
        splittedLogs := splittedLogs + [blockCandidate];
        k := k + |blockCandidate|;
      } else {
        Collect(logMessage, k, splittedLogs, blockCandidate[..lastSpace.value], k + lastSpace.value + 1);
        splittedLogs := splittedLogs + [blockCandidate[..lastSpace.value]];
        k := k + lastSpace.value + 1;
      }
      toProcess := |logMessage| - k;
    }
  }

  // ----- what is lost: joining the pieces again

  /** What was dropped after a piece that is not the last: a piece of LIMIT bytes was cut, any
      other ended at a space. */
  function Separator(p: string): string {
    if |p| == 1200 then "" else " "
  }

  function Join(ps: seq<string>): string {
    if ps == [] then ""
    else if |ps| == 1 then ps[0]
    else ps[0] + Separator(ps[0]) + Join(ps[1..])
  }

  lemma JoinCons(p: string, ps: seq<string>)
    ensures Join([p] + ps) == if ps == [] then p else p + Separator(p) + Join(ps)
  {
    assert ([p] + ps)[1..] == ps;
  }

  predicate LastIs1199(ps: seq<string>) {
    ps != [] && |ps[|ps| - 1]| == 1199
  }

  /** The message ends in a space that its split drops after the last piece. */
  predicate DropsLastSpace(m: string, k: nat)
    requires k <= |m|
    decreases |m| - k
  {
    k < |m| && if Next(m, k) == |m| then PieceEnd(m, k) < |m| else DropsLastSpace(m, Next(m, k))
  }

  lemma {:induction false} DropsLastSpaceMeans(m: string, k: nat)
    requires k <= |m| && DropsLastSpace(m, k)
    ensures m[|m| - 1] == ' ' && LastIs1199(SplitFrom(m, k))
    decreases |m| - k
  {
    if Next(m, k) != |m| {
      DropsLastSpaceMeans(m, Next(m, k));
    }
  }

  /** A piece and what separates it from the next one are what the loop passed over. */
  lemma PieceAndSeparator(m: string, k: nat)
    requires k < |m| && Next(m, k) < |m|
    ensures m[k..PieceEnd(m, k)] + Separator(m[k..PieceEnd(m, k)]) == m[k..Next(m, k)]
  {
    var e := PieceEnd(m, k);
    if e < k + LIMIT {
      assert m[k..e + 1] == m[k..e] + [m[e]];
    }
  }

  lemma Adjacent(m: string, k: nat, n: nat, end: nat)
    requires k <= n <= end <= |m|
    ensures m[k..n] + m[n..end] == m[k..end]
  {
  }

  /** Joining the pieces from `k` on gives the rest of the message, but for a dropped last space. */
  lemma {:induction false} JoinFrom(m: string, k: nat)
    requires k <= |m|
    ensures Join(SplitFrom(m, k)) == m[k..if DropsLastSpace(m, k) then |m| - 1 else |m|]
    decreases |m| - k
  {
    if k < |m| {
      var e, n := PieceEnd(m, k), Next(m, k);
      JoinFrom(m, n);
      JoinCons(m[k..e], SplitFrom(m, n));
      if n < |m| {
        PieceAndSeparator(m, k);
        Adjacent(m, k, n, if DropsLastSpace(m, n) then |m| - 1 else |m|);
      }
    }
  }

  /** Rejoining gives the message back, or the message without its last space; a space is lost
      only after a last piece of exactly LIMIT - 1 bytes. */
  lemma JoinOfSplit(m: string)
    ensures Join(Split(m)) == m
         || (m != "" && m[|m| - 1] == ' ' && Join(Split(m)) == m[..|m| - 1] && LastIs1199(Split(m)))
  {
    JoinFrom(m, 0);
    if DropsLastSpace(m, 0) {
      DropsLastSpaceMeans(m, 0);
    }
  }

  lemma {:induction false} PiecesBounded(m: string, k: nat)
    requires k <= |m|
    ensures forall p :: p in SplitFrom(m, k) ==> |p| <= 1200
    decreases |m| - k
  {
    if k < |m| {
      PiecesBounded(m, Next(m, k));
    }
  }

  /** The search for a space looks at nothing behind its range. */
  lemma {:induction false} SearchLocal(m: string, n: string, k: nat, hi: nat)
    requires k <= hi <= |m| && m <= n
    ensures LastSpace(n, k, hi) == LastSpace(m, k, hi)
  {
    if k < hi {
      SearchLocal(m, n, k, hi - 1);
    }
  }

  lemma LastOfCons(piece: string, rest: seq<string>)
    ensures LastIs1199([piece] + rest) <==> if rest == [] then |piece| == 1199 else LastIs1199(rest)
  {
    assert rest != [] ==> ([piece] + rest)[|rest|] == rest[|rest| - 1];
  }

  /** Such a split does not end with a piece that starts here, unless less than a block is left. */
  lemma NotTheLast(m: string, k: nat)
    requires k + LIMIT <= |m| && LastIs1199(SplitFrom(m, k)) && !DropsLastSpace(m, k)
    ensures Next(m, k) < |m| && LastIs1199(SplitFrom(m, Next(m, k))) && !DropsLastSpace(m, Next(m, k))
  {
    LastOfCons(m[k..PieceEnd(m, k)], SplitFrom(m, Next(m, k)));
    assert SplitFrom(m, |m|) == [];
  }

  /** Far enough from the end, a piece does not depend on what is appended. */
  lemma PieceLocal(m: string, n: string, k: nat)
    requires k + LIMIT <= |m| && m <= n
    ensures PieceEnd(n, k) == PieceEnd(m, k) && Next(n, k) == Next(m, k)
    ensures n[k..PieceEnd(m, k)] == m[k..PieceEnd(m, k)]
  {
    SearchLocal(m, n, k, k + LIMIT);
  }

  /** Appending a space to a message whose split loses nothing and ends in a piece of LIMIT - 1
      bytes does not change the split. */
  lemma {:induction false} TrailingSpaceInvisible(m: string, n: string, k: nat)
    requires k <= |m| && n == m + " "
    requires LastIs1199(SplitFrom(m, k)) && !DropsLastSpace(m, k)
    ensures SplitFrom(n, k) == SplitFrom(m, k)
    decreases |m| - k
  {
    if k + LIMIT <= |m| {
      NotTheLast(m, k);
      PieceLocal(m, n, k);
      TrailingSpaceInvisible(m, n, Next(m, k));
    } else {
      SpaceAtTheEnd(m, n, k);
    }
  }

  lemma SpaceAtTheEnd(m: string, n: string, k: nat)
    requires k <= |m| < k + LIMIT && n == m + " " && LastIs1199(SplitFrom(m, k))
    ensures SplitFrom(n, k) == SplitFrom(m, k)
  {
    assert k < |m|;
    LastPiece(m, k);
    assert n[|m|] == ' ';
    assert PieceEnd(n, k) == |m| && Next(n, k) == |n|;
    assert SplitFrom(n, |n|) == [];
    assert n[k..|m|] == m[k..];
  }

  predicate Faithful(m: string) {
    Join(Split(m)) == m
  }

  /** `n` is `m` with one more trailing space, which the split of `n` does not show. */
  predicate HiddenSpace(m: string, n: string) {
    n == m + " " && LastIs1199(Split(m)) && Faithful(m)
  }

  lemma HiddenSpaceIsHidden(m: string, n: string)
    requires HiddenSpace(m, n)
    ensures Split(n) == Split(m)
  {
    JoinFrom(m, 0);
    TrailingSpaceInvisible(m, n, 0);
  }

  /** Exactly which messages share their pieces: equal ones, and those that differ in one trailing
      space after a last piece of LIMIT - 1 bytes. */
  lemma SplitKernel(m: string, n: string)
    ensures Split(m) == Split(n) <==> m == n || HiddenSpace(m, n) || HiddenSpace(n, m)
  {
    if Split(m) == Split(n) && m != n {
      JoinOfSplit(m);
      JoinOfSplit(n);
      var joined := Join(Split(m));
      assert m == joined || m == joined + " ";
      assert n == joined || n == joined + " ";
    } else if HiddenSpace(m, n) {
      HiddenSpaceIsHidden(m, n);
    } else if HiddenSpace(n, m) {
      HiddenSpaceIsHidden(n, m);
    }
  }

  // ----- optimality: greedy stays ahead

  /** A piece of `m` from `k` to `e` that is followed by a dropped space and is shorter than 1200
      bytes, or a cut of a block of 1200 bytes without a space; the next piece starts at `next`. */
  predicate LegalStep(m: string, k: nat, e: nat, next: nat) {
    && k <= e <= next <= |m|
    && ((e - k < 1200 && next == e + 1 && m[e] == ' ')
        || (next == e == k + 1200 && forall j :: k <= j < e ==> m[j] != ' '))
  }

  /** The legal ways to split the message from `k` on; a final piece is shorter than LIMIT. */
  ghost predicate Legal(m: string, k: nat, ps: seq<string>)
    requires k <= |m|
    decreases |ps|
  {
    if ps == [] then k == |m|
    else
      || (0 < |m| - k < 1200 && ps == [m[k..]])
      || exists next: nat :: LegalStep(m, k, k + |ps[0]|, next) && ps[0] == m[k..k + |ps[0]|] && Legal(m, next, ps[1..])
  }

  lemma {:induction false} SplitIsLegal(m: string, k: nat)
    requires k <= |m|
    ensures Legal(m, k, SplitFrom(m, k))
    decreases |m| - k
  {
    if k < |m| {
      var e, next := PieceEnd(m, k), Next(m, k);
      SplitIsLegal(m, next);
      assert SplitFrom(m, k)[1..] == SplitFrom(m, next);
      if |m| - k >= LIMIT {
        assert LegalStep(m, k, e, next);
      } else {
        LastPiece(m, k);
      }
    }
  }

  /** Starting a greedy piece later never lands earlier. */
  lemma StaysAhead(m: string, k: nat, j: nat)
    requires k <= j < |m|
    ensures Next(m, k) <= Next(m, j)
  {
  }

  /** From a later position the loop needs no more pieces. */
  lemma {:induction false} LaterNeedsNoMore(m: string, k: nat, j: nat)
    requires k <= j <= |m|
    ensures |SplitFrom(m, j)| <= |SplitFrom(m, k)|
    decreases |m| - k
  {
    if j < |m| {
      if Next(m, k) <= j {
        LaterNeedsNoMore(m, Next(m, k), j);
      } else {
        StaysAhead(m, k, j);
        LaterNeedsNoMore(m, Next(m, k), Next(m, j));
      }
    }
  }

  /** No legal split of the message uses fewer pieces. */
  lemma {:induction false} GreedyIsOptimal(m: string, k: nat, ps: seq<string>)
    requires k <= |m| && Legal(m, k, ps)
    ensures |SplitFrom(m, k)| <= |ps|
    decreases |ps|
  {
    if ps != [] {
      if 0 < |m| - k < LIMIT && ps == [m[k..]] {
        LastPiece(m, k);
      } else {
        var next: nat :| LegalStep(m, k, k + |ps[0]|, next) && Legal(m, next, ps[1..]);
        assert next <= Next(m, k);
        GreedyIsOptimal(m, next, ps[1..]);
        LaterNeedsNoMore(m, next, Next(m, k));
      }
    }
  }

  /** The pieces are a legal split of the message, and no legal split has fewer. */
  lemma Optimal(m: string, ps: seq<string>)
    ensures Legal(m, 0, Split(m))
    ensures Legal(m, 0, ps) ==> |Split(m)| <= |ps|
  {
    SplitIsLegal(m, 0);
    if Legal(m, 0, ps) {
      GreedyIsOptimal(m, 0, ps);
    }
  }
}
