/** What becomes of the descriptors of RSU connections: exactly which ones the server leaks, and that it
    never touches them again. */
module Descriptors {
  import opened Prelude
  import opened Frame
  import opened Session
  import opened SessionRuns

  /** The connection is open, but it is not the server's current one. */
  predicate Leaked(w: Wire, fd: int) {
    fd in w.open && fd != w.socket
  }

  /** A connection is accepted while `fd` is the current one. */
  predicate Replaces(s: State, step: Step, fd: int) {
    step.AcceptStep? && s.wire.socket == fd != NO_SOCKET
  }

  predicate Mentions(e: Event, fd: int) {
    (e.Opened? || e.Closed? || e.FrameSent? || e.Confirmed?) && e.fd == fd
  }

  /** Nothing was done with `fd` on the way from `w` to `w'`. */
  ghost predicate Untouched(w: Wire, w': Wire, fd: int) {
    && w.trace <= w'.trace
    && forall k :: |w.trace| <= k < |w'.trace| ==> !Mentions(w'.trace[k], fd)
  }

  predicate Owned(w: Wire) {
    Sockets(w, {}) && NO_SOCKET !in w.open
  }

  /** Between two connections the server either keeps its connection or closes it. */
  predicate SameOrClosed(w: Wire, w': Wire) {
    || (w'.socket == w.socket && w'.open == w.open)
    || (w'.socket == NO_SOCKET && w'.open == w.open - {w.socket})
  }

  /** Both at once, for every descriptor that is not the current one. */
  ghost predicate OnlyOwn(w: Wire, w': Wire) {
    SameOrClosed(w, w') && forall fd: int :: fd != w.socket && fd != NO_SOCKET ==> Untouched(w, w', fd)
  }

  lemma CloseOwn(w: Wire)
    ensures OnlyOwn(w, Close(w))
  {
  }

  lemma SendMessageOwn(w: Wire, m: Message, sent: bool, reply: Confirmation)
    ensures OnlyOwn(w, SendMessage(w, m, sent, reply))
  {
  }

  lemma OwnThenOwn(w: Wire, w1: Wire, w2: Wire)
    requires OnlyOwn(w, w1) && OnlyOwn(w1, w2) && NO_SOCKET !in w.open
    ensures OnlyOwn(w, w2)
  {
    forall fd: int | fd != w.socket && fd != NO_SOCKET ensures Untouched(w, w2, fd) {
      assert Untouched(w, w1, fd) && Untouched(w1, w2, fd);
      assert forall k :: 0 <= k < |w1.trace| ==> w2.trace[k] == w1.trace[k];
    }
  }

  lemma HandleClientOwn(s: State, asked: Asked, call: Call)
    ensures OnlyOwn(s.wire, HandleClient(s, asked, call).wire)
  {
    HandleClientWire(s, asked, call);
    CloseOwn(s.wire);
  }

  lemma TransferOwn(s: State, data: seq<Byte>, sent: bool, reply: Confirmation, taken: bool)
    requires NO_SOCKET !in s.wire.open
    ensures OnlyOwn(s.wire, Transfer(s, data, sent, reply, taken).wire)
  {
    var w := SendMessage(s.wire, Message(Data, 0, data), sent, reply);
    SendMessageOwn(s.wire, Message(Data, 0, data), sent, reply);
    OwnThenOwn(s.wire, w, Emit(w, AbortTaken));
  }

  lemma ResultOwn(s: State, id: JobId, m: Message, sent: bool, reply: Confirmation, asked: Asked, call: Call)
    requires NO_SOCKET !in s.wire.open
    ensures OnlyOwn(s.wire, RsuResult(s, id, m, sent, reply, asked, call).wire)
  {
    if !s.control.discard {
      var noted, s1 := Emit(s.wire, ResultAttempt(id)), AfterAttempt(s, id, m, sent, reply);
      SendMessageOwn(noted, m, sent, reply);
      OwnThenOwn(s.wire, noted, s1.wire);
      ResultIs(s, id, m, sent, reply, asked, call);
      var s2 := HandleClient(s1, asked, call);
      HandleClientOwn(s1, asked, call);
      OwnThenOwn(s.wire, s1.wire, s2.wire);
      CloseOwn(s2.wire);
      OwnThenOwn(s.wire, s2.wire, Close(s2.wire));
    }
  }

  /** Every step but an accepted connection touches only the current connection. */
  lemma OwnStep(s: State, step: Step)
    requires NO_SOCKET !in s.wire.open && Possible(s, step) && !step.AcceptStep?
    ensures OnlyOwn(s.wire, Apply(s, step).wire)
  {
    match step
    case WriteStep(id, data, x) => TransferOwn(s, data, x.sent, DataReply(x.reply), x.taken);
    case TerminalStep(id, op, x, request, call) =>
      var status := TerminalStatus(op);
      if status.Some? {
        ResultOwn(s, id, StatusMessage(status.value.0, status.value.1), x.sent, ResultReply(x.reply),
                  Understand(request), call);
      }
    case SndStep(_, _, _) =>
  }

  lemma AcceptStepOwn(s: State, fd: int, asked: Asked, call: Call)
    requires Owned(s.wire) && 0 <= fd && fd !in s.wire.open
    ensures OnlyOwn(Open(s.wire, fd), Accept(s, fd, asked, call).wire)
    ensures forall k: int :: k != fd && k != NO_SOCKET ==> Untouched(s.wire, Accept(s, fd, asked, call).wire, k)
  {
    var accepted := s.(wire := Open(s.wire, fd));
    HandleClientOwn(accepted, asked, call);
    forall k: int | k != fd && k != NO_SOCKET ensures Untouched(s.wire, Accept(s, fd, asked, call).wire, k) {
      assert Untouched(accepted.wire, HandleClient(accepted, asked, call).wire, k);
    }
  }

  /** A step leaks exactly the connection it replaces, and leaves leaked ones alone. */
  lemma LeakStep(s: State, step: Step, fd: int)
    requires Owned(s.wire) && Possible(s, step)
    ensures Owned(Apply(s, step).wire)
    ensures Leaked(Apply(s, step).wire, fd) <==> Leaked(s.wire, fd) || Replaces(s, step, fd)
    ensures Leaked(s.wire, fd) ==> Untouched(s.wire, Apply(s, step).wire, fd)
  {
    SocketsStep(s, step);
    if step.AcceptStep? {
      AcceptStepOwn(s, step.fd, Understand(step.request), step.call);
    } else {
      OwnStep(s, step);
    }
  }

  lemma {:induction false} OwnedRun(ss: seq<State>, steps: seq<Step>)
    requires IsRun(ss, steps)
    ensures Owned(Last(ss).wire)
  {
    if steps != [] {
      RunFront(ss, steps);
      OwnedRun(ss[..|ss| - 1], steps[..|steps| - 1]);
      LeakStep(ss[|ss| - 2], steps[|steps| - 1], NO_SOCKET);
    }
  }

  // ----- main results

  /** A leaked connection stays leaked in every later state of every run: nothing is ever sent to it, and it
      is never closed. */
  lemma {:induction false} LeakedForever(ss: seq<State>, steps: seq<Step>, i: nat, fd: int)
    requires IsRun(ss, steps) && i < |ss| && Leaked(ss[i].wire, fd)
    ensures Leaked(Last(ss).wire, fd) && Untouched(ss[i].wire, Last(ss).wire, fd)
  {
    if i < |ss| - 1 {
      RunFront(ss, steps);
      var front := ss[..|ss| - 1];
      LeakedForever(front, steps[..|steps| - 1], i, fd);
      OwnedRun(front, steps[..|steps| - 1]);
      LeakStep(ss[|ss| - 2], steps[|steps| - 1], fd);
      assert forall k :: 0 <= k < |Last(front).wire.trace| ==> Last(ss).wire.trace[k] == Last(front).wire.trace[k];
    }
  }

  lemma {:induction false} ReplacedIsLeaked(ss: seq<State>, steps: seq<Step>, i: nat, fd: int)
    requires IsRun(ss, steps) && i < |steps| && Replaces(ss[i], steps[i], fd)
    ensures Leaked(Last(ss).wire, fd)
  {
    RunFront(ss, steps);
    var front, before := ss[..|ss| - 1], steps[..|steps| - 1];
    if i < |before| {
      ReplacedIsLeaked(front, before, i, fd);
    }
    OwnedRun(front, before);
    LeakStep(ss[|ss| - 2], steps[|steps| - 1], fd);
  }

  lemma {:induction false} LeakedWasReplaced(ss: seq<State>, steps: seq<Step>, fd: int) returns (i: nat)
    requires IsRun(ss, steps) && Leaked(Last(ss).wire, fd)
    ensures i < |steps| && Replaces(ss[i], steps[i], fd)
  {
    RunFront(ss, steps);
    var front, before := ss[..|ss| - 1], steps[..|steps| - 1];
    OwnedRun(front, before);
    LeakStep(ss[|ss| - 2], steps[|steps| - 1], fd);
    i := |before|;
    if Leaked(Last(front).wire, fd) {
      i := LeakedWasReplaced(front, before, fd);
    }
  }

  /** Exactly which connections are leaked: those that were current when a later one was accepted. */
  lemma LeakedExactly(ss: seq<State>, steps: seq<Step>, fd: int)
    requires IsRun(ss, steps)
    ensures Leaked(Last(ss).wire, fd) <==> exists i :: 0 <= i < |steps| && Replaces(ss[i], steps[i], fd)
  {
    if Leaked(Last(ss).wire, fd) {
      var i := LeakedWasReplaced(ss, steps, fd);
    }
    if i :| 0 <= i < |steps| && Replaces(ss[i], steps[i], fd) {
      ReplacedIsLeaked(ss, steps, i, fd);
    }
  }

  /** How often a connection was accepted while another was current. */
  function Replacements(ss: seq<State>, steps: seq<Step>): nat
    requires |ss| == |steps| + 1
  {
    if steps == [] then 0
    else Replacements(ss[..|ss| - 1], steps[..|steps| - 1])
         + if Replaces(ss[|ss| - 2], steps[|steps| - 1], ss[|ss| - 2].wire.socket) then 1 else 0
  }

  function LeakedSet(w: Wire): set<int> {
    w.open - {w.socket}
  }

  lemma SetOfLeaked(w: Wire, w': Wire, replaced: set<int>)
    requires forall fd: int :: Leaked(w', fd) <==> Leaked(w, fd) || fd in replaced
    ensures LeakedSet(w') == LeakedSet(w) + replaced
  {
    forall fd: int ensures fd in LeakedSet(w') <==> fd in LeakedSet(w) || fd in replaced {
      assert Leaked(w', fd) <==> Leaked(w, fd) || fd in replaced;
    }
  }

  lemma LeakedSetStep(s: State, step: Step, w': Wire)
    requires Owned(s.wire) && Possible(s, step) && w' == Apply(s, step).wire
    ensures LeakedSet(w') == LeakedSet(s.wire) + if Replaces(s, step, s.wire.socket) then {s.wire.socket} else {}
  {
    forall fd: int ensures Leaked(w', fd) <==> Leaked(s.wire, fd) || Replaces(s, step, fd) {
      LeakStep(s, step, fd);
    }
    SetOfLeaked(s.wire, w', if Replaces(s, step, s.wire.socket) then {s.wire.socket} else {});
  }

  /** Descriptors are never regained: every replacement costs one. */
  lemma {:induction false} OneEachTime(ss: seq<State>, steps: seq<Step>)
    requires IsRun(ss, steps)
    ensures |LeakedSet(Last(ss).wire)| == Replacements(ss, steps)
  {
    if steps != [] {
      RunFront(ss, steps);
      var front, before := ss[..|ss| - 1], steps[..|steps| - 1];
      OneEachTime(front, before);
      OwnedRun(front, before);
      LeakedSetStep(ss[|ss| - 2], steps[|steps| - 1], Last(ss).wire);
    }
  }
}
