/** Stop-and-wait when writes are not one step: exactly when two frames can be under way on one socket. */
module Pacing {
  import opened Prelude
  import opened Frame
  import opened Session
  import opened SessionRuns
  import opened Descriptors
  import opened Interleaving
  import Witnesses

  // ----- traces

  /** Between positions `i` and `j`, a frame on `fd` was confirmed, or `fd` was closed. */
  ghost predicate SettledBetween(trace: seq<Event>, fd: int, i: int, j: int)
    requires 0 <= i < j < |trace|
  {
    exists k :: i < k < j && (trace[k] == Confirmed(fd) || trace[k] == Closed(fd))
  }

  /** Of any two frames on one socket, the first was settled before the second went out. */
  ghost predicate StopsAndWaits(trace: seq<Event>) {
    forall i, j :: 0 <= i < j < |trace| && trace[i].FrameSent? && trace[j].FrameSent? && trace[i].fd == trace[j].fd ==>
      SettledBetween(trace, trace[i].fd, i, j)
  }

  /** The same, event by event. */
  predicate Paced(trace: seq<Event>) {
    trace == []
    || (var front, e := trace[..|trace| - 1], trace[|trace| - 1];
        Paced(front) && (e.FrameSent? ==> e.fd !in Watch(front).awaiting))
  }

  lemma AppendPaced(trace: seq<Event>, e: Event)
    ensures Watch(trace + [e]) == Observe(Watch(trace), e)
    ensures Paced(trace + [e]) <==> Paced(trace) && (e.FrameSent? ==> e.fd !in Watch(trace).awaiting)
  {
    assert (trace + [e])[..|trace|] == trace;
  }

  lemma {:induction false} PacedAt(trace: seq<Event>, j: nat)
    requires Paced(trace) && j < |trace| && trace[j].FrameSent?
    ensures trace[j].fd !in Watch(trace[..j]).awaiting
  {
    if j < |trace| - 1 {
      PacedAt(trace[..|trace| - 1], j);
      assert trace[..|trace| - 1][..j] == trace[..j];
    }
  }

  lemma {:induction false} AwaitingFrom(trace: seq<Event>, fd: int) returns (i: nat)
    requires fd in Watch(trace).awaiting
    ensures i < |trace| && trace[i].FrameSent? && trace[i].fd == fd
    ensures forall k :: i < k < |trace| ==> trace[k] != Confirmed(fd) && trace[k] != Closed(fd)
  {
    var e := trace[|trace| - 1];
    i := |trace| - 1;
    if !(e.FrameSent? && e.fd == fd) {
      i := AwaitingFrom(trace[..|trace| - 1], fd);
    }
  }

  lemma {:induction false} NotPaced(trace: seq<Event>) returns (i: nat, j: nat)
    requires !Paced(trace)
    ensures i < j < |trace| && trace[i].FrameSent? && trace[j].FrameSent? && trace[i].fd == trace[j].fd
    ensures !SettledBetween(trace, trace[i].fd, i, j)
  {
    var front, e := trace[..|trace| - 1], trace[|trace| - 1];
    if Paced(front) {
      j := |trace| - 1;
      i := AwaitingFrom(front, e.fd);
    } else {
      i, j := NotPaced(front);
      assert forall k :: i < k < j ==> trace[k] == front[k];
      assert forall k :: i < k < j ==> front[k] != Confirmed(front[i].fd) && front[k] != Closed(front[i].fd);
    }
  }

  lemma PacedExactly(trace: seq<Event>)
    ensures Paced(trace) <==> StopsAndWaits(trace)
  {
    if Paced(trace) {
      forall i, j | 0 <= i < j < |trace| && trace[i].FrameSent? && trace[j].FrameSent? && trace[i].fd == trace[j].fd
        ensures SettledBetween(trace, trace[i].fd, i, j)
      {
        PacedAt(trace, j);
        if !SettledBetween(trace, trace[i].fd, i, j) {
          AwaitingSince(trace[..j], trace[i].fd, i);
        }
      }
    } else {
      var i, j := NotPaced(trace);
    }
  }

  // ----- what a step sends and settles

  function Awaiting(w: Wire): set<int> {
    Watch(w.trace).awaiting
  }

  /** From `w` to `w'` only the current socket is dealt with; a frame went out on it exactly if `sends`, and
      whatever was under way there was settled, unless nothing was sent and the connection stayed. */
  ghost predicate Deals(w: Wire, w': Wire, sends: bool) {
    && SameOrClosed(w, w')
    && (Paced(w'.trace) <==> Paced(w.trace) && (sends ==> w.socket !in Awaiting(w)))
    && Awaiting(w') <= Awaiting(w)
    && (w'.open != w.open ==> w.socket !in Awaiting(w'))
    && (!sends && w'.socket == w.socket ==> Awaiting(w') == Awaiting(w))
  }

  lemma CloseDeals(w: Wire)
    ensures Deals(w, Close(w), false)
  {
    AppendPaced(w.trace, Closed(w.socket));
  }

  lemma NoteDeals(w: Wire, e: Event)
    requires e.AbortTaken? || e.ResultAttempt?
    ensures Deals(w, Emit(w, e), false) && Awaiting(Emit(w, e)) == Awaiting(w)
  {
    AppendPaced(w.trace, e);
  }

  lemma SendMessageDeals(w: Wire, m: Message, sent: bool, reply: Confirmation)
    ensures Deals(w, SendMessage(w, m, sent, reply), 0 <= w.socket && sent)
  {
    if 0 <= w.socket {
      var w1 := Emit(w, FrameSent(w.socket, m));
      var w2 := Emit(w1, Confirmed(w.socket));
      AppendPaced(w.trace, FrameSent(w.socket, m));
      AppendPaced(w1.trace, Confirmed(w.socket));
      AppendPaced(w.trace, Closed(w.socket));
      AppendPaced(w1.trace, Closed(w.socket));
      AppendPaced(w2.trace, Closed(w.socket));
    }
  }

  lemma DealsThen(w: Wire, w1: Wire, w2: Wire, sends: bool)
    requires Deals(w, w1, sends) && Deals(w1, w2, false) && NO_SOCKET !in w.open
    requires Awaiting(w) <= w.open
    ensures Deals(w, w2, sends)
  {
  }

  lemma NoteThen(w: Wire, e: Event, w': Wire, sends: bool)
    requires (e.AbortTaken? || e.ResultAttempt?) && Deals(Emit(w, e), w', sends)
    ensures Deals(w, w', sends)
  {
    NoteDeals(w, e);
  }

  predicate Settled(w: Wire) {
    Current(w) && Awaiting(w) <= w.open
  }

  /** The step sends a frame on the current socket. */
  predicate Sends(s: State, step: Step) {
    && 0 <= s.wire.socket
    && match step
       case WriteStep(_, data, x) => data != [] && !s.control.abortHandle && x.sent
       case TerminalStep(_, _, x, _, _) => IsResult(s, step) && !s.control.discard && x.sent
       case _ => false
  }

  lemma HandleClientDeals(s: State, asked: Asked, call: Call)
    ensures Deals(s.wire, HandleClient(s, asked, call).wire, false)
  {
    HandleClientWire(s, asked, call);
    CloseDeals(s.wire);
  }

  lemma NotedDeals(w: Wire, w1: Wire, w2: Wire, sends: bool)
    requires Deals(w, w1, sends) && NO_SOCKET !in w.open && Awaiting(w) <= w.open
    requires w2 == w1 || w2 == Emit(w1, AbortTaken)
    ensures Deals(w, w2, sends)
  {
    NoteDeals(w1, AbortTaken);
    if w2 != w1 {
      DealsThen(w, w1, w2, sends);
    }
  }

  lemma NextDownloadDeals(s: State, asked: Asked, call: Call)
    requires NO_SOCKET !in s.wire.open && Awaiting(s.wire) <= s.wire.open
    ensures Deals(s.wire, NextDownload(s, asked, call).wire, false)
  {
    HandleClientDeals(s, asked, call);
    var s1 := HandleClient(s, asked, call);
    CloseDeals(s1.wire);
    DealsThen(s.wire, s1.wire, Close(s1.wire), false);
  }

  lemma ResultDeals(s: State, id: JobId, m: Message, sent: bool, reply: Confirmation, asked: Asked, call: Call)
    requires Settled(s.wire)
    ensures Deals(s.wire, RsuResult(s, id, m, sent, reply, asked, call).wire, !s.control.discard && 0 <= s.wire.socket && sent)
  {
    if !s.control.discard {
      var s1, sends := AfterAttempt(s, id, m, sent, reply), 0 <= s.wire.socket && sent;
      SendMessageDeals(Emit(s.wire, ResultAttempt(id)), m, sent, reply);
      NoteThen(s.wire, ResultAttempt(id), s1.wire, sends);
      ResultIs(s, id, m, sent, reply, asked, call);
      NextDownloadDeals(s1, asked, call);
      DealsThen(s.wire, s1.wire, NextDownload(s1, asked, call).wire, sends);
    }
  }

  lemma WriteWireIs(s: State, id: JobId, data: seq<Byte>, x: Exchange)
    ensures var w, w' := SendMessage(s.wire, Message(Data, 0, data), x.sent, DataReply(x.reply)), Write(s, id, data, x).wire;
            if data == [] || s.control.abortHandle then w' == s.wire else w' == w || w' == Emit(w, AbortTaken)
  {
  }

  lemma WriteDeals(s: State, id: JobId, data: seq<Byte>, x: Exchange)
    requires Settled(s.wire)
    ensures Deals(s.wire, Write(s, id, data, x).wire,
                  0 <= s.wire.socket && data != [] && !s.control.abortHandle && x.sent)
  {
    WriteWireIs(s, id, data, x);
    if data != [] && !s.control.abortHandle {
      var w := SendMessage(s.wire, Message(Data, 0, data), x.sent, DataReply(x.reply));
      SendMessageDeals(s.wire, Message(Data, 0, data), x.sent, DataReply(x.reply));
      NotedDeals(s.wire, w, Write(s, id, data, x).wire, 0 <= s.wire.socket && x.sent);
    }
  }

  lemma TerminalDeals(s: State, id: JobId, op: OperationState, x: Exchange, asked: Asked, call: Call)
    requires Settled(s.wire)
    ensures Deals(s.wire, Terminal(s, id, op, x, asked, call).wire,
                  TerminalStatus(op).Some? && id in s.control.clientOf && s.control.clientOf[id] == RSU
                  && !s.control.discard && 0 <= s.wire.socket && x.sent)
  {
    var status := TerminalStatus(op);
    if status.Some? {
      ResultDeals(s, id, StatusMessage(status.value.0, status.value.1), x.sent, ResultReply(x.reply), asked, call);
    }
  }

  lemma StepDeals(s: State, step: Step)
    requires Settled(s.wire) && Possible(s, step) && !step.AcceptStep?
    ensures Deals(s.wire, Apply(s, step).wire, Sends(s, step))
  {
    match step
    case WriteStep(id, data, x) => WriteDeals(s, id, data, x);
    case TerminalStep(id, op, x, request, call) => TerminalDeals(s, id, op, x, Understand(request), call);
    case SndStep(_, _, _) =>
  }

  /** An accepted connection has nothing under way, and changes nothing for the others. */
  lemma AcceptDeals(s: State, step: Step)
    requires Settled(s.wire) && Possible(s, step) && step.AcceptStep?
    ensures var w' := Apply(s, step).wire;
            && (Paced(w'.trace) <==> Paced(s.wire.trace)) && Awaiting(w') == Awaiting(s.wire) && step.fd !in Awaiting(w')
            && (w'.socket == step.fd || w'.socket == NO_SOCKET) && s.wire.open <= w'.open
  {
    AppendPaced(s.wire.trace, Opened(step.fd));
    HandleClientWire(s.(wire := Open(s.wire, step.fd)), Understand(step.request), step.call);
    AppendPaced(Open(s.wire, step.fd).trace, Closed(step.fd));
  }

  // ----- runs of split writes

  /** Only the frame of a waiting write can be under way on the current socket. */
  predicate OnlyWaiting(t: Threads) {
    && Settled(t.s.wire)
    && (t.s.wire.socket in Awaiting(t.s.wire) ==> t.waiting.Some? && t.waiting.value.fd == t.s.wire.socket)
  }

  /** The two halves of a write, and what they do to the frames under way. */
  lemma SendHalfDeals(t: Threads, id: JobId, data: seq<Byte>)
    requires OnlyWaiting(t) && Enabled(t, SendHalf(id, data))
    ensures var t' := Take(t, SendHalf(id, data));
            && (Paced(t'.s.wire.trace) <==> Paced(t.s.wire.trace)) && OnlyWaiting(t')
            && t'.s.wire.socket in Awaiting(t'.s.wire)
  {
    AppendPaced(t.s.wire.trace, FrameSent(t.s.wire.socket, Message(Data, 0, data)));
  }

  lemma ConfirmDeals(w: Wire, fd: int)
    ensures Awaiting(Emit(w, Confirmed(fd))) == Awaiting(w) - {fd}
    ensures Paced(Emit(w, Confirmed(fd)).trace) <==> Paced(w.trace)
  {
    AppendPaced(w.trace, Confirmed(fd));
  }

  lemma AfterWaitWire(s: State, w: Waiting, reply: Recv, taken: bool)
    ensures var w', c, confirmed := AfterWait(s, w, reply, taken).wire, DataReply(reply), Emit(s.wire, Confirmed(w.fd));
            && (c.Lost? ==> w' == Close(s.wire))
            && (c.Garbage? ==> w' == Close(confirmed))
            && (!c.Lost? && !c.Garbage? ==> w' == confirmed || w' == Emit(confirmed, AbortTaken))
  {
  }

  lemma AwaitHalfDeals(t: Threads, reply: Recv, taken: bool)
    requires OnlyWaiting(t) && Enabled(t, AwaitHalf(reply, taken))
    ensures var t' := Take(t, AwaitHalf(reply, taken));
            (Paced(t'.s.wire.trace) <==> Paced(t.s.wire.trace)) && OnlyWaiting(t')
  {
    CurrentStep(t, AwaitHalf(reply, taken));
    var w, confirmed := t.s.wire, Emit(t.s.wire, Confirmed(t.waiting.value.fd));
    AfterWaitWire(t.s, t.waiting.value, reply, taken);
    ConfirmDeals(w, t.waiting.value.fd);
    CloseDeals(w);
    CloseDeals(confirmed);
    NoteDeals(confirmed, AbortTaken);
  }

  /** One step keeps frames paced exactly if it is not one that sends on a socket with a frame under way. */
  lemma PacedStep(t: Threads, step: SplitStep)
    requires OnlyWaiting(t) && Enabled(t, step)
    ensures OnlyWaiting(Take(t, step))
    ensures Paced(Take(t, step).s.wire.trace) <==>
              Paced(t.s.wire.trace) && !(step.Whole? && Sends(t.s, step.step) && t.s.wire.socket in Awaiting(t.s.wire))
  {
    CurrentStep(t, step);
    match step
    case Whole(step) =>
      if step.AcceptStep? {
        AcceptDeals(t.s, step);
      } else {
        StepDeals(t.s, step);
      }
    case SendHalf(id, data) => SendHalfDeals(t, id, data);
    case AwaitHalf(reply, taken) => AwaitHalfDeals(t, reply, taken);
  }

  lemma {:induction false} OnlyWaitingInRun(ts: seq<Threads>, steps: seq<SplitStep>, i: nat)
    requires IsSplitRun(ts, steps) && i < |ts|
    ensures OnlyWaiting(ts[i])
  {
    if i != 0 {
      OnlyWaitingInRun(ts, steps, i - 1);
      PacedStep(ts[i - 1], steps[i - 1]);
    }
  }

  lemma PacedNext(ts: seq<Threads>, steps: seq<SplitStep>, i: nat)
    requires IsSplitRun(ts, steps) && i < |steps|
    ensures OnlyWaiting(ts[i]) && Enabled(ts[i], steps[i]) && ts[i + 1] == Take(ts[i], steps[i])
    ensures Paced(ts[i + 1].s.wire.trace) <==>
              Paced(ts[i].s.wire.trace)
              && !(steps[i].Whole? && Sends(ts[i].s, steps[i].step) && ts[i].s.wire.socket in Awaiting(ts[i].s.wire))
  {
    OnlyWaitingInRun(ts, steps, i);
    PacedStep(ts[i], steps[i]);
  }

  /** The write that waits in state `i` has sent its frame in step `j`, and its connection has been the
      current one ever since. */
  ghost predicate WaitsOnCurrent(ts: seq<Threads>, steps: seq<SplitStep>, j: nat, i: nat)
    requires |ts| == |steps| + 1
  {
    && j < i < |ts| && steps[j].SendHalf? && ts[i].waiting.Some?
    && forall k :: j < k <= i ==> ts[k].waiting == ts[i].waiting && ts[k].s.wire.socket == ts[i].waiting.value.fd
  }

  /** During the wait of a write, step `i` sends another frame on its connection. */
  ghost predicate SendsMeanwhile(ts: seq<Threads>, steps: seq<SplitStep>, i: nat)
    requires |ts| == |steps| + 1
  {
    i < |steps| && steps[i].Whole? && Sends(ts[i].s, steps[i].step) && exists j: nat :: WaitsOnCurrent(ts, steps, j, i)
  }

  /** A frame under way on the current socket was so before, or was sent in this step. */
  lemma AwaitingStep(t: Threads, step: SplitStep)
    requires OnlyWaiting(t) && Enabled(t, step)
    ensures var t' := Take(t, step);
            t'.s.wire.socket in Awaiting(t'.s.wire) && !step.SendHalf? ==>
              && t.waiting == t'.waiting && t.s.wire.socket == t'.s.wire.socket
              && t.s.wire.socket in Awaiting(t.s.wire)
  {
    PacedStep(t, step);
    if step.Whole? {
      if step.step.AcceptStep? {
        AcceptDeals(t.s, step.step);
      } else {
        StepDeals(t.s, step.step);
      }
    }
  }

  lemma WaitsLonger(ts: seq<Threads>, steps: seq<SplitStep>, j: nat, i: nat)
    requires |ts| == |steps| + 1 && i + 1 < |ts| && WaitsOnCurrent(ts, steps, j, i)
    requires ts[i + 1].waiting == ts[i].waiting && ts[i + 1].s.wire.socket == ts[i].s.wire.socket
    ensures WaitsOnCurrent(ts, steps, j, i + 1)
  {
  }

  lemma {:induction false} SentBefore(ts: seq<Threads>, steps: seq<SplitStep>, i: nat) returns (j: nat)
    requires IsSplitRun(ts, steps) && i < |ts| && ts[i].s.wire.socket in Awaiting(ts[i].s.wire)
    ensures WaitsOnCurrent(ts, steps, j, i)
  {
    OnlyWaitingInRun(ts, steps, i);
    assert i >= 1;
    OnlyWaitingInRun(ts, steps, i - 1);
    AwaitingStep(ts[i - 1], steps[i - 1]);
    j := i - 1;
    if !steps[i - 1].SendHalf? {
      j := SentBefore(ts, steps, i - 1);
      WaitsLonger(ts, steps, j, i - 1);
    }
  }

  /** The frame of a waiting write stays under way as long as its connection is current and nothing else is
      sent there. */
  lemma UnderWayStep(t: Threads, step: SplitStep)
    requires OnlyWaiting(t) && Enabled(t, step) && step.Whole?
    ensures var t' := Take(t, step);
            t.s.wire.socket in Awaiting(t.s.wire) && t'.s.wire.socket == t.s.wire.socket && Paced(t'.s.wire.trace) ==>
              t'.s.wire.socket in Awaiting(t'.s.wire)
  {
    PacedStep(t, step);
    if step.step.AcceptStep? {
      AcceptDeals(t.s, step.step);
    } else {
      StepDeals(t.s, step.step);
    }
  }

  /** The wait goes on for a step: the frame is still under way, or another one has been sent. */
  lemma UnderWayNext(ts: seq<Threads>, steps: seq<SplitStep>, j: nat, i: nat)
    requires IsSplitRun(ts, steps) && j < i && WaitsOnCurrent(ts, steps, j, i + 1)
    requires !Paced(ts[i].s.wire.trace) || ts[i].s.wire.socket in Awaiting(ts[i].s.wire)
    ensures !Paced(ts[i + 1].s.wire.trace) || ts[i + 1].s.wire.socket in Awaiting(ts[i + 1].s.wire)
  {
    PacedNext(ts, steps, i);
    assert ts[i].s.wire.socket == ts[i + 1].s.wire.socket && ts[i].waiting == ts[i + 1].waiting;
    if Paced(ts[i].s.wire.trace) {
      UnderWayStep(ts[i], steps[i]);
    }
  }

  lemma {:induction false} UnderWay(ts: seq<Threads>, steps: seq<SplitStep>, j: nat, i: nat)
    requires IsSplitRun(ts, steps) && WaitsOnCurrent(ts, steps, j, i)
    ensures !Paced(ts[i].s.wire.trace) || ts[i].s.wire.socket in Awaiting(ts[i].s.wire)
  {
    if j == i - 1 {
      PacedNext(ts, steps, j);
      SendHalfDeals(ts[j], steps[j].id, steps[j].data);
    } else {
      UnderWay(ts, steps, j, i - 1);
      UnderWayNext(ts, steps, j, i - 1);
    }
  }

  predicate PacedIn(ts: seq<Threads>, k: nat)
    requires k < |ts|
  {
    Paced(ts[k].s.wire.trace)
  }

  /** Nothing makes up for two frames on one socket. */
  predicate NotMadeUp(ts: seq<Threads>, k: nat) {
    k + 1 < |ts| && !PacedIn(ts, k) ==> !PacedIn(ts, k + 1)
  }

  lemma NeverMadeUp(ts: seq<Threads>, steps: seq<SplitStep>, k: nat)
    requires IsSplitRun(ts, steps)
    ensures NotMadeUp(ts, k)
  {
    if k < |steps| {
      PacedNext(ts, steps, k);
    }
  }

  lemma {:induction false} Persists(ts: seq<Threads>, i: nat, n: nat)
    requires i <= n < |ts| && !PacedIn(ts, i)
    requires forall k: nat :: NotMadeUp(ts, k)
    ensures !PacedIn(ts, n)
  {
    if i < n {
      Persists(ts, i, n - 1);
      assert NotMadeUp(ts, n - 1);
    }
  }

  lemma NeverPacedAgain(ts: seq<Threads>, steps: seq<SplitStep>, i: nat)
    requires IsSplitRun(ts, steps) && i < |ts| && !PacedIn(ts, i)
    ensures !PacedIn(ts, |steps|)
  {
    forall k: nat ensures NotMadeUp(ts, k) {
      NeverMadeUp(ts, steps, k);
    }
    Persists(ts, i, |steps|);
  }

  lemma SendingBreaks(ts: seq<Threads>, steps: seq<SplitStep>, i: nat)
    requires IsSplitRun(ts, steps) && SendsMeanwhile(ts, steps, i)
    ensures !Paced(ts[|steps|].s.wire.trace)
  {
    var j: nat :| WaitsOnCurrent(ts, steps, j, i);
    UnderWay(ts, steps, j, i);
    PacedNext(ts, steps, i);
    NeverPacedAgain(ts, steps, i + 1);
  }

  lemma {:induction false} PacedUpTo(ts: seq<Threads>, steps: seq<SplitStep>, n: nat)
    requires IsSplitRun(ts, steps) && n < |ts| && forall i: nat :: i < n ==> !SendsMeanwhile(ts, steps, i)
    ensures Paced(ts[n].s.wire.trace)
  {
    if n != 0 {
      PacedUpTo(ts, steps, n - 1);
      PacedNext(ts, steps, n - 1);
      if ts[n - 1].s.wire.socket in Awaiting(ts[n - 1].s.wire) {
        var j := SentBefore(ts, steps, n - 1);
        assert !SendsMeanwhile(ts, steps, n - 1);
      }
    }
  }

  // ----- main result

  /** Exactly when stop-and-wait survives writes that are not one step: no result is sent, and no other
      write made, on the connection of a write that waits there for its confirmation. */
  lemma StopAndWaitExactly(ts: seq<Threads>, steps: seq<SplitStep>)
    requires IsSplitRun(ts, steps)
    ensures StopsAndWaits(ts[|steps|].s.wire.trace) <==> forall i: nat :: !SendsMeanwhile(ts, steps, i)
  {
    PacedExactly(ts[|steps|].s.wire.trace);
    if i: nat :| SendsMeanwhile(ts, steps, i) {
      SendingBreaks(ts, steps, i);
    } else {
      PacedUpTo(ts, steps, |steps|);
    }
  }

  /** It need not survive: here the result of a job goes out while its last chunk is not confirmed yet. */
  lemma ResultOvertakesConfirmation() returns (ts: seq<Threads>, steps: seq<SplitStep>)
    ensures IsSplitRun(ts, steps) && !StopsAndWaits(ts[|steps|].s.wire.trace)
  {
    var before, after: Threads;
    ts, steps, before := FirstWaits();
    ts, steps, after := Extend(ts, steps, Whole(TerminalStep(1, Failed(0), Witnesses.BYE, Hangup, CallFailed)));
    var i := |steps| - 1;
    assert ts[i] == before && steps[i - 1] == SendHalf(1, [1]);
    assert WaitsOnCurrent(ts, steps, i - 1, i);
    assert SendsMeanwhile(ts, steps, i);
    StopAndWaitExactly(ts, steps);
  }
}
