/** A write that is not one step: `sendMessageToRSU` sends its frame and then waits for the confirmation,
    and meanwhile another thread may accept a connection. */
module Interleaving {
  import opened Prelude
  import opened Frame
  import opened Session
  import opened SessionRuns
  import opened Environment
  import opened Descriptors
  import Witnesses

  /** The write of job `id` waits in `recv` for the confirmation of a frame that it sent on `fd`. */
  datatype Waiting = Waiting(id: JobId, data: seq<Byte>, fd: int)

  datatype Threads = Threads(s: State, waiting: Option<Waiting>)

  datatype SplitStep =
    | Whole(step: Step)
    | SendHalf(id: JobId, data: seq<Byte>)
    | AwaitHalf(reply: Recv, taken: bool)

  predicate Enabled(t: Threads, step: SplitStep) {
    match step
    case Whole(step) => Possible(t.s, step)
    case SendHalf(id, data) =>
      && t.waiting.None? && Possible(t.s, WriteStep(id, data, Exchange(true, Hangup, false)))
      && data != [] && !t.s.control.abortHandle && 0 <= t.s.wire.socket
    case AwaitHalf(_, _) => t.waiting.Some? && !t.s.crashed
  }

  function Take(t: Threads, step: SplitStep): Threads
    requires Enabled(t, step)
  {
    match step
    case Whole(step) => t.(s := Apply(t.s, step))
    case SendHalf(id, data) =>
      Threads(t.s.(wire := Emit(t.s.wire, FrameSent(t.s.wire.socket, Message(Data, 0, data)))),
              Some(Waiting(id, data, t.s.wire.socket)))
    case AwaitHalf(reply, taken) => Threads(AfterWait(t.s, t.waiting.value, reply, taken), None)
  }

  /** What the waiting write does when `recv` returns: it closes, and it aborts, what is current then. */
  function AfterWait(s: State, w: Waiting, reply: Recv, taken: bool): State {
    var c := DataReply(reply);
    var client := if taken || !c.Lost? then s.world.client.(held := s.world.client.held + w.data) else s.world.client;
    var wire := if c.Lost? then s.wire else Emit(s.wire, Confirmed(w.fd));
    var s1 := s.(wire := if c.Lost? || c.Garbage? then Close(wire) else wire, world := s.world.(client := client));
    var s2 := if c.AbortRequest? && s.control.jobId.Some? then
                s1.(wire := Emit(s1.wire, AbortTaken), control := s1.control.(abortHandle := true),
                    world := s1.world.(jobs := CancelCurrent(s1.world.jobs, s1.control.jobId)))
              else s1;
    var n := if c.GoOn? || c.AbortRequest? then |w.data| else 0;
    s2.(world := s2.world.(jobs := Written(s2.world.jobs, w.id, n)))
  }

  /** The two halves, one right after the other, are the write that `Session` takes as one step. */
  lemma SplitIsWrite(s: State, id: JobId, data: seq<Byte>, reply: Recv, taken: bool)
    requires Enabled(Threads(s, None), SendHalf(id, data))
    ensures Take(Take(Threads(s, None), SendHalf(id, data)), AwaitHalf(reply, taken))
            == Threads(Write(s, id, data, Exchange(true, reply, taken)), None)
  {
    var x := Exchange(true, reply, taken);
    assert Answered(s.wire, true, DataReply(reply)) <==> DataReply(reply).GoOn? || DataReply(reply).AbortRequest?;
    assert WriteData(s, data, x) == Transfer(s, data, true, DataReply(reply), taken);
  }

  predicate IsSplitRun(ts: seq<Threads>, steps: seq<SplitStep>) {
    && |ts| == |steps| + 1
    && ts[0] == Threads(Init(ts[0].s.world.client.url), None)
    && forall i :: 0 <= i < |steps| ==> Enabled(ts[i], steps[i]) && ts[i + 1] == Take(ts[i], steps[i])
  }

  predicate IsAccept(step: SplitStep) {
    step.Whole? && step.step.AcceptStep?
  }

  // ----- which connections a write closes

  /** The current connection is an open one. */
  predicate Current(w: Wire) {
    NO_SOCKET !in w.open && (w.socket == NO_SOCKET || (0 <= w.socket && w.socket in w.open))
  }

  lemma AcceptOwn(s: State, step: Step)
    requires step.AcceptStep?
    ensures OnlyOwn(Open(s.wire, step.fd), Apply(s, step).wire)
  {
    HandleClientOwn(s.(wire := Open(s.wire, step.fd)), Understand(step.request), step.call);
  }

  lemma CurrentStep(t: Threads, step: SplitStep)
    requires Current(t.s.wire) && Enabled(t, step)
    ensures Current(Take(t, step).s.wire)
  {
    if IsAccept(step) {
      AcceptOwn(t.s, step.step);
    } else if step.Whole? {
      OwnStep(t.s, step.step);
    }
  }

  lemma {:induction false} CurrentInRun(ts: seq<Threads>, steps: seq<SplitStep>, i: nat)
    requires IsSplitRun(ts, steps) && i < |ts|
    ensures Current(ts[i].s.wire)
  {
    if i != 0 {
      CurrentInRun(ts, steps, i - 1);
      CurrentStep(ts[i - 1], steps[i - 1]);
    }
  }

  /** The write that waits in state `i` has waited since state `j`, and connection `fd` has been the current
      one in every state after `j`. */
  ghost predicate CurrentSince(ts: seq<Threads>, j: nat, i: nat, fd: int)
    requires j <= i < |ts|
  {
    && ts[i].waiting.Some? && ts[j].waiting == ts[i].waiting
    && forall k :: j < k <= i ==> ts[k].waiting == ts[i].waiting && ts[k].s.wire.socket == fd
  }

  /** Step `j` accepts connection `fd` during the wait of state `i`, and it stays the current one. */
  ghost predicate AcceptedMeanwhile(ts: seq<Threads>, steps: seq<SplitStep>, j: nat, i: nat, fd: int)
    requires |ts| == |steps| + 1
  {
    j < i < |ts| && IsAccept(steps[j]) && steps[j].step.fd == fd && CurrentSince(ts, j, i, fd)
  }

  /** Where a current connection that is not the waiting write's own comes from. */
  lemma OtherCurrent(t: Threads, step: SplitStep, fd: int)
    requires Current(t.s.wire) && Enabled(t, step)
    ensures var t' := Take(t, step);
            t'.waiting.Some? && t'.s.wire.socket == fd && fd != t'.waiting.value.fd && fd != NO_SOCKET ==>
              t.waiting == t'.waiting && ((IsAccept(step) && step.step.fd == fd) || t.s.wire.socket == fd)
  {
    if IsAccept(step) {
      AcceptOwn(t.s, step.step);
    } else if step.Whole? {
      OwnStep(t.s, step.step);
    }
  }

  lemma CurrentLonger(ts: seq<Threads>, steps: seq<SplitStep>, j: nat, i: nat, fd: int)
    requires |ts| == |steps| + 1 && i + 1 < |ts| && AcceptedMeanwhile(ts, steps, j, i, fd)
    requires ts[i + 1].waiting == ts[i].waiting && ts[i + 1].s.wire.socket == fd
    ensures AcceptedMeanwhile(ts, steps, j, i + 1, fd)
  {
  }

  lemma {:induction false} AcceptedBefore(ts: seq<Threads>, steps: seq<SplitStep>, i: nat, fd: int) returns (j: nat)
    requires IsSplitRun(ts, steps) && i < |ts| && ts[i].waiting.Some?
    requires ts[i].s.wire.socket == fd && fd != ts[i].waiting.value.fd && fd != NO_SOCKET
    ensures AcceptedMeanwhile(ts, steps, j, i, fd)
  {
    assert i >= 1;
    CurrentInRun(ts, steps, i - 1);
    assert Enabled(ts[i - 1], steps[i - 1]) && ts[i] == Take(ts[i - 1], steps[i - 1]);
    OtherCurrent(ts[i - 1], steps[i - 1], fd);
    if IsAccept(steps[i - 1]) && steps[i - 1].step.fd == fd {
      j := i - 1;
      AcceptedJust(ts, steps, j, fd);
    } else {
      j := AcceptedBefore(ts, steps, i - 1, fd);
      CurrentLonger(ts, steps, j, i - 1, fd);
    }
  }

  lemma AcceptedJust(ts: seq<Threads>, steps: seq<SplitStep>, j: nat, fd: int)
    requires |ts| == |steps| + 1 && j < |steps| && IsAccept(steps[j]) && steps[j].step.fd == fd
    requires ts[j + 1].waiting.Some? && ts[j].waiting == ts[j + 1].waiting && ts[j + 1].s.wire.socket == fd
    ensures AcceptedMeanwhile(ts, steps, j, j + 1, fd)
  {
  }

  predicate GivesUp(reply: Recv) {
    DataReply(reply).Lost? || DataReply(reply).Garbage?
  }

  /** The step closes connection `fd`. */
  predicate Closes(t: Threads, t': Threads, fd: int) {
    fd in t.s.wire.open && fd !in t'.s.wire.open
  }

  lemma AwaitCloses(t: Threads, reply: Recv, taken: bool, fd: int)
    requires Current(t.s.wire) && Enabled(t, AwaitHalf(reply, taken))
    ensures Closes(t, Take(t, AwaitHalf(reply, taken)), fd) <==> GivesUp(reply) && fd == t.s.wire.socket && fd != NO_SOCKET
  {
  }

  /** Exactly when a write closes a connection that is not its own: its confirmation is missing or unknown,
      and that connection was accepted during the wait and has been the current one ever since. */
  lemma ClosesOther(ts: seq<Threads>, steps: seq<SplitStep>, i: nat, fd: int)
    requires IsSplitRun(ts, steps) && i < |steps| && steps[i].AwaitHalf? && fd != ts[i].waiting.value.fd
    ensures Closes(ts[i], ts[i + 1], fd) <==>
              GivesUp(steps[i].reply) && exists j: nat :: AcceptedMeanwhile(ts, steps, j, i, fd)
  {
    CurrentInRun(ts, steps, i);
    AwaitCloses(ts[i], steps[i].reply, steps[i].taken, fd);
    if Closes(ts[i], ts[i + 1], fd) {
      var j := AcceptedBefore(ts, steps, i, fd);
    }
    if j: nat :| AcceptedMeanwhile(ts, steps, j, i, fd) {
      assert Enabled(ts[j], steps[j]);
      assert ts[i].s.wire.socket == fd;
    }
  }

  /** A write waits in state `i` and has waited since state `j`. */
  ghost predicate SameWait(ts: seq<Threads>, j: nat, i: nat)
    requires j <= i < |ts|
  {
    forall k :: j <= k <= i ==> ts[k].waiting == ts[i].waiting
  }

  /** So a write during which no connection is accepted closes no connection but its own. */
  lemma ClosesOwnOnly(ts: seq<Threads>, steps: seq<SplitStep>, i: nat, fd: int)
    requires IsSplitRun(ts, steps) && i < |steps| && steps[i].AwaitHalf?
    requires forall j: nat :: j < i && IsAccept(steps[j]) ==> !SameWait(ts, j, i)
    requires fd in ts[i].s.wire.open && fd != ts[i].waiting.value.fd
    ensures fd in ts[i + 1].s.wire.open
  {
    ClosesOther(ts, steps, i, fd);
    if j: nat :| AcceptedMeanwhile(ts, steps, j, i, fd) {
      assert SameWait(ts, j, i);
    }
  }

  // ----- a run in which it happens

  /** One more step at the end of a run. */
  lemma Extend(ts: seq<Threads>, steps: seq<SplitStep>, step: SplitStep)
    returns (ts': seq<Threads>, steps': seq<SplitStep>, t: Threads)
    requires IsSplitRun(ts, steps) && Enabled(ts[|steps|], step)
    ensures IsSplitRun(ts', steps') && t == ts'[|steps'|] == Take(ts[|steps|], step) && steps' == steps + [step]
    ensures ts' == ts + [t]
  {
    t := Take(ts[|steps|], step);
    ts', steps' := ts + [t], steps + [step];
    forall i | 0 <= i < |steps'| ensures Enabled(ts'[i], steps'[i]) && ts'[i + 1] == Take(ts'[i], steps'[i]) {
      if i < |steps| {
        assert ts'[i] == ts[i] && ts'[i + 1] == ts[i + 1] && steps'[i] == steps[i];
      }
    }
  }

  /** A connection that asks for the whole of A is accepted and gets job `id`. */
  lemma Connects(ts: seq<Threads>, steps: seq<SplitStep>, fd: int, id: JobId)
    returns (ts': seq<Threads>, steps': seq<SplitStep>, t: Threads)
    requires IsSplitRun(ts, steps)
    requires var s := ts[|steps|].s; !s.crashed && 0 <= fd && fd !in s.wire.open && id !in s.world.jobs
    ensures IsSplitRun(ts', steps') && t == ts'[|steps'|] && t.waiting == ts[|steps|].waiting && |steps'| == |steps| + 1
    ensures var s := ts[|steps|].s;
            && !t.s.crashed && t.s.wire.socket == fd && t.s.wire.open == s.wire.open + {fd}
            && t.s.control == Control(true, Some(id), s.control.abortHandle, s.control.discard || Supersedes(s.control),
                                      s.control.clientOf[id := RSU])
            && t.s.world.jobs.Keys == s.world.jobs.Keys + {id}
            && t.s.world.latest == Some(id) && Live(t.s.world.jobs, id)
  {
    Witnesses.AskMeans(0);
    Witnesses.AcceptEffect(ts[|steps|].s, fd, Witnesses.A, 0, id);
    ts', steps', t := Extend(ts, steps, Whole(AcceptStep(fd, Witnesses.Ask(Witnesses.A, 0), Acknowledged(id))));
  }

  /** Job 1 has sent its first chunk on descriptor 3 and waits. */
  lemma FirstWaits() returns (ts: seq<Threads>, steps: seq<SplitStep>, t: Threads)
    ensures IsSplitRun(ts, steps) && t == ts[|steps|] && t.waiting == Some(Waiting(1, [1], 3))
    ensures t.s.wire.socket == 3 && t.s.wire.open == {3} && !t.s.crashed && t.s.world.jobs.Keys == {1}
    ensures t.s.control == Control(true, Some(1), false, false, map[1 := RSU]) && |steps| == 2 && steps[1] == SendHalf(1, [1])
  {
    ts, steps := [Threads(Init(Witnesses.A), None)], [];
    ts, steps, t := Connects(ts, steps, 3, 1);
    ts, steps, t := Extend(ts, steps, SendHalf(1, [1]));
  }

  /** Meanwhile descriptor 4 is accepted and job 2 started for it. */
  lemma SecondConnects() returns (ts: seq<Threads>, steps: seq<SplitStep>, t: Threads)
    ensures IsSplitRun(ts, steps) && t == ts[|steps|] && t.waiting == Some(Waiting(1, [1], 3))
    ensures t.s.wire.socket == 4 && t.s.wire.open == {3, 4} && !t.s.crashed
    ensures t.s.world.jobs.Keys == {1, 2} && t.s.world.latest == Some(2) && Live(t.s.world.jobs, 2)
  {
    ts, steps, t := FirstWaits();
    ts, steps, t := Connects(ts, steps, 4, 2);
  }

  /** A run in which a connection is accepted while a write waits on an older one: when that wait ends
      with a hang-up it is the new connection that is closed, whose job is live, and the old one stays open. */
  lemma SerialNeeded() returns (ts: seq<Threads>, steps: seq<SplitStep>, before: Threads, after: Threads)
    ensures IsSplitRun(ts, steps) && after == ts[|steps|]
    ensures Enabled(before, AwaitHalf(Hangup, false)) && after == Take(before, AwaitHalf(Hangup, false))
    ensures before.waiting == Some(Waiting(1, [1], 3)) && before.s.wire.socket == 4 && before.s.wire.open == {3, 4}
    ensures after.s.wire.socket == NO_SOCKET && after.s.wire.open == {3}
    ensures after.s.world.latest == Some(2) && Live(after.s.world.jobs, 2)
  {
    ts, steps, before := SecondConnects();
    ts, steps, after := Extend(ts, steps, AwaitHalf(Hangup, false));
  }
}
