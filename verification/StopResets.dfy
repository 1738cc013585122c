/** The stop protocol with resets that race with triggers: what every connected slot is told all the same,
    and exactly in which runs a stop goes unnoticed. */
module StopResets {
  import opened Prelude
  import opened StopProtocol
  import opened StopTermination
  import opened StopSafety

  // ----- a raised flag reaches every connected slot

  /** Thread `u` will run slot `k`: it is about to emit, has the slot in what is left of its snapshot, or
      is the slot's own call of `connect`. */
  predicate WillRun(u: Tid, pc: Pc, k: Tid) {
    pc.TrigEmit? || k in Pending(pc) || (u == k && (pc.ConnDirect? || pc.ConnSlotLocked?))
  }

  ghost predicate SomeoneWillRun(s: State, k: Tid) {
    exists u :: 0 <= u < |s.threads| && WillRun(u, s.threads[u], k)
  }

  /** The last thing the slot stored is that the token is interrupted. */
  predicate Told(h: History, k: Tid) {
    k in h.told && h.told[k]
  }

  /** While the flag is up, every connected slot knows or is going to be run. */
  ghost predicate Reached(s: State) {
    s.m.interrupted ==> forall k :: k in s.m.slots ==> Told(s.h, k) || SomeoneWillRun(s, k)
  }

  /** Thread `t` passes on what it was going to run, or has run it while the flag is up. */
  lemma Promise(s: State, t: Tid, spurious: bool, k: Tid)
    requires Inv(s) && Enabled(s, t) && k in Step(s, t, spurious).m.slots && WillRun(t, s.threads[t], k)
    requires s.m.interrupted
    ensures Told(Step(s, t, spurious).h, k) || WillRun(t, Step(s, t, spurious).threads[t], k)
  {
    var pc := s.threads[t];
    if pc.TrigCalling? || pc.TrigSlotLocked? {
      assert k == pc.rest[0] || k in pc.rest[1..];
    }
  }

  /** A slot in the list of a raised flag was there before under a raised flag, and stays told, or the
      thread of this step is going to run it. */
  lemma NewDuty(s: State, t: Tid, spurious: bool, k: Tid)
    requires Inv(s) && Enabled(s, t) && Step(s, t, spurious).m.interrupted && k in Step(s, t, spurious).m.slots
    ensures (s.m.interrupted && k in s.m.slots) || WillRun(t, Step(s, t, spurious).threads[t], k)
    ensures s.m.interrupted && Told(s.h, k) ==> Told(Step(s, t, spurious).h, k)
  {
  }

  lemma ReachedStep(s: State, t: Tid, spurious: bool)
    requires Inv(s) && Enabled(s, t) && Reached(s)
    ensures Reached(Step(s, t, spurious))
  {
    var s' := Step(s, t, spurious);
    if s'.m.interrupted {
      forall k | k in s'.m.slots ensures Told(s'.h, k) || SomeoneWillRun(s', k) {
        NewDuty(s, t, spurious, k);
        assert s'.threads == s.threads[t := s'.threads[t]];
        if WillRun(t, s'.threads[t], k) {
          assert SomeoneWillRun(s', k);
        } else if !Told(s.h, k) {
          var u :| 0 <= u < |s.threads| && WillRun(u, s.threads[u], k);
          if u == t {
            Promise(s, t, spurious, k);
          } else {
            assert WillRun(u, s'.threads[u], k);
          }
        }
      }
    }
  }

  /** The step is the end of a run of slot `k`. */
  predicate EndsRun(s: State, s': State, t: Tid, k: Tid) {
    && t < |s.threads| == |s'.threads| && s.threads[t] != s'.threads[t]
    && ((s.threads[t].ConnSlotLocked? && t == k) || (s.threads[t].TrigSlotLocked? && s.threads[t].rest != [] && s.threads[t].rest[0] == k))
  }

  /** Whenever a slot has run, it has stored whether the flag was up, and nothing else. */
  lemma StoresTheFlag(s: State, s': State, t: Tid, k: Tid)
    requires Next(s, s') && EndsRun(s, s', t, k)
    ensures k in s'.h.told && s'.h.told[k] == s.m.interrupted == s'.m.interrupted
    ensures s'.h.stored == s.h.stored + [s.m.interrupted] && Runs(s'.h, k) == Runs(s.h, k) + 1
  {
    var u: Tid, spurious :| Enabled(s, u) && s' == Step(s, u, spurious);
    assert s'.threads == s.threads[u := s'.threads[u]];
    assert u == t;
  }

  /** Every connected slot has been run and has found the token interrupted, the last time it ran. */
  predicate AllTold(s: State) {
    forall k :: k in s.m.slots ==> Told(s.h, k)
  }

  // ----- a stop that goes unnoticed

  /** The flag of a source that is stopped is taken down: a trigger has stopped it again after the reset
      declared it running, and before the reset got to the flag. */
  predicate TakenDown(s: State, s': State) {
    s.m.stopped && s.m.interrupted && !s'.m.interrupted
  }

  predicate Raised(s: State, s': State) {
    !s.m.interrupted && s'.m.interrupted
  }

  predicate Restarted(s: State, s': State) {
    s.m.stopped && !s'.m.stopped
  }

  /** In the step from state `j` on, no trigger raises the flag and no reset declares the source running. */
  predicate QuietAt(ss: seq<State>, j: nat) {
    j + 1 < |ss| ==> !Raised(ss[j], ss[j + 1]) && !Restarted(ss[j], ss[j + 1])
  }

  ghost predicate NothingHappens(ss: seq<State>, i: nat) {
    forall j: nat :: i <= j ==> QuietAt(ss, j)
  }

  ghost predicate LostAt(ss: seq<State>, i: nat) {
    i < |ss| - 1 && TakenDown(ss[i], ss[i + 1]) && NothingHappens(ss, i + 1)
  }

  /** Some step takes down the flag of a stopped source, and nothing happens afterwards. */
  ghost predicate Lost(ss: seq<State>) {
    exists i: nat :: LostAt(ss, i)
  }

  /** What a step does to the two flags. */
  lemma FlagStep(s: State, t: Tid, spurious: bool)
    requires Enabled(s, t)
    ensures var s', pc := Step(s, t, spurious), s.threads[t];
            && (s'.m.stopped <==> (s.m.stopped && !pc.ResetStart?) || s'.threads[t].TrigWon?)
            && (s'.m.interrupted <==> (s.m.interrupted && !pc.ResetFlag?) || pc.TrigLocked?)
            && (s'.threads[t].ResetFlag? <==> pc.ResetStart?)
            && (BeforeFlag(pc) && !pc.TrigLocked? ==> BeforeFlag(s'.threads[t]))
            && (s'.threads[t].TrigWon? ==> !s.m.stopped)
  {
  }

  ghost predicate SomeoneWillRaise(s: State) {
    exists u :: 0 <= u < |s.threads| && BeforeFlag(s.threads[u])
  }

  predicate Unnoticed(s: State) {
    s.m.stopped && !s.m.interrupted
  }

  /** A stop that is unnoticed after a step was so before, or its flag was taken down in this step, or a
      trigger is still going to raise the flag. */
  lemma UnnoticedStep(s: State, s': State)
    requires Next(s, s') && Unnoticed(s') && !SomeoneWillRaise(s')
    ensures TakenDown(s, s') || (Unnoticed(s) && !SomeoneWillRaise(s))
  {
    var t: Tid, spurious :| Enabled(s, t) && s' == Step(s, t, spurious);
    FlagStep(s, t, spurious);
    assert s'.threads == s.threads[t := s'.threads[t]];
    assert !BeforeFlag(s'.threads[t]);
    if u :| 0 <= u < |s.threads| && BeforeFlag(s.threads[u]) {
      assert u != t ==> BeforeFlag(s'.threads[u]);
    }
  }

  lemma RunFront(ss: seq<State>)
    requires IsRun(ss) && |ss| >= 2
    ensures IsRun(ss[..|ss| - 1]) && ss[..|ss| - 1][|ss| - 2] == ss[|ss| - 2] && Next(ss[|ss| - 2], ss[|ss| - 1])
  {
    assert ss[|ss| - 1] == ss[(|ss| - 2) + 1];
  }

  /** A loss that the last step leaves alone is still one. */
  lemma LossStays(ss: seq<State>, i: nat)
    requires |ss| >= 2 && LostAt(ss[..|ss| - 1], i)
    requires !Raised(ss[|ss| - 2], ss[|ss| - 1]) && !Restarted(ss[|ss| - 2], ss[|ss| - 1])
    ensures LostAt(ss, i)
  {
    var front := ss[..|ss| - 1];
    forall j: nat | i + 1 <= j ensures QuietAt(ss, j) {
      assert QuietAt(front, j);
    }
  }

  lemma {:induction false} UnnoticedIsLost(ss: seq<State>) returns (i: nat)
    requires IsRun(ss) && Unnoticed(ss[|ss| - 1]) && !SomeoneWillRaise(ss[|ss| - 1])
    ensures LostAt(ss, i)
  {
    assert Init(ss[0]);
    assert |ss| >= 2;
    RunFront(ss);
    UnnoticedStep(ss[|ss| - 2], ss[|ss| - 1]);
    i := |ss| - 2;
    if !TakenDown(ss[|ss| - 2], ss[|ss| - 1]) {
      i := UnnoticedIsLost(ss[..|ss| - 1]);
      LossStays(ss, i);
    }
  }

  /** While nothing happens, a stop stays unnoticed. */
  lemma {:induction false} StaysUnnoticed(ss: seq<State>, i: nat, j: nat)
    requires IsRun(ss) && i <= j < |ss| && Unnoticed(ss[i]) && NothingHappens(ss, i)
    ensures Unnoticed(ss[j])
  {
    if i < j {
      StaysUnnoticed(ss, i, j - 1);
      assert QuietAt(ss, j - 1);
    }
  }

  /** Taking down the flag does not touch the source. */
  lemma TakenDownIsUnnoticed(s: State, s': State)
    requires Next(s, s') && TakenDown(s, s')
    ensures Unnoticed(s')
  {
    var t: Tid, spurious :| Enabled(s, t) && s' == Step(s, t, spurious);
    FlagStep(s, t, spurious);
  }

  lemma LostIsUnnoticed(ss: seq<State>, i: nat)
    requires IsRun(ss) && LostAt(ss, i)
    ensures Unnoticed(ss[|ss| - 1])
  {
    assert Next(ss[i], ss[i + 1]);
    TakenDownIsUnnoticed(ss[i], ss[i + 1]);
    StaysUnnoticed(ss, i + 1, |ss| - 1);
  }

  // ----- how the flag of a stopped source comes to be taken down

  /** A compare-and-swap succeeds while a reset is between its first two assignments. */
  ghost predicate CasDuringReset(s: State, s': State) {
    !s.m.stopped && s'.m.stopped && exists u :: 0 <= u < |s.threads| && s.threads[u].ResetFlag?
  }

  /** Thread `u` stays between the first two assignments of its reset while the source stays stopped. */
  lemma BetweenBefore(s: State, s': State, u: Tid)
    requires Next(s, s') && u < |s'.threads| && s'.threads[u].ResetFlag? && s'.m.stopped
    ensures u < |s.threads| && s.threads[u].ResetFlag?
  {
    var t: Tid, spurious :| Enabled(s, t) && s' == Step(s, t, spurious);
    FlagStep(s, t, spurious);
    assert s'.threads == s.threads[t := s'.threads[t]];
  }

  /** If a reset is between its first two assignments and the source is stopped, then it was stopped during
      this reset, and has been ever since. */
  lemma {:induction false} StoppedDuringReset(ss: seq<State>, i: nat, u: Tid) returns (j: nat)
    requires IsRun(ss) && i < |ss| && u < |ss[i].threads| && ss[i].threads[u].ResetFlag? && ss[i].m.stopped
    ensures j < i && CasDuringReset(ss[j], ss[j + 1]) && forall k :: j < k <= i ==> ss[k].m.stopped
  {
    assert Init(ss[0]);
    assert i >= 1;
    assert Next(ss[i - 1], ss[i - 1 + 1]);
    BetweenBefore(ss[i - 1], ss[i], u);
    j := i - 1;
    if ss[i - 1].m.stopped {
      j := StoppedDuringReset(ss, i - 1, u);
    }
  }

  lemma TakenDownByReset(s: State, s': State) returns (u: Tid)
    requires Next(s, s') && TakenDown(s, s')
    ensures u < |s.threads| && s.threads[u].ResetFlag?
  {
    var t: Tid, spurious :| Enabled(s, t) && s' == Step(s, t, spurious);
    FlagStep(s, t, spurious);
    u := t;
  }

  predicate RestartedAt(ss: seq<State>, k: nat) {
    k + 1 < |ss| && Restarted(ss[k], ss[k + 1])
  }

  ghost predicate OverlapAt(ss: seq<State>, j: nat) {
    j + 1 < |ss| && CasDuringReset(ss[j], ss[j + 1])
  }

  /** Every compare-and-swap that succeeds during a reset is undone by a later reset. */
  ghost predicate OverlapsUndone(ss: seq<State>) {
    forall j: nat :: OverlapAt(ss, j) ==> exists k: nat :: j < k && RestartedAt(ss, k)
  }

  /** A lost stop began with a compare-and-swap during a reset that no later reset undid. */
  lemma LostByOverlap(ss: seq<State>, i: nat)
    requires IsRun(ss) && LostAt(ss, i)
    ensures !OverlapsUndone(ss)
  {
    assert Next(ss[i], ss[i + 1]);
    var u := TakenDownByReset(ss[i], ss[i + 1]);
    var j := StoppedDuringReset(ss, i, u);
    TakenDownIsUnnoticed(ss[i], ss[i + 1]);
    forall k: nat | j < k ensures !RestartedAt(ss, k) {
      if i < k < |ss| - 1 {
        assert QuietAt(ss, k);
      } else if k < i {
        assert ss[k + 1].m.stopped;
      }
    }
    assert OverlapAt(ss, j);
  }

  // ----- main results

  lemma ReachedNext(s: State, s': State)
    requires Inv(s) && Reached(s) && Next(s, s')
    ensures Inv(s') && Reached(s')
  {
    var t: Tid, spurious :| Enabled(s, t) && s' == Step(s, t, spurious);
    InvStep(s, t, spurious);
    ReachedStep(s, t, spurious);
  }

  lemma {:induction false} ReachedInRun(ss: seq<State>)
    requires IsRun(ss)
    ensures Inv(ss[|ss| - 1]) && Reached(ss[|ss| - 1])
  {
    if |ss| == 1 {
      InitInv(ss[0]);
    } else {
      RunFront(ss);
      ReachedInRun(ss[..|ss| - 1]);
      ReachedNext(ss[|ss| - 2], ss[|ss| - 1]);
    }
  }

  /** Whatever the resets do: when all calls are over and the flag is up, every slot that is connected
      has run, and the last thing it stored is that the token is interrupted. */
  lemma RaisedReachesAll(ss: seq<State>)
    requires IsRun(ss) && AllDone(ss[|ss| - 1]) && ss[|ss| - 1].m.interrupted
    ensures AllTold(ss[|ss| - 1])
  {
    ReachedInRun(ss);
  }

  /** Exactly when a stop goes unnoticed: when all calls are over, the source is stopped and its token is
      not interrupted if and only if some reset took down the flag of a source that was stopped again, and
      afterwards no trigger raised the flag and no reset declared the source running. */
  lemma LostExactly(ss: seq<State>)
    requires IsRun(ss) && AllDone(ss[|ss| - 1])
    ensures Unnoticed(ss[|ss| - 1]) <==> Lost(ss)
  {
    if Unnoticed(ss[|ss| - 1]) {
      var i := UnnoticedIsLost(ss);
    }
    if i: nat :| LostAt(ss, i) {
      LostIsUnnoticed(ss, i);
    }
  }

  /** So a stop is noticed, and every connected slot told, unless the source was stopped between the first
      two assignments of a reset, and no later reset undid that. */
  lemma StopNoticed(ss: seq<State>)
    requires IsRun(ss) && AllDone(ss[|ss| - 1]) && ss[|ss| - 1].m.stopped && OverlapsUndone(ss)
    ensures ss[|ss| - 1].m.interrupted && AllTold(ss[|ss| - 1])
  {
    if i: nat :| LostAt(ss, i) {
      LostByOverlap(ss, i);
    }
    LostExactly(ss);
    RaisedReachesAll(ss);
  }

  // ----- runs in which a trigger overlaps with a reset

  /** The first trigger has raised the flag. */
  lemma FirstRaised() returns (ss: seq<State>, s: State)
    ensures IsRun(ss) && ss[0] == Start([TrigStart, TrigStart, ResetStart]) && s == ss[|ss| - 1]
    ensures s.threads == [TrigEmit, TrigStart, ResetStart] && s.mutex == None && s.m == Shared(true, true, [])
  {
    s := Start([TrigStart, TrigStart, ResetStart]);
    ss := [s];
    ss, s := Take(ss, 0, false);
    ss, s := Take(ss, 0, false);
    ss, s := Take(ss, 0, false);
  }

  /** One trigger is over; a reset and a second trigger are about to begin. */
  lemma FirstTriggerOver() returns (ss: seq<State>, s: State)
    ensures IsRun(ss) && ss[0] == Start([TrigStart, TrigStart, ResetStart]) && s == ss[|ss| - 1]
    ensures s.threads == [Done, TrigStart, ResetStart] && s.mutex == None && s.m == Shared(true, true, [])
  {
    ss, s := FirstRaised();
    ss, s := Take(ss, 0, false);
    ss, s := Take(ss, 0, false);
  }

  /** The second trigger wins between the first two assignments of the reset. */
  lemma WonBetween() returns (ss: seq<State>, s: State)
    ensures IsRun(ss) && ss[0] == Start([TrigStart, TrigStart, ResetStart]) && s == ss[|ss| - 1]
    ensures s.threads == [Done, TrigLocked, ResetFlag] && s.mutex == Some(1) && s.m == Shared(true, true, [])
    ensures s.h.winner == Some(1)
  {
    ss, s := FirstTriggerOver();
    ss, s := Take(ss, 2, false);
    ss, s := Take(ss, 1, false);
    ss, s := Take(ss, 1, false);
  }

  /** A stop can be lost: a trigger that comes between the two assignments of `reset`, and gets to the flag
      before the reset does, finds it still raised and does not emit; afterwards the source counts as
      stopped while its token is not interrupted. */
  lemma ResetLosesStop() returns (ss: seq<State>, s: State)
    ensures IsRun(ss) && s == ss[|ss| - 1] && AllDone(s)
    ensures s.h.winner == Some(1) && s.m.stopped && !s.m.interrupted
  {
    ss, s := WonBetween();
    ss, s := Take(ss, 1, false);
    ss, s := Take(ss, 2, false);
    ss, s := Take(ss, 2, false);
  }

  /** A trigger stops the source between the first two assignments of a reset, and then waits. */
  lemma WonDuringReset() returns (ss: seq<State>, s: State)
    ensures IsRun(ss) && ss[0] == Start([TrigStart, ResetStart]) && s == ss[|ss| - 1]
    ensures s.threads == [TrigWon, ResetFlag] && s.mutex == None && s.m == Shared(true, false, [])
    ensures |ss| == 3 && CasDuringReset(ss[1], ss[2])
  {
    s := Start([TrigStart, ResetStart]);
    ss := [s];
    ss, s := Take(ss, 1, false);
    ss, s := Take(ss, 0, false);
    assert ss[1].threads[1].ResetFlag?;
  }

  /** The reset is over before the trigger gets to the flag. */
  lemma ResetOverFirst() returns (ss: seq<State>, s: State)
    ensures IsRun(ss) && ss[0] == Start([TrigStart, ResetStart]) && s == ss[|ss| - 1]
    ensures s.threads == [TrigLocked, Done] && s.mutex == Some(0) && s.m == Shared(true, false, [])
    ensures OverlapAt(ss, 1)
  {
    ss, s := WonDuringReset();
    ss, s := Take(ss, 1, false);
    ss, s := Take(ss, 1, false);
    ss, s := Take(ss, 0, false);
  }

  /** The overlap alone loses nothing: here the trigger raises the flag behind the reset. */
  lemma OverlapNoticed() returns (ss: seq<State>, s: State)
    ensures IsRun(ss) && s == ss[|ss| - 1] && AllDone(s) && s.m.stopped && s.m.interrupted && OverlapAt(ss, 1)
  {
    ss, s := ResetOverFirst();
    ss, s := Take(ss, 0, false);
    ss, s := Take(ss, 0, false);
    ss, s := Take(ss, 0, false);
  }
}
