/** No stop is lost, and exactly how often a slot runs: the stop protocol without resets. */
module StopSafety {
  import opened Prelude
  import opened StopProtocol
  import opened StopTermination

  // ----- the life of the one trigger that wins

  predicate BeforeFlag(pc: Pc) {
    pc.TrigWon? || pc.TrigLocked?
  }

  /** The winner has taken the snapshot of the slots. */
  predicate AfterSnapshot(pc: Pc) {
    pc.TrigCalling? || pc.TrigSlot? || pc.TrigSlotLocked? || pc.Done?
  }

  /** The slots of the snapshot that the winner has yet to call. */
  function Pending(pc: Pc): seq<Tid> {
    if pc.TrigCalling? || pc.TrigSlot? || pc.TrigSlotLocked? then pc.rest else []
  }

  predicate FlagsAgree(s: State) {
    && (s.m.stopped <==> s.h.winner.Some?)
    && (s.m.interrupted <==> s.h.flagAt.Some?)
  }

  /** At most one trigger gets past the compare-and-swap. */
  predicate LosersDone(s: State)
    requires |s.threads| == |s.roles|
  {
    forall t :: 0 <= t < |s.threads| && s.roles[t].TrigStart? && s.h.winner != Some(t) ==>
      s.threads[t].TrigStart? || s.threads[t].Done?
  }

  /** The recorded times say where the winner is. */
  predicate WinnerPlace(s: State)
    requires |s.threads| == |s.roles|
  {
    match s.h.winner
    case None => s.h.flagAt.None? && s.h.snapAt.None?
    case Some(w) =>
      && w < |s.threads| && s.roles[w].TrigStart? && !s.threads[w].TrigStart?
      && (s.h.flagAt.None? <==> BeforeFlag(s.threads[w]))
      && (s.h.snapAt.Some? <==> AfterSnapshot(s.threads[w]))
  }

  predicate Times(s: State) {
    && (s.h.flagAt.Some? ==> s.h.flagAt.value < s.h.clock)
    && (s.h.snapAt.Some? ==> s.h.flagAt.Some? && s.h.flagAt.value < s.h.snapAt.value < s.h.clock)
  }

  predicate WinnerInv(s: State)
    requires |s.threads| == |s.roles|
  {
    FlagsAgree(s) && LosersDone(s) && WinnerPlace(s) && Times(s)
  }

  function WinnerPc(s: State): Pc
    requires s.h.winner.Some? ==> s.h.winner.value < |s.threads|
  {
    if s.h.winner.Some? then s.threads[s.h.winner.value] else TrigStart
  }

  // ----- the life of a slot

  /** The slot was connected after the flag was raised, so `connect` calls it. */
  predicate IsDirect(s: State, k: Tid) {
    k in s.h.connAt && s.h.flagAt.Some? && s.h.flagAt.value < s.h.connAt[k]
  }

  /** The slot was connected before the snapshot was taken. */
  predicate BeforeSnapshot(s: State, k: Tid) {
    k in s.h.connAt && s.h.snapAt.Some? && s.h.connAt[k] < s.h.snapAt.value
  }

  /** How often the slot has run, had it never been disconnected: once directly and once from the
      signal, as far as these calls are over. */
  function Expected(s: State, k: Tid): nat
    requires k < |s.threads| && (s.h.winner.Some? ==> s.h.winner.value < |s.threads|)
  {
    (if IsDirect(s, k) && s.threads[k].Done? then 1 else 0)
    + (if BeforeSnapshot(s, k) && k !in Pending(WinnerPc(s)) then 1 else 0)
  }

  predicate SlotTimes(s: State, k: Tid)
    requires k in s.h.connAt && k < |s.threads|
  {
    && s.h.connAt[k] < s.h.clock
    && (s.h.flagAt.Some? ==> s.h.flagAt.value != s.h.connAt[k])
    && (s.h.snapAt.Some? ==> s.h.snapAt.value != s.h.connAt[k])
    && (s.threads[k].ConnDirect? || s.threads[k].ConnSlotLocked? ==> IsDirect(s, k))
    && (k !in s.h.disconnected ==> k in s.m.slots)
  }

  predicate SlotRuns(s: State, k: Tid)
    requires k < |s.threads| == |s.roles| && WinnerInv(s)
  {
    && Runs(s.h, k) <= Expected(s, k)
    && (k !in s.h.disconnected ==> Runs(s.h, k) == Expected(s, k))
  }

  ghost predicate Connected(s: State)
    requires |s.threads| == |s.roles|
  {
    && (forall k :: k in s.h.connAt <==> HasConnected(s, k))
    && (forall k :: k !in s.h.connAt ==> Runs(s.h, k) == 0)
  }

  predicate PendingOk(s: State)
    requires |s.threads| == |s.roles| && WinnerInv(s)
  {
    Distinct(Pending(WinnerPc(s))) && forall k :: k in Pending(WinnerPc(s)) ==> BeforeSnapshot(s, k)
  }

  predicate AllStoredTrue(s: State) {
    forall b :: b in s.h.stored ==> b
  }

  ghost predicate SlotInv(s: State)
    requires |s.threads| == |s.roles| && WinnerInv(s)
  {
    && Connected(s) && PendingOk(s) && AllStoredTrue(s)
    && forall k :: k in s.h.connAt ==> SlotTimes(s, k) && SlotRuns(s, k)
  }

  ghost predicate SafetyInv(s: State) {
    Inv(s) && NoResets(s) && WinnerInv(s) && SlotInv(s)
  }

  lemma SafetyInit(s: State)
    requires Init(s) && NoResets(s)
    ensures SafetyInv(s)
  {
  }

  predicate PastCas(pc: Pc) {
    pc.TrigWon? || pc.TrigLocked? || pc.TrigEmit? || pc.TrigCalling? || pc.TrigSlot? || pc.TrigSlotLocked?
  }

  lemma IsWinner(s: State, t: Tid)
    requires Inv(s) && WinnerInv(s) && t < |s.threads| && PastCas(s.threads[t])
    ensures s.h.winner == Some(t)
  {
    assert Follows(s.roles[t], s.threads[t]);
  }

  /** Nothing that concerns the winner changed: the flags and the times. */
  predicate SameStop(s: State, s': State) {
    && s'.m.stopped == s.m.stopped && s'.m.interrupted == s.m.interrupted && s'.h.winner == s.h.winner
    && s'.h.flagAt == s.h.flagAt && s'.h.snapAt == s.h.snapAt && s'.h.clock == s.h.clock + 1
  }

  /** Only the trigger that gets past the compare-and-swap changes the flags and the times. */
  lemma StopKept(s: State, t: Tid, spurious: bool)
    requires Enabled(s, t) && (Locks(s.threads[t]) || s.threads[t].ConnLocked? || s.threads[t].ConnSlotLocked?
                               || s.threads[t].DiscStart? || s.threads[t].TrigCalling? || s.threads[t].TrigSlotLocked?)
    ensures SameStop(s, Step(s, t, spurious))
  {
  }

  lemma WinnerStepOther(s: State, t: Tid, spurious: bool)
    requires SafetyInv(s) && Enabled(s, t) && !s.roles[t].TrigStart?
    ensures WinnerInv(Step(s, t, spurious))
  {
    assert Follows(s.roles[t], s.threads[t]);
    StopKept(s, t, spurious);
  }

  lemma WinnerStepTrigger(s: State, t: Tid, spurious: bool)
    requires SafetyInv(s) && Enabled(s, t) && s.roles[t].TrigStart?
    ensures WinnerInv(Step(s, t, spurious))
  {
    assert Follows(s.roles[t], s.threads[t]);
    if PastCas(s.threads[t]) {
      IsWinner(s, t);
    }
  }

  /** What a step does to the flags and to the record of the winner. */
  lemma WinnerStep(s: State, t: Tid, spurious: bool)
    requires SafetyInv(s) && Enabled(s, t)
    ensures WinnerInv(Step(s, t, spurious))
  {
    if s.roles[t].TrigStart? {
      WinnerStepTrigger(s, t, spurious);
    } else {
      WinnerStepOther(s, t, spurious);
    }
  }

  /** Whether a step runs slot `k`. */
  predicate RunsSlot(pc: Pc, t: Tid, k: Tid)
    requires WellFormed(pc)
  {
    (pc.TrigSlotLocked? && k == pc.rest[0]) || (pc.ConnSlotLocked? && k == t)
  }

  lemma RunsThen(s: State, t: Tid, spurious: bool, k: Tid)
    requires Enabled(s, t)
    ensures Runs(Step(s, t, spurious).h, k) == Runs(s.h, k) + if RunsSlot(s.threads[t], t, k) then 1 else 0
  {
  }

  /** What a step does to the record of slot `k`: it is connected, or it runs. */
  lemma RecordStep(s: State, t: Tid, spurious: bool, k: Tid)
    requires Enabled(s, t)
    ensures var h, h', pc := s.h, Step(s, t, spurious).h, s.threads[t];
            && (k in h'.connAt <==> k in h.connAt || (pc.ConnLocked? && k == t))
            && (k in h'.connAt ==> h'.connAt[k] == if pc.ConnLocked? && k == t then h.clock else h.connAt[k])
            && Runs(h', k) == Runs(h, k) + if RunsSlot(pc, t, k) then 1 else 0
  {
    RunsThen(s, t, spurious, k);
  }

  /** Thread `k` has connected its slot in the next state if it had before or does so in this step. */
  lemma ConnectedThen(s: State, t: Tid, spurious: bool, k: Tid)
    requires Inv(s) && Enabled(s, t)
    ensures |Step(s, t, spurious).threads| == |s.threads|
    ensures HasConnected(Step(s, t, spurious), k) <==> HasConnected(s, k) || (s.threads[t].ConnLocked? && k == t)
  {
    assert Follows(s.roles[t], s.threads[t]);
    PlaceStep(s, t, spurious);
  }

  lemma ConnectedStep(s: State, t: Tid, spurious: bool)
    requires SafetyInv(s) && Enabled(s, t)
    ensures Connected(Step(s, t, spurious))
  {
    var s' := Step(s, t, spurious);
    forall k: Tid
      ensures k in s'.h.connAt <==> HasConnected(s', k)
      ensures k !in s'.h.connAt ==> Runs(s'.h, k) == 0
    {
      RecordStep(s, t, spurious, k);
      ConnectedThen(s, t, spurious, k);
      if s.threads[t].TrigSlotLocked? {
        IsWinner(s, t);
        assert s.threads[t].rest[0] in Pending(WinnerPc(s));
      }
    }
  }

  /** The slots that the winner has yet to call in the next state. */
  lemma PendingThen(s: State, t: Tid, spurious: bool)
    requires SafetyInv(s) && Enabled(s, t) && WinnerInv(Step(s, t, spurious))
    ensures var s' := Step(s, t, spurious);
            Pending(WinnerPc(s')) ==
            if s.threads[t].TrigEmit? then s.m.slots
            else if s.threads[t].TrigSlotLocked?
                    || (s.threads[t].TrigCalling? && s.threads[t].rest != [] && s.threads[t].rest[0] !in s.m.slots)
            then Pending(WinnerPc(s))[1..]
            else Pending(WinnerPc(s))
  {
    assert Follows(s.roles[t], s.threads[t]);
    if PastCas(s.threads[t]) {
      IsWinner(s, t);
    }
  }

  lemma PendingStep(s: State, t: Tid, spurious: bool)
    requires SafetyInv(s) && Enabled(s, t)
    ensures WinnerInv(Step(s, t, spurious)) && PendingOk(Step(s, t, spurious))
  {
    WinnerStep(s, t, spurious);
    PendingThen(s, t, spurious);
    var s' := Step(s, t, spurious);
    forall k | k in Pending(WinnerPc(s')) ensures BeforeSnapshot(s', k) {
      RecordStep(s, t, spurious, k);
      if s.threads[t].TrigEmit? {
        assert HasConnected(s, k);
      } else {
        assert k in Pending(WinnerPc(s));
        SnapshotKept(s, t, spurious);
      }
    }
  }

  /** A snapshot, once taken, is the last one. */
  lemma SnapshotKept(s: State, t: Tid, spurious: bool)
    requires SafetyInv(s) && Enabled(s, t) && s.h.snapAt.Some?
    ensures Step(s, t, spurious).h.snapAt == s.h.snapAt && Step(s, t, spurious).h.flagAt == s.h.flagAt
  {
    assert Follows(s.roles[t], s.threads[t]);
    if PastCas(s.threads[t]) {
      IsWinner(s, t);
    }
  }

  lemma StoredStep(s: State, t: Tid, spurious: bool)
    requires SafetyInv(s) && Enabled(s, t)
    ensures AllStoredTrue(Step(s, t, spurious))
  {
    if s.threads[t].TrigSlotLocked? {
      IsWinner(s, t);
    }
    if s.threads[t].ConnSlotLocked? {
      assert Follows(s.roles[t], s.threads[t]);
      assert HasConnected(s, t);
    }
  }

  /** Raising the flag or taking the snapshot comes after every connect so far. */
  lemma SlotTimesTrigger(s: State, t: Tid, spurious: bool, k: Tid)
    requires SafetyInv(s) && Enabled(s, t) && s.roles[t].TrigStart? && k in s.h.connAt
    ensures k < |s.threads| && SlotTimes(Step(s, t, spurious), k)
  {
    assert Follows(s.roles[t], s.threads[t]);
    assert HasConnected(s, k) && SlotTimes(s, k);
    RecordStep(s, t, spurious, k);
    TriggerKeeps(s, t, spurious);
  }

  lemma TriggerKeeps(s: State, t: Tid, spurious: bool)
    requires SafetyInv(s) && Enabled(s, t) && s.roles[t].TrigStart?
    ensures var s' := Step(s, t, spurious);
            && s'.h.disconnected == s.h.disconnected && s'.m.slots == s.m.slots && s'.h.clock == s.h.clock + 1
            && (s'.h.flagAt == s.h.flagAt || (s.h.flagAt.None? && s'.h.flagAt == Some(s.h.clock)))
            && (s'.h.snapAt == s.h.snapAt || s'.h.snapAt == Some(s.h.clock))
            && forall k :: 0 <= k < |s.threads| && k != t ==> s'.threads[k] == s.threads[k]
  {
    assert Follows(s.roles[t], s.threads[t]);
    if PastCas(s.threads[t]) {
      IsWinner(s, t);
    }
  }

  lemma SlotTimesOther(s: State, t: Tid, spurious: bool, k: Tid)
    requires SafetyInv(s) && Enabled(s, t) && !s.roles[t].TrigStart? && k in Step(s, t, spurious).h.connAt
    ensures k < |s.threads| && SlotTimes(Step(s, t, spurious), k)
  {
    assert Follows(s.roles[t], s.threads[t]);
    StopKept(s, t, spurious);
    RecordStep(s, t, spurious, k);
    if k in s.h.connAt {
      assert HasConnected(s, k) && SlotTimes(s, k);
    }
  }

  lemma SlotTimesStep(s: State, t: Tid, spurious: bool, k: Tid)
    requires SafetyInv(s) && Enabled(s, t) && k in Step(s, t, spurious).h.connAt
    ensures k < |s.threads| && SlotTimes(Step(s, t, spurious), k)
  {
    if s.roles[t].TrigStart? {
      RecordStep(s, t, spurious, k);
      SlotTimesTrigger(s, t, spurious, k);
    } else {
      SlotTimesOther(s, t, spurious, k);
    }
  }

  /** The winner skips a slot that was disconnected, or goes on to call the next one. */
  lemma RunsWhenPassing(s: State, t: Tid, spurious: bool, k: Tid)
    requires SafetyInv(s) && Enabled(s, t) && k in s.h.connAt && s.threads[t].TrigCalling?
    requires WinnerInv(Step(s, t, spurious))
    ensures k < |s.threads| && SlotRuns(Step(s, t, spurious), k)
  {
    IsWinner(s, t);
    StopKept(s, t, spurious);
    RecordStep(s, t, spurious, k);
    PendingThen(s, t, spurious);
    assert HasConnected(s, k) && SlotTimes(s, k) && SlotRuns(s, k);
    var rest := Pending(WinnerPc(s));
    assert k in rest ==> k == rest[0] || k in rest[1..];
  }

  /** Locking the mutex inside a slot changes no record. */
  lemma RunsWhenLocking(s: State, t: Tid, spurious: bool, k: Tid)
    requires SafetyInv(s) && Enabled(s, t) && k in s.h.connAt && s.threads[t].TrigSlot?
    requires WinnerInv(Step(s, t, spurious))
    ensures k < |s.threads| && SlotRuns(Step(s, t, spurious), k)
  {
    IsWinner(s, t);
    StopKept(s, t, spurious);
    assert HasConnected(s, k) && SlotTimes(s, k) && SlotRuns(s, k);
  }

  /** A slot called by the winner has run. */
  lemma RunsWhenCalled(s: State, t: Tid, spurious: bool, k: Tid)
    requires SafetyInv(s) && Enabled(s, t) && k in s.h.connAt && s.threads[t].TrigSlotLocked?
    requires WinnerInv(Step(s, t, spurious))
    ensures k < |s.threads| && SlotRuns(Step(s, t, spurious), k)
  {
    IsWinner(s, t);
    StopKept(s, t, spurious);
    RecordStep(s, t, spurious, k);
    PendingThen(s, t, spurious);
    assert HasConnected(s, k) && SlotTimes(s, k) && SlotRuns(s, k);
    var rest := Pending(WinnerPc(s));
    assert k in rest ==> k == rest[0] || k in rest[1..];
    assert rest[0] !in rest[1..];
  }

  lemma RunsWhenEmitting(s: State, t: Tid, spurious: bool, k: Tid)
    requires SafetyInv(s) && Enabled(s, t) && k in s.h.connAt
    requires s.threads[t].TrigWon? || s.threads[t].TrigLocked? || s.threads[t].TrigEmit?
    requires WinnerInv(Step(s, t, spurious))
    ensures k < |s.threads| && SlotRuns(Step(s, t, spurious), k)
  {
    IsWinner(s, t);
    assert HasConnected(s, k) && SlotTimes(s, k) && SlotRuns(s, k);
  }

  /** The slot is connected in this step. */
  lemma RunsWhenConnected(s: State, t: Tid, spurious: bool)
    requires SafetyInv(s) && Enabled(s, t) && s.threads[t].ConnLocked? && WinnerInv(Step(s, t, spurious))
    ensures SlotRuns(Step(s, t, spurious), t)
  {
    assert Follows(s.roles[t], s.threads[t]);
    assert !HasConnected(s, t);
    StopKept(s, t, spurious);
    RecordStep(s, t, spurious, t);
    PendingThen(s, t, spurious);
  }

  /** A step of a call of `connect` or of a disconnect that leaves slot `k` where it is. */
  lemma RunsOfOthers(s: State, t: Tid, spurious: bool, k: Tid)
    requires SafetyInv(s) && Enabled(s, t) && k in s.h.connAt && !s.roles[t].TrigStart? && k != t
    requires WinnerInv(Step(s, t, spurious))
    ensures k < |s.threads| && SlotRuns(Step(s, t, spurious), k)
  {
    assert Follows(s.roles[t], s.threads[t]);
    StopKept(s, t, spurious);
    RecordStep(s, t, spurious, k);
    PendingThen(s, t, spurious);
    assert HasConnected(s, k) && SlotTimes(s, k) && SlotRuns(s, k);
  }

  /** The slot's own call of `connect` goes on to call it, and then it has run. */
  lemma RunsWhenDirect(s: State, t: Tid, spurious: bool)
    requires SafetyInv(s) && Enabled(s, t) && t in s.h.connAt && s.roles[t].ConnStart?
    requires WinnerInv(Step(s, t, spurious))
    ensures SlotRuns(Step(s, t, spurious), t)
  {
    assert Follows(s.roles[t], s.threads[t]);
    assert HasConnected(s, t) && SlotTimes(s, t) && SlotRuns(s, t);
    StopKept(s, t, spurious);
    RecordStep(s, t, spurious, t);
    PendingThen(s, t, spurious);
  }

  lemma RunsAtStart(s: State, t: Tid, spurious: bool, k: Tid)
    requires SafetyInv(s) && Enabled(s, t) && k in s.h.connAt && s.threads[t].TrigStart?
    requires WinnerInv(Step(s, t, spurious))
    ensures k < |s.threads| && SlotRuns(Step(s, t, spurious), k)
  {
    assert HasConnected(s, k) && SlotTimes(s, k) && SlotRuns(s, k);
    RecordStep(s, t, spurious, k);
    PendingThen(s, t, spurious);
  }

  lemma SlotRunsStep(s: State, t: Tid, spurious: bool, k: Tid)
    requires SafetyInv(s) && Enabled(s, t) && k in Step(s, t, spurious).h.connAt
    ensures WinnerInv(Step(s, t, spurious)) && k < |s.threads| && SlotRuns(Step(s, t, spurious), k)
  {
    WinnerStep(s, t, spurious);
    RecordStep(s, t, spurious, k);
    assert Follows(s.roles[t], s.threads[t]);
    if s.threads[t].ConnLocked? && k == t {
      RunsWhenConnected(s, t, spurious);
    } else if !s.roles[t].TrigStart? && k != t {
      RunsOfOthers(s, t, spurious, k);
    } else if !s.roles[t].TrigStart? {
      assert HasConnected(s, t);
      RunsWhenDirect(s, t, spurious);
    } else if s.threads[t].TrigStart? {
      RunsAtStart(s, t, spurious, k);
    } else if s.threads[t].TrigCalling? {
      RunsWhenPassing(s, t, spurious, k);
    } else if s.threads[t].TrigSlot? {
      RunsWhenLocking(s, t, spurious, k);
    } else if s.threads[t].TrigSlotLocked? {
      RunsWhenCalled(s, t, spurious, k);
    } else {
      RunsWhenEmitting(s, t, spurious, k);
    }
  }

  lemma SafetyStep(s: State, t: Tid, spurious: bool)
    requires SafetyInv(s) && Enabled(s, t)
    ensures SafetyInv(Step(s, t, spurious))
  {
    InvStep(s, t, spurious);
    ConnectedStep(s, t, spurious);
    PendingStep(s, t, spurious);
    StoredStep(s, t, spurious);
    var s' := Step(s, t, spurious);
    forall k | k in s'.h.connAt ensures SlotTimes(s', k) && SlotRuns(s', k) {
      SlotTimesStep(s, t, spurious, k);
      SlotRunsStep(s, t, spurious, k);
    }
  }

  // ----- failed compare-and-swaps

  /** A trigger that is done either found the source stopped, stopped it, or failed spuriously. */
  ghost predicate CasInv(s: State)
    requires |s.threads| == |s.roles|
  {
    && (forall t :: 0 <= t < |s.threads| && s.roles[t].TrigStart? && s.threads[t].Done? && t !in s.h.spurious ==> s.m.stopped)
    && (forall t :: t in s.h.spurious ==> t < |s.threads| && s.threads[t].Done? && s.h.winner != Some(t))
  }

  lemma CasStep(s: State, t: Tid, spurious: bool)
    requires SafetyInv(s) && CasInv(s) && Enabled(s, t)
    ensures CasInv(Step(s, t, spurious))
  {
    assert Follows(s.roles[t], s.threads[t]);
    assert !s.roles[t].ResetStart?;
    if PastCas(s.threads[t]) {
      IsWinner(s, t);
    }
  }

  lemma SafetyNext(s: State, s': State)
    requires SafetyInv(s) && CasInv(s) && Next(s, s')
    ensures SafetyInv(s') && CasInv(s') && s'.roles == s.roles
  {
    var t, spurious :| Enabled(s, t) && s' == Step(s, t, spurious);
    SafetyStep(s, t, spurious);
    CasStep(s, t, spurious);
  }

  lemma {:induction false} SafetyOfRun(ss: seq<State>)
    requires IsRun(ss) && NoResets(ss[0])
    ensures SafetyInv(ss[|ss| - 1]) && CasInv(ss[|ss| - 1]) && ss[|ss| - 1].roles == ss[0].roles
  {
    if |ss| == 1 {
      SafetyInit(ss[0]);
    } else {
      var front := ss[..|ss| - 1];
      SafetyOfRun(front);
      assert front[0] == ss[0] && front[|front| - 1] == ss[|ss| - 2];
      SafetyNext(ss[|ss| - 2], ss[|ss| - 1]);
    }
  }

  // ----- main results

  /** The slot was connected between the flag write and the snapshot. */
  predicate InWindow(h: History, k: Tid) {
    k in h.connAt && h.flagAt.Some? && h.snapAt.Some? && h.flagAt.value < h.connAt[k] < h.snapAt.value
  }

  /** No stop is lost: in every interleaving without reset, once the winning trigger and every
      connect are over, a slot that was never disconnected has run twice if it was connected between
      the flag write and the snapshot, and exactly once otherwise. A disconnected slot has not run
      more often than that. Every run of a slot found the token interrupted. */
  lemma NoStopLost(ss: seq<State>)
    requires IsRun(ss) && NoResets(ss[0])
    requires var s := ss[|ss| - 1];
             && s.h.winner.Some? && s.h.winner.value < |s.threads| == |s.roles| && s.threads[s.h.winner.value].Done?
             && forall k :: 0 <= k < |s.threads| && s.roles[k].ConnStart? ==> s.threads[k].Done?
    ensures var s := ss[|ss| - 1];
            && s.m.interrupted
            && (forall k :: 0 <= k < |s.threads| && s.roles[k].ConnStart? ==>
                  && Runs(s.h, k) <= (if InWindow(s.h, k) then 2 else 1)
                  && (k !in s.h.disconnected ==> Runs(s.h, k) == if InWindow(s.h, k) then 2 else 1))
            && forall b :: b in s.h.stored ==> b
  {
    SafetyOfRun(ss);
    var s := ss[|ss| - 1];
    forall k | 0 <= k < |s.threads| && s.roles[k].ConnStart?
      ensures Runs(s.h, k) <= (if InWindow(s.h, k) then 2 else 1)
      ensures k !in s.h.disconnected ==> Runs(s.h, k) == if InWindow(s.h, k) then 2 else 1
    {
      assert HasConnected(s, k);
      assert SlotTimes(s, k) && SlotRuns(s, k);
    }
  }

  /** `compare_exchange_weak` without a loop: once every call is over, the stop went through exactly
      if some trigger did not fail spuriously, and if it did not go through no slot has run. */
  lemma DeliveredExactly(ss: seq<State>)
    requires IsRun(ss) && NoResets(ss[0]) && AllDone(ss[|ss| - 1])
    ensures var s := ss[|ss| - 1];
            && |s.threads| == |s.roles|
            && (s.m.interrupted <==> exists t :: 0 <= t < |s.roles| && s.roles[t].TrigStart? && t !in s.h.spurious)
            && (s.m.interrupted <==> s.h.winner.Some?)
            && (!s.m.interrupted ==> forall k :: Runs(s.h, k) == 0)
  {
    SafetyOfRun(ss);
    var s := ss[|ss| - 1];
    forall k ensures !s.m.interrupted ==> Runs(s.h, k) == 0 {
      if k in s.h.connAt {
        assert SlotRuns(s, k) && HasConnected(s, k);
      }
    }
  }

  // ----- runs that show the bounds are met

  /** One more step at the end of a run. */
  lemma Take(ss: seq<State>, t: Tid, spurious: bool) returns (ss': seq<State>, s': State)
    requires IsRun(ss) && Enabled(ss[|ss| - 1], t)
    ensures IsRun(ss') && ss'[0] == ss[0] && s' == ss'[|ss'| - 1] == Step(ss[|ss| - 1], t, spurious)
    ensures ss' == ss + [s']
  {
    s' := Step(ss[|ss| - 1], t, spurious);
    ss' := ss + [s'];
    assert Next(ss[|ss| - 1], s');
    forall i | 0 <= i < |ss'| - 1 ensures Next(ss'[i], ss'[i + 1]) {
      if i < |ss| - 1 {
        assert Next(ss[i], ss[i + 1]);
      }
    }
  }

  function Start(roles: seq<Pc>): State {
    State(roles, roles, None, Shared(false, false, []), History(0, None, {}, None, None, map[], {}, map[], [], map[], 0, 0, 0))
  }

  /** The trigger has raised the flag and is about to emit; slot 1 is about to be connected. */
  lemma FlagRaised() returns (ss: seq<State>, s: State)
    ensures IsRun(ss) && ss[0] == Start([TrigStart, ConnStart]) && s == ss[|ss| - 1]
    ensures s.threads == [TrigEmit, ConnStart] && s.mutex == None && s.m == Shared(true, true, [])
    ensures s.h.emissions == 0 && s.h.runs == map[]
  {
    s := Start([TrigStart, ConnStart]);
    ss := [s];
    ss, s := Take(ss, 0, false);
    ss, s := Take(ss, 0, false);
    ss, s := Take(ss, 0, false);
  }

  /** Then slot 1 is connected and, as the flag is up, called directly. */
  lemma CalledDirectly() returns (ss: seq<State>, s: State)
    ensures IsRun(ss) && ss[0] == Start([TrigStart, ConnStart]) && s == ss[|ss| - 1]
    ensures s.threads == [TrigEmit, Done] && s.mutex == None && s.m == Shared(true, true, [1])
    ensures s.h.emissions == 0 && Runs(s.h, 1) == 1
  {
    ss, s := FlagRaised();
    ss, s := Take(ss, 1, false);
    ss, s := Take(ss, 1, false);
    ss, s := Take(ss, 1, false);
    ss, s := Take(ss, 1, false);
  }

  /** The trigger emits the signal and is about to run the slot again. */
  lemma CalledAgain() returns (ss: seq<State>, s: State)
    ensures IsRun(ss) && ss[0] == Start([TrigStart, ConnStart]) && s == ss[|ss| - 1]
    ensures s.threads == [TrigSlot([1]), Done] && s.mutex == None && s.m == Shared(true, true, [1])
    ensures s.h.emissions == 1 && Runs(s.h, 1) == 1
  {
    ss, s := CalledDirectly();
    ss, s := Take(ss, 0, false);
    ss, s := Take(ss, 0, false);
  }

  /** A slot can run twice, although its signal is emitted once and it is connected once. */
  lemma TwiceHappens() returns (ss: seq<State>, s: State)
    ensures IsRun(ss) && NoResets(ss[0]) && s == ss[|ss| - 1] && AllDone(s)
    ensures s.h.emissions == 1 && Runs(s.h, 1) == 2
  {
    ss, s := CalledAgain();
    ss, s := Take(ss, 0, false);
    ss, s := Take(ss, 0, false);
    ss, s := Take(ss, 0, false);
  }

  /** A trigger can fail for no reason, although nobody has stopped the source, and then nothing is stopped. */
  lemma SpuriousFailure() returns (ss: seq<State>, s: State)
    ensures IsRun(ss) && ss[0] == Start([TrigStart]) && s == ss[|ss| - 1] && AllDone(s)
    ensures !s.m.stopped && !s.m.interrupted && s.h.emissions == 0 && 0 in s.h.spurious
  {
    ss := [Start([TrigStart])];
    ss, s := Take(ss, 0, true);
  }
}
