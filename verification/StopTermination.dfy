/** Deadlock freedom, termination and the emission budget of the stop protocol, resets included. */
module StopTermination {
  import opened Prelude
  import opened StopProtocol

  // ----- sums over the threads

  /** What is counted: the steps left to a thread when at most `n` slots can ever be connected, the
      threads about to emit, and the resets that have not cleared the flag yet. */
  datatype Count = StepsLeft(n: nat) | AboutToEmit | ResetsLeft

  function Weight(c: Count, pc: Pc): nat {
    match c
    case AboutToEmit => if pc.TrigEmit? then 1 else 0
    case ResetsLeft => if pc.ResetStart? || pc.ResetFlag? then 1 else 0
    case StepsLeft(n) =>
      match pc
      case TrigStart => 3 * n + 5
      case TrigWon => 3 * n + 4
      case TrigLocked => 3 * n + 3
      case TrigEmit => 3 * n + 2
      case TrigCalling(rest) => 3 * |rest| + 1
      case TrigSlot(rest) => 3 * |rest|
      case TrigSlotLocked(rest) => if rest == [] then 0 else 3 * |rest| - 1
      case ConnStart => 4
      case ConnLocked => 3
      case ConnDirect => 2
      case ConnSlotLocked => 1
      case DiscStart(_) => 1
      case ResetStart => 3
      case ResetFlag => 2
      case ResetSlots => 1
      case Done => 0
  }

  function Sum(c: Count, ts: seq<Pc>): nat {
    if ts == [] then 0 else Weight(c, ts[0]) + Sum(c, ts[1..])
  }

  lemma {:induction false} SumUpdate(c: Count, ts: seq<Pc>, t: nat, pc: Pc)
    requires t < |ts|
    ensures Sum(c, ts[t := pc]) + Weight(c, ts[t]) == Sum(c, ts) + Weight(c, pc)
  {
    if t == 0 {
      assert ts[0 := pc][1..] == ts[1..];
    } else {
      assert ts[t := pc][1..] == ts[1..][t - 1 := pc];
      SumUpdate(c, ts[1..], t - 1, pc);
    }
  }

  // ----- what every run keeps

  /** Thread `k` has connected its slot. */
  predicate HasConnected(s: State, k: Tid)
    requires |s.threads| == |s.roles|
  {
    k < |s.threads| && s.roles[k].ConnStart? && !s.threads[k].ConnStart? && !s.threads[k].ConnLocked?
  }

  /** The mutex is held by exactly the thread that is inside a critical section. */
  predicate Exclusion(s: State) {
    && (forall t :: 0 <= t < |s.threads| ==> (s.mutex == Some(t) <==> Holds(s.threads[t])))
    && (s.mutex.Some? ==> s.mutex.value < |s.threads|)
  }

  /** Only slots that were connected are in the list, each once. */
  predicate SlotList(s: State)
    requires |s.threads| == |s.roles|
  {
    Distinct(s.m.slots) && forall k :: k in s.m.slots ==> HasConnected(s, k)
  }

  predicate Places(s: State)
    requires |s.threads| == |s.roles|
  {
    forall t :: 0 <= t < |s.threads| ==> WellFormed(s.threads[t]) && Follows(s.roles[t], s.threads[t])
  }

  /** Which places belong to which call. */
  predicate Follows(role: Pc, pc: Pc) {
    match role
    case TrigStart => pc == Done || pc.TrigStart? || pc.TrigWon? || pc.TrigLocked? || pc.TrigEmit?
                      || pc.TrigCalling? || pc.TrigSlot? || pc.TrigSlotLocked?
    case ConnStart => pc == Done || pc.ConnStart? || pc.ConnLocked? || pc.ConnDirect? || pc.ConnSlotLocked?
    case DiscStart(_) => pc == Done || pc == role
    case ResetStart => pc == Done || pc.ResetStart? || pc.ResetFlag? || pc.ResetSlots?
    case _ => false
  }

  predicate Inv(s: State) {
    |s.threads| == |s.roles| && Places(s) && Exclusion(s) && SlotList(s)
  }

  /** A list of different numbers below `n` has at most `n` entries. */
  lemma {:induction false} PigeonHole(slots: seq<Tid>, n: nat)
    requires Distinct(slots) && forall k :: k in slots ==> k < n
    ensures |slots| <= n
    decreases n
  {
    assert slots == [] || slots[0] in slots;
    if n != 0 {
      WithoutLength(slots, n - 1);
      PigeonHole(Without(slots, n - 1), n - 1);
    }
  }

  lemma {:induction false} WithoutLength(slots: seq<Tid>, k: Tid)
    requires Distinct(slots)
    ensures |slots| <= |Without(slots, k)| + 1
    ensures k !in slots ==> |slots| == |Without(slots, k)|
  {
    if slots != [] {
      WithoutLength(slots[1..], k);
    }
  }

  lemma InitInv(s: State)
    requires Init(s)
    ensures Inv(s)
  {
  }

  /** What a step does to the place of its thread and to the mutex. */
  lemma PlaceStep(s: State, t: Tid, spurious: bool)
    requires Inv(s) && Enabled(s, t)
    ensures var (pc, mutex, _, _) := Act(s, t, spurious);
            && WellFormed(pc) && Follows(s.roles[t], pc)
            && mutex == (if Holds(pc) then Some(t) else if Holds(s.threads[t]) then None else s.mutex)
            && (Holds(pc) ==> s.mutex.None?)
  {
  }

  lemma SlotListStep(s: State, t: Tid, spurious: bool)
    requires Inv(s) && Enabled(s, t)
    ensures SlotList(Step(s, t, spurious))
  {
    var s' := Step(s, t, spurious);
    if s.threads[t].ConnLocked? {
      assert t !in s.m.slots;
      assert s'.m.slots == s.m.slots + [t];
    } else {
      assert forall k :: k in s'.m.slots ==> k in s.m.slots;
    }
  }

  lemma InvStep(s: State, t: Tid, spurious: bool)
    requires Inv(s) && Enabled(s, t)
    ensures Inv(Step(s, t, spurious))
  {
    PlaceStep(s, t, spurious);
    SlotListStep(s, t, spurious);
  }

  lemma SlotsBounded(s: State)
    requires Inv(s)
    ensures |s.m.slots| <= |s.threads|
  {
    PigeonHole(s.m.slots, |s.threads|);
  }

  // ----- termination

  /** The steps left to all threads. No slot list can be longer than the number of threads. */
  function StepsLeftIn(s: State): nat {
    Sum(StepsLeft(|s.threads|), s.threads)
  }

  /** A step leaves its thread fewer steps, if at most `n` slots are connected. */
  lemma WeightDrops(s: State, t: Tid, spurious: bool, n: nat)
    requires Enabled(s, t) && |s.m.slots| <= n
    ensures Weight(StepsLeft(n), Act(s, t, spurious).0) < Weight(StepsLeft(n), s.threads[t])
  {
  }

  /** Every step, of any thread, uses up at least one of the steps left. */
  lemma StepDecreases(s: State, t: Tid, spurious: bool)
    requires Inv(s) && Enabled(s, t)
    ensures StepsLeftIn(Step(s, t, spurious)) < StepsLeftIn(s)
  {
    SumUpdate(StepsLeft(|s.threads|), s.threads, t, Act(s, t, spurious).0);
    SlotsBounded(s);
    WeightDrops(s, t, spurious, |s.threads|);
  }

  lemma TerminateNext(s: State, s': State)
    requires Inv(s) && Next(s, s')
    ensures Inv(s') && StepsLeftIn(s') < StepsLeftIn(s)
  {
    var t, spurious :| Enabled(s, t) && s' == Step(s, t, spurious);
    InvStep(s, t, spurious);
    StepDecreases(s, t, spurious);
  }

  /** Every run is finite: it has no more steps than its first state has left. */
  lemma {:induction false} RunsTerminate(ss: seq<State>)
    requires IsRun(ss)
    ensures Inv(ss[|ss| - 1])
    ensures |ss| - 1 + StepsLeftIn(ss[|ss| - 1]) <= StepsLeftIn(ss[0])
  {
    if |ss| == 1 {
      InitInv(ss[0]);
    } else {
      var front := ss[..|ss| - 1];
      RunsTerminate(front);
      assert front[0] == ss[0] && front[|front| - 1] == ss[|ss| - 2];
      TerminateNext(ss[|ss| - 2], ss[|ss| - 1]);
    }
  }

  /** No deadlock: as long as a thread is not done, some thread can take a step. */
  lemma SomeThreadCanStep(s: State)
    requires Inv(s) && !AllDone(s)
    ensures exists t :: Enabled(s, t)
  {
    if s.mutex.Some? {
      assert Enabled(s, s.mutex.value);
    } else {
      var t :| 0 <= t < |s.threads| && s.threads[t] != Done;
      assert Enabled(s, t);
    }
  }

  /** Over whole runs: a run that cannot be extended has finished every call, and while a thread is
      inside a slot and about to call `is_interrupted`, it does not hold the mutex. */
  lemma RunsFinish(ss: seq<State>)
    requires IsRun(ss)
    ensures var s := ss[|ss| - 1];
            && ((forall t :: !Enabled(s, t)) ==> AllDone(s))
            && forall t :: 0 <= t < |s.threads| && (s.threads[t].TrigSlot? || s.threads[t].ConnDirect?) ==> s.mutex != Some(t)
  {
    RunsTerminate(ss);
    if !AllDone(ss[|ss| - 1]) {
      SomeThreadCanStep(ss[|ss| - 1]);
    }
  }

  // ----- the emission budget

  /** Every raise of the flag leads to one emission, and between two raises lies a reset. */
  predicate Budget(s: State) {
    && s.h.emissions + Sum(AboutToEmit, s.threads) == s.h.raises
    && s.h.raises + (if s.m.interrupted then 0 else 1) <= 1 + s.h.clears
    && s.h.clears + Sum(ResetsLeft, s.threads) == Sum(ResetsLeft, s.roles)
  }

  lemma {:induction false} NobodyEmits(ts: seq<Pc>)
    requires forall t :: 0 <= t < |ts| ==> IsRole(ts[t])
    ensures Sum(AboutToEmit, ts) == 0
  {
    if ts != [] {
      NobodyEmits(ts[1..]);
    }
  }

  /** What a step does to the counters of the budget. */
  lemma EmissionsStep(s: State, t: Tid, spurious: bool)
    requires Enabled(s, t)
    ensures var (pc, _, _, h) := Act(s, t, spurious);
            h.emissions + Weight(AboutToEmit, pc) + s.h.raises == s.h.emissions + Weight(AboutToEmit, s.threads[t]) + h.raises
  {
  }

  lemma ClearsStep(s: State, t: Tid, spurious: bool)
    requires Enabled(s, t)
    ensures var (pc, _, m, h) := Act(s, t, spurious);
            && h.clears + Weight(ResetsLeft, pc) == s.h.clears + Weight(ResetsLeft, s.threads[t])
            && h.raises + (if m.interrupted then 0 else 1) + s.h.clears
               <= s.h.raises + (if s.m.interrupted then 0 else 1) + h.clears
  {
  }

  lemma BudgetStep(s: State, t: Tid, spurious: bool)
    requires Inv(s) && Enabled(s, t) && Budget(s)
    ensures Budget(Step(s, t, spurious))
  {
    EmissionsStep(s, t, spurious);
    ClearsStep(s, t, spurious);
    SumUpdate(AboutToEmit, s.threads, t, Act(s, t, spurious).0);
    SumUpdate(ResetsLeft, s.threads, t, Act(s, t, spurious).0);
  }

  lemma BudgetNext(s: State, s': State)
    requires Inv(s) && Budget(s) && Next(s, s')
    ensures Inv(s') && Budget(s') && s'.roles == s.roles
  {
    var t, spurious :| Enabled(s, t) && s' == Step(s, t, spurious);
    InvStep(s, t, spurious);
    BudgetStep(s, t, spurious);
  }

  /** In every run, resets racing with triggers included, the signal is emitted at most once more
      than there are resets. */
  lemma {:induction false} EmissionBudget(ss: seq<State>)
    requires IsRun(ss)
    ensures Inv(ss[|ss| - 1]) && Budget(ss[|ss| - 1]) && ss[|ss| - 1].roles == ss[0].roles
    ensures ss[|ss| - 1].h.emissions <= 1 + Sum(ResetsLeft, ss[0].roles)
  {
    if |ss| == 1 {
      InitInv(ss[0]);
      NobodyEmits(ss[0].threads);
    } else {
      var front := ss[..|ss| - 1];
      EmissionBudget(front);
      assert front[0] == ss[0] && front[|front| - 1] == ss[|ss| - 2];
      BudgetNext(ss[|ss| - 2], ss[|ss| - 1]);
    }
  }
}
