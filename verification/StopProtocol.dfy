/** The stop source and its token, src/stopToken/src/StopToken.cpp, as a protocol of any number of
    threads. Each step of a thread is one atomic action of the code: the compare-and-swap, taking the
    mutex, a critical section together with releasing the mutex, the snapshot of the slot list that
    Boost.Signals2 makes when a signal is emitted, the check that a slot is still connected, and the
    three assignments of `reset`. Every slot is a `processShutdown`: it calls `is_interrupted`, which
    takes the mutex, and stores the answer. A slot is named by the thread that connects it. */
module StopProtocol {
  import opened Prelude

  type Tid = nat

  /** Where a thread is. A name says what the thread does next, or what it holds. */
  datatype Pc =
    // StopSourceImpl::trigger and StopTokenImpl::trigger
    | TrigStart                       // the compare-and-swap
    | TrigWon                         // lock the mutex
    | TrigLocked                      // raise the flag and unlock
    | TrigEmit                        // emit: take the snapshot
    | TrigCalling(rest: seq<Tid>)     // the next slot of the snapshot
    | TrigSlot(rest: seq<Tid>)        // inside the slot rest[0], before is_interrupted locks
    | TrigSlotLocked(rest: seq<Tid>)  // inside is_interrupted
    // StopTokenImpl::connect
    | ConnStart                       // lock the mutex
    | ConnLocked                      // connect the slot, read the flag and unlock
    | ConnDirect                      // inside the slot called directly, before is_interrupted locks
    | ConnSlotLocked                  // inside is_interrupted
    // boost::signals2::connection::disconnect
    | DiscStart(slot: Tid)
    // StopSourceImpl::reset and StopTokenImpl::reset, which take no lock
    | ResetStart                      // m_stopped = false
    | ResetFlag                       // m_interrupted = false
    | ResetSlots                      // disconnect_all_slots
    | Done

  /** The data the threads share. */
  datatype Shared = Shared(stopped: bool, interrupted: bool, slots: seq<Tid>)

  /** What a run has done so far; nothing here influences a step. Times count steps. `stored` is what all
      runs of slots have stored, and `told` what each slot has stored last. */
  datatype History = History(
    clock: nat, winner: Option<Tid>, spurious: set<Tid>, flagAt: Option<nat>, snapAt: Option<nat>,
    connAt: map<Tid, nat>, disconnected: set<Tid>, runs: map<Tid, nat>, stored: seq<bool>,
    told: map<Tid, bool>, raises: nat, emissions: nat, clears: nat)

  /** `roles[t]` is where thread `t` began. */
  datatype State = State(roles: seq<Pc>, threads: seq<Pc>, mutex: Option<Tid>, m: Shared, h: History)

  // ----- the atomic actions on the shared data

  /** `compare_exchange_weak(false, true)`, which may fail although the value is `false`. */
  function CompareExchangeWeak(m: Shared, spurious: bool): (Shared, bool) {
    if m.stopped || spurious then (m, false) else (m.(stopped := true), true)
  }

  /** The critical section of `StopTokenImpl::trigger`: whether this call is the one to emit. */
  function RaiseFlag(m: Shared): (Shared, bool) {
    (m.(interrupted := true), !m.interrupted)
  }

  /** The critical section of `connect`: whether the slot has to be called directly. */
  function AddSlot(m: Shared, slot: Tid): (Shared, bool) {
    (m.(slots := m.slots + [slot]), m.interrupted)
  }

  function Without(slots: seq<Tid>, slot: Tid): (r: seq<Tid>)
    ensures forall k :: k in r <==> k in slots && k != slot
    ensures Distinct(slots) ==> Distinct(r)
  {
    if slots == [] then []
    else
      assert Distinct(slots) ==> Distinct(slots[1..]) && slots[0] !in slots[1..];
      var rest := Without(slots[1..], slot);
      if slots[0] == slot then rest else [slots[0]] + rest
  }

  predicate Distinct(slots: seq<Tid>) {
    forall i, j :: 0 <= i < j < |slots| ==> slots[i] != slots[j]
  }

  // ----- the steps

  /** Whether a thread at this place has to get the mutex for its next step. */
  predicate Locks(pc: Pc) {
    pc.TrigWon? || pc.TrigSlot? || pc.ConnStart? || pc.ConnDirect?
  }

  predicate Holds(pc: Pc) {
    pc.TrigLocked? || pc.TrigSlotLocked? || pc.ConnLocked? || pc.ConnSlotLocked?
  }

  predicate WellFormed(pc: Pc) {
    pc.TrigSlot? || pc.TrigSlotLocked? ==> pc.rest != []
  }

  predicate Enabled(s: State, t: Tid) {
    && t < |s.threads| && WellFormed(s.threads[t]) && s.threads[t] != Done
    && (Locks(s.threads[t]) ==> s.mutex.None?)
  }

  function AfterLock(pc: Pc): Pc
    requires Locks(pc)
  {
    match pc
    case TrigWon => TrigLocked
    case TrigSlot(rest) => TrigSlotLocked(rest)
    case ConnStart => ConnLocked
    case ConnDirect => ConnSlotLocked
  }

  function Runs(h: History, slot: Tid): nat {
    if slot in h.runs then h.runs[slot] else 0
  }

  /** A slot has run and has stored what `is_interrupted` returned. */
  function Ran(h: History, slot: Tid, interrupted: bool): History {
    h.(runs := h.runs[slot := Runs(h, slot) + 1], stored := h.stored + [interrupted], told := h.told[slot := interrupted])
  }

  /** The step of thread `t`: its next place, the mutex, the shared data and the history, except for
      the clock. */
  function Act(s: State, t: Tid, spurious: bool): (Pc, Option<Tid>, Shared, History)
    requires Enabled(s, t)
  {
    var pc, m, h := s.threads[t], s.m, s.h;
    if Locks(pc) then (AfterLock(pc), Some(t), m, h) else
    match pc
    case TrigStart =>
      var (m', won) := CompareExchangeWeak(m, spurious);
      if won then (TrigWon, s.mutex, m', h.(winner := Some(t)))
      else (Done, s.mutex, m', if m.stopped then h else h.(spurious := h.spurious + {t}))
    case TrigLocked =>
      var (m', emit) := RaiseFlag(m);
      if emit then (TrigEmit, None, m', h.(flagAt := Some(h.clock), raises := h.raises + 1))
      else (Done, None, m', h)
    case TrigEmit =>
      (TrigCalling(m.slots), s.mutex, m, h.(snapAt := Some(h.clock), emissions := h.emissions + 1))
    case TrigCalling(rest) =>
      (if rest == [] then Done else if rest[0] in m.slots then TrigSlot(rest) else TrigCalling(rest[1..]), s.mutex, m, h)
    case TrigSlotLocked(rest) => (TrigCalling(rest[1..]), None, m, Ran(h, rest[0], m.interrupted))
    case ConnLocked =>
      var (m', direct) := AddSlot(m, t);
      (if direct then ConnDirect else Done, None, m', h.(connAt := h.connAt[t := h.clock]))
    case ConnSlotLocked => (Done, None, m, Ran(h, t, m.interrupted))
    case DiscStart(slot) =>
      (Done, s.mutex, m.(slots := Without(m.slots, slot)), h.(disconnected := h.disconnected + {slot}))
    case ResetStart => (ResetFlag, s.mutex, m.(stopped := false), h)
    case ResetFlag => (ResetSlots, s.mutex, m.(interrupted := false), h.(clears := h.clears + 1))
    case ResetSlots =>
      (Done, s.mutex, m.(slots := []), h.(disconnected := h.disconnected + set k | k in m.slots))
  }

  function Step(s: State, t: Tid, spurious: bool): State
    requires Enabled(s, t)
  {
    var (pc, mutex, m, h) := Act(s, t, spurious);
    State(s.roles, s.threads[t := pc], mutex, m, h.(clock := h.clock + 1))
  }

  ghost predicate Next(s: State, s': State) {
    exists t, spurious :: Enabled(s, t) && s' == Step(s, t, spurious)
  }

  predicate IsRole(pc: Pc) {
    pc.TrigStart? || pc.ConnStart? || pc.DiscStart? || pc.ResetStart?
  }

  /** Nothing has happened yet and every thread is about to make its call. */
  predicate Init(s: State) {
    && s.threads == s.roles && (forall t :: 0 <= t < |s.roles| ==> IsRole(s.roles[t]))
    && s.mutex == None && s.m == Shared(false, false, [])
    && s.h == History(0, None, {}, None, None, map[], {}, map[], [], map[], 0, 0, 0)
  }

  ghost predicate IsRun(ss: seq<State>) {
    && ss != [] && Init(ss[0])
    && forall i :: 0 <= i < |ss| - 1 ==> Next(ss[i], ss[i + 1])
  }

  predicate AllDone(s: State) {
    forall t :: 0 <= t < |s.threads| ==> s.threads[t] == Done
  }

  predicate NoResets(s: State) {
    forall t :: 0 <= t < |s.roles| ==> !s.roles[t].ResetStart?
  }
}
