/** The stop source and its token as the program's objects: every method is one atomic action on the
    fields, and any schedule of calls makes them go through a run of the protocol. */
module StopObjects {
  import opened Prelude
  import opened StopProtocol
  import opened StopTermination
  import opened StopSafety
  import opened StopResets

  /** The fields of `StopSourceImpl` and `StopTokenImpl`. */
  class StopToken {
    var m_stopped: bool
    var m_interrupted: bool
    var m_sig: seq<Tid>

    constructor ()
      ensures View() == Shared(false, false, [])
    {
      m_stopped, m_interrupted, m_sig := false, false, [];
    }

    function View(): Shared
      reads this
    {
      Shared(m_stopped, m_interrupted, m_sig)
    }

    method TryStop(spurious: bool) returns (won: bool)
      modifies this
      ensures (View(), won) == CompareExchangeWeak(old(View()), spurious)
    {
      won := !m_stopped && !spurious;
      if won {
        m_stopped := true;
      }
    }

    method TriggerSection() returns (emit: bool)
      modifies this
      ensures (View(), emit) == RaiseFlag(old(View()))
    {
      var already_triggered := false;
      if m_interrupted {
        already_triggered := true;
      } else {
        m_interrupted := true;
      }
      emit := !already_triggered;
    }

    method ConnectSection(slot: Tid) returns (already_triggered: bool)
      modifies this
      ensures (View(), already_triggered) == AddSlot(old(View()), slot)
    {
      already_triggered := false;
      m_sig := m_sig + [slot];
      if m_interrupted {
        already_triggered := true;
      }
    }

    method Disconnect(slot: Tid)
      modifies this
      ensures View() == old(View()).(slots := Without(old(View()).slots, slot))
    {
      m_sig := Without(m_sig, slot);
    }

    /** The next atomic action of a thread that is at `pc`, and where it is then. */
    method Perform(pc: Pc, t: Tid, spurious: bool, ghost s: State) returns (pc': Pc)
      requires Enabled(s, t) && pc == s.threads[t] && View() == s.m
      modifies this
      ensures View() == Step(s, t, spurious).m && pc' == Step(s, t, spurious).threads[t]
    {
      if Locks(pc) {
        return AfterLock(pc);
      }
      match pc {
        case TrigStart =>
          var won := TryStop(spurious);
          pc' := if won then TrigWon else Done;
        case TrigLocked =>
          var emit := TriggerSection();
          pc' := if emit then TrigEmit else Done;
        case TrigEmit =>
          pc' := TrigCalling(m_sig);
        case TrigCalling(rest) =>
          pc' := if rest == [] then Done else if rest[0] in m_sig then TrigSlot(rest) else TrigCalling(rest[1..]);
        case TrigSlotLocked(rest) =>
          pc' := TrigCalling(rest[1..]);
        case ConnLocked =>
          var already_triggered := ConnectSection(t);
          pc' := if already_triggered then ConnDirect else Done;
        case ConnSlotLocked =>
          pc' := Done;
        case DiscStart(slot) =>
          Disconnect(slot);
          pc' := Done;
        case ResetStart =>
          m_stopped := false;
          pc' := ResetFlag;
        case ResetFlag =>
          m_interrupted := false;
          pc' := ResetSlots;
        case ResetSlots =>
          m_sig := [];
          pc' := Done;
      }
    }
  }

  /** Threads with the given calls take turns as the schedule says; a turn of a thread that is done or
      has to wait for the mutex is passed over. The objects go through a run of the protocol, so that
      whatever holds of every run holds of them. */
  method RunThreads(token: StopToken, calls: seq<Pc>, schedule: seq<(Tid, bool)>)
    returns (threads: seq<Pc>, ghost ss: seq<State>)
    requires token.View() == Shared(false, false, []) && forall t :: 0 <= t < |calls| ==> IsRole(calls[t])
    modifies token
    ensures IsRun(ss) && ss[0] == Start(calls) && threads == ss[|ss| - 1].threads && token.View() == ss[|ss| - 1].m
    ensures AllDone(ss[|ss| - 1]) ==> (token.m_stopped && !token.m_interrupted <==> Lost(ss))
    ensures AllDone(ss[|ss| - 1]) && OverlapsUndone(ss) && token.m_stopped ==>
              token.m_interrupted && AllTold(ss[|ss| - 1])
  {
    threads := calls;
    var mutex: Option<Tid> := None;
    ss := [Start(calls)];
    var i := 0;
    while i < |schedule|
      invariant 0 <= i <= |schedule|
      invariant IsRun(ss) && ss[0] == Start(calls)
      invariant var s := ss[|ss| - 1]; s.threads == threads && s.mutex == mutex && s.m == token.View()
    {
      var (t, spurious) := schedule[i];
      RunsTerminate(ss);
      if t < |threads| && threads[t] != Done && (!Locks(threads[t]) || mutex.None?) {
        ghost var s := ss[|ss| - 1];
        ghost var s';
        PlaceStep(s, t, spurious);
        var pc := token.Perform(threads[t], t, spurious, s);
        mutex := if Holds(pc) then Some(t) else if Holds(threads[t]) then None else mutex;
        threads := threads[t := pc];
        ss, s' := Take(ss, t, spurious);
      }
      i := i + 1;
    }
    if AllDone(ss[|ss| - 1]) {
      LostExactly(ss);
      if OverlapsUndone(ss) && token.m_stopped {
        StopNoticed(ss);
      }
    }
  }
}
