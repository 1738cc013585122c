/** Slots that are disconnected stay disconnected: what a reset and a disconnect do to the slot list of
    every run, told by the list and by where the threads are. */
module StopDisconnect {
  import opened Prelude
  import opened StopProtocol
  import opened StopTermination
  import opened StopSafety

  /** From `s` to `s'`, thread `t` has taken the last step of a reset. */
  predicate ResetTaken(s: State, s': State, t: Tid) {
    t < |s.threads| == |s'.threads| && s.threads[t].ResetSlots? && s'.threads[t].Done?
  }

  /** From `s` to `s'`, thread `t` has disconnected slot `k`. */
  predicate DisconnectTaken(s: State, s': State, t: Tid, k: Tid) {
    t < |s.threads| == |s'.threads| && s.threads[t] == DiscStart(k) && s'.threads[t].Done?
  }

  ghost predicate Removes(s: State, s': State, k: Tid) {
    exists t: Tid :: ResetTaken(s, s', t) || DisconnectTaken(s, s', t, k)
  }

  predicate Entering(s: State, s': State, u: Tid, k: Tid) {
    && u < |s.threads| == |s'.threads| && !s.threads[u].TrigSlot?
    && s'.threads[u].TrigSlot? && s'.threads[u].rest != [] && s'.threads[u].rest[0] == k
  }

  ghost predicate NobodyEnters(s: State, s': State, k: Tid) {
    forall u: Tid :: !Entering(s, s', u, k)
  }

  /** What one step does to the list and to the places. */
  lemma ListStep(s: State, t: Tid, spurious: bool, k: Tid)
    requires Inv(s) && Enabled(s, t)
    ensures var s', pc := Step(s, t, spurious), s.threads[t];
            && s'.threads == s.threads[t := s'.threads[t]] && s'.threads[t] != pc
            && (k in s'.m.slots <==> (k in s.m.slots && pc != ResetSlots && pc != DiscStart(k)) || (pc.ConnLocked? && k == t))
            && (pc.ResetSlots? || pc.DiscStart? ==> s'.threads[t].Done?)
  {
    assert Follows(s.roles[t], s.threads[t]);
    var pc := s.threads[t];
    if pc.TrigCalling? && pc.rest != [] {
      assert |pc.rest[1..]| < |pc.rest|;
    }
  }

  /** Exactly when a slot leaves the list: in the last step of a reset, or when it is disconnected. */
  lemma LeavesExactly(s: State, s': State, k: Tid)
    requires Inv(s) && Next(s, s') && k in s.m.slots
    ensures k !in s'.m.slots <==> Removes(s, s', k)
  {
    var t: Tid, spurious :| Enabled(s, t) && s' == Step(s, t, spurious);
    ListStep(s, t, spurious, k);
    assert HasConnected(s, k);
    if s.threads[t].ResetSlots? {
      assert ResetTaken(s, s', t);
    }
    if s.threads[t] == DiscStart(k) {
      assert DisconnectTaken(s, s', t, k);
    }
    if u: Tid :| ResetTaken(s, s', u) || DisconnectTaken(s, s', u, k) {
      assert u == t;
    }
  }

  /** A slot that has been connected and is not in the list comes back in no step, and no trigger goes into it. */
  lemma GoneNext(s: State, s': State, k: Tid)
    requires Inv(s) && Next(s, s') && HasConnected(s, k) && k !in s.m.slots
    ensures Inv(s') && HasConnected(s', k) && k !in s'.m.slots
    ensures NobodyEnters(s, s', k)
  {
    var t: Tid, spurious :| Enabled(s, t) && s' == Step(s, t, spurious);
    InvStep(s, t, spurious);
    ListStep(s, t, spurious, k);
    ConnectedThen(s, t, spurious, k);
    forall u: Tid ensures !Entering(s, s', u, k) {
      assert u != t && u < |s.threads| ==> s'.threads[u] == s.threads[u];
    }
  }

  lemma SameRoles(s: State, s': State)
    requires Next(s, s')
    ensures s'.roles == s.roles
  {
  }

  lemma {:induction false} InvInRun(ss: seq<State>, i: nat)
    requires IsRun(ss) && i < |ss|
    ensures Inv(ss[i]) && ss[i].roles == ss[0].roles
  {
    if i == 0 {
      InitInv(ss[0]);
    } else {
      InvInRun(ss, i - 1);
      assert Next(ss[i - 1], ss[i - 1 + 1]);
      TerminateNext(ss[i - 1], ss[i]);
      SameRoles(ss[i - 1], ss[i]);
    }
  }

  /** Slot `k` has been connected and is not in the list. */
  predicate Gone(s: State, k: Tid) {
    |s.threads| == |s.roles| && HasConnected(s, k) && k !in s.m.slots
  }

  lemma GoneAfter(ss: seq<State>, i: nat, k: Tid)
    requires IsRun(ss) && i + 1 < |ss| && Gone(ss[i], k)
    ensures Gone(ss[i + 1], k) && NobodyEnters(ss[i], ss[i + 1], k)
  {
    InvInRun(ss, i);
    assert Next(ss[i], ss[i + 1]);
    GoneNext(ss[i], ss[i + 1], k);
  }

  ghost predicate StaysGone(ss: seq<State>, k: Tid, n: nat) {
    n + 1 < |ss| && Gone(ss[n], k) ==> Gone(ss[n + 1], k)
  }

  lemma {:induction false} GoneFrom(ss: seq<State>, i: nat, j: nat, k: Tid)
    requires i <= j < |ss| && Gone(ss[i], k) && forall n: nat :: StaysGone(ss, k, n)
    ensures Gone(ss[j], k)
  {
    if i < j {
      GoneFrom(ss, i, j - 1, k);
      assert StaysGone(ss, k, j - 1);
    }
  }

  lemma AlwaysGone(ss: seq<State>, i: nat, j: nat, k: Tid)
    requires IsRun(ss) && i <= j < |ss| && Gone(ss[i], k)
    ensures Gone(ss[j], k)
  {
    forall n: nat ensures StaysGone(ss, k, n) {
      if n + 1 < |ss| && Gone(ss[n], k) {
        GoneAfter(ss, n, k);
      }
    }
    GoneFrom(ss, i, j, k);
  }

  // ----- main results

  /** Once a slot has been disconnected, by a reset or on its own, it is in the list of no later state, and
      no later step of any trigger goes into it. */
  lemma DisconnectedForGood(ss: seq<State>, i: nat, j: nat, k: Tid)
    requires IsRun(ss) && i < j < |ss| && k in ss[i].m.slots && Removes(ss[i], ss[i + 1], k)
    ensures k !in ss[j].m.slots
    ensures j + 1 < |ss| ==> NobodyEnters(ss[j], ss[j + 1], k)
  {
    InvInRun(ss, i);
    assert Next(ss[i], ss[i + 1]);
    LeavesExactly(ss[i], ss[i + 1], k);
    InvInRun(ss, i + 1);
    assert HasConnected(ss[i], k);
    ConnectedNext(ss[i], ss[i + 1], k);
    AlwaysGone(ss, i + 1, j, k);
    if j + 1 < |ss| {
      GoneAfter(ss, j, k);
    }
  }

  lemma ConnectedNext(s: State, s': State, k: Tid)
    requires Inv(s) && Next(s, s') && HasConnected(s, k)
    ensures |s'.threads| == |s'.roles| && HasConnected(s', k)
  {
    var t: Tid, spurious :| Enabled(s, t) && s' == Step(s, t, spurious);
    ConnectedThen(s, t, spurious, k);
  }

  /** Every call of `connect` has connected its slot. */
  ghost predicate AllConnected(s: State)
    requires |s.threads| == |s.roles|
  {
    forall k: Tid :: k < |s.roles| && s.roles[k].ConnStart? ==> HasConnected(s, k)
  }

  /** A thread that has not stopped the source, or that has nothing to call. */
  predicate CallsNobody(pc: Pc) {
    pc.TrigStart? || pc.TrigWon? || pc.TrigLocked? || pc.TrigEmit? || pc.Done? || (pc.TrigCalling? && pc.rest == [])
  }

  /** Nobody is connected and nobody will be, and thread `u` has nobody to call. */
  ghost predicate Nobody(s: State, u: Tid) {
    && |s.threads| == |s.roles| && AllConnected(s) && s.m.slots == []
    && u < |s.threads| && CallsNobody(s.threads[u])
  }

  lemma NobodyNext(s: State, s': State, u: Tid)
    requires Inv(s) && Next(s, s') && Nobody(s, u)
    ensures Nobody(s', u)
  {
    var t: Tid, spurious :| Enabled(s, t) && s' == Step(s, t, spurious);
    assert Follows(s.roles[t], s.threads[t]);
    assert s.roles[t].ConnStart? ==> HasConnected(s, t);
    forall k: Tid | k < |s.roles| && s.roles[k].ConnStart? ensures HasConnected(s', k) {
      ConnectedThen(s, t, spurious, k);
    }
  }

  lemma NobodyAfter(ss: seq<State>, i: nat, u: Tid)
    requires IsRun(ss) && i + 1 < |ss| && Nobody(ss[i], u)
    ensures Nobody(ss[i + 1], u)
  {
    InvInRun(ss, i);
    assert Next(ss[i], ss[i + 1]);
    NobodyNext(ss[i], ss[i + 1], u);
  }

  ghost predicate StaysNobody(ss: seq<State>, u: Tid, n: nat) {
    n + 1 < |ss| && Nobody(ss[n], u) ==> Nobody(ss[n + 1], u)
  }

  lemma {:induction false} NobodyFrom(ss: seq<State>, i: nat, j: nat, u: Tid)
    requires i <= j < |ss| && Nobody(ss[i], u) && forall n: nat :: StaysNobody(ss, u, n)
    ensures Nobody(ss[j], u)
  {
    if i < j {
      NobodyFrom(ss, i, j - 1, u);
      assert StaysNobody(ss, u, j - 1);
    }
  }

  lemma ResetEmpties(s: State, s': State, t: Tid)
    requires Inv(s) && Next(s, s') && ResetTaken(s, s', t)
    ensures s'.m.slots == [] && |s'.threads| == |s'.roles| && (AllConnected(s) ==> AllConnected(s'))
  {
    var u: Tid, spurious :| Enabled(s, u) && s' == Step(s, u, spurious);
    forall k: Tid | AllConnected(s) && k < |s.roles| && s.roles[k].ConnStart? ensures HasConnected(s', k) {
      ConnectedNext(s, s', k);
    }
    assert u == t;
  }

  /** After a reset that comes behind every connect, a trigger that comes behind the reset runs no slot. */
  lemma TriggerAfterReset(ss: seq<State>, i: nat, j: nat, t: Tid, u: Tid)
    requires IsRun(ss) && i < j < |ss| && ResetTaken(ss[i], ss[i + 1], t)
    requires |ss[i].threads| == |ss[i].roles| && AllConnected(ss[i])
    requires u < |ss[i + 1].threads| && ss[i + 1].threads[u].TrigStart?
    ensures ss[j].m.slots == []
    ensures u < |ss[j].threads| && !ss[j].threads[u].TrigSlot? && !ss[j].threads[u].TrigSlotLocked?
  {
    InvInRun(ss, i);
    assert Next(ss[i], ss[i + 1]);
    ResetEmpties(ss[i], ss[i + 1], t);
    forall n: nat ensures StaysNobody(ss, u, n) {
      if n + 1 < |ss| && Nobody(ss[n], u) {
        NobodyAfter(ss, n, u);
      }
    }
    NobodyFrom(ss, i + 1, j, u);
  }
}
