/** Runs that show that the main results of `Resume` and `ExactAccounting` fail when one of their
    hypotheses is dropped, or one of their conditions. Every run keeps the whole contract and all four
    hypotheses but the one it is about. */
module Witnesses {
  import opened Prelude
  import opened RequestUrl
  import opened Frame
  import opened Session
  import opened SessionRuns
  import opened Environment
  import opened Resume
  import opened ExactAccounting
  import opened Descriptors

  const A := "http://a"
  const B := "http://b"

  /** Every file is the two bytes 1, 2. */
  function TwoBytes(url: string): seq<Byte> { [1, 2] }

  function Ask(url: string, offset: nat): Recv {
    Received(RequestText(url, offset))
  }

  /** The request texts used below mean what they say. */
  lemma AskMeans(offset: nat)
    requires offset <= 2
    ensures Understand(Ask(A, offset)) == Wants(A, offset) && Understand(Ask(B, offset)) == Wants(B, offset)
  {
    assert forall i: nat :: OccursAt(A, OFFSET_KEYWORD, i) ==> i == 0;
    assert forall i: nat :: OccursAt(B, OFFSET_KEYWORD, i) ==> i == 0;
    assert A[0] != OFFSET_KEYWORD[0] && B[0] != OFFSET_KEYWORD[0];
    Mismatch(A, OFFSET_KEYWORD, 0, 0);
    Mismatch(B, OFFSET_KEYWORD, 0, 0);
    RequestRoundTrip(A, offset);
    RequestRoundTrip(B, offset);
  }

  const OK := Exchange(true, Received("next-chunk"), true)
  const STOP := Exchange(true, Received("abort"), true)
  const BYE := Exchange(true, Received("no-download"), true)

  lemma RepliesMean()
    ensures DataReply(OK.reply) == GoOn && DataReply(STOP.reply) == AbortRequest && ResultReply(BYE.reply) == GoOn
  {
  }

  /** One more step at the end of a run. */
  lemma Take(h: Hypotheses, ss: seq<State>, steps: seq<Step>, step: Step)
    returns (ss': seq<State>, steps': seq<Step>, s': State)
    requires IsContractRun(TwoBytes, h, ss, steps)
    requires Possible(Last(ss), step) && Contract(TwoBytes, Last(ss), step) && Keeps(h, Last(ss), step)
    ensures IsContractRun(TwoBytes, h, ss', steps') && s' == Last(ss') == Apply(Last(ss), step)
    ensures steps' == steps + [step]
  {
    s' := Apply(Last(ss), step);
    ss', steps' := ss + [s'], steps + [step];
    ContractRunExtended(TwoBytes, h, ss, steps, step);
  }

  lemma AcceptEffect(s: State, fd: int, url: string, offset: nat, id: JobId)
    requires id !in s.world.jobs && !s.crashed
    ensures var s' := Accept(s, fd, Wants(url, offset), Acknowledged(id));
            && !s'.crashed && s'.wire.socket == fd && s'.wire.open == s.wire.open + {fd}
            && s'.control == Control(true, Some(id), s.control.abortHandle, s.control.discard || Supersedes(s.control),
                                     s.control.clientOf[id := RSU])
            && (forall k :: k in s'.world.jobs <==> k in s.world.jobs || k == id)
            && (forall k :: k in s.world.jobs ==> s'.world.jobs[k] == JobAfter(s, k))
            && s'.world.jobs[id] == Job(RSU, url, offset, offset, Running, Outstanding, false, !s.control.abortHandle)
            && s'.world.latest == Some(id) && s'.world.client == Asks(s.world.client, url)
  {
    var asking := s.(wire := Open(s.wire, fd), world := s.world.(client := Asks(s.world.client, url)));
    forall k: JobId
      ensures k in Supersede(asking).world.jobs <==> k in s.world.jobs
      ensures k in s.world.jobs ==> Supersede(asking).world.jobs[k] == JobAfter(s, k)
    {
      SupersededJobs(asking, k);
    }
  }

  /** A connection that asks for a file from the byte it needs next and gets job `id`. */
  lemma Connect(h: Hypotheses, ss: seq<State>, steps: seq<Step>, fd: int, url: string, offset: nat, id: JobId)
    returns (ss': seq<State>, steps': seq<Step>, s': State)
    requires IsContractRun(TwoBytes, h, ss, steps) && !Last(ss).crashed
    requires (url == A || url == B) && offset == |Asks(Last(ss).world.client, url).held| <= 2
    requires 0 <= fd && fd !in Last(ss).wire.open && id !in Last(ss).world.jobs
    requires h.one ==> AtMostOneOutstands(Last(ss).world.jobs)
    ensures IsContractRun(TwoBytes, h, ss', steps')
    ensures s' == Last(ss') && !s'.crashed && s'.wire.socket == fd && s'.wire.open == Last(ss).wire.open + {fd}
    ensures var c := Last(ss).control;
            s'.control == Control(true, Some(id), c.abortHandle, c.discard || Supersedes(c), c.clientOf[id := RSU])
    ensures forall k :: k in s'.world.jobs <==> k in Last(ss).world.jobs || k == id
    ensures forall k :: k in Last(ss).world.jobs ==> s'.world.jobs[k] == JobAfter(Last(ss), k)
    ensures s'.world.jobs[id] == Job(RSU, url, offset, offset, Running, Outstanding, false, !Last(ss).control.abortHandle)
    ensures s'.world.latest == Some(id) && s'.world.client == Asks(Last(ss).world.client, url)
  {
    AskMeans(offset);
    AcceptEffect(Last(ss), fd, url, offset, id);
    ss', steps', s' := Take(h, ss, steps, AcceptStep(fd, Ask(url, offset), Acknowledged(id)));
  }

  /** The client answers a chunk by `next-chunk`. */
  lemma Chunk(h: Hypotheses, ss: seq<State>, steps: seq<Step>, id: JobId, data: seq<Byte>)
    returns (ss': seq<State>, steps': seq<Step>, s': State)
    requires IsContractRun(TwoBytes, h, ss, steps) && !Last(ss).crashed && |data| <= 2
    requires Live(Last(ss).world.jobs, id) && NextSlice(TwoBytes, Last(ss).world.jobs[id], data)
    ensures IsContractRun(TwoBytes, h, ss', steps') && s' == Last(ss')
    ensures s'.control == Last(ss).control && !s'.crashed && s'.wire.socket == Last(ss).wire.socket
    ensures s'.wire.open == Last(ss).wire.open && s'.world.latest == Last(ss).world.latest
    ensures !Last(ss).control.abortHandle && 0 <= Last(ss).wire.socket ==>
              s'.world.client == Last(ss).world.client.(held := Last(ss).world.client.held + data)
    ensures Last(ss).control.abortHandle ==> s'.world.client == Last(ss).world.client
    ensures Last(ss).control.abortHandle || 0 <= Last(ss).wire.socket ==>
              s'.world.jobs == Last(ss).world.jobs[id := Last(ss).world.jobs[id].(pos := Last(ss).world.jobs[id].pos + |data|)]
  {
    RepliesMean();
    ss', steps', s' := Take(h, ss, steps, WriteStep(id, data, OK));
  }

  /** The result of a job comes in; if it is sent, the client answers `no-download`. */
  lemma Result(h: Hypotheses, ss: seq<State>, steps: seq<Step>, id: JobId, op: OperationState)
    returns (ss': seq<State>, steps': seq<Step>, s': State)
    requires IsContractRun(TwoBytes, h, ss, steps) && !Last(ss).crashed && (op == Completed || op == Failed(0))
    requires Outstands(Last(ss).world.jobs, id) && id in Last(ss).control.clientOf && Last(ss).control.clientOf[id] == RSU
    requires op == Completed ==> Last(ss).world.jobs[id].pos == 2
    requires h.order && Last(ss).world.latest == Some(id) ==>
               forall k: JobId :: !Stale(Last(ss).world.jobs, Last(ss).world.latest, k)
    ensures IsContractRun(TwoBytes, h, ss', steps') && s' == Last(ss') && !s'.crashed
    ensures s'.control == if Last(ss).control.discard then Last(ss).control.(discard := false)
                          else Last(ss).control.(inProgress := false, abortHandle := false)
    ensures s'.world == SettleIn(Last(ss).world, id, if Last(ss).control.discard then Swallowed else Attempted)
    ensures 0 <= Last(ss).wire.socket || Last(ss).control.discard ==>
              s'.wire.socket == Last(ss).wire.socket && s'.wire.open == Last(ss).wire.open
  {
    RepliesMean();
    ss', steps', s' := Take(h, ss, steps, TerminalStep(id, op, BYE, Hangup, CallFailed));
  }

  function NewJob(url: string, offset: nat): Job {
    Job(RSU, url, offset, offset, Running, Outstanding, false, true)
  }

  /** The first connection has started job 1 for the whole of A. */
  lemma FirstJob(h: Hypotheses) returns (ss: seq<State>, steps: seq<Step>, s: State)
    ensures IsContractRun(TwoBytes, h, ss, steps) && s == Last(ss)
    ensures s.wire.socket == 3 && s.wire.open == {3} && !s.crashed
    ensures s.control == Control(true, Some(1), false, false, map[1 := RSU])
    ensures s.world.jobs.Keys == {1} && s.world.jobs[1] == NewJob(A, 0) && s.world.latest == Some(1) && s.world.client == Client(A, [])
  {
    s := Init(A);
    ss, steps := [s], [];
    ss, steps, s := Connect(h, ss, steps, 3, A, 0, 1);
  }

  // ----- two superseded jobs

  const ALL_BUT_ONE := Hypotheses(false, true, true, true)

  /** Job 1 is superseded by job 2. */
  lemma TwoJobs() returns (ss: seq<State>, steps: seq<Step>, s: State)
    ensures IsContractRun(TwoBytes, ALL_BUT_ONE, ss, steps) && s == Last(ss)
    ensures s.wire.socket == 4 && s.wire.open == {3, 4} && !s.crashed
    ensures s.control == Control(true, Some(2), false, true, map[1 := RSU, 2 := RSU])
    ensures s.world.jobs.Keys == {1, 2} && s.world.jobs[1] == NewJob(A, 0).(phase := Cancelled, superseded := true)
    ensures s.world.jobs[2] == NewJob(A, 0) && s.world.latest == Some(2) && s.world.client == Client(A, [])
  {
    ss, steps, s := FirstJob(ALL_BUT_ONE);
    ss, steps, s := Connect(ALL_BUT_ONE, ss, steps, 4, A, 0, 2);
  }

  /** Job 2 is superseded by job 3 before the result of job 1 is in; there is one discard flag. */
  lemma ThreeJobs() returns (ss: seq<State>, steps: seq<Step>, s: State)
    ensures IsContractRun(TwoBytes, ALL_BUT_ONE, ss, steps) && s == Last(ss)
    ensures s.wire.socket == 5 && s.wire.open == {3, 4, 5} && !s.crashed
    ensures s.control == Control(true, Some(3), false, true, map[1 := RSU, 2 := RSU, 3 := RSU])
    ensures s.world.jobs.Keys == {1, 2, 3} && s.world.jobs[1] == NewJob(A, 0).(phase := Cancelled, superseded := true)
    ensures s.world.jobs[2] == NewJob(A, 0).(phase := Cancelled, superseded := true)
    ensures s.world.jobs[3] == NewJob(A, 0) && s.world.latest == Some(3) && s.world.client == Client(A, [])
  {
    ss, steps, s := TwoJobs();
    ss, steps, s := Connect(ALL_BUT_ONE, ss, steps, 5, A, 0, 3);
  }

  /** The result of job 1 is swallowed; that of job 2 goes to the client and ends the download in
      progress, although job 3 is live. */
  lemma ResultOfSuperseded() returns (ss: seq<State>, steps: seq<Step>, s: State)
    ensures IsContractRun(TwoBytes, ALL_BUT_ONE, ss, steps) && s == Last(ss)
    ensures s.wire.socket == 5 && s.wire.open == {3, 4, 5} && !s.crashed
    ensures s.control == Control(false, Some(3), false, false, map[1 := RSU, 2 := RSU, 3 := RSU])
    ensures s.world.jobs.Keys == {1, 2, 3} && s.world.jobs[3] == NewJob(A, 0)
    ensures s.world.jobs[2] == NewJob(A, 0).(phase := Cancelled, superseded := true, verdict := Attempted)
    ensures s.world.latest == Some(3) && s.world.client == Client(A, [])
  {
    ss, steps, s := ThreeJobs();
    ss, steps, s := Result(ALL_BUT_ONE, ss, steps, 1, Failed(0));
    ss, steps, s := Result(ALL_BUT_ONE, ss, steps, 2, Failed(0));
  }

  /** Without the limit to one outstanding superseded job, the result of a superseded job is sent. */
  lemma OneOutstandingNeededForAccounting() returns (ss: seq<State>, steps: seq<Step>, s: State)
    ensures IsEventRun(ALL_BUT_ONE, ss, steps) && s == Last(ss) && IsRsu(s.world.jobs, 2) && !SettledRightly(s, 2)
    ensures s.world.jobs[2].superseded && s.world.jobs[2].verdict == Attempted
  {
    ss, steps, s := ResultOfSuperseded();
    ContractRunIsEventRun(TwoBytes, ALL_BUT_ONE, ss, steps);
  }

  /** So the next connection does not cancel job 3. */
  lemma TwoLiveJobs() returns (ss: seq<State>, steps: seq<Step>, s: State)
    ensures IsContractRun(TwoBytes, ALL_BUT_ONE, ss, steps) && s == Last(ss)
    ensures s.wire.socket == 6 && !s.crashed && !s.control.abortHandle
    ensures s.world.jobs.Keys == {1, 2, 3, 4} && s.world.jobs[3] == NewJob(A, 0) && s.world.jobs[4] == NewJob(A, 0)
    ensures s.world.client == Client(A, [])
  {
    ss, steps, s := ResultOfSuperseded();
    ss, steps, s := Connect(ALL_BUT_ONE, ss, steps, 6, A, 0, 4);
  }

  /** Without the limit to one outstanding superseded job, the client's bytes can be wrong. */
  lemma OneOutstandingNeeded() returns (ss: seq<State>, steps: seq<Step>, s: State)
    ensures IsContractRun(TwoBytes, ALL_BUT_ONE, ss, steps) && s == Last(ss)
    ensures !IsPrefix(TwoBytes, s.world.client)
  {
    ss, steps, s := TwoLiveJobs();
    RepliesMean();
    ss, steps, s := Chunk(ALL_BUT_ONE, ss, steps, 3, [1]);
    assert s.world.client.held == [1];
    ss, steps, s := Chunk(ALL_BUT_ONE, ss, steps, 4, [1]);
    assert s.world.client.held == [1, 1] && TwoBytes(A)[1] == 2;
  }

  // ----- results out of order

  const ALL_BUT_ORDER := Hypotheses(true, false, true, true)

  /** Job 1 has delivered all of A. */
  lemma AllDelivered() returns (ss: seq<State>, steps: seq<Step>, s: State)
    ensures IsContractRun(TwoBytes, ALL_BUT_ORDER, ss, steps) && s == Last(ss)
    ensures s.wire.socket == 3 && s.wire.open == {3} && !s.crashed
    ensures s.control == Control(true, Some(1), false, false, map[1 := RSU])
    ensures s.world.jobs.Keys == {1} && s.world.jobs[1] == NewJob(A, 0).(pos := 2)
    ensures s.world.latest == Some(1) && s.world.client == Client(A, [1, 2])
  {
    ss, steps, s := FirstJob(ALL_BUT_ORDER);
    ss, steps, s := Chunk(ALL_BUT_ORDER, ss, steps, 1, [1, 2]);
  }

  /** Then the client asks for B. */
  lemma SwitchedUrl() returns (ss: seq<State>, steps: seq<Step>, s: State)
    ensures IsContractRun(TwoBytes, ALL_BUT_ORDER, ss, steps) && s == Last(ss)
    ensures s.wire.socket == 4 && !s.crashed
    ensures s.control == Control(true, Some(2), false, true, map[1 := RSU, 2 := RSU])
    ensures s.world.jobs.Keys == {1, 2}
    ensures s.world.jobs[1] == NewJob(A, 0).(pos := 2, phase := Cancelled, superseded := true)
    ensures s.world.jobs[2] == NewJob(B, 0) && s.world.latest == Some(2) && s.world.client == Client(B, [])
  {
    ss, steps, s := AllDelivered();
    assert A[7] != B[7];
    ss, steps, s := Connect(ALL_BUT_ORDER, ss, steps, 4, B, 0, 2);
  }

  /** The result of job 2 comes first and is swallowed in place of that of job 1. */
  lemma NewestFirst() returns (ss: seq<State>, steps: seq<Step>, s: State)
    ensures IsContractRun(TwoBytes, ALL_BUT_ORDER, ss, steps) && s == Last(ss)
    ensures s.wire.socket == 4 && !s.crashed && s.control == Control(true, Some(2), false, false, map[1 := RSU, 2 := RSU])
    ensures s.world.jobs.Keys == {1, 2}
    ensures s.world.jobs[1] == NewJob(A, 0).(pos := 2, phase := Cancelled, superseded := true)
    ensures s.world.jobs[2] == NewJob(B, 0).(verdict := Swallowed)
    ensures s.world.latest == Some(2) && s.world.client == Client(B, [])
  {
    ss, steps, s := SwitchedUrl();
    ss, steps, s := Result(ALL_BUT_ORDER, ss, steps, 2, Failed(0));
  }

  /** With results out of order, a job that nothing superseded loses its result. */
  lemma OrderNeededForAccounting() returns (ss: seq<State>, steps: seq<Step>, s: State)
    ensures IsEventRun(ALL_BUT_ORDER, ss, steps) && s == Last(ss) && IsRsu(s.world.jobs, 2) && !SettledRightly(s, 2)
    ensures !s.world.jobs[2].superseded && s.world.jobs[2].verdict == Swallowed
  {
    ss, steps, s := NewestFirst();
    ContractRunIsEventRun(TwoBytes, ALL_BUT_ORDER, ss, steps);
  }

  /** And then the result of job 1, which is not the newest job any more, tells the client that a
      download is completed of which it holds nothing: `CompletedMeansWhole` is about the newest job only. */
  lemma NewestNeeded() returns (ss: seq<State>, steps: seq<Step>, s: State, last: Step)
    ensures IsContractRun(TwoBytes, ALL_BUT_ORDER, ss, steps) && s == Last(ss)
    ensures Possible(s, last) && Contract(TwoBytes, s, last) && Keeps(ALL_BUT_ORDER, s, last) && SendsCompleted(s, last, 1)
    ensures s.world.jobs[1].clean && s.world.latest != Some(1) && s.world.client.held != TwoBytes(s.world.client.url)
  {
    ss, steps, s := NewestFirst();
    last := TerminalStep(1, Completed, BYE, Hangup, CallFailed);
  }

  // ----- the shared job id

  const ALL_BUT_SND := Hypotheses(true, true, false, true)

  /** An SND download takes over the job id. */
  lemma SndMeanwhile() returns (ss: seq<State>, steps: seq<Step>, s: State)
    ensures IsContractRun(TwoBytes, ALL_BUT_SND, ss, steps) && s == Last(ss)
    ensures s.wire.socket == 3 && s.wire.open == {3} && !s.crashed
    ensures s.control == Control(true, Some(2), false, false, map[1 := RSU, 2 := SND])
    ensures s.world.jobs.Keys == {1, 2} && s.world.jobs[1] == NewJob(A, 0)
    ensures s.world.jobs[2] == NewJob(B, 0).(kind := SND)
    ensures s.world.latest == Some(1) && s.world.client == Client(A, [])
  {
    ss, steps, s := FirstJob(ALL_BUT_SND);
    ss, steps, s := Take(ALL_BUT_SND, ss, steps, SndStep(B, true, Acknowledged(2)));
  }

  /** So the next connection cancels it instead of job 1. */
  lemma WrongJobCancelled() returns (ss: seq<State>, steps: seq<Step>, s: State)
    ensures IsContractRun(TwoBytes, ALL_BUT_SND, ss, steps) && s == Last(ss)
    ensures s.wire.socket == 4 && !s.crashed && !s.control.abortHandle
    ensures s.world.jobs.Keys == {1, 2, 3} && s.world.jobs[1] == NewJob(A, 0).(superseded := true)
    ensures s.world.jobs[2].phase == Cancelled && s.world.jobs[3] == NewJob(A, 0) && s.world.client == Client(A, [])
  {
    ss, steps, s := SndMeanwhile();
    ss, steps, s := Connect(ALL_BUT_SND, ss, steps, 4, A, 0, 3);
  }

  /** If an SND download may start during an RSU download, the client's bytes can be wrong. */
  lemma SndWaitsNeeded() returns (ss: seq<State>, steps: seq<Step>, s: State)
    ensures IsContractRun(TwoBytes, ALL_BUT_SND, ss, steps) && s == Last(ss)
    ensures !IsPrefix(TwoBytes, s.world.client)
  {
    ss, steps, s := WrongJobCancelled();
    RepliesMean();
    ss, steps, s := Chunk(ALL_BUT_SND, ss, steps, 1, [1]);
    assert s.world.client.held == [1];
    ss, steps, s := Chunk(ALL_BUT_SND, ss, steps, 3, [1]);
    assert s.world.client.held == [1, 1] && TwoBytes(A)[1] == 2;
  }

  // ----- a pending abort

  const ALL := Hypotheses(true, true, true, true)

  /** The client aborts job 1. */
  lemma Aborted() returns (ss: seq<State>, steps: seq<Step>, s: State)
    ensures IsContractRun(TwoBytes, ALL, ss, steps) && s == Last(ss)
    ensures s.wire.socket == 3 && s.wire.open == {3} && !s.crashed
    ensures s.control == Control(true, Some(1), true, false, map[1 := RSU])
    ensures s.world.jobs.Keys == {1} && s.world.jobs[1] == NewJob(A, 0).(pos := 1, phase := Cancelled)
    ensures s.world.latest == Some(1) && s.world.client == Client(A, [1])
  {
    ss, steps, s := FirstJob(ALL);
    RepliesMean();
    ss, steps, s := Take(ALL, ss, steps, WriteStep(1, [1], STOP));
  }

  /** It reconnects before the result of job 1 is in; job 2 starts under the abort. */
  lemma StartedUnderAbort() returns (ss: seq<State>, steps: seq<Step>, s: State)
    ensures IsContractRun(TwoBytes, ALL, ss, steps) && s == Last(ss)
    ensures s.wire.socket == 4 && !s.crashed
    ensures s.control == Control(true, Some(2), true, true, map[1 := RSU, 2 := RSU])
    ensures s.world.jobs.Keys == {1, 2}
    ensures s.world.jobs[1] == NewJob(A, 0).(pos := 1, phase := Cancelled, superseded := true)
    ensures s.world.jobs[2] == NewJob(A, 1).(clean := false)
    ensures s.world.latest == Some(2) && s.world.client == Client(A, [1])
  {
    ss, steps, s := Aborted();
    ss, steps, s := Connect(ALL, ss, steps, 4, A, 1, 2);
  }

  /** A swallowed result does not clear the abort: all of job 2 is dropped, and still the client is told
      that it is completed. The condition of `CompletedMeansWhole` is needed. */
  lemma CleanNeeded() returns (ss: seq<State>, steps: seq<Step>, s: State, last: Step)
    ensures IsContractRun(TwoBytes, ALL, ss, steps) && s == Last(ss)
    ensures Possible(s, last) && Contract(TwoBytes, s, last) && Keeps(ALL, s, last) && SendsCompleted(s, last, 2)
    ensures s.world.client == Client(A, [1])
  {
    ss, steps, s := StartedUnderAbort();
    ss, steps, s := Result(ALL, ss, steps, 1, Failed(0));
    assert s.control == Control(true, Some(2), true, false, map[1 := RSU, 2 := RSU]);
    ss, steps, s := Chunk(ALL, ss, steps, 2, [2]);
    last := TerminalStep(2, Completed, BYE, Hangup, CallFailed);
  }

  // ----- a failed start

  const ALL_BUT_SUCCEEDS := Hypotheses(true, true, true, false)

  /** A connection cancels job 1, but its own download does not start. */
  lemma NotStarted() returns (ss: seq<State>, steps: seq<Step>, s: State)
    ensures IsContractRun(TwoBytes, ALL_BUT_SUCCEEDS, ss, steps) && s == Last(ss)
    ensures s.wire.socket == NO_SOCKET && s.wire.open == {3} && !s.crashed
    ensures s.control == Control(true, Some(1), false, true, map[1 := RSU])
    ensures s.world.jobs.Keys == {1} && s.world.jobs[1] == NewJob(A, 0).(phase := Cancelled, superseded := true)
    ensures s.world.latest == Some(1) && s.world.client == Client(A, [])
  {
    ss, steps, s := FirstJob(ALL_BUT_SUCCEEDS);
    AskMeans(0);
    ss, steps, s := Take(ALL_BUT_SUCCEEDS, ss, steps, AcceptStep(4, Ask(A, 0), CallFailed));
  }

  /** The result of job 1 comes in, and a later connection starts job 2. */
  lemma FailedStart() returns (ss: seq<State>, steps: seq<Step>, s: State)
    ensures IsContractRun(TwoBytes, ALL_BUT_SUCCEEDS, ss, steps) && s == Last(ss)
    ensures s.wire.socket == 5 && !s.crashed
    ensures s.control == Control(true, Some(2), false, true, map[1 := RSU, 2 := RSU])
    ensures s.world.jobs.Keys == {1, 2} && s.world.jobs[1].verdict == Swallowed && s.world.jobs[2] == NewJob(A, 0)
    ensures s.world.latest == Some(2) && s.world.client == Client(A, [])
  {
    ss, steps, s := NotStarted();
    ss, steps, s := Result(ALL_BUT_SUCCEEDS, ss, steps, 1, Failed(0));
    ss, steps, s := Connect(ALL_BUT_SUCCEEDS, ss, steps, 5, A, 0, 2);
  }

  /** After a failed start the next job loses its result although nothing superseded it and the client
      holds the whole file. */
  lemma SucceedsNeededForAccounting() returns (ss: seq<State>, steps: seq<Step>, s: State)
    ensures IsEventRun(ALL_BUT_SUCCEEDS, ss, steps) && s == Last(ss) && IsRsu(s.world.jobs, 2) && !SettledRightly(s, 2)
    ensures !s.world.jobs[2].superseded && s.world.jobs[2].verdict == Swallowed
    ensures s.world.jobs[2].pos == 2 && s.world.client == Client(A, [1, 2])
  {
    ss, steps, s := FailedStart();
    RepliesMean();
    ss, steps, s := Chunk(ALL_BUT_SUCCEEDS, ss, steps, 2, [1, 2]);
    assert s.world.client.held == [1, 2];
    ss, steps, s := Result(ALL_BUT_SUCCEEDS, ss, steps, 2, Completed);
    ContractRunIsEventRun(TwoBytes, ALL_BUT_SUCCEEDS, ss, steps);
  }

  // ----- leaked descriptors

  /** A run that keeps everything and yet loses the descriptor of the first connection. */
  lemma ConnectionLeaked() returns (ss: seq<State>, steps: seq<Step>, s: State)
    ensures IsContractRun(TwoBytes, ALL, ss, steps) && s == Last(ss)
    ensures Leaked(s.wire, 3) && s.wire.socket == 4
  {
    ss, steps, s := FirstJob(ALL);
    ss, steps, s := Connect(ALL, ss, steps, 4, A, 0, 2);
  }
}
