/** Completion routing over whole runs: what the results of SND downloads can influence. */
module Routing {
  import opened Prelude
  import opened Frame
  import opened Session
  import opened SessionRuns
  import opened Resume

  /** A job as far as the RSU session can tell: the record of an SND job's result is blanked. */
  function Blur(job: Job): Job {
    if job.kind == SND then job.(verdict := Outstanding, superseded := false) else job
  }

  function BlurJobs(jobs: map<JobId, Job>): map<JobId, Job> {
    map id | id in jobs :: Blur(jobs[id])
  }

  /** Two states that differ at most in the download status and in the records of SND results. */
  ghost predicate SameForRsu(s: State, t: State) {
    && s.wire == t.wire && s.control == t.control && s.crashed == t.crashed
    && s.world.latest == t.world.latest && s.world.client == t.world.client
    && BlurJobs(s.world.jobs) == BlurJobs(t.world.jobs)
  }

  /** Equal blurred maps agree entry by entry. */
  lemma Entry(jobs: map<JobId, Job>, jobs': map<JobId, Job>, id: JobId)
    requires BlurJobs(jobs) == BlurJobs(jobs')
    ensures id in jobs <==> id in jobs'
    ensures id in jobs ==> Blur(jobs[id]) == Blur(jobs'[id])
  {
    assert id in BlurJobs(jobs) <==> id in jobs;
    assert id in BlurJobs(jobs') <==> id in jobs';
    if id in jobs {
      assert BlurJobs(jobs)[id] == Blur(jobs[id]) && BlurJobs(jobs')[id] == Blur(jobs'[id]);
    }
  }

  /** Storing blurred-equal jobs under one id keeps the maps blurred-equal. */
  lemma Store(jobs: map<JobId, Job>, jobs': map<JobId, Job>, id: JobId, job: Job, job': Job)
    requires BlurJobs(jobs) == BlurJobs(jobs') && Blur(job) == Blur(job')
    ensures BlurJobs(jobs[id := job]) == BlurJobs(jobs'[id := job'])
  {
    assert BlurJobs(jobs[id := job]) == BlurJobs(jobs)[id := Blur(job)];
    assert BlurJobs(jobs'[id := job']) == BlurJobs(jobs')[id := Blur(job')];
  }

  lemma CancelSame(jobs: map<JobId, Job>, jobs': map<JobId, Job>, jobId: Option<JobId>)
    requires BlurJobs(jobs) == BlurJobs(jobs')
    ensures BlurJobs(CancelCurrent(jobs, jobId)) == BlurJobs(CancelCurrent(jobs', jobId))
  {
    if jobId.Some? {
      var id := jobId.value;
      Entry(jobs, jobs', id);
      if id in jobs {
        Store(jobs, jobs', id, jobs[id].(phase := Cancelled), jobs'[id].(phase := Cancelled));
      }
    }
  }

  lemma MarkSame(jobs: map<JobId, Job>, jobs': map<JobId, Job>, latest: Option<JobId>)
    requires BlurJobs(jobs) == BlurJobs(jobs')
    ensures BlurJobs(MarkSuperseded(jobs, latest)) == BlurJobs(MarkSuperseded(jobs', latest))
  {
    if latest.Some? {
      var id := latest.value;
      Entry(jobs, jobs', id);
      if id in jobs {
        Store(jobs, jobs', id, MarkSuperseded(jobs, latest)[id], MarkSuperseded(jobs', latest)[id]);
        assert jobs[id := jobs[id]] == jobs && jobs'[id := jobs'[id]] == jobs';
      }
    }
  }

  lemma SettleSame(jobs: map<JobId, Job>, jobs': map<JobId, Job>, id: JobId, verdict: Verdict)
    requires BlurJobs(jobs) == BlurJobs(jobs')
    ensures BlurJobs(Settle(jobs, id, verdict)) == BlurJobs(Settle(jobs', id, verdict))
  {
    Entry(jobs, jobs', id);
    if id in jobs {
      Store(jobs, jobs', id, jobs[id].(verdict := verdict), jobs'[id].(verdict := verdict));
    }
  }

  lemma WrittenSame(jobs: map<JobId, Job>, jobs': map<JobId, Job>, id: JobId, n: nat)
    requires BlurJobs(jobs) == BlurJobs(jobs')
    ensures BlurJobs(Written(jobs, id, n)) == BlurJobs(Written(jobs', id, n))
  {
    Entry(jobs, jobs', id);
    if id in jobs {
      Store(jobs, jobs', id, jobs[id].(phase := Refused), jobs'[id].(phase := Refused));
      Store(jobs, jobs', id, jobs[id].(pos := jobs[id].pos + n), jobs'[id].(pos := jobs'[id].pos + n));
    }
  }

  lemma BeginSame(s: State, t: State, kind: Kind, url: string, offset: nat, id: JobId)
    requires SameForRsu(s, t)
    ensures SameForRsu(BeginJob(s, kind, url, offset, id), BeginJob(t, kind, url, offset, id))
  {
    var job := Job(kind, url, offset, offset, Running, Outstanding, false, !s.control.abortHandle);
    Store(s.world.jobs, t.world.jobs, id, job, job);
  }

  lemma SupersedeSame(s: State, t: State)
    requires SameForRsu(s, t)
    ensures SameForRsu(Supersede(s), Supersede(t))
  {
    MarkSame(s.world.jobs, t.world.jobs, s.world.latest);
    CancelSame(MarkSuperseded(s.world.jobs, s.world.latest), MarkSuperseded(t.world.jobs, s.world.latest), s.control.jobId);
  }

  lemma HandleClientSame(s: State, t: State, asked: Asked, call: Call)
    requires SameForRsu(s, t)
    ensures SameForRsu(HandleClient(s, asked, call), HandleClient(t, asked, call))
  {
    SupersedeSame(s, t);
    if asked.Wants? {
      var s1 := s.(world := s.world.(client := Asks(s.world.client, asked.url)));
      var t1 := t.(world := t.world.(client := Asks(t.world.client, asked.url)));
      SupersedeSame(s1, t1);
      if call.Acknowledged? {
        BeginSame(Supersede(s1), Supersede(t1), RSU, asked.url, asked.offset, call.id);
      }
    }
  }

  lemma TransferSame(s: State, t: State, data: seq<Byte>, sent: bool, reply: Confirmation, taken: bool)
    requires SameForRsu(s, t)
    ensures SameForRsu(Transfer(s, data, sent, reply, taken), Transfer(t, data, sent, reply, taken))
  {
    CancelSame(s.world.jobs, t.world.jobs, s.control.jobId);
  }

  lemma WriteSame(s: State, t: State, id: JobId, data: seq<Byte>, x: Exchange)
    requires SameForRsu(s, t)
    ensures SameForRsu(Write(s, id, data, x), Write(t, id, data, x))
  {
    TransferSame(s, t, data, x.sent, DataReply(x.reply), x.taken);
    WrittenSame(WriteData(s, data, x).world.jobs, WriteData(t, data, x).world.jobs, id, Reported(s, data, x));
  }

  lemma NextDownloadSame(s: State, t: State, asked: Asked, call: Call)
    requires SameForRsu(s, t)
    ensures SameForRsu(NextDownload(s, asked, call), NextDownload(t, asked, call))
  {
    HandleClientSame(s, t, asked, call);
    var s1, t1 := HandleClient(s, asked, call), HandleClient(t, asked, call);
    CancelSame(s1.world.jobs, t1.world.jobs, s1.control.jobId);
  }

  lemma RsuResultSame(s: State, t: State, id: JobId, m: Message, sent: bool, reply: Confirmation, asked: Asked, call: Call)
    requires SameForRsu(s, t)
    ensures SameForRsu(RsuResult(s, id, m, sent, reply, asked, call), RsuResult(t, id, m, sent, reply, asked, call))
  {
    SettleSame(s.world.jobs, t.world.jobs, id, Swallowed);
    SettleSame(s.world.jobs, t.world.jobs, id, Attempted);
    if !s.control.discard {
      ResultIs(s, id, m, sent, reply, asked, call);
      ResultIs(t, id, m, sent, reply, asked, call);
      NextDownloadSame(AfterAttempt(s, id, m, sent, reply), AfterAttempt(t, id, m, sent, reply), asked, call);
    }
  }

  /** One step from states that look the same to the RSU session leads to such states. */
  lemma StepSame(s: State, t: State, step: Step)
    requires SameForRsu(s, t)
    ensures SameForRsu(Apply(s, step), Apply(t, step)) && (Possible(s, step) <==> Possible(t, step))
  {
    match step
    case AcceptStep(fd, request, call) =>
      HandleClientSame(s.(wire := Open(s.wire, fd)), t.(wire := Open(t.wire, fd)), Understand(request), call);
    case WriteStep(id, data, x) =>
      Entry(s.world.jobs, t.world.jobs, id);
      WriteSame(s, t, id, data, x);
    case TerminalStep(id, op, x, request, call) =>
      var status := TerminalStatus(op);
      if status.Some? {
        SettleSame(s.world.jobs, t.world.jobs, id, Routed);
        RsuResultSame(s, t, id, StatusMessage(status.value.0, status.value.1), x.sent, ResultReply(x.reply),
                      Understand(request), call);
      }
    case SndStep(url, created, call) =>
      if call.Acknowledged? {
        BeginSame(s.(status := IN_PROGRESS), t.(status := IN_PROGRESS), SND, url, 0, call.id);
      }
  }

  lemma {:induction false} ExecuteSame(s: State, t: State, steps: seq<Step>)
    requires SameForRsu(s, t)
    ensures SameForRsu(Execute(s, steps), Execute(t, steps))
    decreases |steps|
  {
    if steps != [] {
      StepSame(s, t, steps[0]);
      ExecuteSame(Apply(s, steps[0]), Apply(t, steps[0]), steps[1..]);
    }
  }

  /** The event of an SND job never matters to the RSU session: with or without it, whatever follows
      leads to the same frames, confirmations, flags, RSU jobs and client bytes. */
  lemma SndResultInvisible(s: State, step: Step, rest: seq<Step>)
    requires step.TerminalStep? && step.id in s.control.clientOf && s.control.clientOf[step.id] == SND
    requires step.id in s.world.jobs ==> s.world.jobs[step.id].kind == SND
    ensures SameForRsu(Execute(Apply(s, step), rest), Execute(s, rest))
  {
    if TerminalStatus(step.op).Some? && step.id in s.world.jobs {
      var id, jobs := step.id, s.world.jobs;
      Store(jobs, jobs, id, jobs[id].(verdict := Routed), jobs[id]);
      assert jobs[id := jobs[id]] == jobs;
    }
    ExecuteSame(Apply(s, step), s, rest);
  }

  /** What the starts and the results of SND downloads alone make of the download status. */
  function StatusOf(ss: seq<State>, steps: seq<Step>): DownloadState
    requires |ss| == |steps| + 1
  {
    if steps == [] then IN_PROGRESS
    else
      var s, step := ss[|ss| - 2], steps[|steps| - 1];
      if step.SndStep? then
        if SndStarts(step.url, step.created, step.call) then IN_PROGRESS else FAILED
      else if IsSndResult(s, step) then
        if step.op.Completed? then SUCCESS else FAILED
      else StatusOf(ss[..|ss| - 1], steps[..|steps| - 1])
  }

  predicate IsSndResult(s: State, step: Step) {
    && step.TerminalStep? && (step.op.Completed? || step.op.Failed?)
    && step.id in s.control.clientOf && s.control.clientOf[step.id] == SND
  }

  /** The download status is nobody else's: along any run it follows the SND downloads alone. */
  lemma {:induction false} StatusFollowsSnd(ss: seq<State>, steps: seq<Step>)
    requires IsRun(ss, steps)
    ensures Last(ss).status == StatusOf(ss, steps)
  {
    if steps != [] {
      RunFront(ss, steps);
      StatusFollowsSnd(ss[..|ss| - 1], steps[..|steps| - 1]);
      StatusStep(ss[|ss| - 2], steps[|steps| - 1]);
    }
  }

  lemma RsuResultStatus(s: State, id: JobId, m: Message, sent: bool, reply: Confirmation, asked: Asked, call: Call)
    ensures RsuResult(s, id, m, sent, reply, asked, call).status == s.status
  {
    if !s.control.discard {
      ResultIs(s, id, m, sent, reply, asked, call);
      HandleClientStatus(AfterAttempt(s, id, m, sent, reply), asked, call);
    }
  }

  lemma StatusStep(s: State, step: Step)
    ensures step.SndStep? ==> Apply(s, step).status == if SndStarts(step.url, step.created, step.call) then IN_PROGRESS else FAILED
    ensures IsSndResult(s, step) ==> Apply(s, step).status == if step.op.Completed? then SUCCESS else FAILED
    ensures !step.SndStep? && !IsSndResult(s, step) ==> Apply(s, step).status == s.status
  {
    match step
    case AcceptStep(fd, request, call) =>
      HandleClientStatus(s.(wire := Open(s.wire, fd)), Understand(request), call);
    case TerminalStep(id, op, x, request, call) =>
      var status := TerminalStatus(op);
      if status.Some? {
        RsuResultStatus(s, id, StatusMessage(status.value.0, status.value.1), x.sent, ResultReply(x.reply),
                        Understand(request), call);
      }
    case _ =>
  }

  lemma HandleClientStatus(s: State, asked: Asked, call: Call)
    ensures HandleClient(s, asked, call).status == s.status
  {
  }

  // ----- which client a result belongs to

  /** Job ids are fresh: no call is acknowledged with an id that is in the map already. */
  predicate FreshId(s: State, step: Step) {
    !step.WriteStep? && step.call.Acknowledged? ==> step.call.id !in s.control.clientOf
  }

  ghost predicate FreshIds(ss: seq<State>, steps: seq<Step>)
    requires |ss| == |steps| + 1
  {
    forall i :: 0 <= i < |steps| ==> FreshId(ss[i], steps[i])
  }

  lemma HandleClientMap(s: State, asked: Asked, call: Call)
    ensures HandleClient(s, asked, call).control.clientOf
            == if asked.Wants? && call.Acknowledged? then s.control.clientOf[call.id := RSU] else s.control.clientOf
  {
  }

  lemma ResultMap(s: State, id: JobId, m: Message, sent: bool, reply: Confirmation, asked: Asked, call: Call)
    ensures var map' := RsuResult(s, id, m, sent, reply, asked, call).control.clientOf;
            map' == s.control.clientOf || (call.Acknowledged? && map' == s.control.clientOf[call.id := RSU])
  {
    if !s.control.discard {
      ResultIs(s, id, m, sent, reply, asked, call);
      HandleClientMap(AfterAttempt(s, id, m, sent, reply), asked, call);
    }
  }

  /** A step adds at most the job it starts to the map, under the client it starts it for. */
  lemma MapStep(s: State, step: Step, id: JobId)
    requires FreshId(s, step)
    ensures var map' := Apply(s, step).control.clientOf;
            && (id in s.control.clientOf ==> id in map' && map'[id] == s.control.clientOf[id])
            && (id !in s.control.clientOf && id in map' ==> map'[id] == if step.SndStep? then SND else RSU)
  {
    match step
    case AcceptStep(fd, request, call) => HandleClientMap(s.(wire := Open(s.wire, fd)), Understand(request), call);
    case WriteStep(_, _, _) =>
    case TerminalStep(tid, op, x, request, call) =>
      var status := TerminalStatus(op);
      if status.Some? {
        ResultMap(s, tid, StatusMessage(status.value.0, status.value.1), x.sent, ResultReply(x.reply),
                  Understand(request), call);
      }
    case SndStep(_, _, _) =>
  }

  /** Step `i` starts job `id`. */
  predicate Starts(ss: seq<State>, i: nat, id: JobId)
    requires i + 1 < |ss|
  {
    id !in ss[i].control.clientOf && id in ss[i + 1].control.clientOf
  }

  lemma {:induction false} OriginKept(ss: seq<State>, steps: seq<Step>, i: nat, j: nat, id: JobId)
    requires IsRun(ss, steps) && FreshIds(ss, steps) && i < j < |ss| && Starts(ss, i, id)
    ensures id in ss[j].control.clientOf && ss[j].control.clientOf[id] == if steps[i].SndStep? then SND else RSU
  {
    MapStep(ss[j - 1], steps[j - 1], id);
    if i < j - 1 {
      OriginKept(ss, steps, i, j - 1, id);
    }
  }

  // ----- what becomes of the result of an RSU job

  /** Every job in the map is one the cloud knows. */
  ghost predicate Known(s: State) {
    forall id :: id in s.control.clientOf ==> id in s.world.jobs
  }

  /** The jobs that were there are still there, with the same result so far, and new ones are in the map
      and known at once. */
  ghost predicate KeepsResults(s: State, s': State) {
    && (forall id :: id in s.world.jobs ==> id in s'.world.jobs)
    && (forall id :: id in s'.control.clientOf && id !in s.control.clientOf ==> id in s'.world.jobs)
    && forall id :: id in s.control.clientOf && id in s.world.jobs ==>
         id in s'.world.jobs && s'.world.jobs[id].verdict == s.world.jobs[id].verdict
  }

  lemma SupersedeKeeps(s: State)
    ensures KeepsResults(s, Supersede(s))
  {
    forall id: JobId
      ensures id in s.world.jobs ==>
                id in Supersede(s).world.jobs && Supersede(s).world.jobs[id].verdict == s.world.jobs[id].verdict
    {
      SupersededJobs(s, id);
    }
  }

  lemma HandleClientKeeps(s: State, asked: Asked, call: Call)
    requires call.Acknowledged? ==> call.id !in s.control.clientOf
    ensures KeepsResults(s, HandleClient(s, asked, call))
  {
    SupersedeKeeps(s);
    if asked.Wants? {
      SupersedeKeeps(s.(world := s.world.(client := Asks(s.world.client, asked.url))));
    }
  }

  lemma NextDownloadKeeps(s: State, asked: Asked, call: Call)
    requires call.Acknowledged? ==> call.id !in s.control.clientOf
    ensures KeepsResults(s, NextDownload(s, asked, call))
  {
    HandleClientKeeps(s, asked, call);
    var s1 := HandleClient(s, asked, call);
    forall id: JobId
      ensures id in s1.world.jobs ==>
                && id in CancelCurrent(s1.world.jobs, s1.control.jobId)
                && CancelCurrent(s1.world.jobs, s1.control.jobId)[id].verdict == s1.world.jobs[id].verdict
    {
      CancelledJobs(s1.world.jobs, s1.control.jobId, id);
    }
  }

  lemma KnownAfter(s: State, s': State)
    requires Known(s) && KeepsResults(s, s')
    ensures Known(s')
  {
  }

  /** The result of an RSU job is swallowed exactly if a discard was pending, and then nothing goes out;
      otherwise there is one attempt to send it. */
  ghost predicate SwallowedOrAttempted(s: State, s': State, id: JobId) {
    && id in s'.world.jobs
    && (s.control.discard ==> s'.wire == s.wire && s'.world.jobs[id].verdict == Swallowed)
    && (!s.control.discard ==>
          && s.wire.trace + [ResultAttempt(id)] <= s'.wire.trace
          && Attempts(s'.wire.trace) == Attempts(s.wire.trace) + 1
          && s'.world.jobs[id].verdict == Attempted)
  }

  lemma AttemptComesFirst(s: State, id: JobId, m: Message, sent: bool, reply: Confirmation, asked: Asked, call: Call)
    requires !s.control.discard
    ensures s.wire.trace + [ResultAttempt(id)] <= RsuResult(s, id, m, sent, reply, asked, call).wire.trace
  {
    var s1 := AfterAttempt(s, id, m, sent, reply);
    ResultIs(s, id, m, sent, reply, asked, call);
    HandleClientWire(s1, asked, call);
    assert s.wire.trace + [ResultAttempt(id)] <= s1.wire.trace;
    assert s1.wire.trace <= Close(s1.wire).trace <= Close(Close(s1.wire)).trace;
  }

  lemma RsuResultRouted(s: State, id: JobId, m: Message, sent: bool, reply: Confirmation, asked: Asked, call: Call)
    requires Known(s) && id in s.control.clientOf && (call.Acknowledged? ==> call.id !in s.control.clientOf)
    ensures Known(RsuResult(s, id, m, sent, reply, asked, call))
    ensures SwallowedOrAttempted(s, RsuResult(s, id, m, sent, reply, asked, call), id)
  {
    if !s.control.discard {
      var s1 := AfterAttempt(s, id, m, sent, reply);
      AttemptComesFirst(s, id, m, sent, reply, asked, call);
      ResultAttempts(s, id, m, sent, reply, asked, call);
      ResultIs(s, id, m, sent, reply, asked, call);
      NextDownloadKeeps(s1, asked, call);
      KnownAfter(s1, NextDownload(s1, asked, call));
    }
  }

  lemma KnownStep(s: State, step: Step)
    requires Known(s) && FreshId(s, step)
    ensures Known(Apply(s, step))
  {
    match step
    case AcceptStep(fd, request, call) =>
      HandleClientKeeps(s.(wire := Open(s.wire, fd)), Understand(request), call);
    case WriteStep(id, data, x) => WriteKnown(s, id, data, x);
    case TerminalStep(id, op, x, request, call) =>
      var status := TerminalStatus(op);
      if status.Some? && id in s.control.clientOf {
        RsuResultRouted(s, id, StatusMessage(status.value.0, status.value.1), x.sent, ResultReply(x.reply),
                        Understand(request), call);
      }
    case SndStep(_, _, _) =>
  }

  lemma WriteKnown(s: State, id: JobId, data: seq<Byte>, x: Exchange)
    requires Known(s)
    ensures Known(Write(s, id, data, x))
  {
    forall k: JobId ensures k in s.world.jobs ==> k in CancelCurrent(s.world.jobs, s.control.jobId) {
      CancelledJobs(s.world.jobs, s.control.jobId, k);
    }
  }

  lemma {:induction false} KnownInRun(ss: seq<State>, steps: seq<Step>, i: nat)
    requires IsRun(ss, steps) && FreshIds(ss, steps) && i < |ss|
    ensures Known(ss[i])
  {
    if i != 0 {
      KnownInRun(ss, steps, i - 1);
      KnownStep(ss[i - 1], steps[i - 1]);
    }
  }

  /** Completion routing: however jobs interleave, an event of a job goes to the client whose request
      started it. For an SND download it sets the download status and touches nothing of the RSU session;
      for an RSU download it leaves the download status alone, and its result is swallowed or there is one
      attempt to send it; and an event that is neither Completed nor Failed has no effect. */
  lemma RoutedByOrigin(ss: seq<State>, steps: seq<Step>, i: nat, j: nat)
    requires IsRun(ss, steps) && FreshIds(ss, steps) && i < j < |steps| && steps[j].TerminalStep?
    requires Starts(ss, i, steps[j].id)
    ensures var s, s', op := ss[j], ss[j + 1], steps[j].op;
            if !op.Completed? && !op.Failed? then s' == s
            else if steps[i].SndStep? then
              && s'.wire == s.wire && s'.control == s.control && s'.world.client == s.world.client
              && s'.world.latest == s.world.latest && s'.status == (if op.Completed? then SUCCESS else FAILED)
              && forall k :: k in s.world.jobs && k != steps[j].id ==> k in s'.world.jobs && s'.world.jobs[k] == s.world.jobs[k]
            else s'.status == s.status && SwallowedOrAttempted(s, s', steps[j].id)
  {
    OriginKept(ss, steps, i, j, steps[j].id);
    KnownInRun(ss, steps, j);
    var TerminalStep(id, op, x, request, call) := steps[j];
    var status := TerminalStatus(op);
    if status.Some? && !steps[i].SndStep? {
      var m := StatusMessage(status.value.0, status.value.1);
      RsuResultStatus(ss[j], id, m, x.sent, ResultReply(x.reply), Understand(request), call);
      RsuResultRouted(ss[j], id, m, x.sent, ResultReply(x.reply), Understand(request), call);
    }
  }
}
