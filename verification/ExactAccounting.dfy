/** Exactly which results are swallowed, when every supersession leads to a new job. */
module ExactAccounting {
  import opened Prelude
  import opened Frame
  import opened Session
  import opened SessionRuns
  import opened Environment
  import opened Resume

  /** What the exact accounting needs; writes, SND downloads and clients are not restricted. */
  const ACCOUNTABLE := Hypotheses(true, true, false, true)

  // ----- the invariant

  /** The job's result, once in, was swallowed if the job was superseded and attempted otherwise. */
  predicate RightVerdict(job: Job) {
    match job.verdict
    case Outstanding => true
    case Swallowed => job.kind == RSU && job.superseded
    case Attempted => job.kind == RSU && !job.superseded
    case Routed => job.kind == SND
  }

  ghost predicate Verdicts(jobs: Jobs, latest: Option<JobId>) {
    && (forall id :: id in jobs ==> RightVerdict(jobs[id]))
    && (forall id :: IsRsu(jobs, id) && jobs[id].verdict == Outstanding ==> (jobs[id].superseded <==> latest != Some(id)))
  }

  /** The flags say exactly what is outstanding. */
  ghost predicate ExactFlags(s: State) {
    && (s.control.inProgress <==> LatestOutstands(s.world))
    && (s.control.discard <==> exists k: JobId :: Stale(s.world.jobs, s.world.latest, k))
    && (forall k: JobId, l: JobId :: Stale(s.world.jobs, s.world.latest, k) && Stale(s.world.jobs, s.world.latest, l) ==> k == l)
  }

  function AttemptsOf(trace: seq<Event>, id: JobId): nat {
    if trace == [] then 0
    else AttemptsOf(trace[..|trace| - 1], id) + if trace[|trace| - 1] == ResultAttempt(id) then 1 else 0
  }

  /** The trace holds one attempt for every job whose result was attempted, and none for others. */
  ghost predicate TraceAgrees(trace: seq<Event>, jobs: Jobs) {
    forall id: JobId :: AttemptsOf(trace, id) == if id in jobs && jobs[id].verdict == Attempted then 1 else 0
  }

  ghost predicate Exact(s: State) {
    && Flags(s) && Resume.Names(s) && ExactFlags(s)
    && Verdicts(s.world.jobs, s.world.latest) && TraceAgrees(s.wire.trace, s.world.jobs)
  }

  // ----- the trace

  lemma AppendAttemptsOf(trace: seq<Event>, e: Event, id: JobId)
    ensures AttemptsOf(trace + [e], id) == AttemptsOf(trace, id) + if e == ResultAttempt(id) then 1 else 0
  {
    assert (trace + [e])[..|trace|] == trace;
  }

  lemma AppendOther(trace: seq<Event>, e: Event, jobs: Jobs)
    requires !e.ResultAttempt?
    ensures TraceAgrees(trace + [e], jobs) <==> TraceAgrees(trace, jobs)
  {
    forall id: JobId ensures AttemptsOf(trace + [e], id) == AttemptsOf(trace, id) {
      AppendAttemptsOf(trace, e, id);
    }
  }

  lemma SendMessageAgrees(w: Wire, m: Message, sent: bool, reply: Confirmation, jobs: Jobs)
    requires TraceAgrees(w.trace, jobs)
    ensures TraceAgrees(SendMessage(w, m, sent, reply).trace, jobs)
    ensures TraceAgrees(Close(w).trace, jobs)
  {
    var w1 := Emit(w, FrameSent(w.socket, m));
    var w2 := Emit(w1, Confirmed(w.socket));
    AppendOther(w.trace, Closed(w.socket), jobs);
    AppendOther(w.trace, FrameSent(w.socket, m), jobs);
    AppendOther(w1.trace, Closed(w.socket), jobs);
    AppendOther(w1.trace, Confirmed(w.socket), jobs);
    AppendOther(w2.trace, Closed(w.socket), jobs);
  }

  /** Jobs whose verdicts and marks did not change agree with the same traces. */
  ghost predicate SameVerdicts(jobs: Jobs, jobs': Jobs) {
    && (forall id :: id in jobs <==> id in jobs')
    && forall id :: id in jobs ==>
         jobs'[id].verdict == jobs[id].verdict && jobs'[id].superseded == jobs[id].superseded && jobs'[id].kind == jobs[id].kind
  }

  lemma SameVerdictsKeep(jobs: Jobs, jobs': Jobs, latest: Option<JobId>, trace: seq<Event>)
    requires SameVerdicts(jobs, jobs')
    ensures Verdicts(jobs, latest) ==> Verdicts(jobs', latest)
    ensures TraceAgrees(trace, jobs) ==> TraceAgrees(trace, jobs')
    ensures forall k: JobId :: Outstands(jobs', k) <==> Outstands(jobs, k)
    ensures forall k: JobId :: Stale(jobs', latest, k) <==> Stale(jobs, latest, k)
  {
    forall k: JobId
      ensures Outstands(jobs', k) <==> Outstands(jobs, k)
      ensures Stale(jobs', latest, k) <==> Stale(jobs, latest, k)
    {
      assert k in jobs <==> k in jobs';
    }
  }

  /** What is outstanding did not change, nor did the flags. */
  lemma KeepFlags(s: State, s': State)
    requires ExactFlags(s) && s'.control.inProgress == s.control.inProgress && s'.control.discard == s.control.discard
    requires s'.world.latest == s.world.latest
    requires forall k: JobId :: Outstands(s'.world.jobs, k) <==> Outstands(s.world.jobs, k)
    requires forall k: JobId :: Stale(s'.world.jobs, s.world.latest, k) <==> Stale(s.world.jobs, s.world.latest, k)
    ensures ExactFlags(s')
  {
    if k: JobId :| Stale(s.world.jobs, s.world.latest, k) {
      assert Stale(s'.world.jobs, s.world.latest, k);
    }
    if k: JobId :| Stale(s'.world.jobs, s.world.latest, k) {
      assert Stale(s.world.jobs, s.world.latest, k);
    }
  }

  lemma KeepNames(s: State, s': State)
    requires Flags(s) && Resume.Names(s) && SameVerdicts(s.world.jobs, s'.world.jobs) && s'.world.latest == s.world.latest
    requires s'.control.inProgress == s.control.inProgress && s'.control.discard == s.control.discard
    requires s'.control.jobId == s.control.jobId && s'.control.clientOf == s.control.clientOf
    requires s'.control.abortHandle ==> s.control.jobId.Some?
    ensures Flags(s') && Resume.Names(s')
  {
    if s'.world.jobs != map[] {
      var id :| id in s'.world.jobs;
      assert id in s.world.jobs;
    }
  }

  /** A step that changes neither a verdict nor a flag keeps the invariant. */
  lemma KeepExact(s: State, s': State)
    requires Exact(s) && s'.control.inProgress == s.control.inProgress && s'.control.discard == s.control.discard
    requires s'.control.jobId == s.control.jobId && s'.control.clientOf == s.control.clientOf
    requires s'.control.abortHandle ==> s.control.jobId.Some?
    requires SameVerdicts(s.world.jobs, s'.world.jobs) && s'.world.latest == s.world.latest
    requires TraceAgrees(s'.wire.trace, s.world.jobs)
    ensures Exact(s')
  {
    SameVerdictsKeep(s.world.jobs, s'.world.jobs, s.world.latest, s'.wire.trace);
    KeepFlags(s, s');
    KeepNames(s, s');
  }

  // ----- requests

  /** When at most one result is outstanding it is that of the newest job. */
  lemma NoneStale(s: State)
    requires Exact(s) && AtMostOneOutstands(s.world.jobs)
    ensures forall k: JobId :: !Stale(s.world.jobs, s.world.latest, k)
  {
    forall k: JobId ensures !Stale(s.world.jobs, s.world.latest, k) {
      assert Outstands(s.world.jobs, k) && LatestOutstands(s.world) ==> s.world.latest.value == k;
    }
  }

  lemma CancelledMarks(jobs: Jobs, jobId: Option<JobId>)
    ensures SameVerdicts(jobs, CancelCurrent(jobs, jobId))
  {
    forall k: JobId
      ensures k in CancelCurrent(jobs, jobId) <==> k in jobs
      ensures k in jobs ==> CancelCurrent(jobs, jobId)[k] == jobs[k].(phase := CancelCurrent(jobs, jobId)[k].phase)
    {
      CancelledJobs(jobs, jobId, k);
    }
  }

  /** Job `k` once a new RSU job has been started in a state without stale results. */
  lemma StartedJob(s: State, url: string, offset: nat, id: JobId, k: JobId)
    requires Exact(s) && id !in s.world.jobs && !Stale(s.world.jobs, s.world.latest, k)
    ensures var jobs, jobs' := s.world.jobs, StartRsu(Supersede(s), url, offset, Acknowledged(id)).world.jobs;
            && (k in jobs' <==> k in jobs || k == id)
            && (k in jobs ==> jobs'[k].kind == jobs[k].kind && jobs'[k].verdict == jobs[k].verdict)
            && (k == id ==> Outstands(jobs', k) && !jobs'[k].superseded)
            && (k in jobs' ==> RightVerdict(jobs'[k]))
            && (Outstands(jobs', k) ==> (jobs'[k].superseded <==> k != id))
            && (Stale(jobs', Some(id), k) <==> s.world.latest == Some(k) && Outstands(jobs, k))
  {
    SupersededJobs(s, k);
    assert !Supersedes(s.control) ==> !LatestOutstands(s.world);
  }

  /** The jobs once a new RSU job has been started in a state without stale results. */
  lemma StartedJobs(s: State, url: string, offset: nat, id: JobId)
    requires Exact(s) && id !in s.world.jobs
    requires forall k: JobId :: !Stale(s.world.jobs, s.world.latest, k)
    ensures var s' := StartRsu(Supersede(s), url, offset, Acknowledged(id));
            && Verdicts(s'.world.jobs, Some(id)) && TraceAgrees(s.wire.trace, s'.world.jobs) && Resume.Names(s')
            && Outstands(s'.world.jobs, id)
            && forall k: JobId :: Stale(s'.world.jobs, Some(id), k) <==> s.world.latest == Some(k) && Outstands(s.world.jobs, k)
  {
    var s' := StartRsu(Supersede(s), url, offset, Acknowledged(id));
    var jobs, jobs' := s.world.jobs, s'.world.jobs;
    forall k: JobId
      ensures Stale(jobs', Some(id), k) <==> s.world.latest == Some(k) && Outstands(jobs, k)
      ensures Outstands(jobs', k) ==> (jobs'[k].superseded <==> k != id)
      ensures k in jobs' ==> RightVerdict(jobs'[k])
      ensures k == id ==> Outstands(jobs', k)
      ensures k in jobs' <==> k in jobs || k == id
      ensures k in jobs ==> jobs'[k].kind == jobs[k].kind && jobs'[k].verdict == jobs[k].verdict
    {
      StartedJob(s, url, offset, id, k);
    }
  }

  /** A new RSU job in a state without stale results: the job it supersedes, if any, becomes the one
      stale result. */
  lemma StartExact(s: State, url: string, offset: nat, id: JobId)
    requires Exact(s) && id !in s.world.jobs
    requires forall k: JobId :: !Stale(s.world.jobs, s.world.latest, k)
    ensures Exact(StartRsu(Supersede(s), url, offset, Acknowledged(id)))
  {
    StartedJobs(s, url, offset, id);
    var s' := StartRsu(Supersede(s), url, offset, Acknowledged(id));
    if LatestOutstands(s.world) {
      assert Stale(s'.world.jobs, Some(id), s.world.latest.value);
    }
    assert !s.control.discard;
    assert ExactFlags(s');
  }

  lemma HandleClientExact(s: State, asked: Asked, call: Call)
    requires Exact(s) && FreshCall(s.world.jobs, call)
    requires asked.Wants? && call.Acknowledged? ==> forall k: JobId :: !Stale(s.world.jobs, s.world.latest, k)
    requires Supersedes(s.control) && !asked.Useless? ==> asked.Wants? && call.Acknowledged?
    ensures Exact(HandleClient(s, asked, call))
  {
    SendMessageAgrees(s.wire, Message(Data, 0, []), false, Lost, s.world.jobs);
    match asked
    case Useless => KeepExact(s, HandleClient(s, asked, call));
    case Throwing => assert Supersede(s) == s;
    case Wants(url, offset) =>
      var asking := s.(world := s.world.(client := Asks(s.world.client, url)));
      KeepExact(s, asking);
      if call.Acknowledged? {
        StartExact(asking, url, offset, call.id);
      } else {
        KeepExact(s, HandleClient(s, asked, call));
      }
  }

  // ----- results

  /** A result that comes in order is the only one that can be stale. */
  lemma OnlyThatStale(s: State, id: JobId)
    requires ExactFlags(s) && Outstands(s.world.jobs, id)
    requires s.world.latest == Some(id) ==> forall k: JobId :: !Stale(s.world.jobs, s.world.latest, k)
    ensures forall k: JobId :: Stale(s.world.jobs, s.world.latest, k) ==> k == id
  {
    assert s.world.latest != Some(id) ==> Stale(s.world.jobs, s.world.latest, id);
  }

  lemma SettledVerdicts(s: State, id: JobId, verdict: Verdict)
    requires Exact(s) && Outstands(s.world.jobs, id) && (verdict == Swallowed || verdict == Attempted)
    requires verdict == Swallowed <==> s.control.discard
    requires forall k: JobId :: Stale(s.world.jobs, s.world.latest, k) ==> k == id
    ensures var jobs' := Settle(s.world.jobs, id, verdict);
            Verdicts(jobs', s.world.latest) && forall k: JobId :: !Stale(jobs', s.world.latest, k)
    ensures !Outstands(Settle(s.world.jobs, id, verdict), id)
    ensures !s.control.discard ==> s.world.latest == Some(id)
  {
    SettledJobs(s.world.jobs, id, verdict);
    var jobs' := Settle(s.world.jobs, id, verdict);
    forall k: JobId ensures !Stale(jobs', s.world.latest, k) {
      assert Outstands(jobs', k) ==> Outstands(s.world.jobs, k) && k != id;
      assert !Stale(s.world.jobs, s.world.latest, k) || k == id;
    }
    assert s.control.discard ==> Stale(s.world.jobs, s.world.latest, id);
    assert !s.control.discard ==> !Stale(s.world.jobs, s.world.latest, id);
  }

  lemma SwallowExact(s: State, id: JobId)
    requires Exact(s) && Outstands(s.world.jobs, id) && s.control.discard
    requires forall k: JobId :: Stale(s.world.jobs, s.world.latest, k) ==> k == id
    ensures Exact(s.(control := s.control.(discard := false), world := SettleIn(s.world, id, Swallowed)))
  {
    SettledVerdicts(s, id, Swallowed);
    SettledJobs(s.world.jobs, id, Swallowed);
    assert Stale(s.world.jobs, s.world.latest, id);
  }

  lemma AttemptAgrees(trace: seq<Event>, jobs: Jobs, id: JobId)
    requires TraceAgrees(trace, jobs) && Outstands(jobs, id)
    ensures TraceAgrees(trace + [ResultAttempt(id)], Settle(jobs, id, Attempted))
  {
    forall k: JobId ensures AttemptsOf(trace + [ResultAttempt(id)], k) == AttemptsOf(trace, k) + if k == id then 1 else 0 {
      AppendAttemptsOf(trace, ResultAttempt(id), k);
    }
  }

  lemma AttemptExact(s: State, id: JobId, s1: State)
    requires Exact(s) && Outstands(s.world.jobs, id) && !s.control.discard
    requires forall k: JobId :: Stale(s.world.jobs, s.world.latest, k) ==> k == id
    requires s1 == State(s1.wire, s.control.(inProgress := false, abortHandle := false), SettleIn(s.world, id, Attempted),
                         s.status, s.crashed)
    requires TraceAgrees(s1.wire.trace, Settle(s.world.jobs, id, Attempted))
    ensures Exact(s1) && forall k: JobId :: !Stale(s1.world.jobs, s1.world.latest, k)
  {
    SettledVerdicts(s, id, Attempted);
  }

  lemma ThrownExact(s: State)
    requires Exact(s) && !s.control.inProgress
    ensures Exact(NextDownload(s, Throwing, CallFailed))
  {
    SendMessageAgrees(s.wire, Message(Data, 0, []), false, Lost, s.world.jobs);
    CancelledMarks(s.world.jobs, s.control.jobId);
    KeepExact(s, NextDownload(s, Throwing, CallFailed));
  }

  lemma NextDownloadExact(s: State, asked: Asked, call: Call)
    requires Exact(s) && FreshCall(s.world.jobs, call) && !s.control.inProgress
    requires forall k: JobId :: !Stale(s.world.jobs, s.world.latest, k)
    ensures Exact(NextDownload(s, asked, call))
  {
    if asked.Throwing? {
      assert NextDownload(s, asked, call) == NextDownload(s, Throwing, CallFailed);
      ThrownExact(s);
    } else {
      HandleClientExact(s, asked, call);
    }
  }

  lemma RsuResultExact(s: State, id: JobId, m: Message, sent: bool, reply: Confirmation, asked: Asked, call: Call)
    requires Exact(s) && Outstands(s.world.jobs, id) && FreshCall(s.world.jobs, call)
    requires forall k: JobId :: Stale(s.world.jobs, s.world.latest, k) ==> k == id
    ensures Exact(RsuResult(s, id, m, sent, reply, asked, call))
  {
    if s.control.discard {
      SwallowExact(s, id);
    } else {
      var s1 := AfterAttempt(s, id, m, sent, reply);
      AttemptAgrees(s.wire.trace, s.world.jobs, id);
      SendMessageAgrees(Emit(s.wire, ResultAttempt(id)), m, sent, reply, Settle(s.world.jobs, id, Attempted));
      AttemptExact(s, id, s1);
      ResultIs(s, id, m, sent, reply, asked, call);
      NextDownloadExact(s1, asked, call);
    }
  }

  /** RSU jobs are untouched, and no attempt is gained or lost. */
  ghost predicate SameRsu(jobs: Jobs, jobs': Jobs) {
    && (forall k :: IsRsu(jobs', k) <==> IsRsu(jobs, k))
    && (forall k :: IsRsu(jobs, k) ==> jobs'[k] == jobs[k])
    && (forall k :: k in jobs' && jobs'[k].kind == SND ==> RightVerdict(jobs'[k]))
  }

  lemma SameRsuKeeps(jobs: Jobs, jobs': Jobs, latest: Option<JobId>, trace: seq<Event>)
    requires SameRsu(jobs, jobs') && Verdicts(jobs, latest) && TraceAgrees(trace, jobs)
    ensures Verdicts(jobs', latest) && TraceAgrees(trace, jobs')
    ensures forall k: JobId :: Outstands(jobs', k) <==> Outstands(jobs, k)
    ensures forall k: JobId :: Stale(jobs', latest, k) <==> Stale(jobs, latest, k)
  {
    forall k: JobId
      ensures Outstands(jobs', k) <==> Outstands(jobs, k)
      ensures Stale(jobs', latest, k) <==> Stale(jobs, latest, k)
      ensures k in jobs' ==> RightVerdict(jobs'[k])
      ensures (k in jobs' && jobs'[k].verdict == Attempted) <==> (k in jobs && jobs[k].verdict == Attempted)
    {
      assert IsRsu(jobs', k) <==> IsRsu(jobs, k);
    }
  }

  /** A step of an SND download. */
  lemma KeepRsu(s: State, s': State)
    requires Exact(s) && SameRsu(s.world.jobs, s'.world.jobs) && s'.world.latest == s.world.latest
    requires s'.control.inProgress == s.control.inProgress && s'.control.discard == s.control.discard
    requires s'.wire == s.wire && Flags(s') && Resume.Names(s')
    ensures Exact(s')
  {
    SameRsuKeeps(s.world.jobs, s'.world.jobs, s.world.latest, s.wire.trace);
    KeepFlags(s, s');
  }

  lemma SndExact(s: State, id: JobId, completed: bool)
    requires Exact(s) && !IsRsu(s.world.jobs, id) && id in s.world.jobs && s.world.jobs[id].verdict == Outstanding
    ensures Exact(SndResult(s, id, completed))
  {
    var s' := SndResult(s, id, completed);
    assert SameRsu(s.world.jobs, s'.world.jobs);
    KeepRsu(s, s');
  }

  lemma BegunSnd(s: State, url: string, id: JobId)
    requires Exact(s) && id !in s.world.jobs
    ensures var s' := BeginJob(s, SND, url, 0, id);
            SameRsu(s.world.jobs, s'.world.jobs) && Flags(s') && Resume.Names(s')
  {
  }

  lemma SndStartExact(s: State, url: string, created: bool, call: Call)
    requires Exact(s) && FreshCall(s.world.jobs, call)
    ensures Exact(SndStart(s, url, created, call))
  {
    if SndStarts(url, created, call) {
      BegunSnd(s.(status := IN_PROGRESS), url, call.id);
      KeepRsu(s, SndStart(s, url, created, call));
    }
  }

  // ----- chunks

  lemma WrittenExact(s: State, id: JobId, n: nat)
    requires Exact(s)
    ensures Exact(s.(world := s.world.(jobs := Written(s.world.jobs, id, n))))
  {
    KeepExact(s, s.(world := s.world.(jobs := Written(s.world.jobs, id, n))));
  }

  lemma TransferExact(s: State, data: seq<Byte>, sent: bool, reply: Confirmation, taken: bool)
    requires Exact(s)
    ensures Exact(Transfer(s, data, sent, reply, taken))
  {
    var w := SendMessage(s.wire, Message(Data, 0, data), sent, reply);
    SendMessageAgrees(s.wire, Message(Data, 0, data), sent, reply, s.world.jobs);
    AppendOther(w.trace, AbortTaken, s.world.jobs);
    CancelledMarks(s.world.jobs, s.control.jobId);
    KeepExact(s, Transfer(s, data, sent, reply, taken));
  }

  lemma WriteExact(s: State, id: JobId, data: seq<Byte>, x: Exchange)
    requires Exact(s)
    ensures Exact(Write(s, id, data, x))
  {
    if data != [] && !s.control.abortHandle {
      TransferExact(s, data, x.sent, DataReply(x.reply), x.taken);
    }
    WrittenExact(WriteData(s, data, x), id, Reported(s, data, x));
  }

  lemma TerminalExact(s: State, id: JobId, op: OperationState, x: Exchange, asked: Asked, call: Call)
    requires Exact(s) && id in s.world.jobs && s.world.jobs[id].verdict == Outstanding && FreshCall(s.world.jobs, call)
    requires TerminalStatus(op).Some? && s.world.latest == Some(id) ==> forall k: JobId :: !Stale(s.world.jobs, s.world.latest, k)
    ensures Exact(Terminal(s, id, op, x, asked, call))
  {
    var status := TerminalStatus(op);
    if status.Some? {
      if IsRsu(s.world.jobs, id) {
        OnlyThatStale(s, id);
        RsuResultExact(s, id, StatusMessage(status.value.0, status.value.1), x.sent, ResultReply(x.reply), asked, call);
      } else {
        SndExact(s, id, status.value.0);
      }
    }
  }

  lemma AcceptExact(s: State, fd: int, asked: Asked, call: Call)
    requires Exact(s) && FreshCall(s.world.jobs, call)
    requires asked.Wants? && call.Acknowledged? ==> AtMostOneOutstands(s.world.jobs)
    requires Supersedes(s.control) && !asked.Useless? ==> asked.Wants? && call.Acknowledged?
    ensures Exact(Accept(s, fd, asked, call))
  {
    var accepted := s.(wire := Open(s.wire, fd));
    AppendOther(s.wire.trace, Opened(fd), s.world.jobs);
    KeepExact(s, accepted);
    if asked.Wants? && call.Acknowledged? {
      NoneStale(s);
    }
    HandleClientExact(accepted, asked, call);
  }

  lemma ExactStep(s: State, step: Step)
    requires Exact(s) && Possible(s, step) && EventContract(s, step) && Keeps(ACCOUNTABLE, s, step)
    ensures Exact(Apply(s, step))
  {
    match step
    case AcceptStep(fd, request, call) => AcceptExact(s, fd, Understand(request), call);
    case WriteStep(id, data, x) => WriteExact(s, id, data, x);
    case TerminalStep(id, op, x, request, call) => TerminalExact(s, id, op, x, Understand(request), call);
    case SndStep(url, created, call) => SndStartExact(s, url, created, call);
  }

  // ----- main result

  lemma {:induction false} ExactRun(ss: seq<State>, steps: seq<Step>)
    requires IsEventRun(ACCOUNTABLE, ss, steps)
    ensures Exact(Last(ss))
  {
    if steps != [] {
      RunFront(ss, steps);
      EventRunFront(ACCOUNTABLE, ss, steps);
      ExactRun(ss[..|ss| - 1], steps[..|steps| - 1]);
      ExactStep(ss[|ss| - 2], steps[|steps| - 1]);
    }
  }

  /** A result that came in was swallowed exactly if a newer connection had superseded its job, and led
      to one attempt exactly if not. */
  ghost predicate SettledRightly(s: State, id: JobId)
    requires id in s.world.jobs
  {
    var job := s.world.jobs[id];
    && (job.verdict != Outstanding ==>
          && (job.verdict == Swallowed <==> job.superseded)
          && AttemptsOf(s.wire.trace, id) == if job.superseded then 0 else 1)
    && (job.verdict == Outstanding ==> AttemptsOf(s.wire.trace, id) == 0)
  }

  /** Exactly the results of superseded jobs are swallowed, and every other job whose result came in
      has exactly one attempt in the trace. */
  lemma ExactlySupersededSwallowed(ss: seq<State>, steps: seq<Step>, id: JobId)
    requires IsEventRun(ACCOUNTABLE, ss, steps) && IsRsu(Last(ss).world.jobs, id)
    ensures SettledRightly(Last(ss), id)
  {
    ExactRun(ss, steps);
    assert RightVerdict(Last(ss).world.jobs[id]);
  }
}
