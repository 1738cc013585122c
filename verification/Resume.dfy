/** End-to-end resume: over lost connections and reconnects the RSU client's bytes are always a prefix
    of the file, and a Completed result frame tells the truth. */
module Resume {
  import opened Prelude
  import opened RequestUrl
  import opened Frame
  import opened Session
  import opened SessionRuns
  import opened Environment

  // ----- the invariant

  /** The map of client types and the jobs agree; the named jobs exist. */
  ghost predicate Names(s: State) {
    && (forall id :: id in s.world.jobs <==> id in s.control.clientOf)
    && (forall id :: id in s.world.jobs ==> s.control.clientOf[id] == s.world.jobs[id].kind)
    && (s.world.latest.Some? ==> IsRsu(s.world.jobs, s.world.latest.value))
  }

  /** Only the newest RSU job can be live, and then it is the job the gateway would cancel; a download
      is in progress as long as a result is outstanding; at most one older result is outstanding, and if
      the newest is as well, the discard flag waits for one of them. */
  ghost predicate Order(s: State) {
    && (forall id: JobId :: Live(s.world.jobs, id) ==> s.world.latest == Some(id) && s.control.jobId == Some(id))
    && (forall id: JobId :: Outstands(s.world.jobs, id) ==> s.control.inProgress)
    && (LatestOutstands(s.world) ==> forall id: JobId :: Stale(s.world.jobs, s.world.latest, id) ==> s.control.discard)
    && (forall id: JobId, k: JobId :: Stale(s.world.jobs, s.world.latest, id) && Stale(s.world.jobs, s.world.latest, k) ==> id == k)
  }

  predicate IsPrefix(files: Files, client: Client) {
    client.held <= files(client.url)
  }

  /** A job that started under an abort is never let through; one that did not is stopped by one. */
  predicate AbortsKnown(s: State) {
    LatestOutstands(s.world) ==>
      var job := s.world.jobs[s.world.latest.value];
      && (!job.clean ==> s.control.abortHandle)
      && (job.clean && s.control.abortHandle ==> job.phase != Running)
  }

  /** While a connection is up, the newest job serves what the client asked for. */
  predicate Attached(s: State) {
    LatestOutstands(s.world) && 0 <= s.wire.socket ==>
      var job, client := s.world.jobs[s.world.latest.value], s.world.client;
      && job.url == client.url
      && (job.clean ==> job.pos <= |client.held|)
      && (!job.clean ==> |client.held| == job.offset)
      && (job.phase == Running && !s.control.abortHandle ==> job.pos == |client.held|)
  }

  ghost predicate Core(files: Files, s: State) {
    Flags(s) && Names(s) && Order(s) && IsPrefix(files, s.world.client) && AbortsKnown(s)
  }

  ghost predicate Inv(files: Files, s: State) {
    Core(files, s) && (s.crashed || Attached(s))
  }

  /** A step that leaves the names and the flags alone and settles or starts nothing. */
  ghost predicate SameResults(s: State, s': State) {
    && s'.control == s.control.(abortHandle := s'.control.abortHandle) && s'.world.latest == s.world.latest
    && (forall k: JobId :: k in s'.world.jobs <==> k in s.world.jobs)
    && (forall k: JobId :: k in s.world.jobs ==> s'.world.jobs[k].kind == s.world.jobs[k].kind)
    && (forall k: JobId :: k in s.world.jobs ==> s'.world.jobs[k].verdict == s.world.jobs[k].verdict)
    && (forall k: JobId :: Live(s'.world.jobs, k) ==> Live(s.world.jobs, k))
  }

  lemma SameOrder(s: State, s': State)
    requires Names(s) && Order(s) && SameResults(s, s')
    ensures Names(s') && Order(s') && (LatestOutstands(s'.world) <==> LatestOutstands(s.world))
  {
    forall k: JobId
      ensures Outstands(s'.world.jobs, k) <==> Outstands(s.world.jobs, k)
      ensures Stale(s'.world.jobs, s'.world.latest, k) <==> Stale(s.world.jobs, s.world.latest, k)
    {
    }
  }

  // ----- requests

  lemma MarkedJobs(jobs: Jobs, latest: Option<JobId>, id: JobId)
    ensures id in MarkSuperseded(jobs, latest) <==> id in jobs
    ensures id in jobs ==>
              MarkSuperseded(jobs, latest)[id] == jobs[id].(
                superseded := jobs[id].superseded || (latest == Some(id) && jobs[id].verdict == Outstanding))
  {
  }

  lemma CancelledJobs(jobs: Jobs, jobId: Option<JobId>, id: JobId)
    ensures id in CancelCurrent(jobs, jobId) <==> id in jobs
    ensures id in jobs ==> CancelCurrent(jobs, jobId)[id] == jobs[id].(
              phase := if jobId == Some(id) && jobs[id].phase == Running then Cancelled else jobs[id].phase)
  {
  }

  /** What a supersession makes of job `id`. */
  function JobAfter(s: State, id: JobId): Job
    requires id in s.world.jobs
  {
    var job := s.world.jobs[id];
    if !Supersedes(s.control) then job
    else job.(superseded := job.superseded || (s.world.latest == Some(id) && job.verdict == Outstanding),
              phase := if s.control.jobId == Some(id) && job.phase == Running then Cancelled else job.phase)
  }

  lemma SupersededJobs(s: State, id: JobId)
    ensures id in Supersede(s).world.jobs <==> id in s.world.jobs
    ensures id in s.world.jobs ==> Supersede(s).world.jobs[id] == JobAfter(s, id)
  {
    MarkedJobs(s.world.jobs, s.world.latest, id);
    CancelledJobs(MarkSuperseded(s.world.jobs, s.world.latest), s.control.jobId, id);
  }

  lemma SupersedeCore(files: Files, s: State)
    requires Core(files, s)
    ensures Core(files, Supersede(s)) && Supersede(s).world.latest == s.world.latest
    ensures forall id: JobId :: !Live(Supersede(s).world.jobs, id)
    ensures forall id: JobId :: Outstands(Supersede(s).world.jobs, id) <==> Outstands(s.world.jobs, id)
    ensures forall id: JobId :: Outstands(s.world.jobs, id) ==> Supersede(s).control.discard
  {
    if Supersedes(s.control) {
      var s' := Supersede(s);
      forall id: JobId
        ensures Outstands(s'.world.jobs, id) <==> Outstands(s.world.jobs, id)
        ensures !Live(s'.world.jobs, id)
        ensures id in s'.world.jobs <==> id in s.world.jobs
        ensures id in s.world.jobs ==> s'.world.jobs[id].kind == s.world.jobs[id].kind
        ensures id in s.world.jobs ==> s'.world.jobs[id].verdict == s.world.jobs[id].verdict
      {
        SupersededJobs(s, id);
        assert Live(s'.world.jobs, id) ==> Live(s.world.jobs, id);
      }
      SameOrder(s, s'.(control := s'.control.(discard := s.control.discard)));
      if LatestOutstands(s.world) {
        SupersededJobs(s, s.world.latest.value);
      }
    } else {
      assert forall id: JobId :: !Outstands(s.world.jobs, id);
    }
  }

  lemma BeginCore(files: Files, s: State, url: string, offset: nat, id: JobId)
    requires Core(files, s) && id !in s.world.jobs && url == s.world.client.url && offset == |s.world.client.held|
    requires forall k: JobId :: !Live(s.world.jobs, k)
    requires forall k: JobId :: Outstands(s.world.jobs, k) ==> s.control.discard
    requires AtMostOneOutstands(s.world.jobs)
    ensures Core(files, StartRsu(s, url, offset, Acknowledged(id)))
    ensures Attached(StartRsu(s, url, offset, Acknowledged(id)))
  {
    var jobs, s' := s.world.jobs, StartRsu(s, url, offset, Acknowledged(id));
    forall k: JobId
      ensures Live(s'.world.jobs, k) ==> k == id
      ensures Stale(s'.world.jobs, s'.world.latest, k) ==> Outstands(jobs, k)
    {
      assert !Live(jobs, k);
    }
  }

  /** A request leaves one live job at most, and while the connection is up it serves the client. */
  lemma HandleClientCore(files: Files, s: State, asked: Asked, call: Call)
    requires Core(files, s) && FreshCall(s.world.jobs, call) && Honest(s.world.client, asked)
    requires asked.Wants? && call.Acknowledged? ==> AtMostOneOutstands(s.world.jobs)
    ensures Core(files, HandleClient(s, asked, call))
    ensures asked.Throwing? || Attached(HandleClient(s, asked, call))
  {
    match asked
    case Useless =>
    case Throwing => SupersedeCore(files, s);
    case Wants(url, offset) =>
      var asking := s.(world := s.world.(client := Asks(s.world.client, url)));
      SupersedeCore(files, asking);
      if call.Acknowledged? {
        SupersededJobs(asking, call.id);
        BeginCore(files, Supersede(asking), url, offset, call.id);
      }
  }

  // ----- chunks

  lemma WrittenJobs(jobs: Jobs, id: JobId, n: nat, k: JobId)
    requires id in jobs
    ensures k in Written(jobs, id, n) <==> k in jobs
    ensures k in jobs ==>
              Written(jobs, id, n)[k] ==
              if k != id then jobs[k]
              else if n == 0 then jobs[k].(phase := Refused) else jobs[k].(pos := jobs[k].pos + n)
  {
  }

  /** The live job writes: what the client then holds is still a prefix. */
  lemma ReceivePrefix(files: Files, s: State, id: JobId, data: seq<Byte>, sent: bool, reply: Confirmation, taken: bool)
    requires Inv(files, s) && !s.crashed && Live(s.world.jobs, id) && NextSlice(files, s.world.jobs[id], data)
    requires !s.control.abortHandle
    ensures IsPrefix(files, Receive(s.world.client, data, s.wire, sent, reply, taken))
    ensures Receive(s.world.client, data, s.wire, sent, reply, taken).url == s.world.client.url
  {
    if 0 <= s.wire.socket {
      var job, held := s.world.jobs[id], s.world.client.held;
      assert s.world.latest == Some(id) && job.pos == |held| && job.url == s.world.client.url;
      assert held + data == files(job.url)[..job.pos + |data|];
    }
  }

  /** What a write makes of job `k`: it may be cancelled, and only the writer moves on. */
  lemma JobAfterWrite(s: State, id: JobId, data: seq<Byte>, x: Exchange, k: JobId)
    requires id in s.world.jobs
    ensures k in Write(s, id, data, x).world.jobs <==> k in s.world.jobs
    ensures k in s.world.jobs ==>
              var job, job' := s.world.jobs[k], Write(s, id, data, x).world.jobs[k];
              && job' == job.(pos := if k == id then job.pos + Reported(s, data, x) else job.pos, phase := job'.phase)
              && (job'.phase == Running ==> job.phase == Running)
  {
    var s1 := WriteData(s, data, x);
    CancelledJobs(s.world.jobs, s.control.jobId, id);
    CancelledJobs(s.world.jobs, s.control.jobId, k);
    assert s1.world.jobs == s.world.jobs || s1.world.jobs == CancelCurrent(s.world.jobs, s.control.jobId);
    WrittenJobs(s1.world.jobs, id, Reported(s, data, x), k);
  }

  /** A write touches no job but the writer, and settles nothing. */
  lemma WriteJobs(s: State, id: JobId, data: seq<Byte>, x: Exchange)
    requires id in s.world.jobs
    ensures SameResults(s, Write(s, id, data, x))
  {
    var s' := Write(s, id, data, x);
    forall k: JobId
      ensures k in s'.world.jobs <==> k in s.world.jobs
      ensures k in s.world.jobs ==>
                && s'.world.jobs[k].kind == s.world.jobs[k].kind && s'.world.jobs[k].verdict == s.world.jobs[k].verdict
                && (s'.world.jobs[k].phase == Running ==> s.world.jobs[k].phase == Running)
    {
      JobAfterWrite(s, id, data, x, k);
    }
  }

  /** What a chunk that is let through does to its job and to the connection. */
  lemma TransferOutcome(s: State, id: JobId, data: seq<Byte>, x: Exchange)
    requires Names(s) && Order(s) && Live(s.world.jobs, id) && data != [] && !s.control.abortHandle
    ensures var s', reply := Write(s, id, data, x), DataReply(x.reply);
            var phase := s'.world.jobs[id].phase;
            && s'.crashed == s.crashed && s'.world.client == Receive(s.world.client, data, s.wire, x.sent, reply, x.taken)
            && (s'.control.abortHandle ==> phase == Cancelled)
            && (0 <= s'.wire.socket ==> 0 <= s.wire.socket && Answered(s.wire, x.sent, reply))
  {
    CancelledJobs(s.world.jobs, s.control.jobId, id);
    WrittenJobs(WriteData(s, data, x).world.jobs, id, Reported(s, data, x), id);
  }

  /** A chunk keeps the invariant, whatever becomes of the connection. */
  lemma WriteInv(files: Files, s: State, id: JobId, data: seq<Byte>, x: Exchange)
    requires Inv(files, s) && !s.crashed && Live(s.world.jobs, id) && NextSlice(files, s.world.jobs[id], data)
    ensures Inv(files, Write(s, id, data, x))
  {
    WriteJobs(s, id, data, x);
    JobAfterWrite(s, id, data, x, id);
    SameOrder(s, Write(s, id, data, x));
    assert s.world.latest == Some(id) && s.control.jobId == Some(id);
    if !s.control.abortHandle {
      ReceivePrefix(files, s, id, data, x.sent, DataReply(x.reply), x.taken);
      TransferOutcome(s, id, data, x);
    }
  }

  // ----- results

  lemma SettledJobs(jobs: Jobs, id: JobId, verdict: Verdict)
    requires verdict != Outstanding
    ensures forall k: JobId :: Outstands(Settle(jobs, id, verdict), k) <==> Outstands(jobs, k) && k != id
    ensures forall k: JobId :: Live(Settle(jobs, id, verdict), k) <==> Live(jobs, k) && k != id
  {
  }

  lemma SwallowInv(files: Files, s: State, id: JobId)
    requires Inv(files, s) && !s.crashed && s.control.discard && Outstands(s.world.jobs, id)
    ensures Inv(files, s.(control := s.control.(discard := false), world := SettleIn(s.world, id, Swallowed)))
  {
    SettledJobs(s.world.jobs, id, Swallowed);
    var jobs, jobs' := s.world.jobs, Settle(s.world.jobs, id, Swallowed);
    forall k: JobId ensures Stale(jobs', s.world.latest, k) ==> Stale(jobs, s.world.latest, k) && k != id {
      assert Outstands(jobs', k) ==> Outstands(jobs, k) && k != id;
    }
    if s.world.latest != Some(id) {
      assert Stale(jobs, s.world.latest, id);
    }
  }

  /** A result that is sent is the last one outstanding. */
  lemma AttemptIsLast(s: State, id: JobId, k: JobId)
    requires Order(s) && Outstands(s.world.jobs, id) && !s.control.discard && Outstands(s.world.jobs, k)
    ensures k == id
  {
    var jobs, latest := s.world.jobs, s.world.latest;
    if k != id {
      assert latest != Some(id) ==> Stale(jobs, latest, id);
      assert latest != Some(k) ==> Stale(jobs, latest, k);
    }
  }

  /** The state in which a result has been sent and a next request may be handled. */
  lemma AttemptCore(files: Files, s: State, id: JobId, w: Wire)
    requires Core(files, s) && Outstands(s.world.jobs, id) && !s.control.discard
    ensures var s1 := s.(control := s.control.(inProgress := false, abortHandle := false), wire := w,
                         world := SettleIn(s.world, id, Attempted));
            Core(files, s1) && forall k: JobId :: !Outstands(s1.world.jobs, k)
  {
    SettledJobs(s.world.jobs, id, Attempted);
    var jobs' := Settle(s.world.jobs, id, Attempted);
    forall k: JobId ensures !Outstands(jobs', k) {
      if Outstands(s.world.jobs, k) {
        AttemptIsLast(s, id, k);
      }
    }
  }

  lemma NextDownloadInv(files: Files, s: State, asked: Asked, call: Call)
    requires Core(files, s) && FreshCall(s.world.jobs, call) && Honest(s.world.client, asked) && !s.crashed
    requires forall k: JobId :: !Outstands(s.world.jobs, k)
    requires !s.control.inProgress
    ensures Inv(files, NextDownload(s, asked, call))
  {
    HandleClientCore(files, s, asked, call);
    if asked.Throwing? {
      assert HandleClient(s, asked, call) == s;
      forall k: JobId
        ensures k in CancelCurrent(s.world.jobs, s.control.jobId) <==> k in s.world.jobs
        ensures k in s.world.jobs ==> CancelCurrent(s.world.jobs, s.control.jobId)[k].kind == s.world.jobs[k].kind
        ensures k in s.world.jobs ==> CancelCurrent(s.world.jobs, s.control.jobId)[k].verdict == s.world.jobs[k].verdict
      {
        CancelledJobs(s.world.jobs, s.control.jobId, k);
      }
      assert forall k: JobId :: Live(CancelCurrent(s.world.jobs, s.control.jobId), k) ==> Outstands(s.world.jobs, k);
      SameOrder(s, NextDownload(s, asked, call));
    }
  }

  /** A result keeps the invariant, in whatever order results come in, `next-url` included. */
  lemma RsuResultInv(files: Files, s: State, id: JobId, m: Message, sent: bool, reply: Confirmation, asked: Asked, call: Call)
    requires Inv(files, s) && !s.crashed && Outstands(s.world.jobs, id)
    requires FreshCall(s.world.jobs, call) && Honest(s.world.client, asked)
    ensures Inv(files, RsuResult(s, id, m, sent, reply, asked, call))
  {
    if s.control.discard {
      SwallowInv(files, s, id);
    } else {
      var s1 := AfterAttempt(s, id, m, sent, reply);
      AttemptCore(files, s, id, s1.wire);
      ResultIs(s, id, m, sent, reply, asked, call);
      NextDownloadInv(files, s1, asked, call);
    }
  }

  lemma SndInv(files: Files, s: State, id: JobId, completed: bool)
    requires Inv(files, s) && !IsRsu(s.world.jobs, id)
    ensures Inv(files, SndResult(s, id, completed))
  {
    var s' := SndResult(s, id, completed);
    SettledJobs(s.world.jobs, id, Routed);
    forall k: JobId ensures Stale(s'.world.jobs, s.world.latest, k) <==> Stale(s.world.jobs, s.world.latest, k) {
      assert Outstands(s'.world.jobs, k) <==> Outstands(s.world.jobs, k);
    }
  }

  lemma SndStartInv(files: Files, s: State, url: string, created: bool, call: Call)
    requires Inv(files, s) && FreshCall(s.world.jobs, call)
    requires SndStarts(url, created, call) ==> forall k: JobId :: !Live(s.world.jobs, k)
    ensures Inv(files, SndStart(s, url, created, call))
  {
    if SndStarts(url, created, call) {
      var s' := SndStart(s, url, created, call);
      forall k: JobId
        ensures Outstands(s'.world.jobs, k) <==> Outstands(s.world.jobs, k)
        ensures !Live(s'.world.jobs, k)
        ensures Stale(s'.world.jobs, s'.world.latest, k) <==> Stale(s.world.jobs, s.world.latest, k)
      {
        assert !Live(s.world.jobs, k);
      }
    }
  }

  /** What the resume guarantee needs: results may come in any order, and starts may fail. */
  const RESUMABLE := Hypotheses(true, false, true, false)

  lemma InvStep(files: Files, s: State, step: Step)
    requires Inv(files, s) && Possible(s, step) && Contract(files, s, step) && Keeps(RESUMABLE, s, step)
    ensures Inv(files, Apply(s, step))
  {
    match step
    case AcceptStep(fd, request, call) =>
      HandleClientCore(files, s.(wire := Open(s.wire, fd)), Understand(request), call);
    case WriteStep(id, data, x) => WriteInv(files, s, id, data, x);
    case TerminalStep(id, op, x, request, call) =>
      var status := TerminalStatus(op);
      if status.Some? {
        if IsRsu(s.world.jobs, id) {
          RsuResultInv(files, s, id, StatusMessage(status.value.0, status.value.1), x.sent, ResultReply(x.reply),
                       Understand(request), call);
        } else {
          SndInv(files, s, id, status.value.0);
        }
      }
    case SndStep(url, created, call) => SndStartInv(files, s, url, created, call);
  }

  // ----- main results

  lemma {:induction false} InvOfRun(files: Files, ss: seq<State>, steps: seq<Step>)
    requires IsContractRun(files, RESUMABLE, ss, steps)
    ensures Inv(files, Last(ss))
  {
    if steps != [] {
      RunFront(ss, steps);
      ContractRunFront(files, RESUMABLE, ss, steps);
      InvOfRun(files, ss[..|ss| - 1], steps[..|steps| - 1]);
      InvStep(files, ss[|ss| - 2], steps[|steps| - 1]);
    }
  }

  /** Over any run of chunks, lost connections and reconnects, the client holds a prefix of the file
      it asked for. */
  lemma ClientHoldsPrefix(files: Files, ss: seq<State>, steps: seq<Step>)
    requires IsContractRun(files, RESUMABLE, ss, steps)
    ensures Last(ss).world.client.held <= files(Last(ss).world.client.url)
  {
    InvOfRun(files, ss, steps);
  }

  /** The step sends the client the frame that says that job `id` is completed. */
  predicate SendsCompleted(s: State, step: Step, id: JobId) {
    && step.TerminalStep? && step.id == id && step.op == Completed
    && id in s.control.clientOf && s.control.clientOf[id] == RSU && !s.control.discard
    && 0 <= s.wire.socket && step.x.sent
  }

  /** When the frame that the newest job is completed goes out, the client holds the whole file exactly
      if the job was not started under a pending abort, or nothing of the file was missing at its start. */
  lemma CompletedMeansWhole(files: Files, ss: seq<State>, steps: seq<Step>, step: Step, id: JobId)
    requires IsContractRun(files, RESUMABLE, ss, steps)
    requires Possible(Last(ss), step) && Contract(files, Last(ss), step)
    requires SendsCompleted(Last(ss), step, id) && Last(ss).world.latest == Some(id)
    ensures var s := Last(ss);
            && IsRsu(s.world.jobs, id)
            && s.world.client.url == s.world.jobs[id].url
            && (s.world.client.held == files(s.world.jobs[id].url) <==>
                  s.world.jobs[id].clean || s.world.jobs[id].offset == |files(s.world.jobs[id].url)|)
  {
    InvOfRun(files, ss, steps);
    var s := Last(ss);
    var file, held := files(s.world.jobs[id].url), s.world.client.held;
    assert held <= file;
    assert |held| == |file| ==> held == file;
  }

  /** A client that builds its request from a plain URL and the number of bytes it holds is honest. */
  lemma HonestText(client: Client, url: string)
    requires IsHttp(url) && !Contains(url, OFFSET_KEYWORD) && |Asks(client, url).held| < ULONG_LIMIT
    ensures Understand(Received(RequestText(url, |Asks(client, url).held|))) == Wants(url, |Asks(client, url).held|)
    ensures Honest(client, Understand(Received(RequestText(url, |Asks(client, url).held|))))
  {
    RequestRoundTrip(url, |Asks(client, url).held|);
  }
}
