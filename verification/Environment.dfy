/** What is assumed of the cloud, of the RSU client and of the order of events: the contract, and the
    hypotheses under which the session keeps its promises. */
module Environment {
  import opened Prelude
  import opened Session

  type Files = string -> seq<Byte>

  type Jobs = map<JobId, Job>

  predicate IsRsu(jobs: Jobs, id: JobId) {
    id in jobs && jobs[id].kind == RSU
  }

  /** An RSU job whose result is still to come. */
  predicate Outstands(jobs: Jobs, id: JobId) {
    IsRsu(jobs, id) && jobs[id].verdict == Outstanding
  }

  /** A job that may still write: not cancelled, never refused, and its result is still to come. */
  predicate Live(jobs: Jobs, id: JobId) {
    Outstands(jobs, id) && jobs[id].phase == Running
  }

  /** An older job, superseded by a newer one, whose result is still to come. */
  predicate Stale(jobs: Jobs, latest: Option<JobId>, id: JobId) {
    Outstands(jobs, id) && latest != Some(id)
  }

  /** The result of the newest RSU job is still to come. */
  predicate LatestOutstands(w: World) {
    w.latest.Some? && Outstands(w.jobs, w.latest.value)
  }

  // ----- the contract of the cloud and of the client

  predicate FreshCall(jobs: Jobs, call: Call) {
    call.Acknowledged? ==> call.id !in jobs
  }

  /** The client asks from the byte it needs next. */
  predicate Honest(client: Client, asked: Asked) {
    asked.Wants? ==> asked.offset == |Asks(client, asked.url).held|
  }

  /** The next slice of the job's file. */
  predicate NextSlice(files: Files, job: Job, data: seq<Byte>) {
    data != [] && job.pos + |data| <= |files(job.url)| && data == files(job.url)[job.pos..job.pos + |data|]
  }

  /** Job ids are fresh, and a job reports one terminal event, after its acknowledgement. Writes are
      not restricted at all. */
  predicate EventContract(s: State, step: Step) {
    match step
    case AcceptStep(_, _, call) => FreshCall(s.world.jobs, call)
    case WriteStep(_, _, _) => true
    case TerminalStep(id, _, _, _, call) =>
      id in s.world.jobs && s.world.jobs[id].verdict == Outstanding && FreshCall(s.world.jobs, call)
    case SndStep(_, _, call) => FreshCall(s.world.jobs, call)
  }

  /** Besides, only live jobs write, and they write consecutive slices of their file from their offset
      on; an RSU job is completed only when its whole file was accepted; and the client is honest about
      what it holds. */
  predicate Contract(files: Files, s: State, step: Step) {
    && EventContract(s, step)
    && match step
       case AcceptStep(_, request, _) => Honest(s.world.client, Understand(request))
       case WriteStep(id, data, _) => Live(s.world.jobs, id) && NextSlice(files, s.world.jobs[id], data)
       case TerminalStep(id, op, _, request, _) =>
         && (op.Completed? && IsRsu(s.world.jobs, id) ==> s.world.jobs[id].pos == |files(s.world.jobs[id].url)|)
         && Honest(s.world.client, Understand(request))
       case SndStep(_, _, _) => true
  }

  // ----- hypotheses about the order of events

  ghost predicate AtMostOneOutstands(jobs: Jobs) {
    forall j: JobId, k: JobId :: Outstands(jobs, j) && Outstands(jobs, k) ==> j == k
  }

  /** There is one discard flag: a new connection starts a job only when at most one result is
      outstanding, that of the job it supersedes. */
  ghost predicate OneOutstanding(s: State, step: Step) {
    step.AcceptStep? && Understand(step.request).Wants? && step.call.Acknowledged? ==> AtMostOneOutstands(s.world.jobs)
  }

  /** The result of the newest RSU job comes after those of older ones. */
  ghost predicate InStartingOrder(s: State, step: Step) {
    step.TerminalStep? && TerminalStatus(step.op).Some? && s.world.latest == Some(step.id) ==>
      forall k: JobId :: !Stale(s.world.jobs, s.world.latest, k)
  }

  /** The job id is shared with SND downloads: none starts while an RSU job is live. */
  ghost predicate SndWaits(s: State, step: Step) {
    step.SndStep? && SndStarts(step.url, step.created, step.call) ==> forall k: JobId :: !Live(s.world.jobs, k)
  }

  /** A connection that cancels a job succeeds in starting its own. */
  predicate Succeeds(s: State, step: Step) {
    step.AcceptStep? && Supersedes(s.control) && !Understand(step.request).Useless? ==>
      Understand(step.request).Wants? && step.call.Acknowledged?
  }

  /** Which of the four hypotheses a run is known to keep. */
  datatype Hypotheses = Hypotheses(one: bool, order: bool, snd: bool, succeeds: bool)

  ghost predicate Keeps(h: Hypotheses, s: State, step: Step) {
    && (h.one ==> OneOutstanding(s, step))
    && (h.order ==> InStartingOrder(s, step))
    && (h.snd ==> SndWaits(s, step))
    && (h.succeeds ==> Succeeds(s, step))
  }

  // ----- runs

  /** A run whose every step keeps the whole contract and the hypotheses in `h`. */
  ghost predicate IsContractRun(files: Files, h: Hypotheses, ss: seq<State>, steps: seq<Step>) {
    && IsRun(ss, steps)
    && forall i :: 0 <= i < |steps| ==> Contract(files, ss[i], steps[i]) && Keeps(h, ss[i], steps[i])
  }

  /** The same, but only events are under contract. */
  ghost predicate IsEventRun(h: Hypotheses, ss: seq<State>, steps: seq<Step>) {
    && IsRun(ss, steps)
    && forall i :: 0 <= i < |steps| ==> EventContract(ss[i], steps[i]) && Keeps(h, ss[i], steps[i])
  }

  lemma ContractRunFront(files: Files, h: Hypotheses, ss: seq<State>, steps: seq<Step>)
    requires IsContractRun(files, h, ss, steps) && steps != []
    ensures IsContractRun(files, h, ss[..|ss| - 1], steps[..|steps| - 1])
    ensures Contract(files, ss[|ss| - 2], steps[|steps| - 1]) && Keeps(h, ss[|ss| - 2], steps[|steps| - 1])
  {
    RunFront(ss, steps);
    assert ss[|ss| - 2] == ss[|steps| - 1];
  }

  lemma EventRunFront(h: Hypotheses, ss: seq<State>, steps: seq<Step>)
    requires IsEventRun(h, ss, steps) && steps != []
    ensures IsEventRun(h, ss[..|ss| - 1], steps[..|steps| - 1])
    ensures EventContract(ss[|ss| - 2], steps[|steps| - 1]) && Keeps(h, ss[|ss| - 2], steps[|steps| - 1])
  {
    RunFront(ss, steps);
    assert ss[|ss| - 2] == ss[|steps| - 1];
  }

  /** A run under contract and one more step. */
  lemma ContractRunExtended(files: Files, h: Hypotheses, ss: seq<State>, steps: seq<Step>, step: Step)
    requires IsContractRun(files, h, ss, steps)
    requires Possible(Last(ss), step) && Contract(files, Last(ss), step) && Keeps(h, Last(ss), step)
    ensures IsContractRun(files, h, ss + [Apply(Last(ss), step)], steps + [step])
  {
    RunExtended(ss, steps, step);
    var ss', steps' := ss + [Apply(Last(ss), step)], steps + [step];
    forall i | 0 <= i < |steps'| ensures Contract(files, ss'[i], steps'[i]) && Keeps(h, ss'[i], steps'[i]) {
      if i < |steps| {
        assert ss'[i] == ss[i] && steps'[i] == steps[i];
      } else {
        assert ss'[i] == Last(ss) && steps'[i] == step;
      }
    }
  }

  lemma ContractRunIsEventRun(files: Files, h: Hypotheses, ss: seq<State>, steps: seq<Step>)
    requires IsContractRun(files, h, ss, steps)
    ensures IsEventRun(h, ss, steps)
  {
    forall i | 0 <= i < |steps| ensures EventContract(ss[i], steps[i]) && Keeps(h, ss[i], steps[i]) {
      assert Contract(files, ss[i], steps[i]);
    }
  }
}
