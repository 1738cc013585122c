/** The RSU download session: src/gatewayServer/src/Server.cpp and src/downloader/src/CGWDownloader.cpp.
    One state holds the fields of the program's objects and the world around them (sockets, cloud
    jobs, the RSU client, a trace of what was observable); one function per entry point gives the
    effect of a call together with the answers of the operating system and of the cloud client. */
module Session {
  import opened Prelude
  import opened RequestUrl
  import opened Frame

  type JobId = nat

  const NO_SOCKET: int := -1

  datatype Kind = RSU | SND

  /** `downloadStatus` of the HTTP server. */
  datatype DownloadState = IN_PROGRESS | SUCCESS | FAILED

  /** `Mbient::CloudGateway::OperationState`, with the error code that comes with `Failed`. */
  datatype OperationState = Completed | Failed(errorCode: int) | Queued | InProgress | Started | Unknown

  // ----- answers of the outside

  /** One `recv`: the connection is gone, or some text. */
  datatype Recv = Hangup | Received(text: string)

  /** Sending a frame and waiting for its confirmation. `send` delivers the whole frame or nothing;
      if the connection is lost after that, `taken` says whether the client still read the frame. */
  datatype Exchange = Exchange(sent: bool, reply: Recv, taken: bool)

  /** How a confirmation text is understood, by its first bytes. */
  datatype Confirmation = Lost | GoOn | AbortRequest | NextUrl | Garbage

  function DataReply(reply: Recv): Confirmation {
    if reply.Hangup? then Lost
    else if StartsWith(reply.text, "next-chunk") then GoOn
    else if StartsWith(reply.text, "abort") then AbortRequest
    else Garbage
  }

  function ResultReply(reply: Recv): Confirmation {
    if reply.Hangup? then Lost
    else if StartsWith(reply.text, "no-download") then GoOn
    else if StartsWith(reply.text, "next-url") then NextUrl
    else Garbage
  }

  /** What `handleClient` makes of the text it received: nothing it can use, text on which
      `std::stoul` throws, or a download request. */
  datatype Asked = Useless | Throwing | Wants(url: string, offset: nat)

  function Understand(request: Recv): Asked {
    match request
    case Hangup => Useless
    case Received(text) =>
      match ParseRequest(text)
      case Ask(url, offset) => Wants(url, offset)
      case BadOffset(_) => Throwing
      case _ => Useless
  }

  /** `m_cgwClient.download` and the wait for its acknowledgement. */
  datatype Call = Acknowledged(id: JobId) | CallFailed

  // ----- the world

  datatype Phase = Running | Cancelled | Refused

  /** What became of the terminal event of a job. */
  datatype Verdict = Outstanding | Swallowed | Attempted | Routed

  /** A cloud job. `pos` counts what `writeData` accepted, from `offset` on; `superseded` says that a
      newer connection cancelled it while it was in progress; `clean` that no abort was pending when
      it was acknowledged. */
  datatype Job = Job(kind: Kind, url: string, offset: nat, pos: nat, phase: Phase, verdict: Verdict,
                     superseded: bool, clean: bool)

  /** The RSU client: the URL it last asked for and the bytes of it that it holds. */
  datatype Client = Client(url: string, held: seq<Byte>)

  datatype Event =
    | Opened(fd: int)
    | Closed(fd: int)
    | FrameSent(fd: int, m: Message)
    | Confirmed(fd: int)
    | AbortTaken
    | ResultAttempt(id: JobId)

  /** The current socket, what the operating system has open, and the trace. */
  datatype Wire = Wire(socket: int, open: set<int>, trace: seq<Event>)

  /** `m_downloadInProgress` of the server; job id and flags of the cloud gateway; the global map. */
  datatype Control = Control(
    inProgress: bool, jobId: Option<JobId>, abortHandle: bool, discard: bool, clientOf: map<JobId, Kind>)

  /** The cloud's jobs and the newest RSU job among them, and the RSU client. */
  datatype World = World(jobs: map<JobId, Job>, latest: Option<JobId>, client: Client)

  /** `crashed`: an exception left the main loop. */
  datatype State = State(wire: Wire, control: Control, world: World, status: DownloadState, crashed: bool)

  function Init(url: string): State {
    State(Wire(NO_SOCKET, {}, []), Control(false, None, false, false, map[]),
          World(map[], None, Client(url, [])), IN_PROGRESS, false)
  }

  // ----- the wire

  function Emit(w: Wire, e: Event): Wire {
    w.(trace := w.trace + [e])
  }

  /** `closeConnection(m_clientSocket)`. */
  function Close(w: Wire): Wire {
    if w.socket == NO_SOCKET then w else Wire(NO_SOCKET, w.open - {w.socket}, w.trace + [Closed(w.socket)])
  }

  function Open(w: Wire, fd: int): Wire {
    Wire(fd, w.open + {fd}, w.trace + [Opened(fd)])
  }

  /** `sendMessageToRSU` and the confirmation handler's closing of the connection. */
  function SendMessage(w: Wire, m: Message, sent: bool, reply: Confirmation): Wire {
    if w.socket < 0 then w
    else if !sent then Close(w)
    else if reply.Lost? then Close(Emit(w, FrameSent(w.socket, m)))
    else if reply.Garbage? then Close(Emit(Emit(w, FrameSent(w.socket, m)), Confirmed(w.socket)))
    else Emit(Emit(w, FrameSent(w.socket, m)), Confirmed(w.socket))
  }

  /** A frame went out and was answered by a confirmation that the handler knows. */
  predicate Answered(w: Wire, sent: bool, reply: Confirmation) {
    0 <= w.socket && sent && !reply.Lost? && !reply.Garbage?
  }

  // ----- jobs

  /** The cloud client's side of `cancelOperation`. */
  function CancelJob(jobs: map<JobId, Job>, id: JobId): map<JobId, Job> {
    if id in jobs && jobs[id].phase.Running? then jobs[id := jobs[id].(phase := Cancelled)] else jobs
  }

  /** `abortDownload(getJobID())`. */
  function CancelCurrent(jobs: map<JobId, Job>, jobId: Option<JobId>): map<JobId, Job> {
    if jobId.None? then jobs else CancelJob(jobs, jobId.value)
  }

  /** The newest RSU job is superseded if its result is still to come. */
  function MarkSuperseded(jobs: map<JobId, Job>, latest: Option<JobId>): map<JobId, Job> {
    if latest.Some? && latest.value in jobs && jobs[latest.value].verdict == Outstanding
    then jobs[latest.value := jobs[latest.value].(superseded := true)]
    else jobs
  }

  function Settle(jobs: map<JobId, Job>, id: JobId, verdict: Verdict): map<JobId, Job> {
    if id in jobs then jobs[id := jobs[id].(verdict := verdict)] else jobs
  }

  function SettleIn(w: World, id: JobId, verdict: Verdict): World {
    w.(jobs := Settle(w.jobs, id, verdict))
  }

  /** The cloud client's bookkeeping of a write: a job that got 0 back is refused. */
  function Written(jobs: map<JobId, Job>, id: JobId, n: nat): map<JobId, Job> {
    if id !in jobs then jobs
    else if n == 0 then jobs[id := jobs[id].(phase := Refused)]
    else jobs[id := jobs[id].(pos := jobs[id].pos + n)]
  }

  /** The acknowledged part of `downloadFile`. */
  function BeginJob(s: State, kind: Kind, url: string, offset: nat, id: JobId): State {
    var job := Job(kind, url, offset, offset, Running, Outstanding, false, !s.control.abortHandle);
    s.(control := s.control.(jobId := Some(id), clientOf := s.control.clientOf[id := kind]),
       world := s.world.(jobs := s.world.jobs[id := job], latest := if kind == RSU then Some(id) else s.world.latest))
  }

  // ----- handling a request

  predicate Supersedes(c: Control) {
    c.inProgress && c.jobId.Some?
  }

  /** `processUrl`, the part before the new download: cancel what is in progress. */
  function Supersede(s: State): State {
    if !Supersedes(s.control) then s
    else
      s.(control := s.control.(discard := true),
         world := s.world.(jobs := CancelCurrent(MarkSuperseded(s.world.jobs, s.world.latest), s.control.jobId)))
  }

  /** The client asks for a URL; it keeps its bytes only if it asks for the same one again. */
  function Asks(client: Client, url: string): Client {
    if url == client.url then client else Client(url, [])
  }

  /** `processUrl`, the new download. */
  function StartRsu(s: State, url: string, offset: nat, call: Call): State {
    match call
    case CallFailed => s.(wire := Close(s.wire))
    case Acknowledged(id) =>
      var s1 := BeginJob(s, RSU, url, offset, id);
      s1.(control := s1.control.(inProgress := true))
  }

  /** `handleClient` on the current socket, up to a throw of `std::stoul`. */
  function HandleClient(s: State, asked: Asked, call: Call): State {
    match asked
    case Useless => s.(wire := Close(s.wire))
    case Throwing => Supersede(s)
    case Wants(url, offset) =>
      StartRsu(Supersede(s.(world := s.world.(client := Asks(s.world.client, url)))), url, offset, call)
  }

  // ----- the entry points

  /** `acceptClient` with a pending connection. An exception leaves the GLib callback. */
  function Accept(s: State, fd: int, asked: Asked, call: Call): State {
    HandleClient(s.(wire := Open(s.wire, fd)), asked, call).(crashed := s.crashed || asked.Throwing?)
  }

  /** The number of bytes `DownloadBuffer::writeData` reports as written. */
  function Reported(s: State, data: seq<Byte>, x: Exchange): nat {
    if data != [] && (s.control.abortHandle || Answered(s.wire, x.sent, DataReply(x.reply))) then |data| else 0
  }

  /** The client has the bytes of a chunk if the frame went out and it confirmed or still read it. */
  function Receive(client: Client, data: seq<Byte>, w: Wire, sent: bool, reply: Confirmation, taken: bool): Client {
    if 0 <= w.socket && sent && (taken || !reply.Lost?) then client.(held := client.held + data) else client
  }

  /** `transferChunkToRSU`. */
  function Transfer(s: State, data: seq<Byte>, sent: bool, reply: Confirmation, taken: bool): State {
    var s1 := s.(wire := SendMessage(s.wire, Message(Data, 0, data), sent, reply),
                 world := s.world.(client := Receive(s.world.client, data, s.wire, sent, reply, taken)));
    if Answered(s.wire, sent, reply) && reply.AbortRequest? && s.control.jobId.Some? then
      s1.(wire := Emit(s1.wire, AbortTaken), control := s1.control.(abortHandle := true),
          world := s1.world.(jobs := CancelCurrent(s1.world.jobs, s1.control.jobId)))
    else s1
  }

  /** `DownloadBuffer::writeData`. */
  function WriteData(s: State, data: seq<Byte>, x: Exchange): State {
    if data == [] || s.control.abortHandle then s else Transfer(s, data, x.sent, DataReply(x.reply), x.taken)
  }

  function Write(s: State, id: JobId, data: seq<Byte>, x: Exchange): State {
    var s1 := WriteData(s, data, x);
    s1.(world := s1.world.(jobs := Written(s1.world.jobs, id, Reported(s, data, x))))
  }

  /** `operationStateChanged`: which cloud states are reported, whether as completed, and with which
      error code; the code is narrowed to 16 bits. */
  function TerminalStatus(op: OperationState): Option<(bool, nat)> {
    match op
    case Completed => Some((true, 0))
    case Failed(errorCode) => Some((false, errorCode % 0x1_0000))
    case _ => None
  }

  function StatusText(completed: bool): string {
    if completed then "Completed" else "Failed"
  }

  function Bytes(text: string): seq<Byte> {
    seq(|text|, i requires 0 <= i < |text| => (text[i] as int) % 256)
  }

  function StatusMessage(completed: bool, errorCode: nat): Message {
    Message(Status, errorCode, Bytes(StatusText(completed)))
  }

  /** `sendDownloadResultToRSU`; `asked` and `call` follow the client's `next-url`, inside
      `sendMessageToRSU`, which catches what `handleClient` throws. */
  function SendResult(s: State, id: JobId, m: Message, sent: bool, reply: Confirmation, asked: Asked, call: Call): State {
    var s1 := s.(control := s.control.(inProgress := false, abortHandle := false),
                 wire := SendMessage(Emit(s.wire, ResultAttempt(id)), m, sent, reply));
    if Answered(s.wire, sent, reply) && reply.NextUrl? then NextDownload(s1, asked, call) else s1
  }

  function NextDownload(s: State, asked: Asked, call: Call): State {
    var s1 := HandleClient(s, asked, call);
    if asked.Throwing? then
      s1.(wire := Close(s1.wire), world := s1.world.(jobs := CancelCurrent(s1.world.jobs, s1.control.jobId)))
    else s1
  }

  /** `handleRSUCompletion`; the test and the clearing of the discard flag are one step. */
  function RsuResult(s: State, id: JobId, m: Message, sent: bool, reply: Confirmation, asked: Asked, call: Call): State {
    if s.control.discard then
      s.(control := s.control.(discard := false), world := SettleIn(s.world, id, Swallowed))
    else SendResult(s.(world := SettleIn(s.world, id, Attempted)), id, m, sent, reply, asked, call)
  }

  /** `handleSNDCompletion`. */
  function SndResult(s: State, id: JobId, completed: bool): State {
    s.(status := if completed then SUCCESS else FAILED,
       world := SettleIn(s.world, id, Routed))
  }

  /** `jobCompletionCallback` and the completion handler it starts. */
  function Terminal(s: State, id: JobId, op: OperationState, x: Exchange, asked: Asked, call: Call): State {
    match TerminalStatus(op)
    case None => s
    case Some((completed, errorCode)) =>
      if id !in s.control.clientOf then s
      else if s.control.clientOf[id] == SND then SndResult(s, id, completed)
      else RsuResult(s, id, StatusMessage(completed, errorCode), x.sent, ResultReply(x.reply), asked, call)
  }

  /** An SND download gets a job. */
  predicate SndStarts(url: string, created: bool, call: Call) {
    IsHttp(url) && created && call.Acknowledged?
  }

  /** `startDownload` of the HTTP server; `created` says whether the target file could be created. */
  function SndStart(s: State, url: string, created: bool, call: Call): State {
    var s1 := s.(status := IN_PROGRESS);
    if SndStarts(url, created, call) then BeginJob(s1, SND, url, 0, call.id) else s1.(status := FAILED)
  }

  // ----- runs

  datatype Step =
    | AcceptStep(fd: int, request: Recv, call: Call)
    | WriteStep(id: JobId, data: seq<Byte>, x: Exchange)
    | TerminalStep(id: JobId, op: OperationState, x: Exchange, request: Recv, call: Call)
    | SndStep(url: string, created: bool, call: Call)

  function Apply(s: State, step: Step): State {
    match step
    case AcceptStep(fd, request, call) => Accept(s, fd, Understand(request), call)
    case WriteStep(id, data, x) => Write(s, id, data, x)
    case TerminalStep(id, op, x, request, call) => Terminal(s, id, op, x, Understand(request), call)
    case SndStep(url, created, call) => SndStart(s, url, created, call)
  }

  /** What holds of any operating system and any cloud client: `accept` returns a descriptor that is
      not open, and only acknowledged jobs write. */
  predicate Possible(s: State, step: Step) {
    && !s.crashed
    && (step.AcceptStep? ==> 0 <= step.fd && step.fd !in s.wire.open)
    && (step.WriteStep? ==> step.id in s.world.jobs && Fits(Message(Data, 0, step.data)))
  }

  /** A run: `ss[i + 1]` is the state after step `steps[i]`. */
  predicate IsRun(ss: seq<State>, steps: seq<Step>) {
    && |ss| == |steps| + 1
    && ss[0] == Init(ss[0].world.client.url)
    && forall i :: 0 <= i < |steps| ==> Possible(ss[i], steps[i]) && ss[i + 1] == Apply(ss[i], steps[i])
  }

  function Last(ss: seq<State>): State
    requires ss != []
  {
    ss[|ss| - 1]
  }

  /** A run without its last step is a run. */
  lemma RunFront(ss: seq<State>, steps: seq<Step>)
    requires IsRun(ss, steps) && steps != []
    ensures IsRun(ss[..|ss| - 1], steps[..|steps| - 1])
    ensures Last(ss[..|ss| - 1]) == ss[|ss| - 2] && Possible(ss[|ss| - 2], steps[|steps| - 1])
    ensures Last(ss) == Apply(ss[|ss| - 2], steps[|steps| - 1])
  {
  }

  /** A run and one more step. */
  lemma RunExtended(ss: seq<State>, steps: seq<Step>, step: Step)
    requires IsRun(ss, steps) && Possible(Last(ss), step)
    ensures IsRun(ss + [Apply(Last(ss), step)], steps + [step])
  {
    var ss', steps' := ss + [Apply(Last(ss), step)], steps + [step];
    forall i | 0 <= i < |steps'| ensures Possible(ss'[i], steps'[i]) && ss'[i + 1] == Apply(ss'[i], steps'[i]) {
      if i < |steps| {
        assert ss'[i] == ss[i] && ss'[i + 1] == ss[i + 1] && steps'[i] == steps[i];
      }
    }
  }

  /** The state after a list of steps. */
  function Execute(s: State, steps: seq<Step>): State
    decreases |steps|
  {
    if steps == [] then s else Execute(Apply(s, steps[0]), steps[1..])
  }

  /** Every step of the list is possible in its turn. */
  predicate AllPossible(s: State, steps: seq<Step>)
    decreases |steps|
  {
    steps == [] || (Possible(s, steps[0]) && AllPossible(Apply(s, steps[0]), steps[1..]))
  }
}
