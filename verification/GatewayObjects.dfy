/** The objects of the RSU session as the program writes them: `GatewayServer`, `CloudGateway`,
    `DownloadBuffer` and the download status of the HTTP server, updated in place. Every entry point is
    proved to have the effect that `Session` gives it; the answers of the operating system and of the
    cloud client are parameters, and the object `Outside` records what the outside sees. */
module GatewayObjects {
  import opened Prelude
  import opened RequestUrl
  import opened Frame
  import opened Session
  import opened SessionRuns
  import RangeService

  class Outside {
    ghost var open: set<int>
    ghost var trace: seq<Event>
    ghost var world: World

    constructor (url: string)
      ensures open == {} && trace == [] && world == World(map[], None, Client(url, []))
    {
      open, trace, world := {}, [], World(map[], None, Client(url, []));
    }

    ghost method Note(e: Event)
      modifies this`trace
      ensures trace == old(trace) + [e]
    {
      trace := trace + [e];
    }

    /** `accept`. */
    ghost method Connected(fd: int)
      modifies this`trace, this`open
      ensures open == old(open) + {fd} && trace == old(trace) + [Opened(fd)]
    {
      open, trace := open + {fd}, trace + [Opened(fd)];
    }

    /** `shutdown` and `close`. */
    method CloseSocket(fd: int)
      modifies this`trace, this`open
      ensures open == old(open) - {fd} && trace == old(trace) + [Closed(fd)]
    {
      open, trace := open - {fd}, trace + [Closed(fd)];
    }

    /** `send`: whoever reads the socket decodes the bytes. */
    method Send(fd: int, bytes: array<Byte>)
      requires DecodeFirst(bytes[..]).Some?
      modifies this`trace
      ensures trace == old(trace) + [FrameSent(fd, DecodeFirst(bytes[..]).value.0)]
    {
      trace := trace + [FrameSent(fd, DecodeFirst(bytes[..]).value.0)];
    }

    /** `recv` of a confirmation; the client has read the frame if it confirms it, or if `taken`. */
    method Await(fd: int, ghost m: Message, reply: Recv, taken: bool)
      modifies this`trace, this`world
      ensures trace == if reply.Received? then old(trace) + [Confirmed(fd)] else old(trace)
      ensures world == if m.kind == Data && (taken || reply.Received?)
                       then old(world).(client := old(world).client.(held := old(world).client.held + m.payload))
                       else old(world)
    {
      if reply.Received? {
        trace := trace + [Confirmed(fd)];
      }
      if m.kind == Data && (taken || reply.Received?) {
        world := world.(client := world.client.(held := world.client.held + m.payload));
      }
    }

    /** `cancelOperation`. */
    method CancelOperation(id: JobId)
      modifies this`world
      ensures world == old(world).(jobs := CancelJob(old(world).jobs, id))
    {
      world := world.(jobs := CancelJob(world.jobs, id));
    }

    /** An acknowledged `download`. */
    method Download(kind: Kind, url: string, offset: nat, id: JobId, ghost clean: bool)
      modifies this`world
      ensures world == old(world).(
                jobs := old(world).jobs[id := Job(kind, url, offset, offset, Running, Outstanding, false, clean)],
                latest := if kind == RSU then Some(id) else old(world).latest)
    {
      world := world.(jobs := world.jobs[id := Job(kind, url, offset, offset, Running, Outstanding, false, clean)],
                      latest := if kind == RSU then Some(id) else world.latest);
    }

    /** The cloud client's note of what `writeData` returned. */
    ghost method Writing(id: JobId, n: nat)
      modifies this`world
      ensures world == old(world).(jobs := Written(old(world).jobs, id, n))
    {
      world := world.(jobs := Written(world.jobs, id, n));
    }

    ghost method Superseding()
      modifies this`world
      ensures world == old(world).(jobs := MarkSuperseded(old(world).jobs, old(world).latest))
    {
      world := world.(jobs := MarkSuperseded(world.jobs, world.latest));
    }

    ghost method Asking(url: string)
      modifies this`world
      ensures world == old(world).(client := Asks(old(world).client, url))
    {
      world := world.(client := Asks(world.client, url));
    }

    ghost method Settling(id: JobId, verdict: Verdict)
      modifies this`world
      ensures world == SettleIn(old(world), id, verdict)
    {
      world := SettleIn(world, id, verdict);
    }
  }

  /** The part of `DownloadGatewayImpl` that takes part in downloads. */
  class HttpServer {
    var downloadStatus: DownloadState
    const m_sndStorageDirectory: string

    constructor (storage: string)
      ensures downloadStatus == IN_PROGRESS && m_sndStorageDirectory == storage
    {
      downloadStatus, m_sndStorageDirectory := IN_PROGRESS, storage;
    }

    /** `sendStatusForDownloadRequest`: an unknown status counts as failed. */
    method SendStatusForDownloadRequest(status: string)
      modifies this
      ensures downloadStatus == if status == "Completed" then SUCCESS else FAILED
    {
      if status == "Completed" {
        downloadStatus := SUCCESS;
      } else if status == "Failed" {
        downloadStatus := FAILED;
      } else {
        downloadStatus := FAILED;
      }
    }

    /** `startDownload`. The file name is never missing: a URL that starts with `http://` has a slash. */
    method StartDownload(cloud: CloudGateway, url: string, created: bool, call: Call, ghost server: GatewayServer)
      requires server.Wired(cloud, this)
      modifies this, cloud, cloud.outside`world
      ensures server.Snapshot() == SndStart(old(server.Snapshot()), url, created, call)
      ensures !IsHttp(url) ==> cloud.mIoRsrc == old(cloud.mIoRsrc)
      ensures IsHttp(url) ==>
                && RangeService.ExtractFilename(url).Some?
                && cloud.mIoRsrc == TargetFile(m_sndStorageDirectory + "/" + RangeService.ExtractFilename(url).value)
    {
      downloadStatus := IN_PROGRESS;
      if !IsHttp(url) {
        downloadStatus := FAILED;
        return;
      }
      RangeService.HttpUrlHasName(url);
      var filename := RangeService.ExtractFilename(url);
      var filePath := m_sndStorageDirectory + "/" + filename.value;
      var id, failed := cloud.DownloadFile(SND, url, filePath, 0, created, call);
      if id.None? || failed {
        downloadStatus := FAILED;
      }
    }
  }

  /** What a download writes to: the stream to the RSU client or a file. */
  datatype Resource = Nowhere | RsuStream | TargetFile(path: string)

  class CloudGateway {
    var m_jobID: Option<JobId>
    var m_discardOldJobResult: bool
    var m_abortHandle: bool
    var jobClientMap: map<JobId, Kind>
    var mIoRsrc: Resource
    const outside: Outside

    constructor (outside: Outside)
      ensures m_jobID == None && !m_discardOldJobResult && !m_abortHandle && jobClientMap == map[]
      ensures this.outside == outside
    {
      m_jobID, m_discardOldJobResult, m_abortHandle, jobClientMap, mIoRsrc := None, false, false, map[], Nowhere;
      this.outside := outside;
    }

    /** `downloadFile`: the job id held afterwards, which may be an older one, and whether the call
        failed. A target file is only needed for the SND client. A call that fails leaves everything as
        it was except the resource of the next write. */
    method DownloadFile(kind: Kind, url: string, filePath: string, offset: nat, created: bool, call: Call)
      returns (id: Option<JobId>, failed: bool)
      modifies this, outside`world
      ensures m_discardOldJobResult == old(m_discardOldJobResult) && m_abortHandle == old(m_abortHandle)
      ensures mIoRsrc == if kind == SND then TargetFile(filePath) else RsuStream
      ensures id == m_jobID && (failed <==> (kind == SND && !created) || call.CallFailed?)
      ensures failed ==> m_jobID == old(m_jobID) && jobClientMap == old(jobClientMap) && outside.world == old(outside.world)
      ensures !failed ==>
                && m_jobID == Some(call.id) && jobClientMap == old(jobClientMap)[call.id := kind]
                && outside.world == old(outside.world).(
                     jobs := old(outside.world).jobs[
                       call.id := Job(kind, url, offset, offset, Running, Outstanding, false, !m_abortHandle)],
                     latest := if kind == RSU then Some(call.id) else old(outside.world).latest)
    {
      mIoRsrc := if kind == SND then TargetFile(filePath) else RsuStream;
      failed := true;
      if kind == RSU || created {
        if call.Acknowledged? {
          outside.Download(kind, url, offset, call.id, !m_abortHandle);
          m_jobID := Some(call.id);
          jobClientMap := jobClientMap[call.id := kind];
          failed := false;
        }
      }
      id := m_jobID;
    }

    method AbortDownload(jobid: JobId)
      modifies outside`world
      ensures outside.world == old(outside.world).(jobs := CancelJob(old(outside.world).jobs, jobid))
    {
      outside.CancelOperation(jobid);
    }

    method DiscardOldJobResult(state: bool)
      modifies this`m_discardOldJobResult
      ensures m_discardOldJobResult == state
    {
      m_discardOldJobResult := state;
    }

    /** `jobCompletionCallback` and the completion handlers, for an event of the cloud client. */
    method OperationStateChanged(server: GatewayServer, http: HttpServer, jobId: JobId, op: OperationState,
                                 x: Exchange, request: Recv, call: Call)
      requires server.Wired(this, http)
      modifies this, server, http, outside
      ensures server.Snapshot() == Terminal(old(server.Snapshot()), jobId, op, x, Understand(request), call)
    {
      var completed, errorCodeValue;
      match op {
        case Completed =>
          completed, errorCodeValue := true, 0;
        case Failed(errorCode) =>
          completed, errorCodeValue := false, errorCode % 0x1_0000;
        case _ =>
          return;
      }
      if jobId in jobClientMap {
        if jobClientMap[jobId] == RSU {
          HandleRSUCompletion(server, http, jobId, completed, errorCodeValue, x, request, call);
        } else {
          outside.Settling(jobId, Routed);
          http.SendStatusForDownloadRequest(StatusText(completed));
        }
      }
    }

    method HandleRSUCompletion(server: GatewayServer, ghost http: HttpServer, jobId: JobId, completed: bool, errorCodeValue: nat,
                               x: Exchange, request: Recv, call: Call)
      requires server.Wired(this, http) && errorCodeValue < 0x1_0000
      modifies this, server, outside
      ensures server.Snapshot() == RsuResult(old(server.Snapshot()), jobId, StatusMessage(completed, errorCodeValue),
                                             x.sent, ResultReply(x.reply), Understand(request), call)
    {
      if m_discardOldJobResult {
        m_discardOldJobResult := false;
        outside.Settling(jobId, Swallowed);
        return;
      }
      outside.Settling(jobId, Attempted);
      server.SendDownloadResultToRSU(http, jobId, StatusText(completed), errorCodeValue, x, request, call);
    }
  }

  const DESTINATION_PATH := "/mnt/swup/sample.txt"

  class GatewayServer {
    var m_clientSocket: int
    var m_downloadInProgress: bool
    ghost var crashed: bool
    const m_cloudgateway: CloudGateway
    const m_http: HttpServer
    const outside: Outside

    constructor (cloud: CloudGateway, http: HttpServer, outside: Outside)
      requires cloud.outside == outside
      requires outside.open == {} && outside.trace == [] && outside.world == World(map[], None, outside.world.client)
      requires outside.world.client.held == [] && http.downloadStatus == IN_PROGRESS
      requires cloud.m_jobID == None && !cloud.m_discardOldJobResult && !cloud.m_abortHandle && cloud.jobClientMap == map[]
      ensures Wired(cloud, http) && Snapshot() == Init(outside.world.client.url)
    {
      m_clientSocket, m_downloadInProgress, crashed := NO_SOCKET, false, false;
      m_cloudgateway, m_http, this.outside := cloud, http, outside;
    }

    predicate Wired(cloud: CloudGateway, http: HttpServer)
    {
      m_cloudgateway == cloud && m_http == http && cloud.outside == outside
    }

    /** The abstract state of the session. */
    ghost function Snapshot(): State
      reads this, m_cloudgateway, m_http, outside
    {
      State(Wire(m_clientSocket, outside.open, outside.trace),
            Control(m_downloadInProgress, m_cloudgateway.m_jobID, m_cloudgateway.m_abortHandle,
                    m_cloudgateway.m_discardOldJobResult, m_cloudgateway.jobClientMap),
            outside.world, m_http.downloadStatus, crashed)
    }

    method CloseConnection(socketId: int)
      requires socketId == m_clientSocket
      modifies this`m_clientSocket, outside`open, outside`trace
      ensures Snapshot() == old(Snapshot()).(wire := Close(old(Snapshot()).wire))
    {
      if socketId != NO_SOCKET {
        outside.CloseSocket(socketId);
        m_clientSocket := NO_SOCKET;
      }
    }

    /** `sendMessageToRSU` up to its confirmation handler: the text of the confirmation, if one came. */
    method SendMessageToRSU(m: Message, sent: bool, reply: Recv, taken: bool) returns (confirmation: Option<string>)
      requires Fits(m) && m.payload != []
      modifies this`m_clientSocket, outside
      ensures confirmation == if 0 <= old(m_clientSocket) && sent && reply.Received? then Some(reply.text) else None
      ensures confirmation.Some? ==>
                Snapshot() == old(Snapshot()).(
                  wire := Emit(Emit(old(Snapshot()).wire, FrameSent(old(m_clientSocket), m)), Confirmed(old(m_clientSocket))),
                  world := outside.world)
      ensures confirmation.None? ==>
                Snapshot() == old(Snapshot()).(
                  wire := SendMessage(old(Snapshot()).wire, m, sent, Lost), world := outside.world)
      ensures outside.world ==
              if m.kind == Data
              then old(outside.world).(client := Receive(old(outside.world).client, m.payload, old(Snapshot()).wire, sent, DataReply(reply), taken))
              else old(outside.world)
    {
      confirmation := None;
      if m_clientSocket < 0 {
        return;
      }
      var buffer, _ := FillBuffer(m);
      if !sent {
        CloseConnection(m_clientSocket);
        return;
      }
      assert buffer[..] == Encode(m) + [];
      DecodeEncoded(m, []);
      outside.Send(m_clientSocket, buffer);
      outside.Await(m_clientSocket, m, reply, taken);
      if reply.Hangup? {
        CloseConnection(m_clientSocket);
        return;
      }
      confirmation := Some(reply.text);
    }

    method TransferChunkToRSU(source: seq<Byte>, x: Exchange) returns (ok: bool)
      requires source != [] && Fits(Message(Data, 0, source)) && m_cloudgateway.outside == outside
      modifies this`m_clientSocket, m_cloudgateway`m_abortHandle, outside
      ensures Snapshot() == Transfer(old(Snapshot()), source, x.sent, DataReply(x.reply), x.taken)
      ensures ok == Answered(old(Snapshot()).wire, x.sent, DataReply(x.reply))
    {
      var confirmation := SendMessageToRSU(Message(Data, 0, source), x.sent, x.reply, x.taken);
      if confirmation.None? {
        return false;
      }
      if StartsWith(confirmation.value, "next-chunk") {
        return true;
      } else if StartsWith(confirmation.value, "abort") {
        if m_cloudgateway.m_jobID.Some? {
          m_cloudgateway.m_abortHandle := true;
          outside.Note(AbortTaken);
          m_cloudgateway.AbortDownload(m_cloudgateway.m_jobID.value);
        }
        return true;
      } else {
        CloseConnection(m_clientSocket);
        return false;
      }
    }

    /** The part of `processUrl` behind the search for the offset; `offset` is `None` when
        `std::stoul` throws, which happens after the ongoing job was cancelled. */
    method StartJob(extractedUrl: string, offset: Option<nat>, call: Call)
      requires m_cloudgateway.outside == outside
      modifies this, m_cloudgateway, outside
      ensures Snapshot() == HandleClient(
                old(Snapshot()), if offset.None? then Throwing else Wants(extractedUrl, offset.value), call)
    {
      if offset.Some? {
        outside.Asking(extractedUrl);
      }
      if m_downloadInProgress {
        var ongoingJob := m_cloudgateway.m_jobID;
        if ongoingJob.Some? {
          m_cloudgateway.DiscardOldJobResult(true);
          outside.Superseding();
          m_cloudgateway.AbortDownload(ongoingJob.value);
        }
      }
      if offset.None? {
        return;
      }
      var id, failed := m_cloudgateway.DownloadFile(RSU, extractedUrl, DESTINATION_PATH, offset.value, false, call);
      if id.Some? && !failed {
        m_downloadInProgress := true;
      } else {
        CloseConnection(m_clientSocket);
      }
    }

    /** `processUrl`; `threw` when `std::stoul` throws. */
    method ProcessUrl(text: string, call: Call) returns (threw: bool)
      requires IsHttp(text) && m_cloudgateway.outside == outside
      modifies this, m_cloudgateway, outside
      ensures Snapshot() == HandleClient(old(Snapshot()), Understand(Received(text)), call)
      ensures threw <==> Understand(Received(text)).Throwing?
    {
      threw := false;
      var offsetPosition := Find(text, OFFSET_KEYWORD, 0);
      if offsetPosition.Some? {
        var extractedUrl := text[..offsetPosition.value];
        var offset := Stoul(text[offsetPosition.value + |OFFSET_KEYWORD|..]);
        StartJob(extractedUrl, offset, call);
        threw := offset.None?;
      } else {
        CloseConnection(m_clientSocket);
      }
    }

    method ClientRequest(request: Recv, call: Call) returns (threw: bool)
      requires m_cloudgateway.outside == outside
      modifies this, m_cloudgateway, outside
      ensures Snapshot() == HandleClient(old(Snapshot()), Understand(request), call)
      ensures threw <==> Understand(request).Throwing?
    {
      if request.Hangup? || !IsHttp(request.text) {
        CloseConnection(m_clientSocket);
        return false;
      }
      threw := ProcessUrl(request.text, call);
    }

    /** `acceptClient` when a connection is pending on the descriptor `clientSocket`. */
    method AcceptClient(clientSocket: int, request: Recv, call: Call)
      requires m_cloudgateway.outside == outside
      modifies this, m_cloudgateway, outside
      ensures Snapshot() == Accept(old(Snapshot()), clientSocket, Understand(request), call)
    {
      outside.Connected(clientSocket);
      m_clientSocket := clientSocket;
      var threw := ClientRequest(request, call);
      if threw {
        crashed := true;
      }
    }

    /** The client's `next-url`: `sendMessageToRSU` catches what the request handler throws. */
    method NextRequest(request: Recv, call: Call)
      requires m_cloudgateway.outside == outside
      modifies this, m_cloudgateway, outside
      ensures Snapshot() == NextDownload(old(Snapshot()), Understand(request), call)
    {
      var threw := ClientRequest(request, call);
      if threw {
        CloseConnection(m_clientSocket);
        if m_cloudgateway.m_jobID.Some? {
          m_cloudgateway.AbortDownload(m_cloudgateway.m_jobID.value);
        }
      }
    }

    method SendDownloadResultToRSU(ghost http: HttpServer, jobId: JobId, status: string, errorCodeValue: nat,
                                   x: Exchange, request: Recv, call: Call)
      requires Wired(m_cloudgateway, http) && status != "" && Fits(Message(Status, errorCodeValue, Bytes(status)))
      modifies this, m_cloudgateway, outside
      ensures Snapshot() == SendResult(old(Snapshot()), jobId, Message(Status, errorCodeValue, Bytes(status)),
                                       x.sent, ResultReply(x.reply), Understand(request), call)
    {
      m_downloadInProgress := false;
      m_cloudgateway.m_abortHandle := false;
      outside.Note(ResultAttempt(jobId));
      var confirmation := SendMessageToRSU(Message(Status, errorCodeValue, Bytes(status)), x.sent, x.reply, x.taken);
      if confirmation.None? || StartsWith(confirmation.value, "no-download") {
        return;
      }
      if StartsWith(confirmation.value, "next-url") {
        NextRequest(request, call);
      } else {
        CloseConnection(m_clientSocket);
      }
    }
  }

  class DownloadBuffer {
    const m_gatewayServer: GatewayServer
    const m_cloudGateway: CloudGateway

    constructor (server: GatewayServer, cloud: CloudGateway)
      ensures m_gatewayServer == server && m_cloudGateway == cloud
    {
      m_gatewayServer, m_cloudGateway := server, cloud;
    }

    method WriteData(source: seq<Byte>, x: Exchange, ghost http: HttpServer) returns (written: nat)
      requires m_gatewayServer.Wired(m_cloudGateway, http) && Fits(Message(Data, 0, source))
      modifies m_gatewayServer, m_cloudGateway, m_cloudGateway.outside
      ensures m_gatewayServer.Snapshot() == Session.WriteData(old(m_gatewayServer.Snapshot()), source, x)
      ensures written == Reported(old(m_gatewayServer.Snapshot()), source, x)
    {
      if source == [] {
        return 0;
      }
      if m_cloudGateway.m_abortHandle {
        return |source|;
      }
      var ok := m_gatewayServer.TransferChunkToRSU(source, x);
      if ok {
        return |source|;
      }
      return 0;
    }
  }

  // ----- whole runs of the objects

  /** One call from outside, made on the objects. */
  method Perform(server: GatewayServer, cloud: CloudGateway, http: HttpServer, buffer: DownloadBuffer, step: Step)
    requires server.Wired(cloud, http) && buffer.m_gatewayServer == server && buffer.m_cloudGateway == cloud
    requires Possible(server.Snapshot(), step)
    modifies server, cloud, http, cloud.outside
    ensures server.Snapshot() == Apply(old(server.Snapshot()), step)
  {
    match step
    case AcceptStep(fd, request, call) =>
      server.AcceptClient(fd, request, call);
    case WriteStep(id, data, x) =>
      var written := buffer.WriteData(data, x, http);
      cloud.outside.Writing(id, written);
    case TerminalStep(id, op, x, request, call) =>
      cloud.OperationStateChanged(server, http, id, op, x, request, call);
    case SndStep(url, created, call) =>
      http.StartDownload(cloud, url, created, call, server);
  }

  /** Any number of calls: the states the objects go through are a run of the session, so that whatever
      holds of every run holds of the objects. */
  method Serve(server: GatewayServer, cloud: CloudGateway, http: HttpServer, buffer: DownloadBuffer, steps: seq<Step>)
    returns (ghost ss: seq<State>)
    requires server.Wired(cloud, http) && buffer.m_gatewayServer == server && buffer.m_cloudGateway == cloud
    requires server.Snapshot() == Init(cloud.outside.world.client.url) && AllPossible(server.Snapshot(), steps)
    modifies server, cloud, http, cloud.outside
    ensures IsRun(ss, steps) && server.Snapshot() == Last(ss)
    ensures cloud.m_discardOldJobResult ==> server.m_downloadInProgress
    ensures server.m_downloadInProgress || cloud.m_abortHandle ==> cloud.m_jobID.Some?
    ensures server.m_clientSocket != NO_SOCKET ==> server.m_clientSocket in cloud.outside.open
    ensures Disciplined(cloud.outside.trace) && Gated(cloud.outside.trace)
  {
    ss := [server.Snapshot()];
    var i := 0;
    while i < |steps|
      invariant 0 <= i <= |steps|
      invariant IsRun(ss, steps[..i]) && server.Snapshot() == Last(ss)
      invariant AllPossible(server.Snapshot(), steps[i..])
    {
      RunExtended(ss, steps[..i], steps[i]);
      assert steps[..i] + [steps[i]] == steps[..i + 1];
      assert steps[i..][1..] == steps[i + 1..];
      Perform(server, cloud, http, buffer, steps[i]);
      ss := ss + [server.Snapshot()];
      i := i + 1;
    }
    assert steps[..i] == steps;
    EveryRun(ss, steps);
  }
}
