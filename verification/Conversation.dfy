/** What single calls do, in the terms of the two sides of the connection: for every request a client can
    make and every confirmation it can give, what the server holds, sends and closes afterwards. */
module Conversation {
  import opened Prelude
  import opened RequestUrl
  import opened Frame
  import opened Session
  import opened SessionRuns

  // ----- what a text means

  /** A confirmation is told by how it begins, whatever follows. */
  lemma ConfirmationTexts(text: string)
    ensures DataReply(Received(text)).GoOn? <==> exists rest :: text == "next-chunk" + rest
    ensures DataReply(Received(text)).AbortRequest? <==> exists rest :: text == "abort" + rest
    ensures ResultReply(Received(text)).GoOn? <==> exists rest :: text == "no-download" + rest
    ensures ResultReply(Received(text)).NextUrl? <==> exists rest :: text == "next-url" + rest
    ensures DataReply(Hangup) == Lost && ResultReply(Hangup) == Lost
    ensures !DataReply(Received(text)).Lost? && !ResultReply(Received(text)).Lost?
    ensures !DataReply(Received(text)).NextUrl? && !ResultReply(Received(text)).AbortRequest?
  {
    Begins(text, "next-chunk");
    Begins(text, "abort");
    Begins(text, "no-download");
    Begins(text, "next-url");
    assert StartsWith(text, "next-chunk") ==> text[0] == 'n';
    assert StartsWith(text, "abort") ==> text[0] == 'a';
    assert StartsWith(text, "no-download") ==> text[1] == 'o';
    assert StartsWith(text, "next-url") ==> text[1] == 'e';
  }

  lemma Begins(text: string, prefix: string)
    ensures StartsWith(text, prefix) <==> exists rest :: text == prefix + rest
  {
    if StartsWith(text, prefix) {
      assert text == prefix + text[|prefix|..];
    }
  }

  /** The server can use exactly a request with one of the two schemes and an offset behind the keyword. */
  lemma RequestTexts(text: string)
    ensures Understand(Hangup) == Useless
    ensures Understand(Received(text)).Useless? <==> !IsHttp(text) || !Contains(text, OFFSET_KEYWORD)
    ensures ParseRequest(text).Ask? ==>
              Understand(Received(text)) == Wants(ParseRequest(text).url, ParseRequest(text).offset)
    ensures ParseRequest(text).BadOffset? ==> Understand(Received(text)) == Throwing
  {
    assert Find(text, OFFSET_KEYWORD, 0).Some? ==> OccursAt(text, OFFSET_KEYWORD, Find(text, OFFSET_KEYWORD, 0).value);
  }

  // ----- a connection

  /** The server has closed its connection. */
  predicate Hung(w: Wire, w': Wire) {
    w'.socket == -1 && w'.open == w.open - {w.socket}
  }

  /** A new job for the RSU client: it is current, it is in the map, it runs from the byte asked for, and a
      download is in progress. */
  predicate Begun(s': State, url: string, offset: nat, n: JobId) {
    && s'.control.inProgress && s'.control.jobId == Some(n)
    && n in s'.control.clientOf && s'.control.clientOf[n] == RSU
    && n in s'.world.jobs && s'.world.latest == Some(n) && s'.world.client.url == url
    && var job := s'.world.jobs[n];
       job.kind == RSU && job.url == url && job.offset == offset == job.pos && job.phase == Running && job.verdict == Outstanding
  }

  /** The job that was current runs no more; other jobs are not cancelled. */
  ghost predicate CurrentCancelled(s: State, s': State) {
    && (forall k :: k in s.world.jobs <==> k in s'.world.jobs)
    && forall k :: k in s.world.jobs ==>
         s'.world.jobs[k].phase ==
         if s.control.jobId == Some(k) && s.world.jobs[k].phase == Running then Cancelled else s.world.jobs[k].phase
  }

  lemma CancelIsExact(s: State, jobs': map<JobId, Job>)
    requires jobs' == CancelCurrent(s.world.jobs, s.control.jobId)
    ensures forall k :: k in s.world.jobs <==> k in jobs'
    ensures forall k :: k in s.world.jobs ==>
              jobs'[k].phase ==
              if s.control.jobId == Some(k) && s.world.jobs[k].phase == Running then Cancelled else s.world.jobs[k].phase
  {
  }

  /** A connection with a request that cannot be used is closed, and nothing else happens. */
  lemma UselessRequest(s: State, fd: int, call: Call)
    requires 0 <= fd && fd !in s.wire.open
    ensures var s' := Accept(s, fd, Useless, call);
            && s'.wire.socket == -1 && s'.wire.open == s.wire.open
            && s'.wire.trace == s.wire.trace + [Opened(fd), Closed(fd)]
            && s'.control == s.control && s'.world == s.world && s'.status == s.status && s'.crashed == s.crashed
  {
    assert s.wire.open + {fd} - {fd} == s.wire.open;
    assert s.wire.trace + [Opened(fd)] + [Closed(fd)] == s.wire.trace + [Opened(fd), Closed(fd)];
  }

  /** A request that starts a job; the result of a download in progress is going to be discarded. */
  lemma StartingRequest(s: State, fd: int, url: string, offset: nat, n: JobId)
    ensures var s' := Accept(s, fd, Wants(url, offset), Acknowledged(n));
            && Begun(s', url, offset, n) && s'.wire == Wire(fd, s.wire.open + {fd}, s.wire.trace + [Opened(fd)])
            && s'.crashed == s.crashed && s'.control.abortHandle == s.control.abortHandle
            && s'.world.jobs[n].clean == !s.control.abortHandle
            && s'.control.discard == (s.control.discard || (s.control.inProgress && s.control.jobId.Some?))
  {
  }

  /** A download in progress is cancelled for it, and otherwise no job is. */
  lemma StartingCancels(s: State, fd: int, url: string, offset: nat, n: JobId, k: JobId)
    requires n !in s.world.jobs && k in s.world.jobs
    ensures var s' := Accept(s, fd, Wants(url, offset), Acknowledged(n));
            && k in s'.world.jobs
            && s'.world.jobs[k].phase ==
               if s.control.inProgress && s.control.jobId == Some(k) && s.world.jobs[k].phase == Running
               then Cancelled else s.world.jobs[k].phase
  {
    CancelIsExact(s.(world := s.world.(jobs := MarkSuperseded(s.world.jobs, s.world.latest))),
                  CancelCurrent(MarkSuperseded(s.world.jobs, s.world.latest), s.control.jobId));
  }

  /** A request whose job does not start: what was in progress is cancelled all the same and stays in
      progress, and the connection is closed. */
  lemma FailingRequest(s: State, fd: int, url: string, offset: nat)
    requires 0 <= fd && fd !in s.wire.open
    ensures var s' := Accept(s, fd, Wants(url, offset), CallFailed);
            && s'.wire.socket == -1 && s'.wire.open == s.wire.open && s'.crashed == s.crashed
            && s'.control == s.control.(discard := s.control.discard || (s.control.inProgress && s.control.jobId.Some?))
            && (if s.control.inProgress then CurrentCancelled(s, s') else s'.world.jobs == s.world.jobs)
  {
    assert s.wire.open + {fd} - {fd} == s.wire.open;
    CancelIsExact(s.(world := s.world.(jobs := MarkSuperseded(s.world.jobs, s.world.latest))),
                  CancelCurrent(MarkSuperseded(s.world.jobs, s.world.latest), s.control.jobId));
  }

  /** A request on which `std::stoul` throws ends the main loop, with the connection open; what was in
      progress has been cancelled before. */
  lemma ThrowingRequest(s: State, fd: int, call: Call)
    ensures var s' := Accept(s, fd, Throwing, call);
            && s'.crashed && s'.wire == Wire(fd, s.wire.open + {fd}, s.wire.trace + [Opened(fd)])
            && s'.control == s.control.(discard := s.control.discard || (s.control.inProgress && s.control.jobId.Some?))
            && (if s.control.inProgress then CurrentCancelled(s, s') else s'.world.jobs == s.world.jobs)
  {
    CancelIsExact(s.(world := s.world.(jobs := MarkSuperseded(s.world.jobs, s.world.latest))),
                  CancelCurrent(MarkSuperseded(s.world.jobs, s.world.latest), s.control.jobId));
  }

  // ----- a chunk

  /** A job writes to a connected client, and no abort is pending. */
  predicate Sendable(s: State, id: JobId, data: seq<Byte>) {
    id in s.world.jobs && data != [] && !s.control.abortHandle && 0 <= s.wire.socket
  }

  /** The write is reported as failed, and the job writes no more. */
  predicate WriteFailed(s: State, s': State, id: JobId) {
    && id in s.world.jobs && id in s'.world.jobs && s'.world.jobs[id] == s.world.jobs[id].(phase := Refused)
    && s'.control == s.control
  }

  function Frames(s: State, data: seq<Byte>): seq<Event> {
    s.wire.trace + [FrameSent(s.wire.socket, Message(Data, 0, data)), Confirmed(s.wire.socket)]
  }

  /** The client confirms a chunk by a text that begins with `next-chunk`: the job moves on. */
  lemma ConfirmedChunk(s: State, id: JobId, data: seq<Byte>, rest: string, taken: bool)
    requires Sendable(s, id, data)
    ensures var x := Exchange(true, Received("next-chunk" + rest), taken);
            var s' := Write(s, id, data, x);
            && Reported(s, data, x) == |data| && s'.control == s.control
            && s'.wire == s.wire.(trace := Frames(s, data))
            && s'.world.client.held == s.world.client.held + data && s'.world.client.url == s.world.client.url
            && s'.world.jobs == s.world.jobs[id := s.world.jobs[id].(pos := s.world.jobs[id].pos + |data|)]
  {
    ConfirmationTexts("next-chunk" + rest);
  }

  /** The client aborts: the chunk counts, the current job is cancelled, and the abort is pending. */
  lemma AbortedChunk(s: State, id: JobId, data: seq<Byte>, rest: string, taken: bool)
    requires Sendable(s, id, data) && s.control.jobId.Some?
    ensures var x := Exchange(true, Received("abort" + rest), taken);
            var s' := Write(s, id, data, x);
            && Reported(s, data, x) == |data| && s'.control == s.control.(abortHandle := true)
            && s'.wire == s.wire.(trace := Frames(s, data) + [AbortTaken])
            && s'.world.client.held == s.world.client.held + data
            && CurrentCancelled(s, s') && s'.world.jobs[id].pos == s.world.jobs[id].pos + |data|
  {
    ConfirmationTexts("abort" + rest);
    CancelIsExact(s, CancelCurrent(s.world.jobs, s.control.jobId));
  }

  /** Any other text, a connection that is lost before or after the frame, and a client that is not there
      fail the write; the connection is closed. */
  lemma FailedChunk(s: State, id: JobId, data: seq<Byte>, x: Exchange)
    requires Sendable(s, id, data)
    requires !x.sent || x.reply.Hangup? ||
             !((exists rest :: x.reply.text == "next-chunk" + rest) || exists rest :: x.reply.text == "abort" + rest)
    ensures var s' := Write(s, id, data, x);
            && Reported(s, data, x) == 0 && WriteFailed(s, s', id) && Hung(s.wire, s'.wire)
            && s'.wire.trace ==
               (if !x.sent then s.wire.trace
                else if x.reply.Hangup? then s.wire.trace + [FrameSent(s.wire.socket, Message(Data, 0, data))]
                else Frames(s, data)) + [Closed(s.wire.socket)]
            && s'.world.client.held == s.world.client.held + if x.sent && (x.taken || x.reply.Received?) then data else []
  {
    if x.sent && x.reply.Received? {
      ConfirmationTexts(x.reply.text);
    }
  }

  /** Without a connection, or without data, a write fails and nothing else happens. */
  lemma NothingToSend(s: State, id: JobId, data: seq<Byte>, x: Exchange)
    requires id in s.world.jobs && (data == [] || (!s.control.abortHandle && s.wire.socket < 0))
    ensures var s' := Write(s, id, data, x);
            && Reported(s, data, x) == 0 && WriteFailed(s, s', id) && s'.wire == s.wire && s'.world.client == s.world.client
  {
  }

  /** Under a pending abort a chunk is dropped and counts as written. */
  lemma DroppedChunk(s: State, id: JobId, data: seq<Byte>, x: Exchange)
    requires id in s.world.jobs && data != [] && s.control.abortHandle
    ensures var s' := Write(s, id, data, x);
            && Reported(s, data, x) == |data| && s'.wire == s.wire && s'.control == s.control
            && s'.world.client == s.world.client
            && s'.world.jobs == s.world.jobs[id := s.world.jobs[id].(pos := s.world.jobs[id].pos + |data|)]
  {
  }

  // ----- a result

  /** A result of an RSU job goes out to a connected client. */
  predicate Sent(s: State, id: JobId, op: OperationState, sent: bool) {
    && (op.Completed? || op.Failed?) && id in s.control.clientOf && s.control.clientOf[id] == RSU
    && !s.control.discard && 0 <= s.wire.socket && sent
  }

  /** The flags are reset: no download is in progress, no abort is pending. */
  predicate FlagsReset(s: State, s': State) {
    s'.control == s.control.(inProgress := false, abortHandle := false)
  }

  /** A client that answers by `next-url` and asks for a file gets its next job on the same connection. */
  lemma NextUrlBegins(s: State, id: JobId, op: OperationState, rest: string, taken: bool, url: string, offset: nat, n: JobId)
    requires Sent(s, id, op, true)
    ensures var x := Exchange(true, Received("next-url" + rest), taken);
            var s' := Terminal(s, id, op, x, Wants(url, offset), Acknowledged(n));
            && Begun(s', url, offset, n) && s'.world.jobs[n].clean && s'.control.clientOf == s.control.clientOf[n := RSU]
            && !s'.control.discard && !s'.control.abortHandle && s'.crashed == s.crashed
            && s'.world.jobs == Settle(s.world.jobs, id, Attempted)[n := s'.world.jobs[n]]
            && s'.wire.socket == s.wire.socket && s'.wire.open == s.wire.open
  {
    ConfirmationTexts("next-url" + rest);
  }

  /** If the call fails, or the request cannot be used, the connection is closed. */
  lemma NextUrlFails(s: State, id: JobId, op: OperationState, rest: string, taken: bool, asked: Asked, call: Call)
    requires Sent(s, id, op, true) && (asked.Useless? || (asked.Wants? && call.CallFailed?))
    ensures var x := Exchange(true, Received("next-url" + rest), taken);
            var s' := Terminal(s, id, op, x, asked, call);
            && FlagsReset(s, s') && Hung(s.wire, s'.wire) && s'.crashed == s.crashed
            && s'.world.jobs == Settle(s.world.jobs, id, Attempted)
  {
    ConfirmationTexts("next-url" + rest);
  }

  /** If `std::stoul` throws, the exception is caught: the connection is closed and the current job, which
      may be one that the client did not mean, is cancelled. */
  lemma NextUrlThrows(s: State, id: JobId, op: OperationState, rest: string, taken: bool, call: Call)
    requires Sent(s, id, op, true)
    ensures var x := Exchange(true, Received("next-url" + rest), taken);
            var s' := Terminal(s, id, op, x, Throwing, call);
            FlagsReset(s, s') && Hung(s.wire, s'.wire) && s'.crashed == s.crashed && CurrentCancelled(s, s')
  {
    ConfirmationTexts("next-url" + rest);
    var s1 := s.(world := SettleIn(s.world, id, Attempted));
    CancelIsExact(s1, CancelCurrent(s1.world.jobs, s1.control.jobId));
  }

  /** A client that answers by `no-download` stays connected, and nothing is started. */
  lemma NoDownload(s: State, id: JobId, op: OperationState, rest: string, taken: bool, asked: Asked, call: Call)
    requires Sent(s, id, op, true)
    ensures var s' := Terminal(s, id, op, Exchange(true, Received("no-download" + rest), taken), asked, call);
            && FlagsReset(s, s') && s'.wire.socket == s.wire.socket && s'.wire.open == s.wire.open
            && s'.crashed == s.crashed && s'.world == SettleIn(s.world, id, Attempted)
  {
    ConfirmationTexts("no-download" + rest);
  }

  /** Any other answer, and a connection that is lost, close the connection, and nothing is started. */
  lemma ResultNotConfirmed(s: State, id: JobId, op: OperationState, x: Exchange, asked: Asked, call: Call)
    requires Sent(s, id, op, true)
    requires !x.sent || x.reply.Hangup? ||
             !((exists rest :: x.reply.text == "no-download" + rest) || exists rest :: x.reply.text == "next-url" + rest)
    ensures var s' := Terminal(s, id, op, x, asked, call);
            && FlagsReset(s, s') && Hung(s.wire, s'.wire) && s'.crashed == s.crashed
            && s'.world == SettleIn(s.world, id, Attempted)
  {
    if x.sent && x.reply.Received? {
      ConfirmationTexts(x.reply.text);
    }
  }

  /** Without a connection the result is lost, but the flags are reset. */
  lemma ResultWithoutClient(s: State, id: JobId, op: OperationState, x: Exchange, asked: Asked, call: Call)
    requires (op.Completed? || op.Failed?) && id in s.control.clientOf && s.control.clientOf[id] == RSU
    requires !s.control.discard && s.wire.socket < 0
    ensures var s' := Terminal(s, id, op, x, asked, call);
            && FlagsReset(s, s') && s'.wire == s.wire.(trace := s.wire.trace + [ResultAttempt(id)])
            && s'.world == SettleIn(s.world, id, Attempted) && s'.crashed == s.crashed
  {
  }

  // ----- an SND download

  /** An SND download starts exactly for a URL of one of the two schemes, when its file could be created and
      the call was acknowledged; its job runs from the first byte and takes over the shared job id. Otherwise
      the download status is FAILED and nothing else changes. The RSU session is not touched. */
  lemma SndRequest(s: State, url: string, created: bool, call: Call)
    ensures var s' := SndStart(s, url, created, call);
            var http := (exists rest :: url == "http://" + rest) || exists rest :: url == "https://" + rest;
            if http && created && call.Acknowledged? then
              && s'.status == IN_PROGRESS && s'.wire == s.wire && s'.crashed == s.crashed
              && s'.control == s.control.(jobId := Some(call.id), clientOf := s.control.clientOf[call.id := SND])
              && s'.world.client == s.world.client && s'.world.latest == s.world.latest
              && (forall k :: k in s.world.jobs && k != call.id ==> k in s'.world.jobs && s'.world.jobs[k] == s.world.jobs[k])
              && call.id in s'.world.jobs
              && s'.world.jobs[call.id] == Job(SND, url, 0, 0, Running, Outstanding, false, !s.control.abortHandle)
            else s' == s.(status := FAILED)
  {
    IsHttpExactly(url);
  }
}
