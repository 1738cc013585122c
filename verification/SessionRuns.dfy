/** What every run of the session keeps, whatever the clients, the network and the cloud do. */
module SessionRuns {
  import opened Prelude
  import opened Frame
  import opened Session

  // ----- results

  /** The state after the frame of a result was sent. */
  function AfterAttempt(s: State, id: JobId, m: Message, sent: bool, reply: Confirmation): State {
    s.(control := s.control.(inProgress := false, abortHandle := false),
       wire := SendMessage(Emit(s.wire, ResultAttempt(id)), m, sent, reply), world := SettleIn(s.world, id, Attempted))
  }

  /** What a result that is not swallowed leads to. */
  lemma ResultIs(s: State, id: JobId, m: Message, sent: bool, reply: Confirmation, asked: Asked, call: Call)
    requires !s.control.discard
    ensures var s1 := AfterAttempt(s, id, m, sent, reply);
            RsuResult(s, id, m, sent, reply, asked, call)
            == if Answered(s.wire, sent, reply) && reply.NextUrl? then NextDownload(s1, asked, call) else s1
  {
  }

  // ----- the flags

  /** Discard pending implies download in progress, which implies that there is a job; abort pending
      implies that there is a job; and there is one as soon as any job was acknowledged. */
  predicate Flags(s: State) {
    && (s.control.discard ==> s.control.inProgress)
    && (s.control.inProgress ==> s.control.jobId.Some?)
    && (s.control.abortHandle ==> s.control.jobId.Some?)
    && (s.world.jobs != map[] ==> s.control.jobId.Some?)
  }

  lemma HandleClientFlags(s: State, asked: Asked, call: Call)
    requires Flags(s)
    ensures Flags(HandleClient(s, asked, call))
  {
  }

  lemma ResultFlags(s: State, id: JobId, m: Message, sent: bool, reply: Confirmation, asked: Asked, call: Call)
    requires Flags(s)
    ensures Flags(RsuResult(s, id, m, sent, reply, asked, call))
  {
    if !s.control.discard {
      ResultIs(s, id, m, sent, reply, asked, call);
      HandleClientFlags(AfterAttempt(s, id, m, sent, reply), asked, call);
    }
  }

  lemma FlagsStep(s: State, step: Step)
    requires Flags(s) && Possible(s, step)
    ensures Flags(Apply(s, step))
  {
    match step
    case AcceptStep(fd, request, call) =>
      HandleClientFlags(s.(wire := Open(s.wire, fd)), Understand(request), call);
    case TerminalStep(id, op, x, request, call) =>
      var status := TerminalStatus(op);
      if status.Some? {
        ResultFlags(s, id, StatusMessage(status.value.0, status.value.1), x.sent, ResultReply(x.reply),
                    Understand(request), call);
      }
    case _ =>
  }

  // ----- sockets

  /** What an observer of the trace knows: the open sockets, and those with an unconfirmed frame. */
  datatype Monitor = Monitor(open: set<int>, awaiting: set<int>)

  function Observe(w: Monitor, e: Event): Monitor {
    match e
    case Opened(fd) => w.(open := w.open + {fd})
    case Closed(fd) => Monitor(w.open - {fd}, w.awaiting - {fd})
    case FrameSent(fd, _) => w.(awaiting := w.awaiting + {fd})
    case Confirmed(fd) => w.(awaiting := w.awaiting - {fd})
    case _ => w
  }

  function Watch(trace: seq<Event>): Monitor {
    if trace == [] then Monitor({}, {}) else Observe(Watch(trace[..|trace| - 1]), trace[|trace| - 1])
  }

  /** Stop-and-wait and socket discipline: a frame goes out only on an open socket without an
      unconfirmed frame, a confirmation answers a frame, and only open sockets are closed. */
  predicate Allowed(w: Monitor, e: Event) {
    match e
    case Opened(fd) => fd !in w.open
    case Closed(fd) => fd in w.open
    case FrameSent(fd, _) => fd in w.open && fd !in w.awaiting
    case Confirmed(fd) => fd in w.awaiting
    case _ => true
  }

  predicate Disciplined(trace: seq<Event>) {
    trace == [] || (Disciplined(trace[..|trace| - 1]) && Allowed(Watch(trace[..|trace| - 1]), trace[|trace| - 1]))
  }

  lemma Append(trace: seq<Event>, e: Event)
    ensures Watch(trace + [e]) == Observe(Watch(trace), e)
    ensures Disciplined(trace + [e]) <==> Disciplined(trace) && Allowed(Watch(trace), e)
  {
    assert (trace + [e])[..|trace|] == trace;
  }

  /** The trace is disciplined, the current socket is open, and `awaiting` are the sockets with an
      unconfirmed frame: none between two calls. */
  predicate Sockets(w: Wire, awaiting: set<int>) {
    && Disciplined(w.trace)
    && Watch(w.trace) == Monitor(w.open, awaiting)
    && (w.socket != NO_SOCKET ==> 0 <= w.socket && w.socket in w.open)
  }

  lemma CloseSockets(w: Wire, awaiting: set<int>)
    requires Sockets(w, awaiting) && awaiting <= {w.socket}
    requires w.socket == NO_SOCKET ==> awaiting == {}
    ensures Sockets(Close(w), {})
  {
    Append(w.trace, Closed(w.socket));
  }

  lemma SendMessageSockets(w: Wire, m: Message, sent: bool, reply: Confirmation)
    requires Sockets(w, {})
    ensures Sockets(SendMessage(w, m, sent, reply), {})
  {
    if 0 <= w.socket {
      var w1 := Emit(w, FrameSent(w.socket, m));
      Append(w.trace, FrameSent(w.socket, m));
      var w2 := Emit(w1, Confirmed(w.socket));
      Append(w1.trace, Confirmed(w.socket));
      CloseSockets(w, {});
      CloseSockets(w1, {w.socket});
      CloseSockets(w2, {});
    }
  }

  lemma NoteSockets(w: Wire, e: Event)
    requires Sockets(w, {}) && (e.AbortTaken? || e.ResultAttempt?)
    ensures Sockets(Emit(w, e), {})
  {
    Append(w.trace, e);
  }

  lemma HandleClientWire(s: State, asked: Asked, call: Call)
    ensures var w := HandleClient(s, asked, call).wire; w == s.wire || w == Close(s.wire)
  {
  }

  lemma TransferWire(s: State, data: seq<Byte>, sent: bool, reply: Confirmation, taken: bool)
    requires Sockets(s.wire, {})
    ensures Sockets(Transfer(s, data, sent, reply, taken).wire, {})
  {
    SendMessageSockets(s.wire, Message(Data, 0, data), sent, reply);
    NoteSockets(SendMessage(s.wire, Message(Data, 0, data), sent, reply), AbortTaken);
  }

  lemma NextDownloadWire(s: State, asked: Asked, call: Call)
    requires Sockets(s.wire, {})
    ensures Sockets(NextDownload(s, asked, call).wire, {})
  {
    HandleClientWire(s, asked, call);
    CloseSockets(s.wire, {});
    CloseSockets(Close(s.wire), {});
  }

  lemma ResultWire(s: State, id: JobId, m: Message, sent: bool, reply: Confirmation, asked: Asked, call: Call)
    requires Sockets(s.wire, {})
    ensures Sockets(RsuResult(s, id, m, sent, reply, asked, call).wire, {})
  {
    if !s.control.discard {
      NoteSockets(s.wire, ResultAttempt(id));
      SendMessageSockets(Emit(s.wire, ResultAttempt(id)), m, sent, reply);
      ResultIs(s, id, m, sent, reply, asked, call);
      NextDownloadWire(AfterAttempt(s, id, m, sent, reply), asked, call);
    }
  }

  lemma SocketsStep(s: State, step: Step)
    requires Sockets(s.wire, {}) && Possible(s, step)
    ensures Sockets(Apply(s, step).wire, {})
  {
    match step
    case AcceptStep(fd, request, call) =>
      Append(s.wire.trace, Opened(fd));
      CloseSockets(Open(s.wire, fd), {});
      HandleClientWire(s.(wire := Open(s.wire, fd)), Understand(request), call);
    case WriteStep(id, data, x) => TransferWire(s, data, x.sent, DataReply(x.reply), x.taken);
    case TerminalStep(id, op, x, request, call) =>
      var status := TerminalStatus(op);
      if status.Some? {
        ResultWire(s, id, StatusMessage(status.value.0, status.value.1), x.sent, ResultReply(x.reply),
                   Understand(request), call);
      }
    case SndStep(_, _, _) =>
  }

  /** Between two frames on one socket, the first is confirmed or its connection is closed. */
  lemma {:induction false} AwaitingSince(trace: seq<Event>, fd: int, i: nat)
    requires i < |trace| && trace[i].FrameSent? && trace[i].fd == fd
    requires forall k :: i < k < |trace| ==> trace[k] != Confirmed(fd) && trace[k] != Closed(fd)
    ensures fd in Watch(trace).awaiting
  {
    if i < |trace| - 1 {
      AwaitingSince(trace[..|trace| - 1], fd, i);
    }
  }

  lemma {:induction false} ClosedSince(trace: seq<Event>, fd: int, i: nat)
    requires i < |trace| && trace[i] == Closed(fd)
    requires forall k :: i < k < |trace| ==> trace[k] != Opened(fd)
    ensures fd !in Watch(trace).open
  {
    if i < |trace| - 1 {
      ClosedSince(trace[..|trace| - 1], fd, i);
    }
  }

  lemma {:induction false} PrefixDisciplined(trace: seq<Event>, n: nat)
    requires n <= |trace| && Disciplined(trace)
    ensures Disciplined(trace[..n])
    ensures n < |trace| ==> Allowed(Watch(trace[..n]), trace[n])
  {
    if n < |trace| - 1 {
      PrefixDisciplined(trace[..|trace| - 1], n);
      assert trace[..|trace| - 1][..n] == trace[..n];
    } else if n == |trace| {
      assert trace[..n] == trace;
    }
  }

  /** What discipline says about any two events of a trace. */
  lemma DisciplineMeans(trace: seq<Event>, fd: int, i: nat, j: nat)
    requires Disciplined(trace) && i < j < |trace|
    ensures trace[i].FrameSent? && trace[i].fd == fd && trace[j].FrameSent? && trace[j].fd == fd ==>
              exists k :: i < k < j && (trace[k] == Confirmed(fd) || trace[k] == Closed(fd))
    ensures trace[i] == Closed(fd) && (trace[j] == Closed(fd) || (trace[j].FrameSent? && trace[j].fd == fd)) ==>
              exists k :: i < k < j && trace[k] == Opened(fd)
  {
    PrefixDisciplined(trace, j);
    var before := trace[..j];
    if trace[i].FrameSent? && trace[i].fd == fd && forall k :: i < k < j ==> before[k] != Confirmed(fd) && before[k] != Closed(fd) {
      AwaitingSince(before, fd, i);
    }
    if trace[i] == Closed(fd) && forall k :: i < k < j ==> before[k] != Opened(fd) {
      ClosedSince(before, fd, i);
    }
  }

  // ----- the abort gate

  /** An abort was taken and no result has been attempted since. */
  predicate AbortOpen(trace: seq<Event>) {
    trace != []
    && (trace[|trace| - 1].AbortTaken? || (!trace[|trace| - 1].ResultAttempt? && AbortOpen(trace[..|trace| - 1])))
  }

  predicate IsChunk(e: Event) {
    e.FrameSent? && e.m.kind == Data
  }

  /** No chunk goes out while an abort is open. */
  predicate Gated(trace: seq<Event>) {
    trace == []
    || (Gated(trace[..|trace| - 1]) && (IsChunk(trace[|trace| - 1]) ==> !AbortOpen(trace[..|trace| - 1])))
  }

  predicate Gate(s: State) {
    Gated(s.wire.trace) && (AbortOpen(s.wire.trace) <==> s.control.abortHandle)
  }

  lemma AppendGate(trace: seq<Event>, e: Event)
    ensures AbortOpen(trace + [e]) <==> e.AbortTaken? || (!e.ResultAttempt? && AbortOpen(trace))
    ensures Gated(trace + [e]) <==> Gated(trace) && (IsChunk(e) ==> !AbortOpen(trace))
  {
    assert (trace + [e])[..|trace|] == trace;
  }

  lemma SendMessageGate(w: Wire, m: Message, sent: bool, reply: Confirmation)
    requires Gated(w.trace) && (m.kind == Data ==> !AbortOpen(w.trace))
    ensures var w' := SendMessage(w, m, sent, reply);
            Gated(w'.trace) && (AbortOpen(w'.trace) <==> AbortOpen(w.trace))
  {
    var w1 := Emit(w, FrameSent(w.socket, m));
    var w2 := Emit(w1, Confirmed(w.socket));
    AppendGate(w.trace, Closed(w.socket));
    AppendGate(w.trace, FrameSent(w.socket, m));
    AppendGate(w1.trace, Closed(w.socket));
    AppendGate(w1.trace, Confirmed(w.socket));
    AppendGate(w2.trace, Closed(w.socket));
  }

  lemma TransferGate(s: State, data: seq<Byte>, sent: bool, reply: Confirmation, taken: bool)
    requires Gate(s) && !s.control.abortHandle
    ensures Gate(Transfer(s, data, sent, reply, taken))
  {
    SendMessageGate(s.wire, Message(Data, 0, data), sent, reply);
    AppendGate(SendMessage(s.wire, Message(Data, 0, data), sent, reply).trace, AbortTaken);
  }

  lemma HandleClientControl(s: State, asked: Asked, call: Call)
    ensures HandleClient(s, asked, call).control.abortHandle == s.control.abortHandle
  {
  }

  lemma CloseGate(s: State)
    requires Gate(s)
    ensures Gate(s.(wire := Close(s.wire)))
  {
    AppendGate(s.wire.trace, Closed(s.wire.socket));
  }

  lemma NextDownloadGate(s: State, asked: Asked, call: Call)
    requires Gate(s)
    ensures Gate(NextDownload(s, asked, call))
  {
    CloseGate(s);
    HandleClientWire(s, asked, call);
    HandleClientControl(s, asked, call);
    CloseGate(HandleClient(s, asked, call));
  }

  lemma ResultGate(s: State, id: JobId, m: Message, sent: bool, reply: Confirmation, asked: Asked, call: Call)
    requires Gate(s) && m.kind == Status
    ensures Gate(RsuResult(s, id, m, sent, reply, asked, call))
  {
    if !s.control.discard {
      AppendGate(s.wire.trace, ResultAttempt(id));
      SendMessageGate(Emit(s.wire, ResultAttempt(id)), m, sent, reply);
      ResultIs(s, id, m, sent, reply, asked, call);
      NextDownloadGate(AfterAttempt(s, id, m, sent, reply), asked, call);
    }
  }

  lemma GateStep(s: State, step: Step)
    requires Gate(s) && Possible(s, step)
    ensures Gate(Apply(s, step))
  {
    match step
    case AcceptStep(fd, request, call) =>
      var w := Open(s.wire, fd);
      AppendGate(s.wire.trace, Opened(fd));
      AppendGate(w.trace, Closed(fd));
      HandleClientWire(s.(wire := w), Understand(request), call);
      HandleClientControl(s.(wire := w), Understand(request), call);
    case WriteStep(id, data, x) =>
      if !s.control.abortHandle {
        TransferGate(s, data, x.sent, DataReply(x.reply), x.taken);
      }
    case TerminalStep(id, op, x, request, call) =>
      var status := TerminalStatus(op);
      if status.Some? {
        ResultGate(s, id, StatusMessage(status.value.0, status.value.1), x.sent, ResultReply(x.reply),
                   Understand(request), call);
      }
    case SndStep(_, _, _) =>
  }

  /** Between an abort and a later chunk lies the attempt to send a result. */
  lemma {:induction false} GatedMeans(trace: seq<Event>, i: nat, j: nat)
    requires Gated(trace) && i < j < |trace| && trace[i].AbortTaken? && IsChunk(trace[j])
    ensures exists k :: i < k < j && trace[k].ResultAttempt?
  {
    if j < |trace| - 1 {
      var front := trace[..|trace| - 1];
      GatedMeans(front, i, j);
      var k :| i < k < j && front[k].ResultAttempt?;
      assert trace[k].ResultAttempt?;
    } else {
      OpenUnlessAttempted(trace[..j], i);
    }
  }

  lemma {:induction false} OpenUnlessAttempted(trace: seq<Event>, i: nat)
    requires i < |trace| && trace[i].AbortTaken? && !AbortOpen(trace)
    ensures exists k :: i < k < |trace| && trace[k].ResultAttempt?
  {
    if !trace[|trace| - 1].ResultAttempt? {
      var front := trace[..|trace| - 1];
      OpenUnlessAttempted(front, i);
      var k :| i < k < |front| && front[k].ResultAttempt?;
      assert trace[k].ResultAttempt?;
    }
  }

  // ----- accounting

  function Attempts(trace: seq<Event>): nat {
    if trace == [] then 0
    else Attempts(trace[..|trace| - 1]) + if trace[|trace| - 1].ResultAttempt? then 1 else 0
  }

  lemma AppendAttempts(trace: seq<Event>, e: Event)
    ensures Attempts(trace + [e]) == Attempts(trace) + if e.ResultAttempt? then 1 else 0
  {
    assert (trace + [e])[..|trace|] == trace;
  }

  lemma SendMessageAttempts(w: Wire, m: Message, sent: bool, reply: Confirmation)
    ensures Attempts(SendMessage(w, m, sent, reply).trace) == Attempts(w.trace)
    ensures Attempts(Close(w).trace) == Attempts(w.trace)
  {
    var w1 := Emit(w, FrameSent(w.socket, m));
    var w2 := Emit(w1, Confirmed(w.socket));
    AppendAttempts(w.trace, Closed(w.socket));
    AppendAttempts(w.trace, FrameSent(w.socket, m));
    AppendAttempts(w1.trace, Closed(w.socket));
    AppendAttempts(w1.trace, Confirmed(w.socket));
    AppendAttempts(w2.trace, Closed(w.socket));
  }

  /** What happens to results: one comes in, it is swallowed, or a connection cancels a job. */
  datatype Happening = ResultIn | ResultSwallowed | Supersession

  predicate IsResult(s: State, step: Step) {
    && step.TerminalStep? && TerminalStatus(step.op).Some?
    && step.id in s.control.clientOf && s.control.clientOf[step.id] == RSU
  }

  predicate Happens(h: Happening, s: State, step: Step) {
    match h
    case ResultIn => IsResult(s, step)
    case ResultSwallowed => IsResult(s, step) && s.control.discard
    case Supersession => step.AcceptStep? && Supersedes(s.control) && !Understand(step.request).Useless?
  }

  /** How often it happens in a run. */
  function Count(h: Happening, ss: seq<State>, steps: seq<Step>): nat
    requires |ss| == |steps| + 1
  {
    if steps == [] then 0
    else Count(h, ss[..|ss| - 1], steps[..|steps| - 1])
         + if Happens(h, ss[|ss| - 2], steps[|steps| - 1]) then 1 else 0
  }

  lemma TransferAttempts(s: State, data: seq<Byte>, sent: bool, reply: Confirmation, taken: bool)
    ensures Attempts(Transfer(s, data, sent, reply, taken).wire.trace) == Attempts(s.wire.trace)
    ensures Transfer(s, data, sent, reply, taken).control.discard == s.control.discard
  {
    SendMessageAttempts(s.wire, Message(Data, 0, data), sent, reply);
    AppendAttempts(SendMessage(s.wire, Message(Data, 0, data), sent, reply).trace, AbortTaken);
  }

  lemma WriteAttempts(s: State, id: JobId, data: seq<Byte>, x: Exchange)
    ensures Attempts(Write(s, id, data, x).wire.trace) == Attempts(s.wire.trace)
    ensures Write(s, id, data, x).control.discard == s.control.discard
  {
    TransferAttempts(s, data, x.sent, DataReply(x.reply), x.taken);
  }

  lemma HandleClientAttempts(s: State, asked: Asked, call: Call)
    ensures Attempts(HandleClient(s, asked, call).wire.trace) == Attempts(s.wire.trace)
    ensures HandleClient(s, asked, call).control.discard
            == (s.control.discard || (Supersedes(s.control) && !asked.Useless?))
  {
    HandleClientWire(s, asked, call);
    SendMessageAttempts(s.wire, Message(Data, 0, []), false, Lost);
  }

  lemma NextDownloadAttempts(s: State, asked: Asked, call: Call)
    requires !s.control.discard && !s.control.inProgress
    ensures Attempts(NextDownload(s, asked, call).wire.trace) == Attempts(s.wire.trace)
    ensures !NextDownload(s, asked, call).control.discard
  {
    HandleClientAttempts(s, asked, call);
    SendMessageAttempts(HandleClient(s, asked, call).wire, Message(Data, 0, []), false, Lost);
  }

  lemma ResultAttempts(s: State, id: JobId, m: Message, sent: bool, reply: Confirmation, asked: Asked, call: Call)
    ensures var s' := RsuResult(s, id, m, sent, reply, asked, call);
            && Attempts(s'.wire.trace) == Attempts(s.wire.trace) + (if s.control.discard then 0 else 1)
            && !s'.control.discard
  {
    if !s.control.discard {
      AppendAttempts(s.wire.trace, ResultAttempt(id));
      SendMessageAttempts(Emit(s.wire, ResultAttempt(id)), m, sent, reply);
      ResultIs(s, id, m, sent, reply, asked, call);
      NextDownloadAttempts(AfterAttempt(s, id, m, sent, reply), asked, call);
    }
  }

  lemma AcceptAccounts(s: State, fd: int, asked: Asked, call: Call)
    ensures Attempts(Accept(s, fd, asked, call).wire.trace) == Attempts(s.wire.trace)
    ensures Accept(s, fd, asked, call).control.discard == (s.control.discard || (Supersedes(s.control) && !asked.Useless?))
  {
    AppendAttempts(s.wire.trace, Opened(fd));
    HandleClientAttempts(s.(wire := Open(s.wire, fd)), asked, call);
  }

  lemma TerminalAccounts(s: State, id: JobId, op: OperationState, x: Exchange, asked: Asked, call: Call)
    ensures var s' := Terminal(s, id, op, x, asked, call);
            var result := TerminalStatus(op).Some? && id in s.control.clientOf && s.control.clientOf[id] == RSU;
            && Attempts(s'.wire.trace) == Attempts(s.wire.trace) + (if result && !s.control.discard then 1 else 0)
            && s'.control.discard == (s.control.discard && !result)
  {
    var status := TerminalStatus(op);
    if status.Some? {
      ResultAttempts(s, id, StatusMessage(status.value.0, status.value.1), x.sent, ResultReply(x.reply), asked, call);
    }
  }

  /** One step: a result that is not swallowed is attempted, and the discard flag goes up only by a
      supersession and comes down by swallowing a result. */
  lemma AccountsStep(s: State, step: Step)
    requires Possible(s, step)
    ensures Attempts(Apply(s, step).wire.trace)
            == Attempts(s.wire.trace) + if IsResult(s, step) && !s.control.discard then 1 else 0
    ensures Apply(s, step).control.discard
            == if Happens(Supersession, s, step) then true else if IsResult(s, step) then false else s.control.discard
  {
    match step
    case AcceptStep(fd, request, call) => AcceptAccounts(s, fd, Understand(request), call);
    case WriteStep(id, data, x) => WriteAttempts(s, id, data, x);
    case TerminalStep(id, op, x, request, call) => TerminalAccounts(s, id, op, x, Understand(request), call);
    case SndStep(_, _, _) =>
  }

  // ----- main results: every run

  /** Every state of every run. */
  lemma {:induction false} EveryRun(ss: seq<State>, steps: seq<Step>)
    requires IsRun(ss, steps)
    ensures Flags(Last(ss)) && Sockets(Last(ss).wire, {}) && Gate(Last(ss))
  {
    if steps != [] {
      RunFront(ss, steps);
      EveryRun(ss[..|ss| - 1], steps[..|steps| - 1]);
      var s, step := ss[|ss| - 2], steps[|steps| - 1];
      FlagsStep(s, step);
      SocketsStep(s, step);
      GateStep(s, step);
    }
  }

  /** The branch "No ongoing job to abort" of `processUrl` and the missing job of an `abort`
      confirmation are unreachable. */
  lemma JobAlwaysKnown(ss: seq<State>, steps: seq<Step>)
    requires IsRun(ss, steps)
    ensures Last(ss).control.inProgress ==> Supersedes(Last(ss).control)
    ensures forall step: Step :: step.WriteStep? && Possible(Last(ss), step) ==> Last(ss).control.jobId.Some?
  {
    EveryRun(ss, steps);
  }

  /** Stop-and-wait, and no frame or close on a closed socket, over the trace of any run. */
  lemma StopAndWait(ss: seq<State>, steps: seq<Step>, fd: int, i: nat, j: nat)
    requires IsRun(ss, steps) && i < j < |Last(ss).wire.trace|
    ensures var trace := Last(ss).wire.trace;
            && (trace[i].FrameSent? && trace[i].fd == fd && trace[j].FrameSent? && trace[j].fd == fd ==>
                  exists k :: i < k < j && (trace[k] == Confirmed(fd) || trace[k] == Closed(fd)))
            && (trace[i] == Closed(fd) && (trace[j] == Closed(fd) || (trace[j].FrameSent? && trace[j].fd == fd)) ==>
                  exists k :: i < k < j && trace[k] == Opened(fd))
  {
    EveryRun(ss, steps);
    DisciplineMeans(Last(ss).wire.trace, fd, i, j);
  }

  /** Abort gating: after an abort no chunk goes out before a result is attempted, and meanwhile every
      valid write is reported as complete. */
  lemma AbortGating(ss: seq<State>, steps: seq<Step>, i: nat, j: nat)
    requires IsRun(ss, steps) && i < j <= |Last(ss).wire.trace| && Last(ss).wire.trace[i].AbortTaken?
    requires forall k :: i < k < j ==> !Last(ss).wire.trace[k].ResultAttempt?
    ensures forall k :: i < k < j ==> !IsChunk(Last(ss).wire.trace[k])
    ensures j == |Last(ss).wire.trace| ==> forall data, x :: data != [] ==> Reported(Last(ss), data, x) == |data|
  {
    EveryRun(ss, steps);
    var trace := Last(ss).wire.trace;
    forall k | i < k < j ensures !IsChunk(trace[k]) {
      if IsChunk(trace[k]) {
        GatedMeans(trace, i, k);
      }
    }
    if j == |trace| && !AbortOpen(trace) {
      OpenUnlessAttempted(trace, i);
    }
  }

  /** Result accounting: every result of an RSU job leads to one attempt to send it or is swallowed, and
      every swallowed result, as well as a pending discard, is paid for by a supersession. */
  lemma {:induction false} ResultAccounting(ss: seq<State>, steps: seq<Step>)
    requires IsRun(ss, steps)
    ensures Count(ResultIn, ss, steps) == Attempts(Last(ss).wire.trace) + Count(ResultSwallowed, ss, steps)
    ensures Count(ResultSwallowed, ss, steps) + (if Last(ss).control.discard then 1 else 0) <= Count(Supersession, ss, steps)
  {
    if steps != [] {
      RunFront(ss, steps);
      ResultAccounting(ss[..|ss| - 1], steps[..|steps| - 1]);
      AccountsStep(ss[|ss| - 2], steps[|steps| - 1]);
    }
  }

  // ----- the text of a status frame

  /** The characters of "Completed" and of "Failed". */
  const COMPLETED_BYTES: seq<Byte> := [67, 111, 109, 112, 108, 101, 116, 101, 100]
  const FAILED_BYTES: seq<Byte> := [70, 97, 105, 108, 101, 100]

  predicate SingleBytes(text: string) {
    forall i :: 0 <= i < |text| ==> (text[i] as int) < 256
  }

  /** The payload of a text of single-byte characters: byte `i` is the code of character `i`. */
  lemma TextBytes(text: string)
    requires SingleBytes(text)
    ensures |Bytes(text)| == |text| && forall i :: 0 <= i < |text| ==> Bytes(text)[i] == text[i] as int
  {
  }

  /** So texts with the same payload are equal. */
  lemma TextOfBytes(a: string, b: string)
    requires SingleBytes(a) && SingleBytes(b) && Bytes(a) == Bytes(b)
    ensures a == b
  {
    TextBytes(a);
    TextBytes(b);
    forall i | 0 <= i < |a| ensures a[i] == b[i] {
      assert Bytes(a)[i] == a[i] as int && Bytes(b)[i] == b[i] as int;
    }
  }

  lemma StatusBytes()
    ensures Bytes("Completed") == COMPLETED_BYTES && Bytes("Failed") == FAILED_BYTES
  {
    var c, f := "Completed", "Failed";
    assert c[0] as int == 67 && c[1] as int == 111 && c[2] as int == 109 && c[3] as int == 112 && c[4] as int == 108;
    assert c[5] as int == 101 && c[6] as int == 116 && c[7] as int == 101 && c[8] as int == 100;
    assert f[0] as int == 70 && f[1] as int == 97 && f[2] as int == 105 && f[3] as int == 108 && f[4] as int == 101;
    assert f[5] as int == 100;
    TextBytes(c);
    TextBytes(f);
  }

  /** The status frame of a result, byte for byte: the type, the low 16 bits of the error code, and the
      state spelled out. */
  predicate IsStatusFrame(m: Message, op: OperationState) {
    && m.kind == Status && m.errorCode < 0x1_0000
    && (op.Completed? ==> m.errorCode == 0 && m.payload == COMPLETED_BYTES)
    && (op.Failed? ==> (op.errorCode - m.errorCode) % 0x1_0000 == 0 && m.payload == FAILED_BYTES)
  }

  /** The result that goes to a connected client: the attempt is followed by one status frame, which fits
      the wire format. */
  lemma ResultFrame(s: State, id: JobId, op: OperationState, x: Exchange, asked: Asked, call: Call) returns (m: Message)
    requires op.Completed? || op.Failed?
    requires id in s.control.clientOf && s.control.clientOf[id] == RSU && !s.control.discard
    requires 0 <= s.wire.socket && x.sent
    ensures Fits(m) && IsStatusFrame(m, op)
    ensures s.wire.trace + [ResultAttempt(id), FrameSent(s.wire.socket, m)] <= Terminal(s, id, op, x, asked, call).wire.trace
  {
    var (completed, errorCode) := TerminalStatus(op).value;
    m := StatusMessage(completed, errorCode);
    StatusBytes();
    var s1 := AfterAttempt(s, id, m, x.sent, ResultReply(x.reply));
    assert s.wire.trace + [ResultAttempt(id), FrameSent(s.wire.socket, m)] <= s1.wire.trace;
    ResultIs(s, id, m, x.sent, ResultReply(x.reply), asked, call);
    HandleClientWire(s1, asked, call);
    assert s1.wire.trace <= Close(s1.wire).trace <= Close(Close(s1.wire)).trace;
  }
}
