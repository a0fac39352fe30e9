/** The controller protocol: the host's I/O worker, the host application and the
    guest, interleaved in every possible way.

    A step is one region under the host's mutex, one transport operation, or one
    call that only touches its own side. A paused simulator is a guest that is not
    scheduled. The channels hold packets as bytes, so that receiving one is the
    decoder's work and a refusal is a step like any other. */
module Protocol {
  import opened Basics
  import opened Wire
  import opened Codec
  import opened Queues
  import opened Framing

  datatype Failure =
    | Transport
    | Timing
    | IncomingRefused(why: Error)
    | ReadyRefused(why: Error)
    | OutgoingRefused(why: Error)
    | Malformed(why: Error)

  datatype Worker =
    | ReceivingStartup
    | Checking
    | Replying(ready: bool)
    | ReceivingBatch
    | Holding(request: Batch)
    | Sending(reply: Message)
    | Failing(why: Failure)
    | Exited

  datatype App =
    | Calling
    | Stepping
    | Detached(batch: Batch)
    | StepFailing(why: Failure)
    | Stopping

  datatype Phase =
    | Idle
    | Requesting
    | AwaitingStartup
    | SendingBatch(packet: Message)
    | AwaitingBatch
    | Failed(why: Failure)

  /** The host constructor refuses every other polling interval. */
  type Poll = n: nat | 0 < n <= HOUR witness 1

  datatype Host = Host(
    poll: Poll, incoming: Batch, ready: Batch, outgoing: seq<Entry>,
    started: bool, failure: Option<Failure>, cancelled: bool, stopped: bool, worker: Worker, app: App)

  datatype Guest = Guest(outgoing: seq<Entry>, incoming: Batch, poll: nat, phase: Phase)

  /** What one direction has carried: the submissions accepted since the last
      drain, those of every earlier drain, the messages drained and those taken. */
  datatype Log = Log(open: seq<Entry>, closed: seq<seq<Entry>>, drained: Batch, taken: Batch)

  datatype State = State(host: Host, guest: Guest, g2h: seq<Message>, h2g: seq<Message>, up: Log, down: Log)

  /** The allocations of one exchange that may fail. */
  datatype Memory = Memory(append: bool, drain: bool, encode: bool)

  datatype Action =
    // Host application
    | HostSubmit(e: Entry, memory: bool)
    | HostTake
    | StepBegin(interval: int)
    | TimingFails
    | Detach
    | Deliver(memory: bool)
    | StepFails
    | StopBegin(shutdown: bool)
    | StopDone
    // Host worker
    | WorkerReceive
    | WorkerCheck
    | WorkerReply
    | WorkerExchange(room: Memory)
    | WorkerSend
    | WorkerFails(consumed: bool)
    | WorkerRecords
    // Guest
    | GuestSubmit(e: Entry, memory: bool)
    | GuestTake
    | GuestRun(room: Memory)
    | GuestRequest
    | GuestReceiveStartup(room: Memory)
    | GuestSend
    | GuestReceiveBatch(memory: bool)
    | GuestFails(consumed: bool, sent: bool)

  predicate ByApp(a: Action)
  {
    || a.HostSubmit? || a.HostTake? || a.StepBegin? || a.TimingFails? || a.Detach? || a.Deliver?
    || a.StepFails? || a.StopBegin? || a.StopDone?
  }

  predicate ByWorker(a: Action)
  {
    || a.WorkerReceive? || a.WorkerCheck? || a.WorkerReply? || a.WorkerExchange? || a.WorkerSend?
    || a.WorkerFails? || a.WorkerRecords?
  }

  const EMPTY_LOG := Log([], [], [], [])

  /** Both controllers as constructed. */
  ghost predicate Init(s: State)
  {
    && s.host == Host(s.host.poll, [], [], [], false, None, false, false, ReceivingStartup, Calling)
    && s.guest == Guest([], [], 0, Idle)
    && s.g2h == [] && s.h2g == []
    && s.up == EMPTY_LOG && s.down == EMPTY_LOG
  }

  /** Once the transport is cancelled, its operations on the host can only fail. */
  predicate Enabled(s: State, a: Action)
  {
    match a
    case HostSubmit(_, _) => s.host.app.Calling?
    case HostTake => s.host.app.Calling?
    case StepBegin(_) => s.host.app.Calling?
    case TimingFails => s.host.app.Stepping?
    case Detach => s.host.app.Stepping?
    case Deliver(_) => s.host.app.Detached?
    case StepFails => s.host.app.StepFailing?
    case StopBegin(_) => s.host.app.Calling?
    case StopDone => s.host.app.Stopping? && s.host.worker.Exited?
    case WorkerReceive =>
      (s.host.worker.ReceivingStartup? || s.host.worker.ReceivingBatch?) && s.g2h != [] && !s.host.cancelled
    case WorkerCheck => s.host.worker.Checking?
    case WorkerReply => s.host.worker.Replying? && !s.host.cancelled
    case WorkerExchange(_) => s.host.worker.Holding?
    case WorkerSend => s.host.worker.Sending? && !s.host.cancelled
    case WorkerFails(consumed) =>
      && (|| s.host.worker.ReceivingStartup? || s.host.worker.Replying?
          || s.host.worker.ReceivingBatch? || s.host.worker.Sending?)
      && (consumed ==> s.g2h != [])
    case WorkerRecords => s.host.worker.Failing?
    case GuestSubmit(_, _) => s.guest.phase.Idle? || s.guest.phase.Failed?
    case GuestTake => s.guest.phase.Idle? || s.guest.phase.Failed?
    case GuestRun(_) => s.guest.phase.Idle?
    case GuestRequest => s.guest.phase.Requesting?
    case GuestReceiveStartup(_) => s.guest.phase.AwaitingStartup? && s.h2g != []
    case GuestSend => s.guest.phase.SendingBatch?
    case GuestReceiveBatch(_) => s.guest.phase.AwaitingBatch? && s.h2g != []
    case GuestFails(consumed, sent) =>
      && !s.guest.phase.Failed? && (consumed ==> s.h2g != [])
      && (sent ==> s.guest.phase.Requesting? || s.guest.phase.SendingBatch?)
  }

  // ----- The steps of the host application -----

  function Submit(log: Log, outgoing: seq<Entry>, e: Entry, memory: bool): (r: (Log, seq<Entry>))
  {
    match Submitted(outgoing, e)
    case Ok(entries) => if memory then (log.(open := log.open + [e]), entries) else (log, outgoing)
    case Err(_) => (log, outgoing)
  }

  function Take(log: Log, queue: Batch): (r: (Log, Batch))
  {
    if queue == [] then (log, queue) else (log.(taken := log.taken + [queue[0]]), queue[1..])
  }

  /** Closes the open submissions: they leave the queue coalesced. */
  function Drain(log: Log, outgoing: seq<Entry>): (r: Log)
  {
    Log([], log.closed + [log.open], log.drained + Data(outgoing), log.taken)
  }

  function ApplyApp(s: State, a: Action): (t: State)
    requires Enabled(s, a)
    requires ByApp(a)
  {
    var h := s.host;
    match a
    case HostSubmit(e, memory) =>
      if h.stopped || h.failure.Some? then s
      else
        var (log, entries) := Submit(s.down, h.outgoing, e, memory);
        s.(down := log, host := h.(outgoing := entries))
    case HostTake =>
      var (log, ready) := Take(s.up, h.ready);
      s.(up := log, host := h.(ready := ready))
    case StepBegin(interval) =>
      if h.stopped || !ValidStep(interval, h.poll) then s
      else if h.failure.Some? then s.(host := h.(app := StepFailing(h.failure.value)))
      else s.(host := h.(started := true, app := Stepping))
    case TimingFails => s.(host := h.(app := StepFailing(Timing)))
    case Detach =>
      if h.failure.Some? then s.(host := h.(app := StepFailing(h.failure.value)))
      else s.(host := h.(incoming := [], app := Detached(h.incoming)))
    case Deliver(memory) =>
      (match Appended(h.ready, h.app.batch)
       case Ok(ready) =>
         if memory then s.(host := h.(ready := ready, app := Calling))
         else s.(host := h.(app := StepFailing(ReadyRefused(OutOfMemory))))
       case Err(e) => s.(host := h.(app := StepFailing(ReadyRefused(e)))))
    case StepFails => s.(host := h.(failure := Some(h.app.why), app := Calling))
    case StopBegin(shutdown) =>
      if h.stopped || !shutdown then s else s.(host := h.(cancelled := true, app := Stopping))
    case StopDone => s.(host := h.(stopped := true, app := Calling))
  }

  // ----- The steps of the host's I/O worker -----

  function ApplyWorker(s: State, a: Action): (t: State)
    requires Enabled(s, a)
    requires ByWorker(a)
  {
    var h := s.host;
    match a
    case WorkerReceive =>
      var packet := s.g2h[0];
      var next :=
        if |packet| > MAX_MESSAGE_SIZE then Failing(Transport)
        else if h.worker.ReceivingStartup? then
          if packet == StartupRequest() then Checking else Failing(Malformed(ProtocolMismatch))
        else
          match Decoded(packet)
          case Ok(batch) => Holding(batch)
          case Err(e) => Failing(Malformed(e));
      s.(g2h := s.g2h[1..], host := h.(worker := next))
    case WorkerCheck => s.(host := h.(worker := Replying(h.started)))
    case WorkerReply =>
      var ready := h.worker.ready;
      s.(h2g := s.h2g + [EncodeStartup(if ready then h.poll else 0)],
         host := h.(worker := if ready then ReceivingBatch else ReceivingStartup))
    case WorkerExchange(room) =>
      (match Appended(h.incoming, h.worker.request)
       case Err(e) => s.(host := h.(worker := Failing(IncomingRefused(e))))
       case Ok(incoming) =>
         if !room.append then s.(host := h.(worker := Failing(IncomingRefused(OutOfMemory))))
         else if !room.drain then
           s.(host := h.(incoming := incoming, worker := Failing(OutgoingRefused(OutOfMemory))))
         else
           var batch := Data(h.outgoing);
           var next :=
             if !room.encode then Failing(OutgoingRefused(OutOfMemory))
             else if !Within(batch) then Failing(OutgoingRefused(QueueLimit))
             else Sending(Encoded(batch));
           s.(down := Drain(s.down, h.outgoing),
              host := h.(incoming := incoming, outgoing := [], worker := next)))
    case WorkerSend =>
      if |h.worker.reply| > MAX_MESSAGE_SIZE then s.(host := h.(worker := Failing(Transport)))
      else s.(h2g := s.h2g + [h.worker.reply], host := h.(worker := ReceivingBatch))
    case WorkerFails(consumed) =>
      s.(g2h := if consumed then s.g2h[1..] else s.g2h, host := h.(worker := Failing(Transport)))
    case WorkerRecords =>
      s.(host := h.(failure := if h.failure.None? then Some(h.worker.why) else h.failure, worker := Exited))
  }

  // ----- The steps of the guest -----

  /** The drained outgoing queue, encoded. */
  function Prepare(s: State, poll: nat, room: Memory): (t: State)
  {
    var g := s.guest.(poll := poll);
    if !room.drain then s.(guest := g.(phase := Failed(OutgoingRefused(OutOfMemory))))
    else
      var batch := Data(g.outgoing);
      var next :=
        if !room.encode then Failed(OutgoingRefused(OutOfMemory))
        else if !Within(batch) then Failed(OutgoingRefused(QueueLimit))
        else SendingBatch(Encoded(batch));
      s.(up := Drain(s.up, g.outgoing), guest := g.(outgoing := [], phase := next))
  }

  /** The packet that a sending guest has in its hands. */
  function Outbox(p: Phase): (packet: Message)
  {
    if p.SendingBatch? then p.packet else StartupRequest()
  }

  function ApplyGuest(s: State, a: Action): (t: State)
    requires Enabled(s, a)
    requires !ByApp(a) && !ByWorker(a)
  {
    var g := s.guest;
    match a
    case GuestSubmit(e, memory) =>
      if g.phase.Failed? then s
      else
        var (log, entries) := Submit(s.up, g.outgoing, e, memory);
        s.(up := log, guest := g.(outgoing := entries))
    case GuestTake =>
      var (log, incoming) := Take(s.down, g.incoming);
      s.(down := log, guest := g.(incoming := incoming))
    case GuestRun(room) =>
      if g.poll > 0 then Prepare(s, g.poll, room) else s.(guest := g.(phase := Requesting))
    case GuestRequest =>
      s.(g2h := s.g2h + [StartupRequest()], guest := g.(phase := AwaitingStartup))
    case GuestReceiveStartup(room) =>
      var packet := s.h2g[0];
      var received := s.(h2g := s.h2g[1..]);
      if |packet| > MAX_MESSAGE_SIZE then received.(guest := g.(phase := Failed(Transport)))
      else
        (match DecodeStartup(packet)
         case Err(e) => received.(guest := g.(phase := Failed(Malformed(e))))
         case Ok(poll) =>
           if poll == 0 then received.(guest := g.(phase := Requesting)) else Prepare(received, poll, room))
    case GuestSend =>
      if |g.phase.packet| > MAX_MESSAGE_SIZE then s.(guest := g.(phase := Failed(Transport)))
      else s.(g2h := s.g2h + [g.phase.packet], guest := g.(phase := AwaitingBatch))
    case GuestReceiveBatch(memory) =>
      var packet := s.h2g[0];
      var next :=
        if |packet| > MAX_MESSAGE_SIZE then g.(phase := Failed(Transport))
        else
          match Decoded(packet)
          case Err(e) => g.(phase := Failed(Malformed(e)))
          case Ok(batch) =>
            match Appended(g.incoming, batch)
            case Err(e) => g.(phase := Failed(IncomingRefused(e)))
            case Ok(incoming) =>
              if memory then g.(incoming := incoming, phase := Idle)
              else g.(phase := Failed(IncomingRefused(OutOfMemory)));
      s.(h2g := s.h2g[1..], guest := next)
    case GuestFails(consumed, sent) =>
      // A send may fail after its packet has left: the operation reports a short count.
      s.(g2h := if sent then s.g2h + [Outbox(g.phase)] else s.g2h,
         h2g := if consumed then s.h2g[1..] else s.h2g,
         guest := g.(phase := Failed(Transport)))
  }

  function Apply(s: State, a: Action): (t: State)
    requires Enabled(s, a)
  {
    if ByApp(a) then ApplyApp(s, a)
    else if ByWorker(a) then ApplyWorker(s, a)
    else ApplyGuest(s, a)
  }

  /** A run from s to t: every interleaving is the list of its actions. */
  ghost predicate Runs(s: State, actions: seq<Action>, t: State)
    decreases |actions|
  {
    if actions == [] then s == t
    else Enabled(s, actions[0]) && Runs(Apply(s, actions[0]), actions[1..], t)
  }

  ghost predicate Reachable(t: State)
  {
    exists s, actions :: Init(s) && Runs(s, actions, t)
  }
}
