/** What every step of the controller protocol keeps. */
module ProtocolInvariant {
  import opened Basics
  import opened Wire
  import opened Codec
  import opened Queues
  import opened Framing
  import opened Protocol

  // ----- Where the messages are -----

  predicate WorkerAlive(s: State)
  {
    !s.host.worker.Failing? && !s.host.worker.Exited?
  }

  predicate GuestAlive(s: State)
  {
    !s.guest.phase.Failed?
  }

  /** No batch was refused by the ready queue at an interval boundary. */
  predicate AppIntact(s: State)
  {
    && !(s.host.failure.Some? && s.host.failure.value.ReadyRefused?)
    && !(s.host.app.StepFailing? && s.host.app.why.ReadyRefused?)
  }

  /** The messages of a batch packet; a startup packet carries none. */
  function BatchOf(packet: Message): (b: Batch)
  {
    match Decoded(packet)
    case Ok(b) => b
    case Err(_) => []
  }

  /** The messages in a channel, which holds at most one packet. */
  function Carried(channel: seq<Message>): (b: Batch)
  {
    if channel == [] then [] else BatchOf(channel[0])
  }

  /** Taken, or ready to be taken, by the host application. */
  function HostSide(s: State): (b: Batch)
  {
    s.up.taken + s.host.ready + (if s.host.app.Detached? then s.host.app.batch else [])
  }

  function HeldRequest(w: Worker): (b: Batch)
  {
    if w.Holding? then w.request else []
  }

  function HeldReply(w: Worker): (b: Batch)
  {
    if w.Sending? then BatchOf(w.reply) else []
  }

  function HeldByGuest(p: Phase): (b: Batch)
  {
    if p.SendingBatch? then BatchOf(p.packet) else []
  }

  /** The messages the host has received and not lost, and those on their way to it. */
  function UpReceived(s: State): (b: Batch)
  {
    HostSide(s) + s.host.incoming + HeldRequest(s.host.worker) + (if WorkerAlive(s) then Carried(s.g2h) else [])
  }

  function DownReceived(s: State): (b: Batch)
  {
    s.down.taken + s.guest.incoming + Carried(s.h2g)
  }

  ghost predicate UpConserved(s: State)
  {
    && HostSide(s) <= s.up.drained
    && (AppIntact(s) ==> UpReceived(s) <= s.up.drained)
    && (AppIntact(s) && WorkerAlive(s) && GuestAlive(s) ==>
          UpReceived(s) + HeldByGuest(s.guest.phase) == s.up.drained)
  }

  ghost predicate DownConserved(s: State)
  {
    && s.down.taken + s.guest.incoming <= s.down.drained
    && (GuestAlive(s) ==> DownReceived(s) <= s.down.drained)
    && (GuestAlive(s) && WorkerAlive(s) ==> DownReceived(s) + HeldReply(s.host.worker) == s.down.drained)
  }

  // ----- The queues -----

  /** The messages of closed submissions, each drain coalesced on its own. */
  function Delivered(closed: seq<seq<Entry>>): (b: Batch)
  {
    if closed == [] then []
    else Delivered(closed[..|closed| - 1]) + Data(Coalesced(closed[|closed| - 1]))
  }

  ghost predicate LogKept(log: Log, outgoing: seq<Entry>)
  {
    && outgoing == Coalesced(log.open)
    && Within(Data(outgoing))
    && log.drained == Delivered(log.closed)
  }

  ghost predicate QueuesKept(s: State)
  {
    && LogKept(s.down, s.host.outgoing)
    && LogKept(s.up, s.guest.outgoing)
    && Within(s.host.incoming) && Within(s.host.ready) && Within(s.guest.incoming)
  }

  // ----- Failures -----

  ghost predicate FailuresKept(s: State)
  {
    && (s.host.failure.Some? ==> !s.host.failure.value.Malformed?)
    && (s.host.worker.Failing? ==> !s.host.worker.why.Malformed? && !s.host.worker.why.ReadyRefused?)
    && (s.host.app.StepFailing? ==> !s.host.app.why.Malformed?)
    && (s.guest.phase.Failed? ==> !s.guest.phase.why.Malformed?)
    && (s.host.app.Stepping? || s.host.app.Detached? ==> AppIntact(s))
    && (s.host.app.StepFailing? && s.host.failure.Some? && s.host.failure.value.ReadyRefused? ==>
          s.host.app.why.ReadyRefused?)
    && (s.host.worker.Exited? ==> s.host.failure.Some?)
    && (s.host.stopped ==> s.host.worker.Exited?)
  }

  // ----- Phases -----

  predicate IsBatch(packet: Message)
  {
    Decoded(packet).Ok?
  }

  predicate MaybeBatch(channel: seq<Message>)
  {
    channel == [] || (|channel| == 1 && IsBatch(channel[0]))
  }

  predicate MaybeReply(s: State, channel: seq<Message>)
  {
    || channel == []
    || channel == [EncodeStartup(0)]
    || (channel == [EncodeStartup(s.host.poll)] && s.host.started)
  }

  /** What the channels may hold while the worker waits or works. */
  ghost predicate ChannelsKept(s: State)
  {
    match s.host.worker
    case ReceivingStartup =>
      && (s.g2h == [] || s.g2h == [StartupRequest()])
      && (s.h2g == [] || s.h2g == [EncodeStartup(0)])
      && |s.g2h| + |s.h2g| <= 1
    case Checking => s.g2h == [] && s.h2g == []
    case Replying(ready) => s.g2h == [] && s.h2g == [] && (ready ==> s.host.started)
    case ReceivingBatch =>
      && s.host.started && MaybeBatch(s.g2h)
      && (MaybeBatch(s.h2g) || s.h2g == [EncodeStartup(s.host.poll)])
      && |s.g2h| + |s.h2g| <= 1
    case Holding(_) => s.host.started && s.g2h == [] && s.h2g == []
    case Sending(reply) => s.host.started && s.g2h == [] && s.h2g == [] && IsBatch(reply)
    case _ => |s.g2h| + |s.h2g| <= 1
  }

  /** What the guest may find, whatever became of the worker. */
  ghost predicate GuestKept(s: State)
  {
    && (s.guest.poll == 0 || (s.guest.poll == s.host.poll && s.host.started))
    && match s.guest.phase
       case Idle => s.g2h == [] && s.h2g == []
       case Requesting => s.g2h == [] && s.h2g == [] && s.guest.poll == 0
       case AwaitingStartup => MaybeReply(s, s.h2g) && s.guest.poll == 0
       case SendingBatch(packet) => s.g2h == [] && s.h2g == [] && s.guest.poll > 0 && IsBatch(packet)
       case AwaitingBatch => MaybeBatch(s.h2g) && s.guest.poll > 0
       case Failed(_) => true
  }

  /** The two ends are in complementary phases: when one may send, the other waits for it. */
  ghost predicate Lockstep(s: State)
  {
    var w := s.host.worker;
    match s.guest.phase
    case Idle => if s.guest.poll == 0 then w.ReceivingStartup? else w.ReceivingBatch?
    case Requesting => w.ReceivingStartup?
    case AwaitingStartup =>
      || (w.ReceivingStartup? && |s.g2h| + |s.h2g| == 1)
      || w.Checking?
      || w.Replying?
      || (w.ReceivingBatch? && s.h2g == [EncodeStartup(s.host.poll)])
    case SendingBatch(_) => w.ReceivingBatch?
    case AwaitingBatch => (w.ReceivingBatch? && |s.g2h| + |s.h2g| == 1) || w.Holding? || w.Sending?
    case Failed(_) => true
  }

  /** Nothing leaves either queue before the first valid step. */
  ghost predicate BootstrapKept(s: State)
  {
    && (!s.host.started ==> s.down.closed == [])
    && (s.guest.poll == 0 ==> s.up.closed == [])
  }

  ghost predicate PhasesKept(s: State)
  {
    && ChannelsKept(s)
    && GuestKept(s)
    && (WorkerAlive(s) && GuestAlive(s) ==> Lockstep(s))
    && BootstrapKept(s)
  }

  ghost predicate Inv(s: State)
  {
    QueuesKept(s) && FailuresKept(s) && PhasesKept(s) && UpConserved(s) && DownConserved(s)
  }

  // ----- Facts about packets -----

  lemma BatchPacket(b: Batch)
    requires Within(b)
    ensures IsBatch(Encoded(b)) && BatchOf(Encoded(b)) == b
    ensures |Encoded(b)| <= MAX_MESSAGE_SIZE
  {
    DecodeOfEncode(b);
    EncodedSize(b);
  }

  lemma AcceptedPacket(packet: Message)
    requires IsBatch(packet)
    ensures |packet| <= MAX_MESSAGE_SIZE && Within(BatchOf(packet)) && packet != StartupRequest()
  {
    EncodeOfDecode(packet);
    EncodedSize(Decoded(packet).value);
    PhasesAreDisjoint(packet);
  }

  lemma StartupPackets(poll: nat)
    requires poll <= HOUR
    ensures DecodeStartup(EncodeStartup(poll)) == Ok(poll)
    ensures BatchOf(EncodeStartup(poll)) == [] && !IsBatch(EncodeStartup(poll))
    ensures |EncodeStartup(poll)| == 16
    ensures BatchOf(StartupRequest()) == [] && !IsBatch(StartupRequest()) && |StartupRequest()| == 8
  {
    StartupRoundTrip(poll);
    PhasesAreDisjoint(EncodeStartup(poll));
  }

  // ----- The queues and the failures -----

  lemma InitInv(s: State)
    requires Init(s)
    ensures Inv(s)
  {
  }

  lemma LogSubmit(log: Log, outgoing: seq<Entry>, e: Entry, memory: bool)
    requires LogKept(log, outgoing)
    ensures var (l, o) := Submit(log, outgoing, e, memory);
      LogKept(l, o) && l.closed == log.closed && l.drained == log.drained && l.taken == log.taken
  {
    CoalescedSnoc(log.open, e);
    SubmittedWithin(outgoing, e);
  }

  lemma LogDrain(log: Log, outgoing: seq<Entry>)
    requires LogKept(log, outgoing)
    ensures LogKept(Drain(log, outgoing), [])
  {
    var closed := log.closed + [log.open];
    assert closed[..|closed| - 1] == log.closed;
    assert Data([]) == [];
  }

  lemma TakeKeeps(log: Log, queue: Batch)
    requires Within(queue)
    ensures var (l, q) := Take(log, queue); Within(q) && l.taken + q == log.taken + queue
  {
    if queue != [] {
      assert queue == [queue[0]] + queue[1..];
      assert log.taken + [queue[0]] + queue[1..] == log.taken + queue;
    }
  }

  lemma QueuesHostSubmit(s: State, e: Entry, memory: bool)
    requires QueuesKept(s) && Enabled(s, HostSubmit(e, memory))
    ensures QueuesKept(ApplyApp(s, HostSubmit(e, memory)))
  {
    LogSubmit(s.down, s.host.outgoing, e, memory);
  }

  lemma QueuesDeliver(s: State, memory: bool)
    requires QueuesKept(s) && Enabled(s, Deliver(memory))
    ensures QueuesKept(ApplyApp(s, Deliver(memory)))
  {
    AppendedIff(s.host.ready, s.host.app.batch);
  }

  lemma QueuesHostTake(s: State)
    requires QueuesKept(s) && Enabled(s, HostTake)
    ensures QueuesKept(ApplyApp(s, HostTake))
  {
    TakeKeeps(s.up, s.host.ready);
  }

  lemma QueuesAppFrame(s: State, a: Action)
    requires Enabled(s, a) && ByApp(a) && !a.HostSubmit? && !a.HostTake? && !a.Deliver?
    ensures var t := ApplyApp(s, a);
      && t.down == s.down && t.up == s.up && t.guest == s.guest
      && t.host.outgoing == s.host.outgoing && t.host.ready == s.host.ready
      && (t.host.incoming == s.host.incoming || t.host.incoming == [])
  {
  }

  lemma QueuesApp(s: State, a: Action)
    requires QueuesKept(s) && Enabled(s, a) && ByApp(a)
    ensures QueuesKept(ApplyApp(s, a))
  {
    match a
    case HostSubmit(e, memory) => QueuesHostSubmit(s, e, memory);
    case HostTake => QueuesHostTake(s);
    case Deliver(memory) => QueuesDeliver(s, memory);
    case _ => QueuesAppFrame(s, a);
  }

  lemma QueuesWorkerExchange(s: State, room: Memory)
    requires QueuesKept(s) && Enabled(s, WorkerExchange(room))
    ensures QueuesKept(ApplyWorker(s, WorkerExchange(room)))
  {
    AppendedIff(s.host.incoming, s.host.worker.request);
    LogDrain(s.down, s.host.outgoing);
  }

  lemma QueuesWorker(s: State, a: Action)
    requires QueuesKept(s) && Enabled(s, a) && ByWorker(a)
    ensures QueuesKept(ApplyWorker(s, a))
  {
    match a
    case WorkerExchange(room) => QueuesWorkerExchange(s, room);
    case _ =>
  }

  lemma QueuesPrepare(s: State, poll: nat, room: Memory)
    requires QueuesKept(s)
    ensures QueuesKept(Prepare(s, poll, room))
  {
    LogDrain(s.up, s.guest.outgoing);
  }

  lemma QueuesReceiveStartup(s: State, room: Memory)
    requires QueuesKept(s) && Enabled(s, GuestReceiveStartup(room))
    ensures QueuesKept(ApplyGuest(s, GuestReceiveStartup(room)))
  {
    var received := s.(h2g := s.h2g[1..]);
    if DecodeStartup(s.h2g[0]).Ok? {
      QueuesPrepare(received, DecodeStartup(s.h2g[0]).value, room);
    }
  }

  lemma QueuesGuest(s: State, a: Action)
    requires QueuesKept(s) && Enabled(s, a) && !ByApp(a) && !ByWorker(a)
    ensures QueuesKept(ApplyGuest(s, a))
  {
    match a
    case GuestSubmit(e, memory) => LogSubmit(s.up, s.guest.outgoing, e, memory);
    case GuestTake => TakeKeeps(s.down, s.guest.incoming);
    case GuestRun(room) => QueuesPrepare(s, s.guest.poll, room);
    case GuestReceiveStartup(room) => QueuesReceiveStartup(s, room);
    case GuestReceiveBatch(_) => AppendedIff(s.guest.incoming, BatchOf(s.h2g[0]));
    case _ =>
  }

  // ----- Phases and failures, step by step -----

  /** The application touches neither the channels nor the phases; a valid step
      only lets the worker report that it is ready. */
  lemma PhasesAppFrame(s: State, a: Action)
    requires Enabled(s, a) && ByApp(a)
    ensures var t := ApplyApp(s, a);
      && t.guest == s.guest && t.g2h == s.g2h && t.h2g == s.h2g
      && t.host.worker == s.host.worker && t.host.poll == s.host.poll
      && (s.host.started ==> t.host.started)
      && t.up.closed == s.up.closed && t.down.closed == s.down.closed
  {
  }

  lemma PhasesApp(s: State, a: Action)
    requires PhasesKept(s) && Enabled(s, a) && ByApp(a)
    ensures PhasesKept(ApplyApp(s, a))
  {
    PhasesAppFrame(s, a);
  }

  lemma FailuresApp(s: State, a: Action)
    requires FailuresKept(s) && Enabled(s, a) && ByApp(a)
    ensures FailuresKept(ApplyApp(s, a))
  {
  }

  lemma PhasesWorkerReceive(s: State)
    requires PhasesKept(s) && FailuresKept(s) && Enabled(s, WorkerReceive)
    ensures PhasesKept(ApplyWorker(s, WorkerReceive)) && FailuresKept(ApplyWorker(s, WorkerReceive))
  {
    StartupPackets(0);
    if s.host.worker.ReceivingBatch? {
      AcceptedPacket(s.g2h[0]);
    }
  }

  lemma PhasesWorkerReply(s: State)
    requires PhasesKept(s) && FailuresKept(s) && Enabled(s, WorkerReply)
    ensures PhasesKept(ApplyWorker(s, WorkerReply)) && FailuresKept(ApplyWorker(s, WorkerReply))
  {
  }

  /** The request is answered by a batch, or the worker fails for a reason of its own. */
  lemma PhasesExchanges(s: State, t: State)
    requires PhasesKept(s) && FailuresKept(s) && s.host.worker.Holding?
    requires t.guest == s.guest && t.g2h == s.g2h && t.h2g == s.h2g && t.up == s.up
    requires t.host == s.host.(incoming := t.host.incoming, outgoing := t.host.outgoing, worker := t.host.worker)
    requires
      || (t.host.worker.Sending? && IsBatch(t.host.worker.reply))
      || (t.host.worker.Failing? && !t.host.worker.why.Malformed? && !t.host.worker.why.ReadyRefused?)
    ensures PhasesKept(t) && FailuresKept(t)
  {
    assert s.host.started && s.g2h == [] && s.h2g == [];
  }

  lemma PhasesWorkerExchange(s: State, room: Memory)
    requires QueuesKept(s) && PhasesKept(s) && FailuresKept(s) && Enabled(s, WorkerExchange(room))
    ensures PhasesKept(ApplyWorker(s, WorkerExchange(room))) && FailuresKept(ApplyWorker(s, WorkerExchange(room)))
  {
    BatchPacket(Data(s.host.outgoing));
    PhasesExchanges(s, ApplyWorker(s, WorkerExchange(room)));
  }

  lemma PhasesWorkerSend(s: State)
    requires PhasesKept(s) && FailuresKept(s) && Enabled(s, WorkerSend)
    ensures PhasesKept(ApplyWorker(s, WorkerSend)) && FailuresKept(ApplyWorker(s, WorkerSend))
  {
    AcceptedPacket(s.host.worker.reply);
  }

  lemma PhasesWorkerEnds(s: State, a: Action)
    requires PhasesKept(s) && FailuresKept(s) && Enabled(s, a) && (a.WorkerFails? || a.WorkerRecords?)
    ensures PhasesKept(ApplyWorker(s, a)) && FailuresKept(ApplyWorker(s, a))
  {
  }

  lemma PhasesWorker(s: State, a: Action)
    requires QueuesKept(s) && PhasesKept(s) && FailuresKept(s) && Enabled(s, a) && ByWorker(a)
    ensures PhasesKept(ApplyWorker(s, a)) && FailuresKept(ApplyWorker(s, a))
  {
    match a
    case WorkerReceive => PhasesWorkerReceive(s);
    case WorkerReply => PhasesWorkerReply(s);
    case WorkerExchange(room) => PhasesWorkerExchange(s, room);
    case WorkerSend => PhasesWorkerSend(s);
    case WorkerFails(_) => PhasesWorkerEnds(s, a);
    case WorkerRecords => PhasesWorkerEnds(s, a);
    case _ =>
  }

  /** The guest finds one of the two startup replies, and takes it for what it is. */
  lemma StartupReceived(s: State, room: Memory)
    requires PhasesKept(s) && Enabled(s, GuestReceiveStartup(room))
    ensures s.h2g == [EncodeStartup(0)] || (s.h2g == [EncodeStartup(s.host.poll)] && s.host.started)
    ensures ApplyGuest(s, GuestReceiveStartup(room)) ==
      if s.h2g == [EncodeStartup(0)] then s.(h2g := [], guest := s.guest.(phase := Requesting))
      else Prepare(s.(h2g := []), s.host.poll, room)
  {
    StartupPackets(0);
    StartupPackets(s.host.poll);
    assert s.h2g[1..] == [];
  }

  /** The guest knows the interval and the channels are empty: it may send its batch. */
  lemma PhasesPrepare(s: State, poll: nat, room: Memory)
    requires Within(Data(s.guest.outgoing)) && ChannelsKept(s) && FailuresKept(s)
    requires s.g2h == [] && s.h2g == [] && poll == s.host.poll && s.host.started
    requires WorkerAlive(s) ==> s.host.worker.ReceivingBatch?
    ensures PhasesKept(Prepare(s, poll, room)) && FailuresKept(Prepare(s, poll, room))
  {
    BatchPacket(Data(s.guest.outgoing));
    assert Prepare(s, poll, room).host == s.host && Prepare(s, poll, room).down == s.down;
  }

  lemma PhasesReceiveStartup(s: State, room: Memory)
    requires QueuesKept(s) && PhasesKept(s) && FailuresKept(s) && Enabled(s, GuestReceiveStartup(room))
    ensures PhasesKept(ApplyGuest(s, GuestReceiveStartup(room)))
    ensures FailuresKept(ApplyGuest(s, GuestReceiveStartup(room)))
  {
    StartupReceived(s, room);
    StartupPackets(0);
    StartupPackets(s.host.poll);
    if s.h2g != [EncodeStartup(0)] {
      assert WorkerAlive(s) ==> s.host.worker.ReceivingBatch?;
      PhasesPrepare(s.(h2g := []), s.host.poll, room);
    }
  }

  lemma PhasesReceiveBatch(s: State, memory: bool)
    requires PhasesKept(s) && FailuresKept(s) && Enabled(s, GuestReceiveBatch(memory))
    ensures PhasesKept(ApplyGuest(s, GuestReceiveBatch(memory)))
    ensures FailuresKept(ApplyGuest(s, GuestReceiveBatch(memory)))
  {
    AcceptedPacket(s.h2g[0]);
  }

  lemma PhasesRun(s: State, room: Memory)
    requires QueuesKept(s) && PhasesKept(s) && FailuresKept(s) && Enabled(s, GuestRun(room))
    ensures PhasesKept(ApplyGuest(s, GuestRun(room))) && FailuresKept(ApplyGuest(s, GuestRun(room)))
  {
    if s.guest.poll > 0 {
      PhasesPrepare(s, s.guest.poll, room);
    }
  }

  lemma PhasesSend(s: State)
    requires PhasesKept(s) && FailuresKept(s) && Enabled(s, GuestSend)
    ensures PhasesKept(ApplyGuest(s, GuestSend)) && FailuresKept(ApplyGuest(s, GuestSend))
  {
    AcceptedPacket(s.guest.phase.packet);
  }

  lemma PhasesSubmit(s: State, e: Entry, memory: bool)
    requires PhasesKept(s) && FailuresKept(s) && Enabled(s, GuestSubmit(e, memory))
    ensures PhasesKept(ApplyGuest(s, GuestSubmit(e, memory))) && FailuresKept(ApplyGuest(s, GuestSubmit(e, memory)))
  {
  }

  lemma PhasesTake(s: State)
    requires PhasesKept(s) && FailuresKept(s) && Enabled(s, GuestTake)
    ensures PhasesKept(ApplyGuest(s, GuestTake)) && FailuresKept(ApplyGuest(s, GuestTake))
  {
  }

  lemma PhasesRequest(s: State)
    requires PhasesKept(s) && FailuresKept(s) && Enabled(s, GuestRequest)
    ensures PhasesKept(ApplyGuest(s, GuestRequest)) && FailuresKept(ApplyGuest(s, GuestRequest))
  {
  }

  /** Whatever a failing guest leaves in the channel is what the worker waits for. */
  lemma PhasesFails(s: State, consumed: bool, sent: bool)
    requires PhasesKept(s) && FailuresKept(s) && Enabled(s, GuestFails(consumed, sent))
    ensures PhasesKept(ApplyGuest(s, GuestFails(consumed, sent)))
    ensures FailuresKept(ApplyGuest(s, GuestFails(consumed, sent)))
  {
  }

  lemma PhasesGuest(s: State, a: Action)
    requires QueuesKept(s) && PhasesKept(s) && FailuresKept(s) && Enabled(s, a) && !ByApp(a) && !ByWorker(a)
    ensures PhasesKept(ApplyGuest(s, a)) && FailuresKept(ApplyGuest(s, a))
  {
    match a
    case GuestSubmit(e, memory) => PhasesSubmit(s, e, memory);
    case GuestTake => PhasesTake(s);
    case GuestRun(room) => PhasesRun(s, room);
    case GuestRequest => PhasesRequest(s);
    case GuestReceiveStartup(room) => PhasesReceiveStartup(s, room);
    case GuestSend => PhasesSend(s);
    case GuestReceiveBatch(memory) => PhasesReceiveBatch(s, memory);
    case GuestFails(consumed, sent) => PhasesFails(s, consumed, sent);
    case _ =>
  }

  // ----- Conservation, guest to host -----

  /** The incoming queue becomes the batch that the step is moving. */
  lemma UpDetaches(s: State, t: State)
    requires UpConserved(s) && AppIntact(s) && s.host.app.Stepping?
    requires t == s.(host := s.host.(incoming := [], app := Detached(s.host.incoming)))
    ensures UpConserved(t)
  {
    var kept, incoming, held := s.up.taken + s.host.ready, s.host.incoming, HeldRequest(s.host.worker);
    var carried := if WorkerAlive(s) then Carried(s.g2h) else [];
    Regroup(kept, incoming);
    Regroup(kept + incoming, held);
    assert HostSide(s) == kept && HostSide(t) == kept + incoming;
    assert UpReceived(t) == UpReceived(s) == kept + incoming + held + carried;
    PrefixOfSum(kept + incoming, held);
    PrefixOfSum(kept + incoming + held, carried);
    PrefixTransitive(kept + incoming, kept + incoming + held, UpReceived(s));
    PrefixTransitive(kept + incoming, UpReceived(s), s.up.drained);
  }

  lemma UpDetach(s: State)
    requires UpConserved(s) && FailuresKept(s) && Enabled(s, Detach)
    ensures UpConserved(ApplyApp(s, Detach))
  {
    if s.host.failure.None? {
      UpDetaches(s, s.(host := s.host.(incoming := [], app := Detached(s.host.incoming))));
    } else {
      assert HostSide(ApplyApp(s, Detach)) == HostSide(s);
    }
  }

  lemma UpDeliver(s: State, memory: bool)
    requires UpConserved(s) && FailuresKept(s) && Enabled(s, Deliver(memory))
    ensures UpConserved(ApplyApp(s, Deliver(memory)))
  {
    var t := ApplyApp(s, Deliver(memory));
    var kept, batch := s.up.taken + s.host.ready, s.host.app.batch;
    AppendedIff(s.host.ready, batch);
    Reassociate(s.up.taken, s.host.ready, batch);
    Regroup(kept, batch);
    if t.host.app.Calling? {
      assert t.host == s.host.(ready := s.host.ready + batch, app := Calling);
      assert HostSide(t) == HostSide(s);
      assert UpReceived(t) == UpReceived(s);
    } else {
      assert HostSide(t) == kept;
      PrefixOfSum(kept, batch);
      PrefixTransitive(kept, HostSide(s), s.up.drained);
    }
  }

  /** The parts that a step of the application does not touch. */
  lemma UpApp(s: State, a: Action)
    requires UpConserved(s) && QueuesKept(s) && FailuresKept(s) && Enabled(s, a) && ByApp(a)
    ensures UpConserved(ApplyApp(s, a))
  {
    match a
    case HostTake => TakeKeeps(s.up, s.host.ready);
    case Detach => UpDetach(s);
    case Deliver(memory) => UpDeliver(s, memory);
    case _ =>
  }

  /** A packet that the worker takes from the channel is then in its hands. */
  lemma UpReceives(s: State, t: State, batch: Batch)
    requires UpConserved(s) && WorkerAlive(s) && HeldRequest(s.host.worker) == [] && Carried(s.g2h) == batch
    requires t == s.(g2h := [], host := s.host.(worker := t.host.worker))
    requires WorkerAlive(t) && HeldRequest(t.host.worker) == batch
    ensures UpConserved(t)
  {
    assert HostSide(t) == HostSide(s);
    Regroup(HostSide(s) + s.host.incoming, batch);
    assert UpReceived(t) == UpReceived(s);
  }

  lemma UpWorkerReceive(s: State)
    requires UpConserved(s) && PhasesKept(s) && Enabled(s, WorkerReceive)
    ensures UpConserved(ApplyWorker(s, WorkerReceive))
  {
    var packet := s.g2h[0];
    if s.host.worker.ReceivingBatch? {
      AcceptedPacket(packet);
      UpReceives(s, s.(g2h := [], host := s.host.(worker := Holding(BatchOf(packet)))), BatchOf(packet));
    } else {
      StartupPackets(0);
      UpReceives(s, s.(g2h := [], host := s.host.(worker := Checking)), []);
    }
  }

  /** The request moves to the incoming queue, or is lost with the worker. */
  lemma UpExchanges(s: State, t: State)
    requires UpConserved(s) && s.host.worker.Holding? && s.g2h == []
    requires t.up == s.up && t.guest == s.guest && t.g2h == [] && !t.host.worker.Holding?
    requires t.host.ready == s.host.ready && t.host.app == s.host.app && t.host.failure == s.host.failure
    requires
      || t.host.incoming == s.host.incoming + s.host.worker.request
      || (t.host.incoming == s.host.incoming && !WorkerAlive(t))
    ensures UpConserved(t)
  {
    var host, incoming, request := HostSide(s), s.host.incoming, s.host.worker.request;
    assert HostSide(t) == host;
    Reassociate(host, incoming, request);
    Regroup(host + incoming, request);
    if t.host.incoming == incoming + request {
      assert UpReceived(t) == UpReceived(s);
    } else {
      assert UpReceived(t) == host + incoming;
      PrefixOfSum(host + incoming, request);
    }
  }

  lemma UpWorkerExchange(s: State, room: Memory)
    requires UpConserved(s) && PhasesKept(s) && Enabled(s, WorkerExchange(room))
    ensures UpConserved(ApplyWorker(s, WorkerExchange(room)))
  {
    AppendedIff(s.host.incoming, s.host.worker.request);
    UpExchanges(s, ApplyWorker(s, WorkerExchange(room)));
  }

  /** A failing worker loses at most the packet in the channel. */
  lemma UpWorkerFails(s: State, consumed: bool)
    requires UpConserved(s) && PhasesKept(s) && Enabled(s, WorkerFails(consumed))
    ensures UpConserved(ApplyWorker(s, WorkerFails(consumed)))
  {
    var t := ApplyWorker(s, WorkerFails(consumed));
    var received, carried := HostSide(s) + s.host.incoming, Carried(s.g2h);
    assert HostSide(t) == HostSide(s);
    Regroup(received, carried);
    PrefixOfSum(received, carried);
    assert UpReceived(t) == received && UpReceived(s) == received + carried;
    if AppIntact(s) {
      PrefixTransitive(received, UpReceived(s), s.up.drained);
    }
  }

  lemma UpWorker(s: State, a: Action)
    requires UpConserved(s) && PhasesKept(s) && FailuresKept(s) && Enabled(s, a) && ByWorker(a)
    ensures UpConserved(ApplyWorker(s, a))
  {
    match a
    case WorkerReceive => UpWorkerReceive(s);
    case WorkerExchange(room) => UpWorkerExchange(s, room);
    case WorkerFails(consumed) => UpWorkerFails(s, consumed);
    case WorkerSend => AcceptedPacket(s.host.worker.reply);
    case _ =>
  }

  lemma UpFrame(s: State, t: State)
    requires UpConserved(s)
    requires t.host == s.host && t.up == s.up && Carried(t.g2h) == Carried(s.g2h)
    requires t.guest.phase.Failed? || (GuestAlive(s) && HeldByGuest(t.guest.phase) == HeldByGuest(s.guest.phase))
    ensures UpConserved(t)
  {
    assert HostSide(t) == HostSide(s) && UpReceived(t) == UpReceived(s);
  }

  lemma UpDrained(s: State, t: State, batch: Batch)
    requires UpConserved(s) && GuestAlive(s) && HeldByGuest(s.guest.phase) == []
    requires t.host == s.host && t.g2h == s.g2h && t.up.taken == s.up.taken
    requires t.up.drained == s.up.drained + batch
    requires GuestAlive(t) ==> HeldByGuest(t.guest.phase) == batch
    ensures UpConserved(t)
  {
    assert HostSide(t) == HostSide(s) && UpReceived(t) == UpReceived(s);
    Regroup(UpReceived(s), batch);
    PrefixOfSum(s.up.drained, batch);
    PrefixTransitive(HostSide(s), s.up.drained, t.up.drained);
    if AppIntact(s) {
      PrefixTransitive(UpReceived(s), s.up.drained, t.up.drained);
    }
  }

  /** Draining adds to what was drained exactly what the guest then holds, unless it fails. */
  lemma UpPrepare(s: State, poll: nat, room: Memory)
    requires UpConserved(s) && QueuesKept(s) && GuestAlive(s) && !s.guest.phase.SendingBatch?
    ensures UpConserved(Prepare(s, poll, room))
  {
    var batch := Data(s.guest.outgoing);
    BatchPacket(batch);
    if room.drain {
      UpDrained(s, Prepare(s, poll, room), batch);
    } else {
      UpFrame(s, Prepare(s, poll, room));
    }
  }

  lemma UpReceiveStartup(s: State, room: Memory)
    requires UpConserved(s) && QueuesKept(s) && PhasesKept(s) && Enabled(s, GuestReceiveStartup(room))
    ensures UpConserved(ApplyGuest(s, GuestReceiveStartup(room)))
  {
    StartupReceived(s, room);
    if s.h2g == [EncodeStartup(0)] {
      UpFrame(s, s.(h2g := [], guest := s.guest.(phase := Requesting)));
    } else {
      UpFrame(s, s.(h2g := []));
      UpPrepare(s.(h2g := []), s.host.poll, room);
    }
  }

  lemma UpLeaves(s: State, t: State, batch: Batch)
    requires UpConserved(s) && GuestAlive(s) && HeldByGuest(s.guest.phase) == batch && Carried(s.g2h) == []
    requires t.host == s.host && t.up == s.up && Carried(t.g2h) == batch && HeldByGuest(t.guest.phase) == []
    ensures UpConserved(t)
  {
    assert HostSide(t) == HostSide(s);
    Regroup(HostSide(s) + s.host.incoming + HeldRequest(s.host.worker), batch);
    if WorkerAlive(s) {
      assert UpReceived(t) == UpReceived(s) + batch;
      Regroup(UpReceived(t), []);
    } else {
      assert UpReceived(t) == UpReceived(s);
    }
  }

  lemma UpSend(s: State)
    requires UpConserved(s) && PhasesKept(s) && Enabled(s, GuestSend)
    ensures UpConserved(ApplyGuest(s, GuestSend))
  {
    AcceptedPacket(s.guest.phase.packet);
    UpLeaves(s, ApplyGuest(s, GuestSend), HeldByGuest(s.guest.phase));
  }

  /** A failing guest keeps what it holds, or leaves it in the channel. */
  lemma UpGuestFails(s: State, consumed: bool, sent: bool)
    requires UpConserved(s) && PhasesKept(s) && Enabled(s, GuestFails(consumed, sent))
    ensures UpConserved(ApplyGuest(s, GuestFails(consumed, sent)))
  {
    var t := ApplyGuest(s, GuestFails(consumed, sent));
    if sent {
      StartupPackets(0);
      UpLeaves(s, t, HeldByGuest(s.guest.phase));
    } else {
      UpFrame(s, t);
    }
  }

  lemma UpRun(s: State, room: Memory)
    requires UpConserved(s) && QueuesKept(s) && Enabled(s, GuestRun(room))
    ensures UpConserved(ApplyGuest(s, GuestRun(room)))
  {
    if s.guest.poll > 0 {
      UpPrepare(s, s.guest.poll, room);
    } else {
      UpFrame(s, s.(guest := s.guest.(phase := Requesting)));
    }
  }

  lemma UpRequest(s: State)
    requires UpConserved(s) && PhasesKept(s) && Enabled(s, GuestRequest)
    ensures UpConserved(ApplyGuest(s, GuestRequest))
  {
    StartupPackets(0);
    UpFrame(s, s.(g2h := [StartupRequest()], guest := s.guest.(phase := AwaitingStartup)));
  }

  lemma UpSubmit(s: State, e: Entry, memory: bool)
    requires UpConserved(s) && QueuesKept(s) && Enabled(s, GuestSubmit(e, memory))
    ensures UpConserved(ApplyGuest(s, GuestSubmit(e, memory)))
  {
    var t := ApplyGuest(s, GuestSubmit(e, memory));
    LogSubmit(s.up, s.guest.outgoing, e, memory);
    assert HostSide(t) == HostSide(s) && UpReceived(t) == UpReceived(s);
  }

  lemma UpGuest(s: State, a: Action)
    requires UpConserved(s) && QueuesKept(s) && PhasesKept(s) && Enabled(s, a) && !ByApp(a) && !ByWorker(a)
    ensures UpConserved(ApplyGuest(s, a))
  {
    match a
    case GuestRun(room) => UpRun(s, room);
    case GuestReceiveStartup(room) => UpReceiveStartup(s, room);
    case GuestSend => UpSend(s);
    case GuestSubmit(e, memory) => UpSubmit(s, e, memory);
    case GuestRequest => UpRequest(s);
    case GuestTake => UpFrame(s, ApplyGuest(s, a));
    case GuestReceiveBatch(_) => UpFrame(s, ApplyGuest(s, a));
    case GuestFails(consumed, sent) => UpGuestFails(s, consumed, sent);
    case _ =>
  }

  // ----- Conservation, host to guest -----

  lemma DownFrame(s: State, t: State)
    requires DownConserved(s)
    requires t.down.drained == s.down.drained && t.down.taken + t.guest.incoming == s.down.taken + s.guest.incoming
    requires Carried(t.h2g) == Carried(s.h2g)
    requires GuestAlive(t) ==> GuestAlive(s)
    requires WorkerAlive(t) ==> WorkerAlive(s) && HeldReply(t.host.worker) == HeldReply(s.host.worker)
    ensures DownConserved(t)
  {
    assert DownReceived(t) == DownReceived(s);
  }

  lemma DownApp(s: State, a: Action)
    requires DownConserved(s) && QueuesKept(s) && Enabled(s, a) && ByApp(a)
    ensures DownConserved(ApplyApp(s, a))
  {
    PhasesAppFrame(s, a);
    if a.HostSubmit? {
      LogSubmit(s.down, s.host.outgoing, a.e, a.memory);
    }
    DownFrame(s, ApplyApp(s, a));
  }

  /** A drained batch is in the worker's reply, or lost with the worker. */
  lemma DownDrained(s: State, t: State, batch: Batch)
    requires DownConserved(s) && WorkerAlive(s) && HeldReply(s.host.worker) == []
    requires t.guest == s.guest && t.h2g == s.h2g && t.down.taken == s.down.taken
    requires t.down.drained == s.down.drained + batch
    requires WorkerAlive(t) ==> HeldReply(t.host.worker) == batch
    ensures DownConserved(t)
  {
    assert DownReceived(t) == DownReceived(s);
    Regroup(DownReceived(s), batch);
    PrefixOfSum(s.down.drained, batch);
    PrefixTransitive(s.down.taken + s.guest.incoming, s.down.drained, t.down.drained);
    if GuestAlive(s) {
      PrefixTransitive(DownReceived(s), s.down.drained, t.down.drained);
    }
  }

  lemma DownWorkerExchange(s: State, room: Memory)
    requires DownConserved(s) && QueuesKept(s) && PhasesKept(s) && Enabled(s, WorkerExchange(room))
    ensures DownConserved(ApplyWorker(s, WorkerExchange(room)))
  {
    var t := ApplyWorker(s, WorkerExchange(room));
    var batch := Data(s.host.outgoing);
    BatchPacket(batch);
    if t.down == s.down {
      DownFrame(s, t);
    } else {
      DownDrained(s, t, batch);
    }
  }

  lemma DownWorkerSend(s: State)
    requires DownConserved(s) && PhasesKept(s) && Enabled(s, WorkerSend)
    ensures DownConserved(ApplyWorker(s, WorkerSend))
  {
    var t := ApplyWorker(s, WorkerSend);
    var reply := HeldReply(s.host.worker);
    AcceptedPacket(s.host.worker.reply);
    assert t == s.(h2g := [s.host.worker.reply], host := s.host.(worker := ReceivingBatch));
    Regroup(s.down.taken + s.guest.incoming, reply);
    assert DownReceived(t) == DownReceived(s) + reply;
  }

  lemma DownWorkerReply(s: State)
    requires DownConserved(s) && PhasesKept(s) && Enabled(s, WorkerReply)
    ensures DownConserved(ApplyWorker(s, WorkerReply))
  {
    StartupPackets(0);
    StartupPackets(s.host.poll);
    DownFrame(s, ApplyWorker(s, WorkerReply));
  }

  lemma DownWorker(s: State, a: Action)
    requires DownConserved(s) && QueuesKept(s) && PhasesKept(s) && Enabled(s, a) && ByWorker(a)
    ensures DownConserved(ApplyWorker(s, a))
  {
    match a
    case WorkerExchange(room) => DownWorkerExchange(s, room);
    case WorkerSend => DownWorkerSend(s);
    case WorkerReply => DownWorkerReply(s);
    case WorkerReceive => DownFrame(s, ApplyWorker(s, a));
    case WorkerCheck => DownFrame(s, ApplyWorker(s, a));
    case WorkerFails(_) => DownFrame(s, ApplyWorker(s, a));
    case WorkerRecords => DownFrame(s, ApplyWorker(s, a));
    case _ =>
  }

  lemma DownReceiveBatch(s: State, memory: bool)
    requires DownConserved(s) && PhasesKept(s) && Enabled(s, GuestReceiveBatch(memory))
    ensures DownConserved(ApplyGuest(s, GuestReceiveBatch(memory)))
  {
    var t := ApplyGuest(s, GuestReceiveBatch(memory));
    AcceptedPacket(s.h2g[0]);
    var batch := BatchOf(s.h2g[0]);
    AppendedIff(s.guest.incoming, batch);
    assert t == s.(h2g := [], guest := t.guest);
    if GuestAlive(t) {
      assert t.guest == s.guest.(incoming := s.guest.incoming + batch, phase := Idle);
      Reassociate(s.down.taken, s.guest.incoming, batch);
      assert DownReceived(t) == DownReceived(s);
    } else {
      assert t.guest.incoming == s.guest.incoming;
    }
  }

  lemma DownReceiveStartup(s: State, room: Memory)
    requires DownConserved(s) && PhasesKept(s) && Enabled(s, GuestReceiveStartup(room))
    ensures DownConserved(ApplyGuest(s, GuestReceiveStartup(room)))
  {
    StartupReceived(s, room);
    StartupPackets(0);
    StartupPackets(s.host.poll);
    DownFrame(s, ApplyGuest(s, GuestReceiveStartup(room)));
  }

  /** A failing guest may leave a packet behind, read or not: what it has is still a prefix. */
  lemma DownGuestFails(s: State, consumed: bool, sent: bool)
    requires DownConserved(s) && Enabled(s, GuestFails(consumed, sent))
    ensures DownConserved(ApplyGuest(s, GuestFails(consumed, sent)))
  {
  }

  lemma DownGuest(s: State, a: Action)
    requires DownConserved(s) && QueuesKept(s) && PhasesKept(s) && Enabled(s, a) && !ByApp(a) && !ByWorker(a)
    ensures DownConserved(ApplyGuest(s, a))
  {
    match a
    case GuestTake =>
      TakeKeeps(s.down, s.guest.incoming);
      DownFrame(s, ApplyGuest(s, a));
    case GuestReceiveStartup(room) => DownReceiveStartup(s, room);
    case GuestReceiveBatch(memory) => DownReceiveBatch(s, memory);
    case GuestFails(consumed, sent) => DownGuestFails(s, consumed, sent);
    case GuestSubmit(_, _) => DownFrame(s, ApplyGuest(s, a));
    case GuestRun(_) => DownFrame(s, ApplyGuest(s, a));
    case GuestRequest => DownFrame(s, ApplyGuest(s, a));
    case GuestSend => DownFrame(s, ApplyGuest(s, a));
    case _ =>
  }

  // ----- Every step, every run -----

  /** Every step of every actor, failures included, keeps the invariant. */
  lemma InvStep(s: State, a: Action)
    requires Inv(s) && Enabled(s, a)
    ensures Inv(Apply(s, a))
  {
    if ByApp(a) {
      QueuesApp(s, a);
      PhasesApp(s, a);
      FailuresApp(s, a);
      UpApp(s, a);
      DownApp(s, a);
    } else if ByWorker(a) {
      QueuesWorker(s, a);
      PhasesWorker(s, a);
      UpWorker(s, a);
      DownWorker(s, a);
    } else {
      QueuesGuest(s, a);
      PhasesGuest(s, a);
      UpGuest(s, a);
      DownGuest(s, a);
    }
  }

  lemma {:induction false} InvRuns(s: State, actions: seq<Action>, t: State)
    requires Inv(s) && Runs(s, actions, t)
    ensures Inv(t)
    decreases |actions|
  {
    if actions == [] {
    } else {
      InvStep(s, actions[0]);
      InvRuns(Apply(s, actions[0]), actions[1..], t);
    }
  }

  lemma ReachableInv(t: State)
    requires Reachable(t)
    ensures Inv(t)
  {
    var s, actions :| Init(s) && Runs(s, actions, t);
    InitInv(s);
    InvRuns(s, actions, t);
  }
}
