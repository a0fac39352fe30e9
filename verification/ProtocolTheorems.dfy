/** What the controller protocol promises: delivery, lockstep, progress, startup. */
module ProtocolTheorems {
  import opened Basics
  import opened Codec
  import opened Queues
  import opened Framing
  import opened Protocol
  import opened ProtocolInvariant

  // ----- Delivery -----

  /** Exactly once and in order, guest to host. In every reachable state in which
      neither end failed and no snapshot was refused, the coalesced submissions of
      the guest are, in order, what the host took, what is ready, what a step is
      moving, what is incoming, and what is on its way. */
  lemma DeliveredUp(s: State)
    requires Reachable(s) && AppIntact(s) && WorkerAlive(s) && GuestAlive(s)
    ensures Delivered(s.up.closed) ==
      s.up.taken + s.host.ready + (if s.host.app.Detached? then s.host.app.batch else []) + s.host.incoming
      + HeldRequest(s.host.worker) + Carried(s.g2h) + HeldByGuest(s.guest.phase)
    ensures s.guest.outgoing == Coalesced(s.up.open)
  {
    ReachableInv(s);
  }

  /** The same from host to guest; a failure of the timing or of a snapshot does not matter here. */
  lemma DeliveredDown(s: State)
    requires Reachable(s) && WorkerAlive(s) && GuestAlive(s)
    ensures Delivered(s.down.closed) ==
      s.down.taken + s.guest.incoming + Carried(s.h2g) + HeldReply(s.host.worker)
    ensures s.host.outgoing == Coalesced(s.down.open)
  {
    ReachableInv(s);
  }

  /** Whatever fails, in whatever order: what either side took, or can still take,
      is a prefix of what the other side drained. Nothing is duplicated, reordered
      or invented, and no message is delivered after a lost one. */
  lemma TakenIsPrefix(s: State)
    requires Reachable(s)
    ensures s.up.taken <= s.up.taken + s.host.ready <= Delivered(s.up.closed)
    ensures s.down.taken <= s.down.taken + s.guest.incoming <= Delivered(s.down.closed)
  {
    ReachableInv(s);
    var offered := s.up.taken + s.host.ready;
    var moving := if s.host.app.Detached? then s.host.app.batch else [];
    PrefixOfSum(offered, moving);
    PrefixTransitive(offered, offered + moving, s.up.drained);
  }

  lemma OutgoingWithin(s: State)
    requires Reachable(s)
    ensures Within(Data(s.host.outgoing)) && Within(Data(s.guest.outgoing))
  {
    ReachableInv(s);
  }

  /** The limits compose: whatever is queued encodes into one packet below the
      transport's cap, and the peer accepts that packet as the same batch. */
  lemma LimitsCompose(s: State)
    requires Reachable(s)
    ensures forall q | q in [Data(s.host.outgoing), Data(s.guest.outgoing)] ::
      Within(q) && |Encoded(q)| <= 33_562_632 <= MAX_MESSAGE_SIZE && Decoded(Encoded(q)) == Ok(q)
  {
    OutgoingWithin(s);
    forall q | q in [Data(s.host.outgoing), Data(s.guest.outgoing)]
      ensures Within(q) && |Encoded(q)| <= 33_562_632 && Decoded(Encoded(q)) == Ok(q)
    {
      EncodedSize(q);
      DecodeOfEncode(q);
    }
  }

  // ----- Failures -----

  /** The only failures are those of the transport, of the timing, of memory and
      of the receive limits: neither end ever refuses a packet of the other. */
  lemma NoPacketIsRefused(s: State)
    requires Reachable(s)
    ensures s.host.worker.Failing? ==> !s.host.worker.why.Malformed?
    ensures s.host.failure.Some? ==> !s.host.failure.value.Malformed?
    ensures s.guest.phase.Failed? ==> !s.guest.phase.why.Malformed?
  {
    ReachableInv(s);
  }

  /** What a failed or stopped end never changes again. */
  predicate Permanent(s: State, t: State)
  {
    && (s.host.failure.Some? ==> t.host.failure.Some?)
    && (s.host.cancelled ==> t.host.cancelled)
    && (s.host.stopped ==> t.host.stopped && t.down.open == s.down.open && t.down.closed == s.down.closed)
    && (s.host.worker.Exited? ==> t.host.worker.Exited? && t.down.closed == s.down.closed)
    && (s.guest.phase.Failed? ==>
          t.guest.phase == s.guest.phase && t.up.open == s.up.open && t.up.closed == s.up.closed)
  }

  lemma PermanentApp(s: State, a: Action)
    requires FailuresKept(s) && Enabled(s, a) && ByApp(a)
    ensures Permanent(s, ApplyApp(s, a))
  {
    PhasesAppFrame(s, a);
  }

  lemma PermanentWorker(s: State, a: Action)
    requires FailuresKept(s) && Enabled(s, a) && ByWorker(a)
    ensures Permanent(s, ApplyWorker(s, a))
  {
  }

  lemma PermanentGuest(s: State, a: Action)
    requires FailuresKept(s) && Enabled(s, a) && !ByApp(a) && !ByWorker(a)
    ensures Permanent(s, ApplyGuest(s, a))
  {
  }

  lemma PermanentStep(s: State, a: Action)
    requires FailuresKept(s) && Enabled(s, a)
    ensures Permanent(s, Apply(s, a))
  {
    if ByApp(a) {
      PermanentApp(s, a);
    } else if ByWorker(a) {
      PermanentWorker(s, a);
    } else {
      PermanentGuest(s, a);
    }
  }

  /** Failure and shutdown are permanent, and a stopped or failed end accepts and sends nothing more. */
  lemma {:induction false} FailureIsPermanent(s: State, actions: seq<Action>, t: State)
    requires Inv(s) && Runs(s, actions, t)
    ensures Permanent(s, t)
    decreases |actions|
  {
    if actions == [] {
    } else {
      PermanentStep(s, actions[0]);
      InvStep(s, actions[0]);
      FailureIsPermanent(Apply(s, actions[0]), actions[1..], t);
    }
  }

  // ----- Lockstep and progress -----

  /** While both ends live, one may send only when the other waits for it, they
      agree on the phase, and at most one packet is in flight. */
  lemma InLockstep(s: State)
    requires Reachable(s) && WorkerAlive(s) && GuestAlive(s)
    ensures Lockstep(s)
    ensures |s.g2h| + |s.h2g| <= 1
    ensures s.guest.phase.SendingBatch? || s.guest.phase.Requesting? ==>
      (s.host.worker.ReceivingStartup? || s.host.worker.ReceivingBatch?) && s.g2h == [] && s.h2g == []
    ensures s.host.worker.Replying? ==> s.guest.phase.AwaitingStartup? && s.g2h == [] && s.h2g == []
    ensures s.host.worker.Sending? ==> s.guest.phase.AwaitingBatch? && s.g2h == [] && s.h2g == []
  {
    ReachableInv(s);
  }

  /** A step of the exchange that is not a failure and does not begin a new call. */
  predicate Progress(a: Action)
  {
    || a.WorkerReceive? || a.WorkerCheck? || a.WorkerReply? || a.WorkerExchange? || a.WorkerSend?
    || a.GuestRequest? || a.GuestReceiveStartup? || a.GuestSend? || a.GuestReceiveBatch?
  }

  /** No deadlock: while both ends live and the host is not being stopped, the guest is
      between calls or some step of the exchange can be taken. */
  lemma NoDeadlock(s: State)
    requires Reachable(s) && WorkerAlive(s) && GuestAlive(s)
    ensures s.host.cancelled || s.guest.phase.Idle? || exists a :: Progress(a) && Enabled(s, a)
  {
    ReachableInv(s);
    var room := Memory(true, true, true);
    var w := s.host.worker;
    if !s.host.cancelled && !s.guest.phase.Idle? {
      var a :=
        if w.Checking? then WorkerCheck
        else if w.Replying? then WorkerReply
        else if w.Holding? then WorkerExchange(room)
        else if w.Sending? then WorkerSend
        else if s.g2h != [] then WorkerReceive
        else
          match s.guest.phase
          case Requesting => GuestRequest
          case AwaitingStartup => GuestReceiveStartup(room)
          case SendingBatch(_) => GuestSend
          case _ => GuestReceiveBatch(true);
      assert Progress(a) && Enabled(s, a);
    }
  }

  /** The steps left until the guest's call returns, once the host has started. */
  function Rank(s: State): (n: nat)
    ensures n <= 12
  {
    match s.guest.phase
    case Idle => 0
    case Failed(_) => 0
    case AwaitingBatch =>
      if s.h2g != [] then 1
      else if s.host.worker.Sending? then 2
      else if s.host.worker.Holding? then 3
      else 4
    case SendingBatch(_) => 5
    case AwaitingStartup =>
      if s.h2g != [] then if s.h2g[0] == EncodeStartup(s.host.poll) then 6 else 11
      else if s.host.worker.Replying? then if s.host.worker.ready then 7 else 12
      else if s.host.worker.Checking? then 8
      else 9
    case Requesting => 10
  }

  lemma RankDropsByReceive(s: State)
    requires PhasesKept(s) && Enabled(s, WorkerReceive)
    requires WorkerAlive(s) && GuestAlive(s) && WorkerAlive(ApplyWorker(s, WorkerReceive))
    ensures Rank(ApplyWorker(s, WorkerReceive)) < Rank(s)
  {
    StartupPackets(0);
  }

  lemma RankDropsByWorker(s: State, a: Action)
    requires PhasesKept(s) && Enabled(s, a) && Progress(a) && s.host.started && ByWorker(a)
    requires WorkerAlive(s) && GuestAlive(s) && WorkerAlive(Apply(s, a)) && GuestAlive(Apply(s, a))
    ensures Rank(Apply(s, a)) < Rank(s)
  {
    if a.WorkerReceive? {
      RankDropsByReceive(s);
    } else {
      StartupPackets(0);
      StartupPackets(s.host.poll);
    }
  }

  lemma RankDropsByStartup(s: State, room: Memory)
    requires PhasesKept(s) && Enabled(s, GuestReceiveStartup(room)) && s.host.started
    requires WorkerAlive(s) && GuestAlive(s) && GuestAlive(ApplyGuest(s, GuestReceiveStartup(room)))
    ensures Rank(ApplyGuest(s, GuestReceiveStartup(room))) < Rank(s)
  {
    StartupPackets(0);
    StartupPackets(s.host.poll);
  }

  lemma RankDropsByGuest(s: State, a: Action)
    requires PhasesKept(s) && Enabled(s, a) && Progress(a) && s.host.started && !ByWorker(a)
    requires WorkerAlive(s) && GuestAlive(s) && WorkerAlive(Apply(s, a)) && GuestAlive(Apply(s, a))
    ensures Rank(Apply(s, a)) < Rank(s)
  {
    if a.GuestReceiveStartup? {
      RankDropsByStartup(s, a.room);
    }
  }

  lemma RankKept(s: State, a: Action)
    requires Enabled(s, a) && !Progress(a) && !a.GuestRun?
    requires WorkerAlive(Apply(s, a)) && GuestAlive(Apply(s, a))
    ensures Rank(Apply(s, a)) == Rank(s)
    ensures s.host.started ==> Apply(s, a).host.started
  {
    if ByApp(a) {
      PhasesAppFrame(s, a);
    }
  }

  lemma StartedStays(s: State, a: Action)
    requires Enabled(s, a)
    ensures s.host.started ==> Apply(s, a).host.started
    ensures !WorkerAlive(s) ==> !WorkerAlive(Apply(s, a))
    ensures !GuestAlive(s) ==> !GuestAlive(Apply(s, a))
  {
    if ByApp(a) {
      PhasesAppFrame(s, a);
    }
  }

  function ProgressSteps(actions: seq<Action>): (n: nat)
  {
    if actions == [] then 0 else (if Progress(actions[0]) then 1 else 0) + ProgressSteps(actions[1..])
  }

  /** No livelock: after the host has started, a call of the guest takes at most
      twelve steps of the exchange, however the application's own steps interleave. */
  lemma {:induction false} CallCompletes(s: State, actions: seq<Action>, t: State)
    requires Inv(s) && s.host.started && Runs(s, actions, t) && WorkerAlive(t) && GuestAlive(t)
    requires forall i :: 0 <= i < |actions| ==> !actions[i].GuestRun?
    ensures WorkerAlive(s) && GuestAlive(s)
    ensures ProgressSteps(actions) + Rank(t) <= Rank(s) <= 12
    decreases |actions|
  {
    if actions != [] {
      var a, next := actions[0], Apply(s, actions[0]);
      StartedStays(s, a);
      InvStep(s, a);
      CallCompletes(next, actions[1..], t);
      if !Progress(a) {
        RankKept(s, a);
      } else if ByWorker(a) {
        RankDropsByWorker(s, a);
      } else {
        RankDropsByGuest(s, a);
      }
    }
  }

  // ----- Stopping -----

  /** The worker's steps left once its transport is cancelled. */
  function StepsToExit(w: Worker): (n: nat)
    ensures n <= 3
  {
    if w.Exited? then 0 else if w.Failing? then 1 else if w.Checking? || w.Holding? then 3 else 2
  }

  function WorkerSteps(actions: seq<Action>): (n: nat)
  {
    if actions == [] then 0 else (if ByWorker(actions[0]) then 1 else 0) + WorkerSteps(actions[1..])
  }

  /** A cancelled worker that has not exited can always take a step. */
  lemma CancelledNeverBlocks(s: State)
    requires s.host.cancelled && !s.host.worker.Exited?
    ensures exists a :: ByWorker(a) && Enabled(s, a)
  {
    var w := s.host.worker;
    var a :=
      if w.Checking? then WorkerCheck
      else if w.Holding? then WorkerExchange(Memory(true, true, true))
      else if w.Failing? then WorkerRecords
      else WorkerFails(false);
    assert ByWorker(a) && Enabled(s, a);
  }

  lemma CancelledWorkerStep(s: State, a: Action)
    requires s.host.cancelled && Enabled(s, a) && ByWorker(a)
    ensures Apply(s, a).host.cancelled
    ensures StepsToExit(Apply(s, a).host.worker) < StepsToExit(s.host.worker)
  {
  }

  lemma CancelledStep(s: State, a: Action)
    requires s.host.cancelled && Enabled(s, a)
    ensures var t := Apply(s, a);
      && t.host.cancelled
      && StepsToExit(t.host.worker) + (if ByWorker(a) then 1 else 0) <= StepsToExit(s.host.worker)
  {
    if ByWorker(a) {
      CancelledWorkerStep(s, a);
    } else if ByApp(a) {
      PhasesAppFrame(s, a);
    }
  }

  /** Stopping returns: once the transport is cancelled, the worker has at most three
      steps left, whatever the others do, can always take the next, and then `stop`
      can finish. */
  lemma {:induction false} StopReturns(s: State, actions: seq<Action>, t: State)
    requires s.host.cancelled && Runs(s, actions, t)
    ensures t.host.cancelled && WorkerSteps(actions) + StepsToExit(t.host.worker) <= StepsToExit(s.host.worker) <= 3
    ensures t.host.worker.Exited? || exists a :: ByWorker(a) && Enabled(t, a)
    ensures t.host.worker.Exited? && t.host.app.Stopping? ==>
      Enabled(t, StopDone) && Apply(t, StopDone).host.stopped
    decreases |actions|
  {
    if actions == [] {
      if !t.host.worker.Exited? {
        CancelledNeverBlocks(t);
      }
    } else {
      CancelledStep(s, actions[0]);
      StopReturns(Apply(s, actions[0]), actions[1..], t);
    }
  }

  // ----- Startup -----

  /** Before the first valid step only startup packets exist, neither side has
      sent a message, and every accepted submission is still in its queue. */
  lemma NothingBeforeTheFirstStep(s: State)
    requires Reachable(s) && !s.host.started
    ensures Delivered(s.up.closed) == [] && Delivered(s.down.closed) == []
    ensures s.guest.outgoing == Coalesced(s.up.open) && s.host.outgoing == Coalesced(s.down.open)
    ensures s.guest.poll == 0 && !s.guest.phase.SendingBatch?
    ensures GuestAlive(s) && WorkerAlive(s) ==>
      (s.g2h == [] || s.g2h == [StartupRequest()]) && (s.h2g == [] || s.h2g == [EncodeStartup(0)])
  {
    ReachableInv(s);
  }

  lemma HostPollIsFixed(s: State, a: Action)
    requires Enabled(s, a)
    ensures Apply(s, a).host.poll == s.host.poll
  {
    if ByApp(a) {
      PhasesAppFrame(s, a);
    }
  }

  lemma OthersDoNotStart(s: State, a: Action)
    requires Enabled(s, a) && !ByApp(a)
    ensures Apply(s, a).host.started == s.host.started
  {
  }

  lemma StartedByStep(s: State, a: Action)
    requires Enabled(s, a) && !s.host.started && Apply(s, a).host.started
    ensures a.StepBegin? && ValidStep(a.interval, s.host.poll) && s.host.failure.None? && !s.host.stopped
  {
    if !ByApp(a) {
      OthersDoNotStart(s, a);
    }
  }

  /** An exchange that is open was opened by a step with valid settings, on a host
      that had neither failed nor stopped: some action of the run is that step. */
  lemma {:induction false} StartedByValidStep(s: State, actions: seq<Action>, t: State) returns (i: nat, u: State)
    requires !s.host.started && Runs(s, actions, t) && t.host.started
    ensures i < |actions| && Runs(s, actions[..i], u) && Runs(u, actions[i..], t)
    ensures actions[i].StepBegin? && ValidStep(actions[i].interval, s.host.poll)
    ensures u.host.poll == s.host.poll && !u.host.started && u.host.failure.None? && !u.host.stopped
    decreases |actions|
  {
    var next := Apply(s, actions[0]);
    if next.host.started {
      StartedByStep(s, actions[0]);
      i, u := 0, s;
      assert actions[0..] == actions;
    } else {
      i, u := StartedByValidStep(next, actions[1..], t);
      HostPollIsFixed(s, actions[0]);
      i := i + 1;
      assert actions[..i][0] == actions[0] && actions[..i][1..] == actions[1..][..i - 1];
      assert actions[1..][i - 1..] == actions[i..];
    }
  }

  lemma PollStep(s: State, a: Action)
    requires GuestKept(s) && Enabled(s, a)
    ensures Apply(s, a).host.poll == s.host.poll
    ensures s.guest.poll > 0 ==> Apply(s, a).guest.poll == s.guest.poll
  {
    HostPollIsFixed(s, a);
    if ByApp(a) {
      PhasesAppFrame(s, a);
    }
  }

  /** The polling interval is fixed: once the guest knows it, it is the host's, for ever. */
  lemma {:induction false} PollIsFixed(s: State, actions: seq<Action>, t: State)
    requires Inv(s) && s.guest.poll > 0 && Runs(s, actions, t)
    ensures t.guest.poll == s.guest.poll == s.host.poll == t.host.poll
    decreases |actions|
  {
    if actions == [] {
    } else {
      PollStep(s, actions[0]);
      InvStep(s, actions[0]);
      PollIsFixed(Apply(s, actions[0]), actions[1..], t);
    }
  }
}
