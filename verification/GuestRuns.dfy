/** The calls of the guest controller inside the protocol: with the host's own worker
    answering, a call of `run_next` is a run. */
module GuestRuns {
  import opened Basics
  import opened Codec
  import opened Queues
  import opened Protocol
  import opened ProtocolInvariant
  import opened GuestController

  /** Both ends live, and the host is not being stopped. */
  ghost predicate Live(s: State)
  {
    Reachable(s) && WorkerAlive(s) && GuestAlive(s) && !s.host.cancelled
  }

  lemma {:induction false} RunsConcat(s: State, a: seq<Action>, m: State, b: seq<Action>, t: State)
    requires Runs(s, a, m) && Runs(m, b, t)
    ensures Runs(s, a + b, t)
    decreases |a|
  {
    if a == [] {
      assert a + b == b;
    } else {
      RunsConcat(Apply(s, a[0]), a[1..], m, b, t);
      Heads(a, b);
    }
  }

  lemma OneStep(s: State, a: Action)
    requires Enabled(s, a)
    ensures Runs(s, [a], Apply(s, a))
  {
    assert [a][1..] == [];
    assert Runs(Apply(s, a), [], Apply(s, a));
  }

  lemma OneMore(s: State, actions: seq<Action>, t: State, a: Action)
    requires Runs(s, actions, t) && Enabled(t, a)
    ensures Runs(s, actions + [a], Apply(t, a))
  {
    OneStep(t, a);
    RunsConcat(s, actions, t, [a], Apply(t, a));
  }

  lemma ReachableRuns(s: State, actions: seq<Action>, t: State)
    requires Reachable(s) && Runs(s, actions, t)
    ensures Reachable(t)
  {
    var origin, before :| Init(origin) && Runs(origin, before, s);
    RunsConcat(origin, before, s, actions, t);
  }

  lemma PhaseFacts(s: State)
    requires ChannelsKept(s) && GuestKept(s) && Lockstep(s)
    ensures s.guest.phase.Requesting? ==>
      s.g2h == [] && s.h2g == [] && s.host.worker.ReceivingStartup? && s.guest.poll == 0
    ensures s.guest.phase.SendingBatch? ==> s.g2h == [] && s.h2g == [] && s.host.worker.ReceivingBatch?
    ensures s.host.worker.Checking? ==> s.g2h == [] && s.h2g == []
    ensures GuestAlive(s) && s.host.worker.Holding? ==>
      s.g2h == [] && s.h2g == [] && s.guest.phase.AwaitingBatch?
  {
  }

  /** What the invariant says about the two ends and the channels between them. */
  lemma Facts(s: State)
    requires Live(s)
    ensures Within(Data(s.host.outgoing)) && Within(Data(s.guest.outgoing))
    ensures s.guest.poll == 0 || s.guest.poll == s.host.poll
    ensures s.guest.phase.Requesting? ==>
      s.g2h == [] && s.h2g == [] && s.host.worker.ReceivingStartup? && s.guest.poll == 0
    ensures s.guest.phase.SendingBatch? ==> s.g2h == [] && s.h2g == [] && s.host.worker.ReceivingBatch?
    ensures s.host.worker.Checking? ==> s.g2h == [] && s.h2g == []
    ensures s.host.worker.Holding? ==> s.g2h == [] && s.h2g == [] && s.guest.phase.AwaitingBatch?
  {
    ReachableInv(s);
    PhaseFacts(s);
  }

  // ----- Startup -----

  /** What the worker answers to a startup request. */
  function Announced(s: State): (poll: nat)
  {
    if s.host.started then s.host.poll else 0
  }

  lemma RequestSteps(s: State) returns (asked: State, t: State)
    requires s.guest.phase.Requesting? && s.g2h == [] && s.host.worker.ReceivingStartup? && !s.host.cancelled
    ensures Enabled(s, GuestRequest) && asked == Apply(s, GuestRequest)
    ensures Enabled(asked, WorkerReceive) && t == Apply(asked, WorkerReceive)
    ensures t == s.(guest := s.guest.(phase := AwaitingStartup), host := s.host.(worker := Checking))
  {
    StartupPackets(0);
    asked := s.(g2h := [StartupRequest()], guest := s.guest.(phase := AwaitingStartup));
    t := s.(guest := s.guest.(phase := AwaitingStartup), host := s.host.(worker := Checking));
    assert asked.g2h[1..] == [];
  }

  lemma Request(s: State) returns (t: State)
    requires Live(s) && s.guest.phase.Requesting?
    ensures Runs(s, [GuestRequest] + [WorkerReceive], t) && Live(t)
    ensures t == s.(guest := s.guest.(phase := AwaitingStartup), host := s.host.(worker := Checking))
  {
    Facts(s);
    var asked;
    asked, t := RequestSteps(s);
    OneStep(s, GuestRequest);
    OneMore(s, [GuestRequest], asked, WorkerReceive);
    ReachableRuns(s, [GuestRequest] + [WorkerReceive], t);
  }

  lemma ReplySteps(s: State) returns (checked: State, t: State)
    requires s.host.worker.Checking? && s.h2g == [] && !s.host.cancelled
    ensures Enabled(s, WorkerCheck) && checked == Apply(s, WorkerCheck)
    ensures Enabled(checked, WorkerReply) && t == Apply(checked, WorkerReply)
    ensures t == s.(h2g := [EncodeStartup(Announced(s))],
                    host := s.host.(worker := if s.host.started then ReceivingBatch else ReceivingStartup))
  {
    checked := s.(host := s.host.(worker := Replying(s.host.started)));
    t := Apply(checked, WorkerReply);
  }

  lemma Reply(s: State) returns (t: State)
    requires Live(s) && s.host.worker.Checking?
    ensures Runs(s, [WorkerCheck] + [WorkerReply], t) && Live(t)
    ensures t == s.(h2g := [EncodeStartup(Announced(s))],
                    host := s.host.(worker := if s.host.started then ReceivingBatch else ReceivingStartup))
  {
    Facts(s);
    var checked;
    checked, t := ReplySteps(s);
    OneStep(s, WorkerCheck);
    OneMore(s, [WorkerCheck], checked, WorkerReply);
    ReachableRuns(s, [WorkerCheck] + [WorkerReply], t);
  }

  /** A request of the guest, and the worker's reply to it. */
  lemma Asks(s: State) returns (actions: seq<Action>, t: State)
    requires Live(s) && s.guest.phase.Requesting?
    ensures |actions| == 4 && Runs(s, actions, t) && Live(t) && t.guest == s.guest.(phase := AwaitingStartup)
    ensures t.h2g == [EncodeStartup(Announced(s))]
    ensures t.host == s.host.(worker := if s.host.started then ReceivingBatch else ReceivingStartup)
  {
    var m := Request(s);
    t := Reply(m);
    actions := [GuestRequest] + [WorkerReceive] + ([WorkerCheck] + [WorkerReply]);
    RunsConcat(s, [GuestRequest] + [WorkerReceive], m, [WorkerCheck] + [WorkerReply], t);
  }

  lemma TakesReply(s: State, room: Memory)
    requires Live(s) && s.guest.phase.AwaitingStartup? && s.h2g == [EncodeStartup(Announced(s))]
    ensures Enabled(s, GuestReceiveStartup(room))
    ensures var t := Apply(s, GuestReceiveStartup(room));
      && t.host == s.host
      && t.guest == if s.host.started then Prepare(s, s.host.poll, room).guest else s.guest.(phase := Requesting)
  {
    ReachableInv(s);
    StartupReceived(s, room);
    StartupPackets(0);
    StartupPackets(s.host.poll);
  }

  /** The guest takes the reply to its request. */
  lemma Answered(s: State, room: Memory) returns (actions: seq<Action>, t: State)
    requires Live(s) && s.guest.phase.Requesting?
    ensures |actions| == 5 && Runs(s, actions, t) && Reachable(t) && WorkerAlive(t) && !t.host.cancelled
    ensures t.guest == if s.host.started then Prepare(s, s.host.poll, room).guest else s.guest
    ensures t.host == s.host.(worker := if s.host.started then ReceivingBatch else ReceivingStartup)
  {
    var asks, asked := Asks(s);
    TakesReply(asked, room);
    t := Apply(asked, GuestReceiveStartup(room));
    OneMore(s, asks, asked, GuestReceiveStartup(room));
    actions := asks + [GuestReceiveStartup(room)];
    ReachableRuns(s, actions, t);
  }

  lemma {:induction false} AsksRepeatedly(s: State, n: nat, room: Memory) returns (actions: seq<Action>, t: State)
    requires Live(s) && s.guest.phase.Requesting? && !s.host.started
    ensures |actions| == 5 * n && Runs(s, actions, t) && Live(t) && t.guest == s.guest
    decreases n
  {
    if n == 0 {
      actions, t := [], s;
    } else {
      var first, m := Answered(s, room);
      var rest;
      rest, t := AsksRepeatedly(m, n - 1, room);
      RunsConcat(s, first, m, rest, t);
      actions := first + rest;
    }
  }

  lemma Unstarted(s: State)
    requires Reachable(s) && !s.host.started
    ensures s.guest.poll == 0
  {
    ReachableInv(s);
  }

  lemma WaitingCalls(g: Guest, reply: Packet, n: nat, room: Memory)
    requires g.phase.Idle? && g.poll == 0 && DecodeStartup(reply) == Ok(0)
    ensures Calls(g, Repeat(Some(reply), n), room) == g.(phase := AwaitingStartup)
  {
    NotReadyIsTransparent(n, Some(reply), []);
    Regroup(Repeat<Exchange>(Some(reply), n), []);
  }

  /** Before the first step: for any number of not-ready replies, which is all that the
      worker sends, the call is a run that leaves the guest asking. Each reply takes the
      request, its receipt, the worker's check, its reply and the receipt of that. */
  lemma WaitingCallIsARun(s: State, n: nat, room: Memory)
    returns (reply: Packet, actions: seq<Action>, t: State)
    requires Reachable(s) && WorkerAlive(s) && s.guest.phase.Idle? && !s.host.cancelled && !s.host.started
    ensures reply == EncodeStartup(0) && |actions| == 5 * n + 2 && Runs(s, actions, t)
    ensures t.guest == Calls(s.guest, Repeat(Some(reply), n), room)
  {
    Unstarted(s);
    StartupPackets(0);
    reply := EncodeStartup(0);
    var begun := Apply(s, GuestRun(room));
    OneStep(s, GuestRun(room));
    ReachableRuns(s, [GuestRun(room)], begun);
    var asks, asking := AsksRepeatedly(begun, n, room);
    RunsConcat(s, [GuestRun(room)], begun, asks, asking);
    OneMore(s, [GuestRun(room)] + asks, asking, GuestRequest);
    actions, t := [GuestRun(room)] + asks + [GuestRequest], Apply(asking, GuestRequest);
    WaitingCalls(s.guest, reply, n, room);
  }

  // ----- The exchange -----

  /** Whether the worker can take in what the guest sends. */
  predicate Accepts(s: State)
  {
    Within(s.host.incoming + Data(s.guest.outgoing))
  }

  lemma UpSteps(s: State, batch: Batch) returns (sent: State, t: State)
    requires s.guest.phase == SendingBatch(Encoded(batch)) && Within(batch) && s.g2h == []
    requires s.host.worker.ReceivingBatch? && !s.host.cancelled
    ensures Enabled(s, GuestSend) && sent == Apply(s, GuestSend)
    ensures Enabled(sent, WorkerReceive) && t == Apply(sent, WorkerReceive)
    ensures t == s.(guest := s.guest.(phase := AwaitingBatch), host := s.host.(worker := Holding(batch)))
  {
    BatchPacket(batch);
    sent := s.(g2h := [Encoded(batch)], guest := s.guest.(phase := AwaitingBatch));
    t := s.(guest := s.guest.(phase := AwaitingBatch), host := s.host.(worker := Holding(batch)));
    assert sent.g2h[1..] == [];
  }

  lemma TradeUp(s: State, batch: Batch) returns (t: State)
    requires Live(s) && s.guest.phase == SendingBatch(Encoded(batch)) && Within(batch)
    ensures Runs(s, [GuestSend] + [WorkerReceive], t) && Live(t)
    ensures t == s.(guest := s.guest.(phase := AwaitingBatch), host := s.host.(worker := Holding(batch)))
  {
    Facts(s);
    var sent;
    sent, t := UpSteps(s, batch);
    OneStep(s, GuestSend);
    OneMore(s, [GuestSend], sent, WorkerReceive);
    ReachableRuns(s, [GuestSend] + [WorkerReceive], t);
  }

  lemma ExchangeStep(s: State, batch: Batch) returns (t: State)
    requires s.host.worker.Holding? && Within(s.host.incoming + s.host.worker.request)
    requires batch == Data(s.host.outgoing) && Within(batch)
    ensures Enabled(s, WorkerExchange(Memory(true, true, true)))
    ensures t == Apply(s, WorkerExchange(Memory(true, true, true)))
    ensures t.host.worker == Sending(Encoded(batch)) && t.host.cancelled == s.host.cancelled
    ensures t.guest == s.guest && t.g2h == s.g2h && t.h2g == s.h2g
  {
    AppendedIff(s.host.incoming, s.host.worker.request);
    t := Apply(s, WorkerExchange(Memory(true, true, true)));
  }

  lemma DownSteps(s: State, batch: Batch, room: Memory) returns (answered: State, t: State)
    requires s.host.worker == Sending(Encoded(batch)) && Within(batch) && !s.host.cancelled
    requires s.guest.phase.AwaitingBatch? && s.h2g == []
    ensures Enabled(s, WorkerSend) && answered == Apply(s, WorkerSend)
    ensures Enabled(answered, GuestReceiveBatch(room.append)) && t == Apply(answered, GuestReceiveBatch(room.append))
    ensures t.guest == Appends(s.guest, Ok(batch), room.append)
  {
    BatchPacket(batch);
    answered := s.(h2g := [Encoded(batch)], host := s.host.(worker := ReceivingBatch));
    t := Apply(answered, GuestReceiveBatch(room.append));
  }

  lemma TradeDown(s: State, room: Memory) returns (actions: seq<Action>, t: State)
    requires Live(s) && s.host.worker.Holding? && Within(s.host.incoming + s.host.worker.request)
    ensures Runs(s, actions, t)
    ensures t.guest == Appends(s.guest, Ok(Data(s.host.outgoing)), room.append)
  {
    Facts(s);
    var exchange, batch := WorkerExchange(Memory(true, true, true)), Data(s.host.outgoing);
    var exchanged := ExchangeStep(s, batch);
    var answered;
    answered, t := DownSteps(exchanged, batch, room);
    OneStep(s, exchange);
    OneMore(s, [exchange], exchanged, WorkerSend);
    OneMore(s, [exchange] + [WorkerSend], answered, GuestReceiveBatch(room.append));
    actions := [exchange] + [WorkerSend] + [GuestReceiveBatch(room.append)];
  }

  /** A prepared batch goes to the worker, and its reply comes back. */
  lemma Trade(s: State, batch: Batch, room: Memory) returns (actions: seq<Action>, t: State)
    requires Live(s) && s.guest.phase == SendingBatch(Encoded(batch)) && Within(batch)
    ensures Runs(s, actions, t)
    ensures t.guest ==
      if Within(s.host.incoming + batch) then
        Appends(s.guest.(phase := AwaitingBatch), Ok(Data(s.host.outgoing)), room.append)
      else s.guest.(phase := AwaitingBatch)
  {
    var held := TradeUp(s, batch);
    var up := [GuestSend] + [WorkerReceive];
    if !Within(s.host.incoming + batch) {
      actions, t := up, held;
    } else {
      var down;
      down, t := TradeDown(held, room);
      RunsConcat(s, up, held, down, t);
      actions := up + down;
    }
  }

  // ----- The call -----

  /** The beginning of a call, when the host has started: the guest prepares its batch,
      after asking for the interval if it does not know it. */
  lemma Begins(s: State, room: Memory) returns (actions: seq<Action>, t: State)
    requires Live(s) && s.guest.phase.Idle? && s.host.started
    ensures Runs(s, actions, t) && Reachable(t) && WorkerAlive(t) && !t.host.cancelled
    ensures t.guest == Prepare(s, s.host.poll, room).guest
    ensures t.host.incoming == s.host.incoming && t.host.outgoing == s.host.outgoing
  {
    Facts(s);
    var run := GuestRun(room);
    OneStep(s, run);
    actions, t := [run], Apply(s, run);
    ReachableRuns(s, actions, t);
    if s.guest.poll == 0 {
      var begun := t;
      var asks;
      asks, t := Answered(begun, room);
      RunsConcat(s, [run], begun, asks, t);
      actions := [run] + asks;
    }
  }

  /** The replies of the worker to a call: the interval, if the guest asks for it, and
      the coalesced submissions of the host, if it can take in those of the guest. */
  lemma Replies(s: State) returns (startup: seq<Exchange>, batch: seq<Exchange>)
    requires Within(Data(s.host.outgoing))
    ensures startup == if s.guest.poll == 0 then [Some(EncodeStartup(s.host.poll))] else []
    ensures batch == if Accepts(s) then [Some(Encoded(Data(s.host.outgoing)))] else []
  {
    StartupPackets(s.host.poll);
    BatchPacket(Data(s.host.outgoing));
    startup := if s.guest.poll == 0 then [Some(EncodeStartup(s.host.poll))] else [];
    batch := if Accepts(s) then [Some(Encoded(Data(s.host.outgoing)))] else [];
  }

  lemma StartedCalls(s: State, startup: seq<Exchange>, batch: seq<Exchange>, room: Memory)
    requires s.guest.phase.Idle? && (s.guest.poll == 0 || s.guest.poll == s.host.poll)
    requires startup == if s.guest.poll == 0 then [Some(EncodeStartup(s.host.poll))] else []
    requires batch == if Accepts(s) then [Some(Encoded(Data(s.host.outgoing)))] else []
    ensures Calls(s.guest, startup + batch, room) ==
      Exchanges(s.guest.(poll := s.host.poll), if Accepts(s) then Some(batch[0]) else None, room)
  {
    StartupPackets(s.host.poll);
    var replies := startup + batch;
    if s.guest.poll == 0 {
      assert replies[0] == startup[0] && Boots(replies) == Ready(s.host.poll, 1);
    } else {
      assert replies == batch;
    }
  }

  /** After the first step: from every reachable state in which both ends live and the
      guest is between calls, the call is a run of the guest and the worker, with the
      worker's own replies, for every outcome of the guest's allocations. The worker's
      allocations succeed; without them it never replies, as when it does not accept. */
  lemma CallIsARun(s: State, room: Memory)
    returns (startup: seq<Exchange>, batch: seq<Exchange>, actions: seq<Action>, t: State)
    requires Reachable(s) && WorkerAlive(s) && s.guest.phase.Idle? && !s.host.cancelled && s.host.started
    ensures startup == if s.guest.poll == 0 then [Some(EncodeStartup(s.host.poll))] else []
    ensures batch == if Accepts(s) then [Some(Encoded(Data(s.host.outgoing)))] else []
    ensures Runs(s, actions, t) && t.guest == Calls(s.guest, startup + batch, room)
  {
    Facts(s);
    startup, batch := Replies(s);
    StartedCalls(s, startup, batch, room);
    actions, t := Begins(s, room);
    var sending := Data(s.guest.outgoing);
    if room.drain && room.encode {
      var begun := t;
      var trade;
      trade, t := Trade(begun, sending, room);
      RunsConcat(s, actions, begun, trade, t);
      actions := actions + trade;
      DecodeOfEncode(Data(s.host.outgoing));
    }
  }
}
