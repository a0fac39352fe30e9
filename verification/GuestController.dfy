/** The guest controller as an object: startup, then one exchange a call. */
module GuestController {
  import opened Basics
  import opened Wire
  import opened Codec
  import opened Queues
  import opened Framing
  import opened Protocol

  datatype Outcome = Completed | Fails(why: Failure) | Blocked

  /** The transport delivers nothing above its cap. */
  type Packet = m: Message | |m| <= MAX_MESSAGE_SIZE

  /** What the transport answers to a send and the receive after it: the reply, or a failure. */
  type Exchange = Option<Packet>

  /** Why a submission is refused: the controller has failed, or its queue refuses. */
  datatype Refusal = AfterFailure(why: Failure) | Full(error: Error)

  /** How far startup gets with the replies so far; `asked` counts the requests. */
  datatype Startup = Waiting(asked: nat) | Refused(why: Failure, asked: nat) | Ready(poll: nat, asked: nat)

  /** The same, after n more requests. */
  function Shifted(s: Startup, n: nat): (t: Startup)
  {
    s.(asked := n + s.asked)
  }

  function Boots(replies: seq<Exchange>): (r: Startup)
    ensures r.asked >= 1
    ensures !r.Waiting? ==> r.asked <= |replies|
    ensures r.Ready? ==> 0 < r.poll <= HOUR
  {
    if replies == [] then Waiting(1)
    else if replies[0].None? then Refused(Transport, 1)
    else
      match DecodeStartup(replies[0].value)
      case Err(e) => Refused(Malformed(e), 1)
      case Ok(poll) =>
        if poll > 0 then Ready(poll, 1) else Shifted(Boots(replies[1..]), 1)
  }

  function Repeat<T>(x: T, n: nat): (s: seq<T>)
  {
    seq(n, _ => x)
  }

  /** Not-ready replies change nothing but the number of requests. */
  lemma {:induction false} NotReadyIsTransparent(n: nat, reply: Exchange, replies: seq<Exchange>)
    requires reply.Some? && DecodeStartup(reply.value) == Ok(0)
    ensures Boots(Repeat(reply, n) + replies) == Shifted(Boots(replies), n)
  {
    var all := Repeat(reply, n) + replies;
    if n == 0 {
      assert all == replies;
    } else {
      assert all[0] == reply && all[1..] == Repeat(reply, n - 1) + replies;
      NotReadyIsTransparent(n - 1, reply, replies);
    }
  }

  /** The batch that an exchange brings, if its reply is one. */
  function BatchIn(reply: Option<Exchange>): (r: Option<Batch>)
  {
    if reply.None? || reply.value.None? then None
    else
      match Decoded(reply.value.value)
      case Ok(batch) => Some(batch)
      case Err(_) => None
  }

  predicate Fits(queue: Batch, batch: Option<Batch>)
  {
    batch.Some? && Within(queue + batch.value)
  }

  function Nth(replies: seq<Exchange>, i: nat): (r: Option<Exchange>)
  {
    if i < |replies| then Some(replies[i]) else None
  }

  function PhaseAfter(r: Outcome, poll: nat): (p: Phase)
  {
    match r
    case Completed => Idle
    case Fails(why) => Failed(why)
    case Blocked => if poll > 0 then AwaitingBatch else AwaitingStartup
  }

  // ----- A call as steps of the protocol -----

  /** The answer of the host reaches a waiting guest, whose request is gone. */
  function Answer(s: State, reply: Message): (t: State)
  {
    s.(g2h := [], h2g := [reply])
  }

  /** The requests of a guest that asks for the interval, and the replies it gets. */
  function Startups(s: State, replies: seq<Exchange>, room: Memory): (t: State)
    requires s.guest.phase.Requesting?
    decreases |replies|
  {
    var asked := ApplyGuest(s, GuestRequest);
    if replies == [] then asked
    else if replies[0].None? then ApplyGuest(asked, GuestFails(false, false))
    else
      var t := ApplyGuest(Answer(asked, replies[0].value), GuestReceiveStartup(room));
      if t.guest.phase.Requesting? then Startups(t, replies[1..], room) else t
  }

  /** The send of a prepared batch, and the reply to it. */
  function Trades(s: State, reply: Option<Exchange>, room: Memory): (t: State)
  {
    if !s.guest.phase.SendingBatch? then s
    else
      var sent := ApplyGuest(s, GuestSend);
      if !sent.guest.phase.AwaitingBatch? || reply.None? then sent
      else if reply.value.None? then ApplyGuest(sent, GuestFails(false, false))
      else ApplyGuest(Answer(sent, reply.value.value), GuestReceiveBatch(room.append))
  }

  /** One call of `run_next`, by nothing but steps of the guest and answers of the host. */
  function Call(s: State, replies: seq<Exchange>, room: Memory): (t: State)
  {
    if !s.guest.phase.Idle? then s
    else
      var begun := ApplyGuest(s, GuestRun(room));
      if begun.guest.phase.Requesting? then
        Trades(Startups(begun, replies, room), Nth(replies, Boots(replies).asked), room)
      else Trades(begun, Nth(replies, 0), room)
  }

  // ----- What a call leaves of the guest -----

  /** The guest after a decoded reply. */
  function Appends(g: Guest, batch: Result<Batch, Error>, memory: bool): (t: Guest)
  {
    match batch
    case Err(e) => g.(phase := Failed(Malformed(e)))
    case Ok(b) =>
      match Appended(g.incoming, b)
      case Err(e) => g.(phase := Failed(IncomingRefused(e)))
      case Ok(incoming) =>
        if memory then g.(incoming := incoming, phase := Idle)
        else g.(phase := Failed(IncomingRefused(OutOfMemory)))
  }

  /** The guest after an exchange of batches. */
  function Exchanges(g: Guest, reply: Option<Exchange>, room: Memory): (t: Guest)
  {
    var drained := g.(outgoing := []);
    if !room.drain then g.(phase := Failed(OutgoingRefused(OutOfMemory)))
    else if !room.encode then drained.(phase := Failed(OutgoingRefused(OutOfMemory)))
    else if reply.None? then drained.(phase := AwaitingBatch)
    else if reply.value.None? then drained.(phase := Failed(Transport))
    else Appends(drained, Decoded(reply.value.value), room.append)
  }

  /** The guest after a call. */
  function Calls(g: Guest, replies: seq<Exchange>, room: Memory): (t: Guest)
  {
    if !g.phase.Idle? then g
    else if g.poll > 0 then Exchanges(g, Nth(replies, 0), room)
    else
      var startup := Boots(replies);
      if startup.Waiting? then g.(phase := AwaitingStartup)
      else if startup.Refused? then g.(phase := Failed(startup.why))
      else Exchanges(g.(poll := startup.poll), Nth(replies, startup.asked), room)
  }

  lemma {:induction false} StartupsAgree(s: State, replies: seq<Exchange>, room: Memory)
    requires s.guest.phase.Requesting? && s.guest.poll == 0
    ensures var t, r := Startups(s, replies, room).guest, Boots(replies);
      if r.Waiting? then t == s.guest.(phase := AwaitingStartup)
      else if r.Refused? then t == s.guest.(phase := Failed(r.why))
      else t == Prepare(s, r.poll, room).guest
    decreases |replies|
  {
    if replies == [] || replies[0].None? {
    } else {
      var asked := ApplyGuest(s, GuestRequest);
      var answered := Answer(asked, replies[0].value);
      var t := ApplyGuest(answered, GuestReceiveStartup(room));
      var decoded := DecodeStartup(replies[0].value);
      if decoded == Ok(0) {
        assert t.guest == s.guest;
        StartupsAgree(t, replies[1..], room);
      }
    }
  }

  lemma TradesAgree(s: State, t: State, poll: nat, reply: Option<Exchange>, room: Memory)
    requires Within(Data(s.guest.outgoing)) && t.guest == Prepare(s, poll, room).guest
    ensures Trades(t, reply, room).guest == Exchanges(s.guest.(poll := poll, phase := Idle), reply, room)
  {
    EncodedSize(Data(s.guest.outgoing));
  }

  /** A call of `run_next` is a run of the guest's steps in the protocol, from any
      state that has this guest in it. */
  lemma CallsAreRuns(s: State, replies: seq<Exchange>, room: Memory)
    requires Within(Data(s.guest.outgoing))
    ensures Call(s, replies, room).guest == Calls(s.guest, replies, room)
  {
    if s.guest.phase.Idle? {
      var begun := ApplyGuest(s, GuestRun(room));
      if s.guest.poll > 0 {
        TradesAgree(s, begun, s.guest.poll, Nth(replies, 0), room);
      } else {
        var startup := Boots(replies);
        StartupsAgree(begun, replies, room);
        if startup.Ready? {
          var ready := Startups(begun, replies, room);
          TradesAgree(begun, ready, startup.poll, Nth(replies, startup.asked), room);
        }
      }
    }
  }

  class Controller {
    const outgoing: OutgoingQueue
    const incoming: ReceivedQueue
    var poll: nat
    var failure: Option<Failure>
    /** The packets handed to the transport. */
    ghost var sent: seq<Message>

    ghost predicate Valid()
      reads this, outgoing, incoming
    {
      outgoing.Valid() && incoming.Valid()
    }

    constructor ()
      ensures Valid() && fresh(outgoing) && fresh(incoming)
      ensures poll == 0 && failure == None && sent == [] && outgoing.history == [] && incoming.Contents() == []
    {
      outgoing := new OutgoingQueue();
      incoming := new ReceivedQueue();
      poll, failure, sent := 0, None, [];
    }

    /** This guest as the protocol sees it. */
    ghost function View(phase: Phase): (g: Guest)
      requires Valid()
      reads this, outgoing, incoming
    {
      Guest(outgoing.entries, incoming.Contents(), poll, phase)
    }

    /** `submit`: refused once the controller has failed, or by the queue. */
    method Submit(data: Message, key: string, memory: bool) returns (r: Result<(), Refusal>)
      requires Valid()
      modifies outgoing
      ensures Valid()
      ensures failure.Some? ==> r == Err(AfterFailure(failure.value))
      ensures r.Ok? ==> outgoing.history == old(outgoing.history) + [Entry(data, key)]
      ensures r.Err? ==> unchanged(outgoing)
      ensures failure.None? && Submitted(old(outgoing.entries), Entry(data, key)).Err? ==> r == Err(Full(QueueLimit))
      ensures failure.None? && Submitted(old(outgoing.entries), Entry(data, key)).Ok? ==>
        r.Ok? || (!memory && r == Err(Full(OutOfMemory)))
    {
      if failure.Some? {
        return Err(AfterFailure(failure.value));
      }
      var submitted := outgoing.Submit(data, key, memory);
      return if submitted.Ok? then Ok(()) else Err(Full(submitted.error));
    }

    /** The startup loop. No submission leaves the queue here. */
    method Boot(replies: seq<Exchange>) returns (r: Startup)
      requires Valid() && poll == 0
      modifies this`poll, this`sent
      ensures Valid()
      ensures r == Boots(replies)
      ensures poll == if r.Ready? then r.poll else 0
      ensures sent == old(sent) + Repeat(StartupRequest(), r.asked)
    {
      var i := 0;
      while true
        invariant 0 <= i <= |replies| && poll == 0
        invariant Boots(replies) == Shifted(Boots(replies[i..]), i)
        invariant sent == old(sent) + Repeat(StartupRequest(), i)
        decreases |replies| - i
      {
        sent := sent + [StartupRequest()];
        assert Repeat(StartupRequest(), i + 1) == Repeat(StartupRequest(), i) + [StartupRequest()];
        if i == |replies| {
          return Waiting(i + 1);
        }
        var reply := replies[i];
        i := i + 1;
        if reply.None? {
          return Refused(Transport, i);
        }
        var decoded := DecodeStartup(reply.value);
        if decoded.Err? {
          return Refused(Malformed(decoded.error), i);
        }
        poll := decoded.value;
        assert replies[i - 1..][1..] == replies[i..];
        if poll > 0 {
          return Ready(poll, i);
        }
      }
    }

    /** What one exchange does with the submissions and the received messages so far. */
    ghost predicate Exchanged(
        history: seq<Entry>, queue: Batch, packets: seq<Message>, reply: Option<Exchange>, room: Memory, r: Outcome)
      requires Valid()
      reads this, outgoing, incoming
    {
      && (if room.drain then outgoing.history == [] else outgoing.history == history && r.Fails?)
      && sent == packets + (if room.drain && room.encode then [Encoded(Data(Coalesced(history)))] else [])
      && (r.Completed? ==> BatchIn(reply).Some? && incoming.Contents() == queue + BatchIn(reply).value)
      && (!r.Completed? ==> incoming.Contents() == queue)
      && (room == Memory(true, true, true) && Fits(queue, BatchIn(reply)) ==> r.Completed?)
    }

    /** The last part of an exchange: the reply's batch is appended, whole or not at all. */
    method Receive(batch: Batch, memory: bool) returns (r: Outcome)
      requires Valid()
      modifies incoming
      ensures Valid()
      ensures Appended(old(incoming.Contents()), batch).Err? ==>
        r == Fails(IncomingRefused(Appended(old(incoming.Contents()), batch).error))
      ensures Appended(old(incoming.Contents()), batch).Ok? ==>
        r == Completed || (!memory && r == Fails(IncomingRefused(OutOfMemory)))
      ensures r.Completed? ==> incoming.Contents() == old(incoming.Contents()) + batch
      ensures !r.Completed? ==> unchanged(incoming)
    {
      AppendedIff(incoming.Contents(), batch);
      var appended, left := incoming.Append(batch, memory);
      if appended.Err? {
        return Fails(IncomingRefused(appended.error));
      }
      return Completed;
    }

    /** One exchange of batches: drain, send, receive, append. */
    method ExchangeBatch(reply: Option<Exchange>, room: Memory) returns (r: Outcome)
      requires Valid() && poll > 0
      modifies this`sent, outgoing, incoming
      ensures Valid()
      ensures Exchanged(old(outgoing.history), old(incoming.Contents()), old(sent), reply, room, r)
      ensures exists append ::
        View(PhaseAfter(r, poll)) == Exchanges(old(View(Idle)), reply, room.(append := append))
    {
      ghost var g := View(Idle);
      ghost var append := true;
      var batch := outgoing.Drain(room.drain);
      if batch.Err? {
        r := Fails(OutgoingRefused(batch.error));
      } else if !room.encode {
        r := Fails(OutgoingRefused(OutOfMemory));
      } else {
        var packet := Encode(batch.value);
        sent := sent + [packet.value];
        if reply.None? {
          r := Blocked;
        } else if reply.value.None? {
          r := Fails(Transport);
        } else {
          var received := Decode(reply.value.value);
          if received.Err? {
            r := Fails(Malformed(received.error));
          } else {
            AppendedIff(incoming.Contents(), received.value);
            r := Receive(received.value, room.append);
            append := r != Fails(IncomingRefused(OutOfMemory));
          }
        }
      }
      assert View(PhaseAfter(r, poll)) == Exchanges(g, reply, room.(append := append));
    }

    /** `run_next`. A failed controller stays failed and does nothing. Startup, if
        it is still due, sends nothing but requests and leaves every submission in
        its queue; only after it the coalesced submissions go out, in one packet,
        and the reply is appended. A poll interval, once known, never changes. The
        last clause, with CallsAreRuns, makes the call a run of the protocol. */
    method RunNext(replies: seq<Exchange>, room: Memory) returns (r: Outcome)
      requires Valid()
      modifies this, outgoing, incoming
      ensures Valid()
      ensures old(failure).Some? ==>
        r == Fails(old(failure.value)) && unchanged(this) && unchanged(outgoing) && unchanged(incoming)
      ensures r.Fails? ==> failure == Some(r.why)
      ensures !r.Fails? ==> failure == None
      ensures old(poll) > 0 ==> poll == old(poll)
      ensures old(failure).None? && old(poll) == 0 && !Boots(replies).Ready? ==>
        && !r.Completed? && poll == 0 && unchanged(outgoing) && unchanged(incoming)
        && sent == old(sent) + Repeat(StartupRequest(), Boots(replies).asked)
      ensures old(failure).None? && (old(poll) > 0 || Boots(replies).Ready?) ==>
        var asked := if old(poll) > 0 then 0 else Boots(replies).asked;
        && (old(poll) == 0 ==> poll == Boots(replies).poll)
        && Exchanged(old(outgoing.history), old(incoming.Contents()), old(sent) + Repeat(StartupRequest(), asked),
                     Nth(replies, asked), room, r)
      ensures var g := old(View(if failure.Some? then Failed(failure.value) else Idle));
        exists append :: View(PhaseAfter(r, poll)) == Calls(g, replies, room.(append := append))
    {
      if failure.Some? {
        r := Fails(failure.value);
        assert View(PhaseAfter(r, poll)) == Calls(View(Failed(failure.value)), replies, room.(append := true));
        return;
      }
      ghost var g := View(Idle);
      var used := 0;
      if poll == 0 {
        var startup := Boot(replies);
        if startup.Refused? {
          failure := Some(startup.why);
          r := Fails(startup.why);
          assert View(PhaseAfter(r, poll)) == Calls(g, replies, room.(append := true));
          return;
        }
        if startup.Waiting? {
          r := Blocked;
          assert View(PhaseAfter(r, poll)) == Calls(g, replies, room.(append := true));
          return;
        }
        used := startup.asked;
      } else {
        assert sent == old(sent) + Repeat(StartupRequest(), 0);
      }
      r := ExchangeBatch(Nth(replies, used), room);
      if r.Fails? {
        failure := Some(r.why);
      }
    }
  }
}
