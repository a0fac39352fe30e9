/** The raw transport: one message is a header and, if it is not empty, a payload,
    each on a connection of its own. Guest-to-host connections carry an envelope
    with the length of the operation; host-to-guest connections carry the bytes
    alone. System calls may move fewer bytes than asked for, be interrupted, or fail. */
module Transport {
  import opened Basics
  import opened Wire
  import opened Framing

  datatype Error = InvalidArgument | Disconnected | IoError

  datatype Direction = Up | Down

  // ----- What is on the wire -----

  function Wrap(dir: Direction, packet: Message): (conn: Message)
  {
    if dir.Up? then LittleEndian(|packet|, WORD) + packet else packet
  }

  /** What a receiver that expects `size` bytes makes of a connection. */
  function Unwrap(dir: Direction, conn: Message, size: nat): (r: Result<Message, Error>)
  {
    if dir.Down? then
      if |conn| < size then Err(Disconnected) else Ok(conn[..size])
    else if |conn| < 8 then Err(Disconnected)
    else if Value(Reversed(conn[..8])) != size then Err(InvalidArgument)
    else if |conn| < 8 + size then Err(Disconnected)
    else Ok(conn[8..8 + size])
  }

  /** The connections of one message. */
  function Connections(dir: Direction, m: Message): (c: seq<Message>)
  {
    [Wrap(dir, BigEndian(|m|, WORD))] + (if m == [] then [] else [Wrap(dir, m)])
  }

  function Stream(dir: Direction, ms: seq<Message>): (c: seq<Message>)
  {
    if ms == [] then [] else Connections(dir, ms[0]) + Stream(dir, ms[1..])
  }

  /** One receive: a message and the connections left, a refusal, or a wait for more. */
  datatype Received = Got(m: Message, left: seq<Message>) | Refused(error: Error) | Waiting

  function Receive(dir: Direction, conns: seq<Message>): (r: Received)
  {
    if conns == [] then Waiting
    else
      match Unwrap(dir, conns[0], 8)
      case Err(e) => Refused(e)
      case Ok(header) =>
        var size := Value(header);
        if size > MAX_MESSAGE_SIZE then Refused(InvalidArgument)
        else if size == 0 then Got([], conns[1..])
        else if |conns| < 2 then Waiting
        else
          match Unwrap(dir, conns[1], size)
          case Err(e) => Refused(e)
          case Ok(m) => Got(m, conns[2..])
  }

  /** The messages that repeated receives deliver. */
  function ReceiveAll(dir: Direction, conns: seq<Message>): (ms: seq<Message>)
    decreases |conns|
  {
    match Receive(dir, conns)
    case Got(m, left) => [m] + ReceiveAll(dir, left)
    case _ => []
  }

  lemma UnwrapOfWrap(dir: Direction, packet: Message)
    requires |packet| < U64_LIMIT
    ensures Unwrap(dir, Wrap(dir, packet), |packet|) == Ok(packet)
  {
    var conn := Wrap(dir, packet);
    if dir.Up? {
      ValueOfU64(|packet|);
      assert conn[..8] == LittleEndian(|packet|, WORD);
      assert conn[8..8 + |packet|] == packet;
    } else {
      assert conn[..|packet|] == packet;
    }
  }

  /** A message survives the framing, and its receiver uses exactly its connections. */
  lemma ReceiveOfConnections(dir: Direction, m: Message, rest: seq<Message>)
    requires |m| <= MAX_MESSAGE_SIZE
    ensures Receive(dir, Connections(dir, m) + rest) == Got(m, rest)
  {
    var conns := Connections(dir, m) + rest;
    UnwrapOfWrap(dir, BigEndian(|m|, WORD));
    ValueOfU64(|m|);
    if m == [] {
      assert conns[1..] == rest;
    } else {
      UnwrapOfWrap(dir, m);
      assert conns[1] == Wrap(dir, m) && conns[2..] == rest;
    }
  }

  lemma ReceiveAllCons(dir: Direction, conns: seq<Message>, m: Message, left: seq<Message>)
    requires Receive(dir, conns) == Got(m, left)
    ensures ReceiveAll(dir, conns) == [m] + ReceiveAll(dir, left)
  {
  }

  /** Any sequence of messages up to the cap is received as it was sent. */
  lemma {:induction false} ReceiveAllOfStream(dir: Direction, ms: seq<Message>)
    requires forall i :: 0 <= i < |ms| ==> |ms[i]| <= MAX_MESSAGE_SIZE
    ensures ReceiveAll(dir, Stream(dir, ms)) == ms
  {
    if ms == [] {
    } else {
      var conns, rest := Connections(dir, ms[0]) + Stream(dir, ms[1..]), Stream(dir, ms[1..]);
      assert Stream(dir, ms) == conns;
      ReceiveOfConnections(dir, ms[0], rest);
      ReceiveAllCons(dir, conns, ms[0], rest);
      ReceiveAllOfStream(dir, ms[1..]);
      HeadAndTail(ms);
    }
  }

  /** What a receiver sees of a sender that stopped anywhere: some of its
      connections, the last of them perhaps cut short. */
  predicate Cut(conns: seq<Message>, full: seq<Message>)
    decreases |conns|
  {
    || conns == []
    || (full != [] && |conns| == 1 && conns[0] <= full[0])
    || (full != [] && conns[0] == full[0] && Cut(conns[1..], full[1..]))
  }

  lemma UnwrapOfPrefix(dir: Direction, conn: Message, packet: Message)
    requires |packet| < U64_LIMIT && conn <= Wrap(dir, packet)
    ensures Unwrap(dir, conn, |packet|) == if conn == Wrap(dir, packet) then Ok(packet) else Err(Disconnected)
  {
    UnwrapOfWrap(dir, packet);
    if dir.Up? && |conn| >= 8 {
      ValueOfU64(|packet|);
      assert conn[..8] == Wrap(dir, packet)[..8] == LittleEndian(|packet|, WORD);
    }
  }

  lemma CutStep(conns: seq<Message>, own: seq<Message>, later: seq<Message>)
    requires conns != [] && own != [] && Cut(conns, own + later) && conns[0] == own[0]
    ensures Cut(conns[1..], own[1..] + later)
  {
    Heads(own, later);
  }

  lemma CutTail(own: seq<Message>, rest: seq<Message>, later: seq<Message>)
    requires |own| <= 1 && Cut(own + rest, own + later)
    ensures Cut(rest, later)
  {
    if own == [] {
      assert own + rest == rest && own + later == later;
    } else {
      assert (own + rest)[1..] == rest && (own + later)[1..] == later;
    }
  }

  /** A cut after the connections of one message is a cut of what follows them. */
  lemma CutRest(own: seq<Message>, rest: seq<Message>, later: seq<Message>)
    requires 1 <= |own| <= 2 && Cut((own + rest)[1..], own[1..] + later)
    ensures Cut(rest, later)
  {
    Heads(own, rest);
    CutTail(own[1..], rest, later);
  }

  lemma CutInPayload(dir: Direction, m: Message, later: seq<Message>, conns: seq<Message>)
    requires |m| <= MAX_MESSAGE_SIZE && conns != [] && conns[0] == Wrap(dir, BigEndian(|m|, WORD))
    requires Cut(conns[1..], Connections(dir, m)[1..] + later)
    requires !(Connections(dir, m) <= conns)
    ensures !Receive(dir, conns).Got?
  {
    UnwrapOfWrap(dir, BigEndian(|m|, WORD));
    ValueOfU64(|m|);
    if |conns| >= 2 {
      UnwrapOfPrefix(dir, conns[1], m);
    }
  }

  /** A header that is cut short is refused. */
  lemma CutInHeader(dir: Direction, m: Message, conns: seq<Message>)
    requires |m| <= MAX_MESSAGE_SIZE && conns != []
    requires conns[0] <= Wrap(dir, BigEndian(|m|, WORD)) && conns[0] != Wrap(dir, BigEndian(|m|, WORD))
    ensures !Receive(dir, conns).Got?
  {
    UnwrapOfPrefix(dir, conns[0], BigEndian(|m|, WORD));
  }

  lemma NothingReceived(dir: Direction, conns: seq<Message>)
    requires !Receive(dir, conns).Got?
    ensures ReceiveAll(dir, conns) == []
  {
  }

  /** A cut stream begins with all connections of its first message, or yields nothing. */
  lemma CutFirst(dir: Direction, m: Message, later: seq<Message>, conns: seq<Message>)
    returns (rest: Option<seq<Message>>)
    requires |m| <= MAX_MESSAGE_SIZE && conns != [] && Cut(conns, Connections(dir, m) + later)
    ensures rest.Some? ==> conns == Connections(dir, m) + rest.value && Cut(rest.value, later)
    ensures rest.None? ==> !Receive(dir, conns).Got?
  {
    var own := Connections(dir, m);
    Heads(own, later);
    rest := None;
    if conns[0] != own[0] {
      CutInHeader(dir, m, conns);
    } else {
      CutStep(conns, own, later);
      if own <= conns {
        rest := Some(conns[|own|..]);
        assert conns == own + rest.value;
        CutRest(own, rest.value, later);
      } else {
        CutInPayload(dir, m, later, conns);
      }
    }
  }

  /** No partial message is ever delivered: from a sender cut off at any byte the
      receiver gets a prefix of the messages, each of them whole. */
  lemma {:induction false} CutDeliversPrefix(dir: Direction, ms: seq<Message>, conns: seq<Message>)
    requires forall i :: 0 <= i < |ms| ==> |ms[i]| <= MAX_MESSAGE_SIZE
    requires Cut(conns, Stream(dir, ms))
    ensures ReceiveAll(dir, conns) <= ms
    decreases |ms|
  {
    if conns == [] || ms == [] {
      NothingReceived(dir, conns);
    } else {
      var rest := CutFirst(dir, ms[0], Stream(dir, ms[1..]), conns);
      if rest.None? {
        NothingReceived(dir, conns);
      } else {
        CutDeliversPrefix(dir, ms[1..], rest.value);
        ReceiveOfConnections(dir, ms[0], rest.value);
        ReceiveAllCons(dir, conns, ms[0], rest.value);
        PrefixCons(ms[0], ReceiveAll(dir, rest.value), ms);
      }
    }
  }

  lemma EnvelopeDecides(packet: Message, size: nat)
    requires |packet| < U64_LIMIT && Unwrap(Up, Wrap(Up, packet), size).Ok?
    ensures |packet| == size && Unwrap(Up, Wrap(Up, packet), size).value == packet
  {
    UnwrapOfWrap(Up, packet);
  }

  /** The other way round, for connections that carry gem5's envelopes: what is
      received used exactly its own connections, so both ends agree on their
      number and on the size of each. */
  lemma ConnectionsOfReceive(packets: seq<Message>)
    requires forall i :: 0 <= i < |packets| ==> |packets[i]| < U64_LIMIT
    ensures var conns := seq(|packets|, i requires 0 <= i < |packets| => Wrap(Up, packets[i]));
      var r := Receive(Up, conns);
      r.Got? ==> |r.m| <= MAX_MESSAGE_SIZE && conns == Connections(Up, r.m) + r.left
  {
    var conns := seq(|packets|, i requires 0 <= i < |packets| => Wrap(Up, packets[i]));
    var r := Receive(Up, conns);
    if r.Got? {
      EnvelopeDecides(packets[0], 8);
      U64OfValue(packets[0]);
      if Value(packets[0]) > 0 {
        EnvelopeDecides(packets[1], Value(packets[0]));
      }
    }
  }
}
