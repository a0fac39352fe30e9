/** The host end of the raw transport, system call by system call. */
module HostTransport {
  import opened Basics
  import opened Wire
  import opened Framing
  import opened Transport

  type Count = n: nat | n > 0 witness 1

  /** The outcome of one wait and one system call on a connection. */
  datatype Call =
    | Moved(atMost: Count)
    | Interrupted
    | Broken(error: Error)
    | Cancelled

  /** `Blocked`: the calls so far do not complete the operation. */
  datatype Outcome<+T> = Complete(value: T) | Fails(error: Error) | Blocked

  /** No system call fails and nothing is cancelled. */
  predicate Clean(calls: seq<Call>)
  {
    forall i :: 0 <= i < |calls| ==> calls[i].Moved? || calls[i].Interrupted?
  }

  /** The calls that can move bytes: each moves at least one if there is one to move. */
  function Moves(calls: seq<Call>): (n: nat)
  {
    if calls == [] then 0 else (if calls[0].Moved? then 1 else 0) + Moves(calls[1..])
  }

  /** `read_all`: reads from what the peer writes before it closes, in pieces of
      any size, until the buffer is full. */
  method ReadAll(stream: Message, need: nat, calls: seq<Call>)
    returns (r: Outcome<Message>, rest: seq<Call>)
    ensures r.Complete? ==> need <= |stream| && r.value == stream[..need]
    ensures Clean(calls) ==> Clean(rest) && (r.Fails? ==> r.error == Disconnected && |stream| < need)
    ensures r.Blocked? ==> rest == [] && Moves(calls) < need
    ensures r.Complete? ==> Moves(calls) <= Moves(rest) + need
    ensures r.Fails? && r.error != Disconnected ==> Broken(r.error) in calls
  {
    rest := calls;
    var data: Message := [];
    while |data| < need
      invariant |data| <= need && |data| <= |stream| && data == stream[..|data|]
      invariant Moves(calls) <= Moves(rest) + |data|
      invariant forall c :: c in rest ==> c in calls
      invariant Clean(calls) ==> Clean(rest)
      decreases |rest|
    {
      if rest == [] {
        return Blocked, rest;
      }
      var call := rest[0];
      rest := rest[1..];
      match call {
        case Cancelled => return Fails(Disconnected), rest;
        case Broken(e) => return Fails(e), rest;
        case Interrupted =>
        case Moved(atMost) =>
          var count := Min(atMost, Min(need - |data|, |stream| - |data|));
          if count == 0 {
            return Fails(Disconnected), rest;
          }
          data := data + stream[|data|..|data| + count];
      }
    }
    return Complete(data), rest;
  }

  /** The writing loop of `send_packet`: `written` is what the connection carries so far. */
  method WriteAll(data: Message, calls: seq<Call>)
    returns (r: Outcome<()>, written: Message, rest: seq<Call>)
    ensures written <= data
    ensures r.Complete? ==> written == data
    ensures Clean(calls) ==> Clean(rest) && !r.Fails?
    ensures r.Blocked? ==> Moves(calls) < |data|
    ensures r.Complete? ==> Moves(calls) <= Moves(rest) + |data|
  {
    rest := calls;
    written := [];
    while |written| < |data|
      invariant written <= data
      invariant Moves(calls) <= Moves(rest) + |written|
      invariant Clean(calls) ==> Clean(rest)
      decreases |rest|
    {
      if rest == [] {
        return Blocked, written, rest;
      }
      var call := rest[0];
      rest := rest[1..];
      match call {
        case Cancelled => return Fails(Disconnected), written, rest;
        case Broken(e) => return Fails(e), written, rest;
        case Interrupted =>
        case Moved(atMost) =>
          var count := Min(atMost, |data| - |written|);
          written := written + data[|written|..|written| + count];
      }
    }
    return Complete(()), written, rest;
  }

  /** `accept`: waits for a connection. */
  method Accept(calls: seq<Call>) returns (r: Outcome<()>, rest: seq<Call>)
    ensures Clean(calls) ==> Clean(rest) && !r.Fails?
    ensures r.Blocked? ==> Moves(calls) == 0
    ensures r.Complete? ==> Moves(calls) == Moves(rest) + 1
  {
    rest := calls;
    while rest != []
      invariant Moves(calls) == Moves(rest)
      invariant Clean(calls) ==> Clean(rest)
      decreases |rest|
    {
      var call := rest[0];
      rest := rest[1..];
      match call {
        case Cancelled => return Fails(Disconnected), rest;
        case Broken(e) => return Fails(e), rest;
        case Interrupted =>
        case Moved(_) => return Complete(()), rest;
      }
    }
    return Blocked, rest;
  }

  class Host {
    var failure: Option<Error>
    /** The connections that the simulator opens towards the host, in order. */
    var inbound: seq<Message>
    /** What the host has written on the connections it accepted from the simulator. */
    var outbound: seq<Message>

    constructor (conns: seq<Message>)
      ensures failure == None && inbound == conns && outbound == []
    {
      failure, inbound, outbound := None, conns, [];
    }

    /** `receive_packet`: the envelope must announce the expected size. */
    method ReceivePacket(size: nat, calls: seq<Call>) returns (r: Outcome<Message>, rest: seq<Call>)
      requires failure == None
      modifies this`failure, this`inbound
      ensures r.Fails? ==> failure == Some(r.error)
      ensures !r.Fails? ==> failure == None
      ensures r.Complete? ==>
        old(inbound) != [] && Unwrap(Up, old(inbound)[0], size) == Ok(r.value) && inbound == old(inbound)[1..]
      ensures Clean(calls) ==> Clean(rest)
      ensures Clean(calls) && r.Fails? ==> old(inbound) != [] && Unwrap(Up, old(inbound)[0], size) == Err(r.error)
      ensures r.Blocked? ==> old(inbound) == [] || Moves(calls) < 9 + size
      ensures r.Complete? ==> Moves(calls) <= Moves(rest) + 9 + size
    {
      var accepted;
      accepted, rest := Accept(calls);
      if accepted.Fails? {
        failure := Some(accepted.error);
        return Fails(accepted.error), rest;
      }
      if accepted.Blocked? || inbound == [] {
        return Blocked, rest;
      }
      var conn := inbound[0];
      inbound := inbound[1..];
      r, rest := ReadAll(conn, 8, rest);
      if r.Fails? {
        failure := Some(r.error);
      }
      if !r.Complete? {
        return;
      }
      if Value(Reversed(r.value)) != size {
        failure := Some(InvalidArgument);
        return Fails(InvalidArgument), rest;
      }
      r, rest := ReadAll(conn[8..], size, rest);
      assert 8 + size <= |conn| ==> conn[8..][..size] == conn[8..8 + size];
      if r.Fails? {
        failure := Some(r.error);
      }
    }

    /** `receive`. Whatever the pieces and the interruptions: what is returned is
        what the framing defines, a stored failure is returned for ever, without
        failing system calls only a malformed or cut stream is refused, and only a
        stream that lacks a connection, or too few calls, leaves it waiting. */
    method Receive(memory: bool, calls: seq<Call>) returns (r: Outcome<Message>)
      modifies this`failure, this`inbound
      ensures old(failure).Some? ==> r == Fails(old(failure.value)) && unchanged(this)
      ensures r.Fails? ==> failure == Some(r.error)
      ensures old(failure).None? && r.Complete? ==>
        failure == None && Transport.Receive(Up, old(inbound)) == Got(r.value, inbound)
      ensures old(failure).None? && r.Fails? && memory && Clean(calls) ==>
        Transport.Receive(Up, old(inbound)) == Refused(r.error)
      ensures r.Blocked? ==> Transport.Receive(Up, old(inbound)).Waiting? || Moves(calls) < 26 + MAX_MESSAGE_SIZE
    {
      if failure.Some? {
        return Fails(failure.value);
      }
      var rest;
      r, rest := ReceivePacket(8, calls);
      if !r.Complete? {
        return;
      }
      var size := DecodeHeader(r.value);
      if size > MAX_MESSAGE_SIZE {
        failure := Some(InvalidArgument);
        return Fails(InvalidArgument);
      }
      if !memory {
        failure := Some(IoError);
        return Fails(IoError);
      }
      if size == 0 {
        return Complete([]);
      }
      r, rest := ReceivePacket(size, rest);
    }

    /** `send_packet`. */
    method SendPacket(data: Message, calls: seq<Call>) returns (r: Outcome<()>, rest: seq<Call>)
      requires failure == None
      modifies this`failure, this`outbound
      ensures r.Fails? ==> failure == Some(r.error)
      ensures !r.Fails? ==> failure == None
      ensures r.Complete? ==> outbound == old(outbound) + [data]
      ensures outbound == old(outbound) || exists part :: part <= data && outbound == old(outbound) + [part]
      ensures Clean(calls) ==> Clean(rest) && !r.Fails?
      ensures r.Blocked? ==> Moves(calls) < 1 + |data|
      ensures r.Complete? ==> Moves(calls) <= Moves(rest) + 1 + |data|
    {
      r, rest := Accept(calls);
      if r.Fails? {
        failure := Some(r.error);
      }
      if !r.Complete? {
        return;
      }
      var written;
      r, written, rest := WriteAll(data, rest);
      outbound := outbound + [written];
      if r.Fails? {
        failure := Some(r.error);
      }
    }

    /** `send`. A message above the cap is refused without poisoning the transport. */
    method Send(data: Message, calls: seq<Call>) returns (r: Outcome<()>)
      modifies this`failure, this`outbound
      ensures old(failure).Some? ==> r == Fails(old(failure.value)) && unchanged(this)
      ensures old(failure).None? && |data| > MAX_MESSAGE_SIZE ==> r == Fails(InvalidArgument) && unchanged(this)
      ensures old(failure).None? && |data| <= MAX_MESSAGE_SIZE && r.Fails? ==> failure == Some(r.error)
      ensures old(failure).None? && r.Complete? ==>
        failure == None && outbound == old(outbound) + Connections(Down, data)
      ensures old(failure).None? && Clean(calls) && |data| <= MAX_MESSAGE_SIZE ==> !r.Fails?
      ensures r.Blocked? ==> Moves(calls) < 10 + |data|
      ensures exists part :: Cut(part, Connections(Down, data)) && outbound == old(outbound) + part
    {
      ghost var conns := Connections(Down, data);
      assert Cut([], conns) && outbound == outbound + [];
      if failure.Some? {
        return Fails(failure.value);
      }
      if |data| > MAX_MESSAGE_SIZE {
        return Fails(InvalidArgument);
      }
      var header := EncodeHeader(|data|);
      var rest;
      ghost var before := outbound;
      r, rest := SendPacket(header[..], calls);
      assert conns[0] == header[..];
      if !r.Complete? {
        if outbound != before {
          ghost var part :| part <= header[..] && outbound == before + [part];
          assert Cut([part], conns);
        }
        return;
      }
      assert Cut([conns[0]], conns) && outbound == before + [conns[0]];
      if data != [] {
        ghost var middle := outbound;
        r, rest := SendPacket(data, rest);
        if outbound != middle {
          ghost var part :| part <= data && outbound == middle + [part];
          assert [conns[0], part][1..] == [part] && conns[1..] == [data];
          assert Cut([conns[0], part], conns);
          assert outbound == before + [conns[0], part];
        }
        if r.Complete? {
          assert outbound == before + ([conns[0]] + [data]);
        }
      }
    }
  }
}
