/** The guest end of the raw transport: each m5 operation moves exactly the bytes
    it is asked for over a connection of its own, or does not return. */
module GuestTransport {
  import opened Basics
  import opened Wire
  import opened Framing
  import opened Transport
  import opened HostTransport

  datatype Ops = Address | Instruction

  class Guest {
    const ops: Ops
    var failure: Option<Error>
    /** The connections that the simulator opened for this guest's sends. */
    var outbound: seq<Message>
    /** What the host writes on the connections of this guest's receives. */
    var inbound: seq<Message>

    constructor (ops: Ops, conns: seq<Message>)
      ensures this.ops == ops && failure == None && outbound == [] && inbound == conns
    {
      this.ops := ops;
      failure, outbound, inbound := None, [], conns;
    }

    /** `send`. `returned` is what the operations report: any other size than the
        one asked for is a permanent failure, although the bytes have left. */
    method Send(data: Message, mapped: bool, returned: (nat, nat)) returns (r: Outcome<()>)
      modifies this`failure, this`outbound
      ensures old(failure).Some? ==> r == Fails(old(failure.value)) && unchanged(this)
      ensures old(failure).None? && (|data| > MAX_MESSAGE_SIZE || (ops.Address? && !mapped)) ==>
        r == Fails(InvalidArgument) && unchanged(this)
      ensures old(failure).None? && r.Complete? ==>
        failure == None && outbound == old(outbound) + Connections(Up, data)
      ensures old(failure).None? && |data| <= MAX_MESSAGE_SIZE && (ops.Instruction? || mapped) ==>
        (r.Complete? <==> returned.0 == 8 && (data == [] || returned.1 == |data|))
      ensures old(failure).None? && |data| <= MAX_MESSAGE_SIZE && (ops.Instruction? || mapped) && r.Fails? ==>
        && r.error == IoError && failure == Some(r.error)
        && outbound == old(outbound) + (if returned.0 != 8 then [Connections(Up, data)[0]] else Connections(Up, data))
    {
      if failure.Some? {
        return Fails(failure.value);
      }
      if |data| > MAX_MESSAGE_SIZE || (ops.Address? && !mapped) {
        return Fails(InvalidArgument);
      }
      var header := EncodeHeader(|data|);
      outbound := outbound + [Wrap(Up, header[..])];
      if returned.0 != header.Length {
        failure := Some(IoError);
        return Fails(IoError);
      }
      if data != [] {
        outbound := outbound + [Wrap(Up, data)];
        if returned.1 != |data| {
          failure := Some(IoError);
          return Fails(IoError);
        }
        assert outbound == old(outbound) + Connections(Up, data);
      }
      return Complete(());
    }

    /** One receive operation: it waits for the host, and panics the simulator
        rather than return a short read. */
    method Operation(size: nat, returned: nat) returns (r: Outcome<Message>)
      requires failure == None
      modifies this`inbound
      ensures r.Complete? ==>
        old(inbound) != [] && Unwrap(Down, old(inbound)[0], size) == Ok(r.value) && inbound == old(inbound)[1..]
      ensures r.Fails? ==> returned != size && r.error == IoError
      ensures r.Fails? ==> old(inbound) != [] && Unwrap(Down, old(inbound)[0], size).Ok?
      ensures r.Blocked? ==> inbound == old(inbound) && (inbound == [] || Unwrap(Down, inbound[0], size).Err?)
    {
      if inbound == [] || |inbound[0]| < size {
        return Blocked;
      }
      var data := inbound[0][..size];
      inbound := inbound[1..];
      if returned != size {
        return Fails(IoError);
      }
      return Complete(data);
    }

    /** `receive`. */
    method Receive(mapped: bool, memory: bool, returned: (nat, nat)) returns (r: Outcome<Message>)
      modifies this`failure, this`inbound
      ensures old(failure).Some? ==> r == Fails(old(failure.value)) && unchanged(this)
      ensures old(failure).None? && ops.Address? && !mapped ==> r == Fails(InvalidArgument) && unchanged(this)
      ensures old(failure).None? && r.Complete? ==>
        failure == None && Transport.Receive(Down, old(inbound)) == Got(r.value, inbound)
      ensures old(failure).None? && (ops.Instruction? || mapped) && r.Fails? ==> failure == Some(r.error)
      ensures old(failure).None? && (ops.Instruction? || mapped) && r == Fails(InvalidArgument) ==>
        Transport.Receive(Down, old(inbound)) == Refused(InvalidArgument)
      ensures r.Blocked? ==> !Transport.Receive(Down, old(inbound)).Got?
      ensures old(failure).None? && (ops.Instruction? || mapped) && r == Fails(IoError) ==>
        || !memory || returned.0 != 8
        || (match Transport.Receive(Down, old(inbound)) case Got(m, _) => returned.1 != |m| case _ => false)
    {
      if failure.Some? {
        return Fails(failure.value);
      }
      if ops.Address? && !mapped {
        return Fails(InvalidArgument);
      }
      r := Operation(8, returned.0);
      if r.Fails? {
        failure := Some(r.error);
      }
      if !r.Complete? {
        return;
      }
      var size := DecodeHeader(r.value);
      if size > MAX_MESSAGE_SIZE {
        failure := Some(InvalidArgument);
        return Fails(InvalidArgument);
      }
      if !memory {
        failure := Some(IoError);
        return Fails(IoError);
      }
      if size == 0 {
        return Complete([]);
      }
      r := Operation(size, returned.1);
      if r.Fails? {
        failure := Some(r.error);
      }
    }
  }
}
