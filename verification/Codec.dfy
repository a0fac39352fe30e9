/** The controller packets: batches of messages, and the startup exchange that
    comes before the first batch. */
module Codec {
  import opened Basics
  import opened Wire

  type Batch = seq<Message>

  const MAX_MESSAGES: nat := 1024
  const MAX_BYTES: nat := 32 * 1024 * 1024
  const STARTUP_MAGIC: nat := 0x4348_494d_4354_5232
  const HOUR: nat := 3_600_000_000_000
  const MAX_POLLS: nat := 100_000

  datatype Error =
    | QueueBytes | QueueCount | QueueLimit | OutOfMemory
    | TruncatedPacket | TruncatedMessage | InvalidCount | BatchBytes | TrailingData
    | ProtocolMismatch | InvalidStartup

  // ----- Limits -----

  function Total(b: Batch): (n: nat)
  {
    if b == [] then 0 else |b[0]| + Total(b[1..])
  }

  predicate Within(b: Batch)
  {
    |b| <= MAX_MESSAGES && Total(b) <= MAX_BYTES
  }

  lemma {:induction false} TotalConcat(a: Batch, b: Batch)
    ensures Total(a + b) == Total(a) + Total(b)
  {
    if a == [] {
      assert a + b == b;
    } else {
      TotalConcat(a[1..], b);
      assert (a + b)[1..] == a[1..] + b;
    }
  }

  lemma TotalSnoc(b: Batch, m: Message)
    ensures Total(b + [m]) == Total(b) + |m|
  {
    TotalConcat(b, [m]);
    assert Total([m]) == |m| + Total([m][1..]);
  }

  /** `bytes`: the payload size, or the limit that is exceeded. The byte limit
      is reported first; the budget subtraction never goes below zero. */
  method PayloadBytes(batch: Batch) returns (r: Result<nat, Error>)
    ensures r.Ok? <==> Within(batch)
    ensures r.Ok? ==> r.value == Total(batch)
    ensures r == Err(QueueBytes) <==> Total(batch) > MAX_BYTES
    ensures r.Ok? || r == Err(QueueBytes) || r == Err(QueueCount)
  {
    var count: nat := 0;
    for i := 0 to |batch|
      invariant count == Total(batch[..i]) <= MAX_BYTES
    {
      assert batch[..i + 1] == batch[..i] + [batch[i]];
      TotalSnoc(batch[..i], batch[i]);
      var budget: nat := MAX_BYTES - count;
      if |batch[i]| > budget {
        TotalConcat(batch[..i + 1], batch[i + 1..]);
        assert batch == batch[..i + 1] + batch[i + 1..];
        return Err(QueueBytes);
      }
      count := count + |batch[i]|;
    }
    assert batch[..|batch|] == batch;
    if |batch| > MAX_MESSAGES {
      return Err(QueueCount);
    }
    return Ok(count);
  }

  // ----- Batches -----

  function Body(b: Batch): (d: Message)
  {
    if b == [] then [] else BigEndian(|b[0]|, WORD) + b[0] + Body(b[1..])
  }

  /** The wire form of a batch: the count, then each message after its length. */
  function Encoded(b: Batch): (d: Message)
  {
    BigEndian(|b|, WORD) + Body(b)
  }

  lemma BodyCons(m: Message, tail: Batch)
    ensures Body([m] + tail) == BigEndian(|m|, WORD) + m + Body(tail)
  {
    assert ([m] + tail)[1..] == tail;
  }

  lemma {:induction false} BodySnoc(b: Batch, m: Message)
    ensures Body(b + [m]) == Body(b) + BigEndian(|m|, WORD) + m
  {
    if b == [] {
      assert b + [m] == [m] && [m][1..] == [];
      assert Body([m]) == BigEndian(|m|, WORD) + m + Body([]);
    } else {
      assert (b + [m])[0] == b[0] && (b + [m])[1..] == b[1..] + [m];
      BodySnoc(b[1..], m);
      Associate(BigEndian(|b[0]|, WORD) + b[0], Body(b[1..]), BigEndian(|m|, WORD), m);
    }
  }

  lemma {:induction false} BodySize(b: Batch)
    ensures |Body(b)| == 8 * |b| + Total(b)
  {
    if b == [] {
    } else {
      BodySize(b[1..]);
    }
  }

  /** A packet carries its count, one length a message and the payload, nothing else. */
  lemma {:induction false} EncodedSize(b: Batch)
    ensures |Encoded(b)| == 8 + 8 * |b| + Total(b)
  {
    BodySize(b);
  }

  lemma MemberSize(b: Batch, i: nat)
    requires i < |b|
    ensures |b[i]| <= Total(b)
  {
    assert b == b[..i] + b[i..];
    TotalConcat(b[..i], b[i..]);
  }

  lemma EncodeStep(count: Message, b: Batch, i: nat)
    requires i < |b|
    ensures count + Body(b[..i + 1]) == count + Body(b[..i]) + BigEndian(|b[i]|, WORD) + b[i]
  {
    SplitAt(b, i);
    BodySnoc(b[..i], b[i]);
    Associate(count, Body(b[..i]), BigEndian(|b[i]|, WORD), b[i]);
  }

  /** `encode`: fails exactly when the batch is over a limit, and then with the
      error of `bytes`. */
  method Encode(batch: Batch) returns (r: Result<Message, Error>)
    ensures r.Ok? <==> Within(batch)
    ensures r.Ok? ==> r.value == Encoded(batch)
    ensures r == Err(QueueBytes) <==> Total(batch) > MAX_BYTES
  {
    var size := PayloadBytes(batch);
    if size.Err? {
      return Err(size.error);
    }
    var data := Put([], |batch|);
    for i := 0 to |batch|
      invariant data == BigEndian(|batch|, WORD) + Body(batch[..i])
    {
      MemberSize(batch, i);
      EncodeStep(BigEndian(|batch|, WORD), batch, i);
      data := Put(data, |batch[i]|);
      data := data + batch[i];
    }
    assert batch[..|batch|] == batch;
    return Ok(data);
  }

  /** A decoded batch, or its error, with messages put before it. */
  function Prepend(batch: Batch, r: Result<Batch, Error>): (p: Result<Batch, Error>)
  {
    match r
    case Ok(tail) => Ok(batch + tail)
    case Err(e) => Err(e)
  }

  /** The first message of a body whose length announces no more than there is. */
  function Head(data: Message): (m: Message)
    requires |data| >= 8 && Value(data[..8]) <= |data| - 8
    ensures |m| == Value(data[..8])
  {
    data[8..8 + Value(data[..8])]
  }

  function Rest(data: Message): (r: Message)
    requires |data| >= 8 && Value(data[..8]) <= |data| - 8
  {
    data[8 + Value(data[..8])..]
  }

  /** What the decoder does with `n` more messages when `used` payload bytes
      have been accepted. */
  function ParseBody(data: Message, n: nat, used: nat): (r: Result<Batch, Error>)
    requires used <= MAX_BYTES
    decreases n
  {
    if n == 0 then if data == [] then Ok([]) else Err(TrailingData)
    else if |data| < 8 then Err(TruncatedPacket)
    else if Value(data[..8]) > |data| - 8 then Err(TruncatedMessage)
    else if Value(data[..8]) > MAX_BYTES - used then Err(BatchBytes)
    else Prepend([Head(data)], ParseBody(Rest(data), n - 1, used + |Head(data)|))
  }

  function Decoded(data: Message): (r: Result<Batch, Error>)
  {
    if |data| < 8 then Err(TruncatedPacket)
    else if Value(data[..8]) > MAX_MESSAGES then Err(InvalidCount)
    else ParseBody(data[8..], Value(data[..8]), 0)
  }

  lemma PrependTwice(a: Batch, m: Message, r: Result<Batch, Error>)
    ensures Prepend(a, Prepend([m], r)) == Prepend(a + [m], r)
    ensures Prepend([], r) == r
    ensures Prepend(a, Ok([])) == Ok(a)
  {
    if r.Ok? {
      assert a + ([m] + r.value) == a + [m] + r.value;
      assert [] + r.value == r.value;
    }
    assert a + [] == a;
  }

  lemma SpanSplits(data: Message, rest: Message)
    requires |data| >= 8 && Value(data[..8]) <= |data| - 8 && rest == data[8..]
    ensures Head(data) == rest[..Value(data[..8])] && Rest(data) == rest[Value(data[..8])..]
  {
  }

  /** The loop of `decode`, one message a turn. */
  method DecodeMessages(body: Message, count: nat) returns (r: Result<Batch, Error>)
    ensures r == ParseBody(body, count, 0)
  {
    var data, batch, payload: nat := body, [], 0;
    PrependTwice([], [], ParseBody(body, count, 0));
    for i := 0 to count
      invariant payload <= MAX_BYTES
      invariant ParseBody(body, count, 0) == Prepend(batch, ParseBody(data, count - i, payload))
    {
      var size := Get(data);
      if size.Err? {
        return Err(TruncatedPacket);
      }
      var n, rest := size.value.value, size.value.rest;
      if n > |rest| {
        return Err(TruncatedMessage);
      }
      var budget: nat := MAX_BYTES - payload;
      if n > budget {
        return Err(BatchBytes);
      }
      SpanSplits(data, rest);
      PrependTwice(batch, rest[..n], ParseBody(rest[n..], count - i - 1, payload + n));
      payload := payload + n;
      batch := batch + [rest[..n]];
      data := rest[n..];
    }
    PrependTwice(batch, [], Ok([]));
    if data != [] {
      return Err(TrailingData);
    }
    return Ok(batch);
  }

  /** `decode`, with its cursor and its running payload budget. */
  method Decode(packet: Message) returns (r: Result<Batch, Error>)
    ensures r == Decoded(packet)
  {
    var header := Get(packet);
    if header.Err? {
      return Err(TruncatedPacket);
    }
    var count := header.value.value;
    if count > MAX_MESSAGES {
      return Err(InvalidCount);
    }
    r := DecodeMessages(header.value.rest, count);
  }

  lemma HeadAndRest(m: Message, tail: Message)
    requires |m| < U64_LIMIT
    ensures var data := BigEndian(|m|, WORD) + m + tail;
      |data| >= 8 && Value(data[..8]) == |m| <= |data| - 8 && Head(data) == m && Rest(data) == tail
  {
    var data := BigEndian(|m|, WORD) + m + tail;
    Slices(BigEndian(|m|, WORD), m, tail);
    ValueOfU64(|m|);
    SpanSplits(data, m + tail);
  }

  lemma ParseCons(data: Message, n: nat, used: nat, tail: Batch)
    requires n > 0 && |data| >= 8 && Value(data[..8]) <= |data| - 8 && used + |Head(data)| <= MAX_BYTES
    requires ParseBody(Rest(data), n - 1, used + |Head(data)|) == Ok(tail)
    ensures ParseBody(data, n, used) == Ok([Head(data)] + tail)
  {
  }

  lemma ParseFirst(m: Message, tail: Batch, used: nat)
    requires used + |m| <= MAX_BYTES && ParseBody(Body(tail), |tail|, used + |m|) == Ok(tail)
    ensures ParseBody(Body([m] + tail), |tail| + 1, used) == Ok([m] + tail)
  {
    var data := BigEndian(|m|, WORD) + m + Body(tail);
    BodyCons(m, tail);
    HeadAndRest(m, Body(tail));
    ParseCons(data, |tail| + 1, used, tail);
  }

  lemma {:induction false} ParseBodyOfBody(b: Batch, used: nat)
    requires used + Total(b) <= MAX_BYTES
    ensures ParseBody(Body(b), |b|, used) == Ok(b)
  {
    if b == [] {
    } else {
      ParseBodyOfBody(b[1..], used + |b[0]|);
      ParseFirst(b[0], b[1..], used);
      assert b == [b[0]] + b[1..];
    }
  }

  lemma Reassemble(data: Message, tail: Batch)
    requires |data| >= 8 && Value(data[..8]) <= |data| - 8 && Body(tail) == Rest(data)
    ensures Body([Head(data)] + tail) == data
    ensures Total([Head(data)] + tail) == |Head(data)| + Total(tail)
  {
    var m := Head(data);
    assert ([m] + tail)[1..] == tail;
    BodyCons(m, tail);
    U64OfValue(data[..8]);
    Joined(data, 8, 8 + |m|);
  }

  lemma {:induction false} BodyOfParseBody(data: Message, n: nat, used: nat)
    requires used <= MAX_BYTES
    ensures var r := ParseBody(data, n, used);
      r.Ok? ==> |r.value| == n && used + Total(r.value) <= MAX_BYTES && Body(r.value) == data
    decreases n
  {
    if n == 0 || ParseBody(data, n, used).Err? {
    } else {
      BodyOfParseBody(Rest(data), n - 1, used + |Head(data)|);
      Reassemble(data, ParseBody(Rest(data), n - 1, used + |Head(data)|).value);
    }
  }

  /** Decoding a packet that was encoded gives back the batch, for every batch within the limits. */
  lemma DecodeOfEncode(b: Batch)
    requires Within(b)
    ensures Decoded(Encoded(b)) == Ok(b)
  {
    var d := Encoded(b);
    ValueOfU64(|b|);
    assert d[..8] == BigEndian(|b|, WORD) && d[8..] == Body(b);
    ParseBodyOfBody(b, 0);
  }

  /** Every accepted packet is the encoding of what it decodes to, and that is
      within the limits: with DecodeOfEncode, a bijection onto the accepted packets. */
  lemma EncodeOfDecode(d: Message)
    requires Decoded(d).Ok?
    ensures Within(Decoded(d).value)
    ensures Encoded(Decoded(d).value) == d
  {
    BodyOfParseBody(d[8..], Value(d[..8]), 0);
    U64OfValue(d[..8]);
    assert d == d[..8] + d[8..];
  }

  /** The accepted packets are exactly the encodings of batches within the limits. */
  lemma AcceptedIff(d: Message)
    ensures Decoded(d).Ok? <==> exists b :: Within(b) && Encoded(b) == d
  {
    if Decoded(d).Ok? {
      EncodeOfDecode(d);
    }
    forall b | Within(b) && Encoded(b) == d
      ensures Decoded(d).Ok?
    {
      DecodeOfEncode(b);
    }
  }

  // ----- Startup -----

  function StartupRequest(): (d: Message)
  {
    BigEndian(STARTUP_MAGIC, WORD)
  }

  /** A signed 64-bit count stored as unsigned. */
  function AsU64(n: int): (r: nat)
    requires -U64_LIMIT / 2 <= n < U64_LIMIT / 2
  {
    if n < 0 then n + U64_LIMIT else n
  }

  predicate IsDuration(n: int)
  {
    -U64_LIMIT / 2 <= n < U64_LIMIT / 2
  }

  function EncodeStartup(poll: int): (d: Message)
    requires IsDuration(poll)
  {
    StartupRequest() + BigEndian(AsU64(poll), WORD)
  }

  function DecodeStartup(d: Message): (r: Result<nat, Error>)
  {
    if |d| < 8 then Err(TruncatedPacket)
    else if Value(d[..8]) != STARTUP_MAGIC then Err(ProtocolMismatch)
    else if |d| < 16 then Err(TruncatedPacket)
    else if |d| != 16 || Value(d[8..16]) > HOUR then Err(InvalidStartup)
    else Ok(Value(d[8..16]))
  }

  /** A duration survives the startup exchange if and only if it lies between
      zero and one hour; every other signed count is refused by the guest. */
  lemma StartupRoundTrip(poll: int)
    requires IsDuration(poll)
    ensures DecodeStartup(EncodeStartup(poll)) == if 0 <= poll <= HOUR then Ok(poll) else Err(InvalidStartup)
  {
    var d := EncodeStartup(poll);
    ValueOfU64(STARTUP_MAGIC);
    ValueOfU64(AsU64(poll));
    assert d[..8] == BigEndian(STARTUP_MAGIC, WORD);
    assert d[8..16] == BigEndian(AsU64(poll), WORD);
  }

  /** Every accepted startup reply is the encoding of the duration it carries. */
  lemma EncodeOfDecodeStartup(d: Message)
    requires DecodeStartup(d).Ok?
    ensures DecodeStartup(d).value <= HOUR
    ensures EncodeStartup(DecodeStartup(d).value) == d
  {
    U64OfValue(d[..8]);
    U64OfValue(d[8..16]);
    assert d == d[..8] + d[8..16];
  }

  /** The two phases cannot be taken for one another: no startup packet is
      accepted as a batch, and no batch as a startup request or reply. */
  lemma PhasesAreDisjoint(d: Message)
    ensures Decoded(StartupRequest()).Err? && DecodeStartup(StartupRequest()).Err?
    ensures DecodeStartup(d).Ok? ==> Decoded(d).Err?
    ensures Decoded(d).Ok? ==> DecodeStartup(d).Err? && d != StartupRequest()
  {
    ValueOfU64(STARTUP_MAGIC);
    assert StartupRequest()[..8] == StartupRequest();
  }

  // ----- Polling settings -----

  /** `valid`: the settings a host step accepts. */
  predicate ValidStep(interval: int, poll: int)
  {
    && interval > 0 && poll > 0 && poll <= interval
    && interval <= HOUR
    && 1 + (interval - 1) / poll <= MAX_POLLS
  }

  /** The rounded-up quotient of the source is the documented bound: at most
      100000 polls cover the interval. */
  lemma ValidStepIff(interval: int, poll: int)
    ensures ValidStep(interval, poll) <==> 0 < poll <= interval <= HOUR && interval <= MAX_POLLS * poll
  {
    if 0 < poll <= interval {
      var q := (interval - 1) / poll;
      assert interval - 1 == poll * q + (interval - 1) % poll;
      MulAtLeast(poll, MAX_POLLS - q);
      MulAtLeast(poll, q - MAX_POLLS + 1);
      assert poll * (MAX_POLLS - q) == MAX_POLLS * poll - poll * q;
      assert poll * (q - MAX_POLLS + 1) == poll * q - MAX_POLLS * poll + poll;
    }
  }
}
