/** Bytes, and the eight-byte integers that every layer of the transport uses.

    The controller packets and the message header are big-endian; the envelope
    that gem5 puts around a guest-to-host operation is the host's native order,
    which on the x86 hosts the simulator needs (KVM) is little-endian. */
module Wire {
  import opened Basics

  type Byte = b: int | 0 <= b < 256

  type Message = seq<Byte>

  const U64_LIMIT: int := 0x1_0000_0000_0000_0000

  /** The size of an integer on the wire. */
  const WORD: nat := 8

  function Pow2(n: nat): (r: nat)
    ensures r >= 1
  {
    if n == 0 then 1 else 2 * Pow2(n - 1)
  }

  function Pow256(n: nat): (r: nat)
    ensures r >= 1
  {
    if n == 0 then 1 else 256 * Pow256(n - 1)
  }

  /** The low n bytes of v, most significant first. */
  function BigEndian(v: nat, n: nat): (s: Message)
    ensures |s| == n
  {
    if n == 0 then [] else BigEndian(v / 256, n - 1) + [v % 256]
  }

  /** The number that a byte string denotes, most significant byte first. */
  function Value(s: Message): (v: nat)
  {
    if s == [] then 0 else 256 * Value(s[..|s| - 1]) + s[|s| - 1]
  }

  function Reversed(s: Message): (r: Message)
    ensures |r| == |s|
    ensures forall i :: 0 <= i < |s| ==> r[i] == s[|s| - 1 - i]
  {
    seq(|s|, i requires 0 <= i < |s| => s[|s| - 1 - i])
  }

  function LittleEndian(v: nat, n: nat): (s: Message)
    ensures |s| == n
  {
    Reversed(BigEndian(v, n))
  }

  lemma Pow2OfBytes(k: nat)
    ensures Pow2(8 * k) == Pow256(k)
  {
    if k == 0 {
    } else {
      Pow2OfBytes(k - 1);
      var n := 8 * (k - 1);
      assert Pow2(n + 2) == 4 * Pow2(n);
      assert Pow2(n + 4) == 16 * Pow2(n);
      assert Pow2(n + 6) == 64 * Pow2(n);
      assert Pow2(n + 8) == 256 * Pow2(n);
    }
  }

  lemma MulAtLeast(d: nat, x: int)
    ensures x >= 1 ==> d * x >= d
    ensures x <= -1 ==> d * x + d <= 0
  {
    if x >= 1 {
      assert d * x == d + d * (x - 1);
    } else if x <= -1 {
      assert d * x + d == d * (x + 1);
    }
  }

  lemma QuotientIs(v: nat, d: nat, q: nat, t: nat)
    requires d >= 1 && v == d * q + t && t < d
    ensures v / d == q
  {
    var x := v / d - q;
    assert v == d * (v / d) + v % d;
    assert d * x == t - v % d;
    MulAtLeast(d, x);
  }

  lemma DivideTwice(v: nat, p: nat)
    requires p >= 1
    ensures (v / 256) / p == v / (256 * p)
  {
    var q := (v / 256) / p;
    var r := (v / 256) % p;
    assert v == 256 * (p * q + r) + v % 256;
    assert 256 * (p * q) == (256 * p) * q;
    var t := 256 * r + v % 256;
    assert v == (256 * p) * q + t && 0 <= t < 256 * p;
    QuotientIs(v, 256 * p, q, t);
  }

  lemma {:induction false} BigEndianAt(v: nat, n: nat, i: nat)
    requires i < n
    ensures BigEndian(v, n)[i] == v / Pow256(n - 1 - i) % 256
  {
    if i == n - 1 {
    } else {
      BigEndianAt(v / 256, n - 1, i);
      DivideTwice(v, Pow256(n - 2 - i));
    }
  }

  lemma ValueSnoc(front: Message, b: Byte)
    ensures Value(front + [b]) == 256 * Value(front) + b
  {
    assert (front + [b])[..|front|] == front;
  }

  /** Decoding undoes encoding for every number that fits. */
  lemma {:induction false} ValueOfBigEndian(v: nat, n: nat)
    requires v < Pow256(n)
    ensures Value(BigEndian(v, n)) == v
  {
    if n == 0 {
    } else {
      ValueOfBigEndian(v / 256, n - 1);
      ValueSnoc(BigEndian(v / 256, n - 1), v % 256);
    }
  }

  /** Encoding undoes decoding for every byte string, so no two strings of one
      length denote the same number. */
  lemma {:induction false} BigEndianOfValue(s: Message)
    ensures Value(s) < Pow256(|s|)
    ensures BigEndian(Value(s), |s|) == s
  {
    if s == [] {
    } else {
      var front := s[..|s| - 1];
      BigEndianOfValue(front);
      assert Value(s) / 256 == Value(front);
      assert s == front + [s[|s| - 1]];
    }
  }

  lemma Pow256Of8()
    ensures Pow256(8) == U64_LIMIT
  {
    assert Pow256(2) == 65536;
    assert Pow256(4) == 65536 * 65536;
    assert Pow256(6) == 65536 * 65536 * 65536;
  }

  lemma ValueOfU64(v: nat)
    requires v < U64_LIMIT
    ensures Value(BigEndian(v, WORD)) == v
    ensures Value(Reversed(LittleEndian(v, WORD))) == v
  {
    Pow256Of8();
    ValueOfBigEndian(v, WORD);
    assert Reversed(LittleEndian(v, WORD)) == BigEndian(v, WORD);
  }

  lemma U64OfValue(s: Message)
    requires |s| == 8
    ensures Value(s) < U64_LIMIT
    ensures BigEndian(Value(s), WORD) == s
  {
    Pow256Of8();
    BigEndianOfValue(s);
  }

  lemma ShiftedByte(v: nat, i: nat)
    requires i < 8
    ensures BigEndian(v, WORD)[i] == v / Pow2(56 - 8 * i) % 256
  {
    BigEndianAt(v, WORD, i);
    Pow2OfBytes(7 - i);
  }

  /** `put`: appends a number by shifting it right by 56, 48, ..., 0 bits. */
  method Put(data: Message, value: nat) returns (r: Message)
    requires value < U64_LIMIT
    ensures r == data + BigEndian(value, WORD)
  {
    r := data;
    var shift := 56;
    ghost var bytes := BigEndian(value, WORD);
    ghost var i: nat := 0;
    while shift >= 0
      invariant -8 <= shift <= 56
      invariant shift == 56 - 8 * i && r == data + bytes[..i]
      decreases shift
    {
      ShiftedByte(value, i);
      r := r + [value / Pow2(shift) % 256];
      shift, i := shift - 8, i + 1;
    }
  }

  datatype Read = Read(value: nat, rest: Message)

  datatype Truncated = Truncated

  lemma Pow256Grows(a: nat, b: nat)
    requires a <= b
    ensures Pow256(a) <= Pow256(b)
  {
    if a == b {
    } else {
      Pow256Grows(a, b - 1);
    }
  }

  lemma ShiftFits(i: nat, value: nat)
    requires i < 8 && value < Pow256(i)
    ensures value * 256 < U64_LIMIT
  {
    Pow256Of8();
    Pow256Grows(i + 1, 8);
  }

  /** `get`: takes the first eight bytes off a span, shifting a 64-bit
      accumulator left; a shorter span is an error. */
  method Get(data: Message) returns (r: Result<Read, Truncated>)
    ensures r.Ok? <==> |data| >= 8
    ensures r.Ok? ==> r.value.value == Value(data[..8]) < U64_LIMIT && r.value.rest == data[8..]
    ensures r.Ok? ==> BigEndian(r.value.value, WORD) == data[..8]
  {
    if |data| < 8 {
      return Err(Truncated);
    }
    var value: nat := 0;
    for i := 0 to 8
      invariant value == Value(data[..i])
    {
      BigEndianOfValue(data[..i]);
      assert value * 256 < U64_LIMIT by { ShiftFits(i, value); }
      assert data[..i + 1][..i] == data[..i];
      value := value * 256 % U64_LIMIT + data[i];
    }
    U64OfValue(data[..8]);
    return Ok(Read(value, data[8..]));
  }
}
