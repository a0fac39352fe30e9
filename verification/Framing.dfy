/** The eight-byte length header of a raw message. */
module Framing {
  import opened Wire

  const MAX_MESSAGE_SIZE: nat := 64 * 1024 * 1024

  lemma ShiftAgain(v: nat, n: nat)
    ensures v / Pow256(n) / 256 == v / Pow256(n + 1)
  {
    var p := Pow256(n);
    var q, r := v / p / 256, v / p % 256;
    assert v == p * (256 * q + r) + v % p;
    assert p * (256 * q + r) == (256 * p) * q + p * r;
    MulAtLeast(p, 256 - r);
    assert p * (256 - r) == 256 * p - p * r;
    QuotientIs(v, 256 * p, q, p * r + v % p);
  }

  /** `detail::encode`: fills the header from its last byte, shifting right. */
  method EncodeHeader(length: nat) returns (header: array<Byte>)
    requires length < U64_LIMIT
    ensures fresh(header) && header[..] == BigEndian(length, WORD)
  {
    header := new Byte[8](_ => 0);
    var size, i := length, 7;
    while i >= 0
      invariant -1 <= i <= 7
      invariant size == length / Pow256(7 - i)
      invariant forall k :: i < k < 8 ==> header[k] == BigEndian(length, WORD)[k]
    {
      BigEndianAt(length, WORD, i);
      header[i] := size % 256;
      ShiftAgain(length, 7 - i);
      size := size / 256;
      i := i - 1;
    }
    assert header[..] == BigEndian(length, WORD);
  }

  /** `detail::decode`: shifts each byte into a 64-bit accumulator. */
  method DecodeHeader(header: Message) returns (length: nat)
    requires |header| == 8
    ensures length == Value(header) < U64_LIMIT
    ensures BigEndian(length, WORD) == header
  {
    length := 0;
    for i := 0 to 8
      invariant length == Value(header[..i])
    {
      BigEndianOfValue(header[..i]);
      ShiftFits(i, length);
      assert header[..i + 1][..i] == header[..i];
      length := length * 256 % U64_LIMIT + header[i];
    }
    assert header[..8] == header;
    U64OfValue(header);
  }
}
