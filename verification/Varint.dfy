/** The trace file format: each message after its length, written as a Base 128
    varint of the Protocol Buffers encoding. */
module Varint {
  import opened Basics
  import opened Wire

  const MASK: nat := 0x1_0000_0000 // one more than the 32-bit mask
  const SIGN: nat := 0x8000_0000_0000_0000
  /** The largest length of an object in the language of the source, plus one. */
  const LENGTH_LIMIT: nat := 0x8000_0000_0000_0000

  // ----- One length -----

  /** Seven bits a byte, lowest first; every byte but the last has the high bit. */
  function Encoding(v: nat): (d: Message)
    ensures d != []
  {
    if v < 128 then [v] else [128 + v % 128] + Encoding(v / 128)
  }

  /** `_EncodeVarint32`. */
  method Encode(file: Message, value: nat) returns (r: Message)
    ensures r == file + Encoding(value)
  {
    r := file;
    var bits, left := value % 128, value / 128;
    ghost var v: nat := value;
    while left > 0
      invariant bits == v % 128 && left == v / 128
      invariant file + Encoding(value) == r + Encoding(v)
      decreases left
    {
      assert Encoding(v) == [128 + bits] + Encoding(left);
      assert r + ([128 + bits] + Encoding(left)) == r + [128 + bits] + Encoding(left);
      r := r + [128 + bits];
      v := left;
      bits, left := left % 128, left / 128;
    }
    r := r + [bits];
  }

  datatype Length = Length(size: int, rest: Message) | AtEnd | TooLong

  /** The 32-bit result of a varint: large ones come out negative. */
  function Narrowed(v: nat): (size: int)
  {
    if v >= SIGN then v % MASK - MASK else v % MASK
  }

  function Decoding(d: Message, shift: nat, sum: nat): (r: Length)
    ensures r.Length? ==> |r.rest| < |d|
    decreases |d|
  {
    if d == [] then AtEnd
    else
      var sum' := sum + d[0] % 128 * Pow2(shift);
      if d[0] < 128 then Length(Narrowed(sum'), d[1..])
      else if shift + 7 >= 64 then TooLong
      else Decoding(d[1..], shift + 7, sum')
  }

  lemma DecodingStep(d: Message, shift: nat, sum: nat)
    requires d != []
    ensures Decoding(d, shift, sum) ==
      var sum' := sum + d[0] % 128 * Pow2(shift);
      if d[0] < 128 then Length(Narrowed(sum'), d[1..])
      else if shift + 7 >= 64 then TooLong
      else Decoding(d[1..], shift + 7, sum')
  {
  }

  const START: nat := 0

  /** A varint at the head of a file. */
  function Sized(file: Message): (r: Length)
    ensures r.Length? ==> |r.rest| < |file|
  {
    Decoding(file, START, START)
  }

  /** Bitwise or. */
  function BitOr(a: nat, b: nat): (r: nat)
    decreases a + b
  {
    if a == 0 && b == 0 then 0 else Max(a % 2, b % 2) + 2 * BitOr(a / 2, b / 2)
  }

  lemma {:induction false} OrZero(b: nat)
    ensures BitOr(0, b) == b
  {
    if b == 0 {
    } else {
      OrZero(b / 2);
    }
  }

  /** Bits above those of a number are joined to it by addition. */
  lemma {:induction false} OrIsSum(a: nat, c: nat, k: nat)
    requires a < Pow2(k)
    ensures BitOr(a, c * Pow2(k)) == a + c * Pow2(k)
    decreases k
  {
    if k == 0 {
      OrZero(c);
    } else {
      var p := c * Pow2(k - 1);
      assert c * Pow2(k) == 2 * p;
      OrIsSum(a / 2, c, k - 1);
    }
  }

  lemma SameLowBits(v: int)
    ensures (v - U64_LIMIT) % MASK == v % MASK
  {
  }

  lemma Pow2Step(shift: nat)
    ensures Pow2(shift + 7) == 128 * Pow2(shift)
  {
    assert Pow2(shift + 2) == 4 * Pow2(shift);
    assert Pow2(shift + 4) == 16 * Pow2(shift);
    assert Pow2(shift + 6) == 64 * Pow2(shift);
  }

  lemma FitsBelow(low: nat, bits: nat, p: nat)
    requires low < p && bits < 128
    ensures low + bits * p < 128 * p
  {
    var spare := 127 - bits;
    assert spare * p >= 0 && bits * p + spare * p == 127 * p;
  }

  lemma JoinFits(result: nat, bits: nat, shift: nat)
    requires result < Pow2(shift) && bits < 128
    ensures result + bits * Pow2(shift) < Pow2(shift + 7)
  {
    Pow2Step(shift);
    FitsBelow(result, bits, Pow2(shift));
  }

  lemma OrAbove(a: nat, bits: nat, shift: nat, high: nat)
    requires a < Pow2(shift) && high == bits * Pow2(shift)
    ensures BitOr(a, high) == a + high
  {
    OrIsSum(a, bits, shift);
  }

  /** Seven more bits, above those read so far: the bitwise or is their sum. */
  method Join(result: nat, bits: nat, shift: nat) returns (r: nat)
    requires result < Pow2(shift) && bits < 128
    ensures r == result + bits * Pow2(shift)
  {
    var high := bits * Pow2(shift);
    OrAbove(result, bits, shift, high);
    r := BitOr(result, high);
  }

  /** The end of `_DecodeVarint32`: as a signed number, its low bits under ones or zeros. */
  method Narrow(result: nat) returns (size: int)
    ensures size == Narrowed(result)
  {
    SameLowBits(result);
    size := if result > SIGN - 1 then (result - U64_LIMIT) % MASK - MASK else result % MASK;
  }

  /** `_DecodeVarint32`. */
  method Decode(file: Message) returns (r: Length)
    ensures r == Sized(file)
  {
    var result: nat, shift: nat, pos: nat := START, START, 0;
    assert Pow2(START) == 1;
    while true
      invariant pos <= |file| && shift < 64 && result < Pow2(shift)
      invariant Sized(file) == Decoding(file[pos..], shift, result)
      decreases |file| - pos
    {
      if pos == |file| {
        return AtEnd;
      }
      var b := file[pos];
      DecodingStep(file[pos..], shift, result);
      assert file[pos..][1..] == file[pos + 1..];
      JoinFits(result, b % 128, shift);
      result := Join(result, b % 128, shift);
      pos := pos + 1;
      if b < 128 {
        var size := Narrow(result);
        return Length(size, file[pos..]);
      }
      shift := shift + 7;
      if shift >= 64 {
        return TooLong;
      }
    }
  }

  function Pow128(n: nat): (r: nat)
  {
    if n == 0 then 1 else 128 * Pow128(n - 1)
  }

  lemma Distribute(v: nat, p: nat)
    ensures v % 128 * p + v / 128 * (128 * p) == v * p
  {
    assert v == v % 128 + 128 * (v / 128);
    assert v / 128 * (128 * p) == 128 * (v / 128) * p;
  }

  lemma SplitSum(v: nat, shift: nat, sum: nat)
    ensures sum + v % 128 * Pow2(shift) + v / 128 * Pow2(shift + 7) == sum + v * Pow2(shift)
  {
    Pow2Step(shift);
    Distribute(v, Pow2(shift));
  }

  lemma FewerDigits(v: nat, k: nat)
    requires 128 <= v < Pow128(k)
    ensures k >= 2 && v / 128 < Pow128(k - 1)
  {
  }

  lemma EncodingHead(v: nat, rest: Message)
    requires v >= 128
    ensures var d := Encoding(v) + rest;
      d[0] == 128 + v % 128 && d[0] % 128 == v % 128 && d[1..] == Encoding(v / 128) + rest
  {
    var low, high := 128 + v % 128, Encoding(v / 128);
    assert [low] + high + rest == [low] + (high + rest);
  }

  lemma DecodingLast(v: nat, rest: Message, shift: nat, sum: nat)
    requires v < 128
    ensures Decoding(Encoding(v) + rest, shift, sum) == Length(Narrowed(sum + v * Pow2(shift)), rest)
  {
    Heads([v], rest);
    assert [v][1..] + rest == rest;
    DecodingStep([v] + rest, shift, sum);
  }

  lemma DecodingMore(v: nat, rest: Message, shift: nat, sum: nat)
    requires v >= 128 && shift + 7 < 64
    ensures Decoding(Encoding(v) + rest, shift, sum) ==
      Decoding(Encoding(v / 128) + rest, shift + 7, sum + v % 128 * Pow2(shift))
  {
    EncodingHead(v, rest);
    DecodingStep(Encoding(v) + rest, shift, sum);
  }

  /** A number that fits the bytes left is read back whole. */
  lemma {:induction false} DecodingOfEncoding(v: nat, rest: Message, shift: nat, sum: nat, k: nat)
    requires v < Pow128(k) && shift + 7 * k < 64 + 7
    requires k >= 1
    ensures Decoding(Encoding(v) + rest, shift, sum) == Length(Narrowed(sum + v * Pow2(shift)), rest)
    decreases k
  {
    if v < 128 {
      DecodingLast(v, rest, shift, sum);
    } else {
      FewerDigits(v, k);
      DecodingMore(v, rest, shift, sum);
      SplitSum(v, shift, sum);
      DecodingOfEncoding(v / 128, rest, shift + 7, sum + v % 128 * Pow2(shift), k - 1);
    }
  }

  lemma Nine(n: nat)
    requires n == 9
    ensures Pow128(n) == LENGTH_LIMIT
  {
    assert Pow128(n - 8) == 128 * Pow128(n - 9);
    assert Pow128(n - 7) == 0x4000;
    assert Pow128(n - 5) == 0x4000 * 0x4000;
    assert Pow128(n - 3) == 0x4000 * 0x4000 * 0x4000;
    assert Pow128(n - 1) == 0x4000 * 0x4000 * 0x4000 * 0x4000;
  }

  lemma Unshifted(v: nat)
    requires v < LENGTH_LIMIT
    ensures Narrowed(START + v * Pow2(START)) == v % MASK
  {
    assert Pow2(START) == 1;
  }

  /** Every length an object can have is read back, cut to 32 bits. */
  lemma RoundTrip(v: nat, rest: Message)
    requires v < LENGTH_LIMIT
    ensures Sized(Encoding(v) + rest) == Length(v % MASK, rest)
  {
    var nine: nat := 9;
    Nine(nine);
    Unshifted(v);
    DecodingOfEncoding(v, rest, START, START, nine);
  }

  // ----- A stream of messages -----

  datatype Read = Message(buffer: Message, rest: Message) | Nothing

  /** `decodeMessage`, up to the parsing of the buffer: a length of zero is taken
      for the end, a negative one reads all that is left. */
  function ReadMessage(file: Message): (r: Read)
    ensures r.Message? ==> |r.rest| < |file|
  {
    match Sized(file)
    case AtEnd => Nothing
    case TooLong => Nothing
    case Length(size, rest) =>
      if size == 0 then Nothing
      else if size < 0 then Message(rest, [])
      else Message(rest[..Min(size, |rest|)], rest[Min(size, |rest|)..])
  }

  function ReadAll(file: Message): (ms: seq<Message>)
    decreases |file|
  {
    match ReadMessage(file)
    case Nothing => []
    case Message(m, rest) => [m] + ReadAll(rest)
  }

  function Written(ms: seq<Message>): (file: Message)
  {
    if ms == [] then [] else Encoding(|ms[0]|) + ms[0] + Written(ms[1..])
  }

  predicate Readable(m: Message)
  {
    0 < |m| < MASK
  }

  lemma ReadsAtMost(file: Message, size: nat, rest: Message)
    requires Sized(file) == Length(size, rest)
    ensures ReadMessage(file).Nothing? || |ReadMessage(file).buffer| <= size
  {
  }

  lemma ReadFirst(m: Message, rest: Message)
    requires |m| < LENGTH_LIMIT
    ensures var r := ReadMessage(Encoding(|m|) + m + rest);
      && (Readable(m) ==> r == Message(m, rest))
      && (!Readable(m) ==> r.Nothing? || |r.buffer| != |m|)
  {
    var file := Encoding(|m|) + m + rest;
    Reassociate(Encoding(|m|), m, rest);
    RoundTrip(|m|, m + rest);
    if Readable(m) {
      assert Sized(file) == Length(|m|, m + rest);
      Slices([], m, rest);
    } else {
      ReadsAtMost(file, |m| % MASK, m + rest);
    }
  }

  lemma AllReadable(ms: seq<Message>)
    requires ms != []
    ensures (forall i :: 0 <= i < |ms| ==> Readable(ms[i])) <==>
            (Readable(ms[0]) && forall i :: 0 <= i < |ms[1..]| ==> Readable(ms[1..][i]))
  {
    forall i | 1 <= i < |ms| ensures ms[i] == ms[1..][i - 1] {
    }
  }

  lemma ReadAllStep(file: Message)
    ensures ReadAll(file) ==
      match ReadMessage(file) case Nothing => [] case Message(m, rest) => [m] + ReadAll(rest)
  {
  }

  lemma ConsIsEqual<T>(x: T, a: seq<T>, s: seq<T>)
    requires s != []
    ensures [x] + a == s <==> x == s[0] && a == s[1..]
  {
    assert [x] + a == s ==> ([x] + a)[1..] == s[1..] && ([x] + a)[1..] == a;
  }

  /** A stream reads back as it was written, and then reports its end, if and only
      if every message is nonempty and shorter than four gigabytes. */
  lemma {:induction false} StreamRoundTrip(ms: seq<Message>)
    requires forall i :: 0 <= i < |ms| ==> |ms[i]| < LENGTH_LIMIT
    ensures ReadAll(Written(ms)) == ms <==> forall i :: 0 <= i < |ms| ==> Readable(ms[i])
  {
    if ms == [] {
    } else {
      var m, rest := ms[0], Written(ms[1..]);
      StreamRoundTrip(ms[1..]);
      ReadFirst(m, rest);
      ReadAllStep(Written(ms));
      AllReadable(ms);
      var r := ReadMessage(Written(ms));
      if r.Message? {
        ConsIsEqual(r.buffer, ReadAll(r.rest), ms);
      }
    }
  }
}
