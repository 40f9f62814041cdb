/** Bits in bytes, most significant bit first. */
module BitPacking {
  import opened Bytes

  /** 1 << (7 - j) */
  function Mask(j: nat): (m: Byte)
    requires j < 8
    ensures m > 0
  {
    [128, 64, 32, 16, 8, 4, 2, 1][j]
  }

  /** (b & Mask(j)) !== 0 */
  predicate TestBit(b: Byte, j: nat)
    requires j < 8
  {
    b / Mask(j) % 2 == 1
  }

  /** b | Mask(j) */
  function SetBit(b: Byte, j: nat): Byte
    requires j < 8
  {
    if TestBit(b, j) then b else b + Mask(j)
  }

  function ByteBits(b: Byte): (bits: seq<bool>)
    ensures |bits| == 8
    ensures forall j :: 0 <= j < 8 ==> bits[j] == TestBit(b, j)
  {
    seq(8, j requires 0 <= j < 8 => TestBit(b, j))
  }

  function Unpack(bytes: seq<Byte>): (bits: seq<bool>)
    ensures |bits| == 8 * |bytes|
  {
    if bytes == [] then [] else ByteBits(bytes[0]) + Unpack(bytes[1..])
  }

  /** The byte whose leading bits are given; the bits after them are 0. */
  function PackByte(bits: seq<bool>): Byte
    requires |bits| <= 8
  {
    BitAt(bits, 0) * 128 + BitAt(bits, 1) * 64 + BitAt(bits, 2) * 32 + BitAt(bits, 3) * 16 +
    BitAt(bits, 4) * 8 + BitAt(bits, 5) * 4 + BitAt(bits, 6) * 2 + BitAt(bits, 7)
  }

  function BitAt(bits: seq<bool>, j: nat): (v: int)
    ensures v == 0 || v == 1
  {
    if j < |bits| && bits[j] then 1 else 0
  }

  function Pack(bits: seq<bool>): (bytes: seq<Byte>)
    ensures |bytes| == (|bits| + 7) / 8
  {
    if |bits| <= 8 then (if bits == [] then [] else [PackByte(bits)])
    else [PackByte(bits[..8])] + Pack(bits[8..])
  }

  function Falses(n: nat): (bits: seq<bool>)
    ensures |bits| == n
  {
    seq(n, i => false)
  }

  /** The binary digit of v at the power of two n, between the digits above and those below it. */
  lemma {:induction false} DigitOf(v: int, n: int, above: int, digit: int, below: int)
    requires n == 1 || n == 2 || n == 4 || n == 8 || n == 16 || n == 32 || n == 64 || n == 128
    requires v == n * (2 * above + digit) + below && 0 <= below < n && (digit == 0 || digit == 1)
    ensures v / n % 2 == digit
  {
    assert v / n == 2 * above + digit;
  }

  lemma {:induction false} PackByteBits(bits: seq<bool>, j: nat)
    requires |bits| <= 8 && j < 8
    ensures TestBit(PackByte(bits), j) <==> BitAt(bits, j) == 1
  {
    var v := PackByte(bits);
    var b0, b1, b2, b3 := BitAt(bits, 0), BitAt(bits, 1), BitAt(bits, 2), BitAt(bits, 3);
    var b4, b5, b6, b7 := BitAt(bits, 4), BitAt(bits, 5), BitAt(bits, 6), BitAt(bits, 7);
    hide BitAt;
    match j
    case 0 => DigitOf(v, 128, 0, b0, b1 * 64 + b2 * 32 + b3 * 16 + b4 * 8 + b5 * 4 + b6 * 2 + b7);
    case 1 => DigitOf(v, 64, b0, b1, b2 * 32 + b3 * 16 + b4 * 8 + b5 * 4 + b6 * 2 + b7);
    case 2 => DigitOf(v, 32, b0 * 2 + b1, b2, b3 * 16 + b4 * 8 + b5 * 4 + b6 * 2 + b7);
    case 3 => DigitOf(v, 16, b0 * 4 + b1 * 2 + b2, b3, b4 * 8 + b5 * 4 + b6 * 2 + b7);
    case 4 => DigitOf(v, 8, b0 * 8 + b1 * 4 + b2 * 2 + b3, b4, b5 * 4 + b6 * 2 + b7);
    case 5 => DigitOf(v, 4, b0 * 16 + b1 * 8 + b2 * 4 + b3 * 2 + b4, b5, b6 * 2 + b7);
    case 6 => DigitOf(v, 2, b0 * 32 + b1 * 16 + b2 * 8 + b3 * 4 + b4 * 2 + b5, b6, b7);
    case 7 => DigitOf(v, 1, b0 * 64 + b1 * 32 + b2 * 16 + b3 * 8 + b4 * 4 + b5 * 2 + b6, b7, 0);
  }

  lemma {:induction false} ByteRoundTrip(bits: seq<bool>)
    requires |bits| <= 8
    ensures ByteBits(PackByte(bits)) == bits + Falses(8 - |bits|)
  {
    forall j | 0 <= j < 8 ensures ByteBits(PackByte(bits))[j] == (bits + Falses(8 - |bits|))[j] {
      PackByteBits(bits, j);
    }
  }

  /** Unpacking gives the bits back, followed by fewer than eight padding zeros. */
  lemma {:induction false} UnpackPack(bits: seq<bool>)
    ensures Unpack(Pack(bits)) == bits + Falses(8 * |Pack(bits)| - |bits|)
  {
    if |bits| <= 8 {
      if bits != [] {
        ByteRoundTrip(bits);
        assert Unpack([PackByte(bits)]) == ByteBits(PackByte(bits)) + Unpack([]);
      }
    } else {
      ByteRoundTrip(bits[..8]);
      UnpackPack(bits[8..]);
      assert bits == bits[..8] + bits[8..];
      assert Pack(bits)[1..] == Pack(bits[8..]);
      assert Falses(0) == [];
    }
  }

  lemma {:induction false} PackNothing()
    ensures PackByte([]) == 0
  {
  }

  /** Setting the next lower bit of a partly packed byte appends it to the packed bits. */
  lemma {:induction false} SetNextBit(bits: seq<bool>, bit: bool)
    requires |bits| < 8
    ensures PackByte(bits + [bit]) == if bit then SetBit(PackByte(bits), |bits|) else PackByte(bits)
  {
    PackByteBits(bits, |bits|);
    forall j | 0 <= j < 8 && j != |bits| ensures BitAt(bits + [bit], j) == BitAt(bits, j) {
    }
    assert BitAt(bits, |bits|) == 0;
    assert BitAt(bits + [bit], |bits|) == if bit then 1 else 0;
    assert |bits| in {0, 1, 2, 3, 4, 5, 6, 7};
  }
}
