/** Bytes and the fixed-width integers that every wire format of the SDKs is made of. */
module Bytes {

  type Byte = x: int | 0 <= x < 256

  datatype Option<+T> = None | Some(value: T)

  /** 256^n: the number of values that n bytes can hold. */
  function Pow256(n: nat): (p: nat)
    ensures p > 0
  {
    if n == 0 then 1 else 256 * Pow256(n - 1)
  }

  const U16: nat := 0x1_0000
  const U32: nat := 0x1_0000_0000
  const U64: nat := 0x1_0000_0000_0000_0000
  const U128: nat := 0x1_0000_0000_0000_0000_0000_0000_0000_0000

  lemma {:induction false} PowersOf256()
    ensures Pow256(1) == 256 && Pow256(2) == U16 && Pow256(4) == U32
    ensures Pow256(8) == U64 && Pow256(16) == U128
  {
    assert Pow256(2) == 256 * Pow256(1);
    assert Pow256(3) == 256 * Pow256(2) && Pow256(4) == 256 * Pow256(3);
    assert Pow256(5) == 256 * Pow256(4) && Pow256(6) == 256 * Pow256(5);
    assert Pow256(7) == 256 * Pow256(6) && Pow256(8) == 256 * Pow256(7);
    assert Pow256(9) == 256 * Pow256(8) && Pow256(10) == 256 * Pow256(9);
    assert Pow256(11) == 256 * Pow256(10) && Pow256(12) == 256 * Pow256(11);
    assert Pow256(13) == 256 * Pow256(12) && Pow256(14) == 256 * Pow256(13);
    assert Pow256(15) == 256 * Pow256(14) && Pow256(16) == 256 * Pow256(15);
  }

  /** `width` little-endian bytes; a larger n wraps around, as a DataView setter does. */
  function ToLE(n: nat, width: nat): (bs: seq<Byte>)
    ensures |bs| == width
  {
    if width == 0 then [] else [n % 256] + ToLE(n / 256, width - 1)
  }

  function FromLE(bs: seq<Byte>): (n: nat)
    ensures n < Pow256(|bs|)
  {
    if bs == [] then 0 else bs[0] + 256 * FromLE(bs[1..])
  }

  lemma {:induction false} FromToLE(n: nat, width: nat)
    requires n < Pow256(width)
    ensures FromLE(ToLE(n, width)) == n
  {
    if width > 0 {
      FromToLE(n / 256, width - 1);
      assert ToLE(n, width)[1..] == ToLE(n / 256, width - 1);
    }
  }

  lemma {:induction false} ToFromLE(bs: seq<Byte>)
    ensures ToLE(FromLE(bs), |bs|) == bs
  {
    if bs != [] {
      var n, rest := FromLE(bs), FromLE(bs[1..]);
      assert n % 256 == bs[0] && n / 256 == rest;
      ToFromLE(bs[1..]);
      assert bs == [bs[0]] + bs[1..];
    }
  }

  /** `width` big-endian bytes. */
  function ToBE(n: nat, width: nat): (bs: seq<Byte>)
    ensures |bs| == width
  {
    if width == 0 then [] else ToBE(n / 256, width - 1) + [n % 256]
  }

  function FromBE(bs: seq<Byte>): (n: nat)
    ensures n < Pow256(|bs|)
  {
    if bs == [] then 0 else 256 * FromBE(bs[..|bs| - 1]) + bs[|bs| - 1]
  }

  lemma {:induction false} FromToBE(n: nat, width: nat)
    requires n < Pow256(width)
    ensures FromBE(ToBE(n, width)) == n
  {
    if width > 0 {
      FromToBE(n / 256, width - 1);
      assert ToBE(n, width)[..width - 1] == ToBE(n / 256, width - 1);
    }
  }

  /** n zero bytes: what `new Uint8Array(n)` holds. */
  function Zeros(n: nat): (bs: seq<Byte>)
    ensures |bs| == n
    ensures forall i :: 0 <= i < n ==> bs[i] == 0
  {
    seq(n, i => 0)
  }

  predicate IsUint64(n: int)
  {
    0 <= n < U64
  }

  /** Bytes in front of others, unless these are missing. */
  function After(front: seq<Byte>, rest: Option<seq<Byte>>): Option<seq<Byte>>
  {
    if rest.None? then None else Some(front + rest.value)
  }

  /** A Solana public key. */
  type Key = k: seq<Byte> | |k| == 32 witness Zeros(32)

  /** The array method `slice`: both ends are clamped, a reversed range is empty. */
  function Slice(bs: seq<Byte>, from: nat, end: nat): seq<Byte>
  {
    var e := if end <= |bs| then end else |bs|;
    if from <= e then bs[from..e] else []
  }

  /** The typed-array method `set`: copies `src` into `dst` at `offset`. */
  method SetBytes(dst: array<Byte>, src: seq<Byte>, offset: nat)
    requires offset + |src| <= dst.Length
    modifies dst
    ensures dst[..] == old(dst[..offset]) + src + old(dst[offset + |src|..])
  {
    ghost var was := dst[..];
    for i := 0 to |src|
      invariant dst[..] == was[..offset] + src[..i] + was[offset + i..]
    {
      dst[offset + i] := src[i];
      assert dst[..] == was[..offset] + src[..i + 1] + was[offset + i + 1..];
    }
    assert src[..|src|] == src;
  }
}
