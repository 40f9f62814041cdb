/**
 A decoder that emits a character on arrival at its leaf says what the stored tree and the encoded
 bits determine; and the encoded bytes are never more than the characters.
 */
module HuffmanArrival {
  import opened Bytes
  import opened BitPacking
  import opened HuffmanTrees
  import opened HuffmanCodes
  import opened HuffmanOptimality
  import opened TreeBytes
  import opened HuffmanDecoding

  /** Emits a character as soon as its leaf is reached; a lone leaf takes one bit per character. */
  function DecodeOnArrival(data: seq<Byte>, node: nat, bits: seq<bool>, n: nat): Option<seq<Byte>>
    requires |data| > 0 && |data| % 3 == 0
    decreases bits
  {
    if n == 0 then Some([])
    else if bits == [] || node >= |data| / 3 then None
    else
      var here := RecordAt(data, node);
      var child := if here.kind == 0 then node else if bits[0] then here.second else here.first;
      if child >= |data| / 3 then None
      else if RecordAt(data, child).kind == 0 then
        var rest := DecodeOnArrival(data, |data| / 3 - 1, bits[1..], n - 1);
        if rest.Some? then Some([RecordAt(data, child).first] + rest.value) else None
      else DecodeOnArrival(data, child, bits[1..], n)
  }

  /** A reader of the tree bytes and the bit bytes: no other knowledge of the text than its length. */
  function DecodeFromBytes(data: seq<Byte>, bytes: seq<Byte>, n: nat): Option<seq<Byte>>
  {
    if |data| == 0 || |data| % 3 != 0 then None else DecodeOnArrival(data, |data| / 3 - 1, Unpack(bytes), n)
  }

  lemma {:induction false} ArriveAtLeaf(data: seq<Byte>, i: nat, t: Tree, c: CodeUnit, rest: seq<bool>, n: nat)
    requires |data| > 0 && |data| % 3 == 0 && At(data, i, ShapeOf(t)) && t.Node?
    requires c in Chars(t) && c < 256 && n > 0
    ensures DecodeOnArrival(data, i, Path(t, c) + rest, n) ==
            var tail := DecodeOnArrival(data, |data| / 3 - 1, rest, n - 1);
            if tail.Some? then Some([c] + tail.value) else None
    decreases t
  {
    AtRecord(data, i, ShapeOf(t));
    var here := RecordAt(data, i);
    var bits := Path(t, c) + rest;
    var side := if c in Chars(t.left) then t.left else t.right;
    var child := if c in Chars(t.left) then here.first else here.second;
    assert bits[0] == (c !in Chars(t.left)) && bits[1..] == Path(side, c) + rest;
    AtRecord(data, child, ShapeOf(side));
    if side.Node? {
      ArriveAtLeaf(data, child, side, c, rest, n);
    } else {
      assert bits[1..] == rest;
    }
  }

  lemma {:induction false} ArriveAtNothing(data: seq<Byte>, bits: seq<bool>)
    requires |data| > 0 && |data| % 3 == 0
    ensures DecodeOnArrival(data, |data| / 3 - 1, bits, 0) == Some([])
  {
  }

  lemma {:induction false} ArriveAtText(data: seq<Byte>, t: Tree, text: seq<CodeUnit>, padding: seq<bool>)
    requires |data| > 0 && |data| % 3 == 0 && At(data, |data| / 3 - 1, ShapeOf(t)) && t.Node?
    requires ByteText(text) && forall k :: 0 <= k < |text| ==> text[k] in Chars(t)
    ensures DecodeOnArrival(data, |data| / 3 - 1, PathBits(t, text) + padding, |text|) == Some(text)
    decreases text
  {
    hide At, ShapeOf, Chars, PathBits, DecodeOnArrival;
    if text == [] {
      ArriveAtNothing(data, PathBits(t, text) + padding);
    } else {
      ArriveAtText(data, t, text[1..], padding);
      ArriveAtNext(data, t, text, padding);
    }
  }

  lemma {:induction false} ArriveAtNext(data: seq<Byte>, t: Tree, text: seq<CodeUnit>, padding: seq<bool>)
    requires |data| > 0 && |data| % 3 == 0 && At(data, |data| / 3 - 1, ShapeOf(t)) && t.Node?
    requires text != [] && text[0] < 256 && forall k :: 0 <= k < |text| ==> text[k] in Chars(t)
    requires DecodeOnArrival(data, |data| / 3 - 1, PathBits(t, text[1..]) + padding, |text| - 1) == Some(text[1..])
    ensures DecodeOnArrival(data, |data| / 3 - 1, PathBits(t, text) + padding, |text|) == Some(text)
  {
    hide *;
    var rest := PathBits(t, text[1..]) + padding;
    PathBitsNext(t, text);
    ArriveAtLeaf(data, |data| / 3 - 1, t, text[0], rest, |text|);
    assert PathBits(t, text) + padding == Path(t, text[0]) + rest;
    assert text == [text[0]] + text[1..];
  }

  lemma {:induction false} ArriveAtLone(data: seq<Byte>, text: seq<CodeUnit>, c: CodeUnit, bits: seq<bool>)
    requires |data| > 0 && |data| % 3 == 0 && At(data, |data| / 3 - 1, Tip(c)) && c < 256
    requires |bits| >= |text| && forall k :: 0 <= k < |text| ==> text[k] == c
    ensures DecodeOnArrival(data, |data| / 3 - 1, bits, |text|) == Some(text)
    decreases text
  {
    AtRecord(data, |data| / 3 - 1, Tip(c));
    if text != [] {
      ArriveAtLone(data, text[1..], c, bits[1..]);
      assert text == [text[0]] + text[1..];
    }
  }

  /** Tree and bits determine what was encoded, whatever bits follow them. */
  lemma {:induction false} BitsDetermineText(text: seq<CodeUnit>, other: seq<CodeUnit>, padding: seq<bool>)
    requires Encodable(text) && Over(text, other)
    ensures |TreeData(text)| > 0 && |TreeData(text)| % 3 == 0
    ensures DecodeOnArrival(TreeData(text), |TreeData(text)| / 3 - 1, CodedBits(text, other) + padding, |other|) ==
            Some(other)
  {
    StoredTree(text);
    TextIsInTree(text, other);
    if HuffmanTree(text).Node? {
      ArriveAtText(TreeData(text), HuffmanTree(text), other, padding);
    } else {
      TextIsInTree(text, text);
      ArriveAtLone(TreeData(text), other, HuffmanTree(text).symbol, CodedBits(text, other) + padding);
    }
  }

  /** The two byte arrays and the length are enough to recover any characters of an encodable text. */
  lemma {:induction false} BytesDetermineText(text: seq<CodeUnit>, other: seq<CodeUnit>)
    requires Encodable(text) && Over(text, other)
    ensures DecodeFromBytes(TreeData(text), Pack(CodedBits(text, other)), |other|) == Some(other)
  {
    var bits := CodedBits(text, other);
    UnpackPack(bits);
    BitsDetermineText(text, other, Padding(bits));
  }

  // ----- the encoded text is never longer than the text -----

  lemma {:induction false} ByteBitsInjective(a: Byte, b: Byte)
    requires ByteBits(a) == ByteBits(b)
    ensures a == b
  {
    ByteFromBits(a);
    ByteFromBits(b);
  }

  function Quotient(b: nat, n: nat): nat
    requires n > 0
  {
    b / n
  }

  function Digit(b: nat, n: nat): nat
    requires n > 0
  {
    b / n % 2
  }

  lemma {:induction false} LowestDigit(b: nat, n: nat)
    requires n == 1 || n == 2 || n == 4 || n == 8 || n == 16 || n == 32 || n == 64
    ensures Quotient(b, n) == 2 * Quotient(b, 2 * n) + Digit(b, n)
  {
  }

  lemma {:induction false} BinaryDigits(b: Byte)
    ensures b == Digit(b, 128) * 128 + Digit(b, 64) * 64 + Digit(b, 32) * 32 + Digit(b, 16) * 16 +
                 Digit(b, 8) * 8 + Digit(b, 4) * 4 + Digit(b, 2) * 2 + Digit(b, 1)
  {
    assert Quotient(b, 1) == b && Quotient(b, 128) == Digit(b, 128);
    hide Quotient, Digit;
    LowestDigit(b, 1);
    LowestDigit(b, 2);
    LowestDigit(b, 4);
    LowestDigit(b, 8);
    LowestDigit(b, 16);
    LowestDigit(b, 32);
    LowestDigit(b, 64);
  }

  lemma {:induction false} BitIsDigit(b: Byte, j: nat)
    requires j < 8
    ensures BitAt(ByteBits(b), j) == Digit(b, Mask(j))
  {
  }

  lemma {:induction false} ByteFromBits(b: Byte)
    ensures PackByte(ByteBits(b)) == b
  {
    hide BitAt, ByteBits, Digit, TestBit;
    BitIsDigit(b, 0);
    BitIsDigit(b, 1);
    BitIsDigit(b, 2);
    BitIsDigit(b, 3);
    BitIsDigit(b, 4);
    BitIsDigit(b, 5);
    BitIsDigit(b, 6);
    BitIsDigit(b, 7);
    BinaryDigits(b);
  }

  /** Eight bits for every byte: a prefix-free code. */
  function ByteCode(): (codes: Codes)
    ensures forall c: CodeUnit :: c in codes <==> c < 256
  {
    map c: CodeUnit | 0 <= c < 256 :: ByteBits(c)
  }

  lemma {:induction false} ByteCodePrefixFree()
    ensures PrefixFree(ByteCode())
  {
    forall c, d | c in ByteCode() && d in ByteCode() && c != d ensures !(ByteCode()[c] <= ByteCode()[d]) {
      if ByteBits(c) <= ByteBits(d) {
        assert ByteBits(c) == ByteBits(d);
        ByteBitsInjective(c, d);
      }
    }
  }

  lemma {:induction false} ByteCodeLength(text: seq<CodeUnit>)
    requires ByteText(text)
    ensures |EncodeBits(ByteCode(), text)| == 8 * |text|
  {
    if text != [] {
      ByteCodeLength(text[1..]);
    }
  }

  /** The encoding of a byte text has at most as many bytes as the text has characters. */
  lemma {:induction false} EncodingNeverLonger(text: seq<CodeUnit>)
    requires text != [] && ByteText(text)
    ensures |Pack(CodedBits(text, text))| <= |text|
  {
    TextHasSymbols(text);
    if |FirstSeen(text)| >= 2 {
      ByteCodePrefixFree();
      HuffmanIsOptimal(text, ByteCode());
      ByteCodeLength(text);
    } else {
      var c := FirstSeen(text)[0];
      LoneSymbolIsOptimal(text, map[c := [false]]);
    }
  }
}
