/**
 How many characters the decoder can give: at most one for every bit, and once the requested number
 is reached, one more for every byte. A lone character gives the most.
 */
module HuffmanCounts {
  import opened Bytes
  import opened BitPacking
  import opened HuffmanTrees
  import opened HuffmanCodes
  import opened HuffmanOptimality
  import opened TreeBytes
  import opened HuffmanDecoding
  import opened HuffmanRequests

  /** The most characters there can be after one more byte. */
  function ByteMost(count: nat, n: nat): nat
  {
    if count >= n then count + 1 else if count + 8 < n then count + 8 else n
  }

  function BytesMost(count: nat, n: nat, bytes: nat): nat
    decreases bytes
  {
    if bytes == 0 then count else BytesMost(ByteMost(count, n), n, bytes - 1)
  }

  lemma {:induction false} FewerGivesFewer(a: nat, b: nat, n: nat, bytes: nat)
    requires a <= b
    ensures BytesMost(a, n, bytes) <= BytesMost(b, n, bytes)
    decreases bytes
  {
    if bytes > 0 {
      FewerGivesFewer(ByteMost(a, n), ByteMost(b, n), n, bytes - 1);
    }
  }

  lemma {:induction false} MostFromCount(count: nat, n: nat, bytes: nat)
    ensures BytesMost(count, n, bytes) == if count >= n then count + bytes else count + LoneCount(bytes, n - count)
    decreases bytes
  {
    if bytes > 0 {
      MostFromCount(ByteMost(count, n), n, bytes - 1);
    }
  }

  lemma {:induction false} BitsCount(data: seq<Byte>, node: nat, out: seq<Byte>, n: nat, bits: seq<bool>)
    requires |data| > 0 && |data| % 3 == 0
    ensures var r := RunBits(data, node, out, n, bits);
            !r.Throw? ==>
              && |r.out| <= |out| + |bits|
              && (r.Next? ==> |r.out| == |out| || |r.out| < n)
              && (r.Break? ==> |r.out| <= if |out| + 1 < n then n else |out| + 1)
    decreases bits
  {
    if bits != [] {
      var s := Step(data, node, out, n, bits[0]);
      assert s.Next? ==> s.out == out || (|s.out| == |out| + 1 && |s.out| < n);
      assert s.Break? ==> |s.out| == |out| + 1;
      hide Step;
      if s.Next? {
        BitsCount(data, s.node, s.out, n, bits[1..]);
      }
    }
  }

  lemma {:induction false} BytesCount(data: seq<Byte>, node: nat, out: seq<Byte>, n: nat, bytes: seq<Byte>)
    requires |data| > 0 && |data| % 3 == 0
    ensures var r := RunBytes(data, node, out, n, bytes); r.Ok? ==> |r.value| <= BytesMost(|out|, n, |bytes|)
    decreases bytes
  {
    if bytes != [] {
      var bits := ByteBits(bytes[0]);
      BitsCount(data, node, out, n, bits);
      var r := RunBits(data, node, out, n, bits);
      hide RunBits, ByteBits;
      if !r.Throw? {
        assert |r.out| <= ByteMost(|out|, n);
        FewerGivesFewer(|r.out|, ByteMost(|out|, n), n, |bytes| - 1);
        BytesCount(data, r.node, r.out, n, bytes[1..]);
      }
    }
  }

  lemma {:induction false} LoneCountBounds(bytes: nat, n: nat)
    requires n > 0
    ensures LoneCount(bytes, n) <= 8 * bytes && LoneCount(bytes, n) <= n - 1 + bytes
  {
  }

  /** For any stored tree: no more than one character per bit, or one per byte beyond those asked for. */
  lemma {:induction false} DecodeAtMost(data: seq<Byte>, bytes: seq<Byte>, n: int)
    requires Decode(data, bytes, n).Ok?
    ensures var count := |Decode(data, bytes, n).value|;
            && count <= LoneCount(|bytes|, if n < 1 then 1 else n)
            && count <= 8 * |bytes|
            && count <= (if n < 1 then 0 else n - 1) + |bytes|
  {
    var m := if n < 1 then 1 else n;
    assert |data| > 0 && |data| % 3 == 0;
    if n < 1 {
      DecodeNothing(data, bytes, n);
    }
    assert Decode(data, bytes, m) == Decode(data, bytes, n);
    hide Decode, LoneCount;
    DecodeIsRun(data, bytes, m);
    BytesCount(data, |data| / 3 - 1, [], m, bytes);
    MostFromCount(0, m, |bytes|);
    LoneCountBounds(|bytes|, m);
  }

  /** From the same bytes and for the same request, no tree gives more than that of a lone character. */
  lemma {:induction false} LoneGivesMost(lone: seq<CodeUnit>, data: seq<Byte>, bytes: seq<Byte>, n: int)
    requires Encodable(lone) && |FirstSeen(lone)| == 1 && Decode(data, bytes, n).Ok?
    ensures lone != [] && Decode(TreeData(lone), bytes, n).Ok?
    ensures |Decode(data, bytes, n).value| <= |Decode(TreeData(lone), bytes, n).value|
  {
    hide *;
    EncodableFits(lone);
    var m := if n < 1 then 1 else n;
    DecodeAtMost(data, bytes, n);
    if n < 1 {
      DecodeNothing(TreeData(lone), bytes, n);
    }
    DecodeLoneBytes(lone, bytes, m);
  }

  // ----- too many characters -----

  /** As many bits as there are characters cannot avoid every code word. */
  lemma {:induction false} EnoughBitsForPath(t: Tree, bits: seq<bool>)
    requires Unambiguous(t) && |bits| >= |Leaves(t)|
    ensures !NoPathBefore(t, bits)
    decreases t
  {
    if t.Leaf? {
      NoPathAtLeaf(t, bits);
    } else {
      NoPathInside(t, bits);
      EnoughBitsForPath(if bits[0] then t.right else t.left, bits[1..]);
    }
  }

  lemma {:induction false} EnoughBits(text: seq<CodeUnit>, bits: seq<bool>)
    requires 2 <= |FirstSeen(text)| <= |bits|
    ensures text != [] && !NoCodeBefore(TextCodes(text), bits)
  {
    assert text != [];
    TwoSymbolsNode(text);
    hide *;
    HuffmanTreeShape(text);
    EnoughBitsForPath(HuffmanTree(text), bits);
    CodesArePaths(text, bits);
  }

  /**
   With two to eight distinct characters, a request for fewer characters than were encoded gives
   exactly these if and only if the last byte is the one that emits the last of them.
   */
  lemma {:induction false} FewKindsFewer(text: seq<CodeUnit>, other: seq<CodeUnit>, n: nat)
    requires Encodable(text) && 2 <= |FirstSeen(text)| <= 8 && Over(text, other) && 0 < n < |other|
    ensures var r, bytes := Decode(TreeData(text), Pack(CodedBits(text, other)), n), Pack(CodedBits(text, other));
            r.Ok? && (r.value == other[..n] <==> |CodedBits(text, other[..n])| / 8 == |bytes| - 1)
  {
    hide *;
    EncodableFits(text);
    DecodeFewer(text, other, n);
    TwoSymbolsNode(text);
    FrontBits(text, other, n);
    var behind := BitsBehind(text, other, n);
    BitsBehindLength(text, other, n);
    if behind == [] {
      NothingHidesNoCode(TextCodes(text), behind);
    } else {
      EnoughBits(text, behind);
    }
  }

  lemma {:induction false} NothingHidesNoCode(codes: Codes, bits: seq<bool>)
    requires bits == []
    ensures NoCodeBefore(codes, bits)
  {
  }

  lemma {:induction false} BitsBehindLength(text: seq<CodeUnit>, other: seq<CodeUnit>, n: nat)
    requires text != [] && n < |other| && CodedBits(text, other[..n]) < CodedBits(text, other)
    ensures var b, bytes := |CodedBits(text, other[..n])| / 8, Pack(CodedBits(text, other));
            b < |bytes| && |BitsBehind(text, other, n)| == 8 * (|bytes| - 1 - b)
  {
    hide CodedBits, Pack, Unpack;
  }

  /** Nine characters of two kinds, one of them asked for: two come back. */
  lemma {:induction false} SecondByteAddsOne(text: seq<CodeUnit>)
    requires text == [97, 98, 98, 97, 98, 97, 97, 98, 97]
    ensures var r := Decode(TreeData(text), Pack(CodedBits(text, text)), 1);
            r.Ok? && |r.value| == 2 && r.value[0] == 97
  {
    assert text[0] == 97 && text[1] == 98;
    hide *;
    OneOfTwoKinds(text);
    TwoBytesAddOne(text);
    var value := Decode(TreeData(text), Pack(CodedBits(text, text)), 1).value;
    assert value[0] == value[..1][0] == text[..1][0];
  }

  /** The general form: a text of two kinds whose bits need a second byte. */
  lemma {:induction false} TwoBytesAddOne(text: seq<CodeUnit>)
    requires Encodable(text) && |FirstSeen(text)| == 2 && 8 < |text| <= 16
    ensures var r := Decode(TreeData(text), Pack(CodedBits(text, text)), 1);
            r.Ok? && |r.value| == 2 && r.value[..1] == text[..1]
  {
    hide *;
    OverItself(text);
    TwoSymbolBits(text);
    FewKindsFewer(text, text, 1);
    FirstCodeLength(text);
    DecodeFewer(text, text, 1);
    DecodeAtMost(TreeData(text), Pack(CodedBits(text, text)), 1);
  }

  lemma {:induction false} OneOfTwoKinds(text: seq<CodeUnit>)
    requires 97 in text && 98 in text && forall i :: 0 <= i < |text| ==> text[i] == 97 || text[i] == 98
    ensures |FirstSeen(text)| == 2 && Encodable(text) && Over(text, text)
  {
    hide FirstSeen;
    TwoSymbols(text, 97, 98);
  }

  lemma {:induction false} DepthBelowLeaves(t: Tree, c: CodeUnit)
    requires c in Chars(t)
    ensures Depth(t, c) < |Leaves(t)|
  {
    if t.Node? {
      DepthBelowLeaves(if c in Chars(t.left) then t.left else t.right, c);
    }
  }

  lemma {:induction false} FirstCodeLength(text: seq<CodeUnit>)
    requires |FirstSeen(text)| >= 2
    ensures text != [] && |CodedBits(text, text[..1])| < |FirstSeen(text)|
  {
    assert text != [];
    TwoSymbolsNode(text);
    TextCode(text, text[0]);
    hide HuffmanTree, FirstSeen, TextCodes;
    DepthBelowLeaves(HuffmanTree(text), text[0]);
    OneCode(TextCodes(text), text[..1]);
  }

  lemma {:induction false} OneCode(codes: Codes, text: seq<CodeUnit>)
    requires |text| == 1 && text[0] in codes
    ensures EncodeBits(codes, text) == codes[text[0]]
  {
    assert EncodeBits(codes, text[1..]) == [];
  }

  /** Four characters of two kinds, five asked for: the padding spells a fifth. */
  lemma {:induction false} PaddingAddsOne(text: seq<CodeUnit>)
    requires text == [97, 98, 98, 97]
    ensures var r := Decode(TreeData(text), Pack(CodedBits(text, text)), 5);
            r.Ok? && |r.value| == 5 && r.value[..4] == text
  {
    assert text[0] == 97 && text[1] == 98;
    hide *;
    OneOfTwoKinds(text);
    TwoSymbolBits(text);
    var bits := CodedBits(text, text);
    assert |Pack(bits)| == 1;
    PaddingSize(bits);
    DecodeMore(text, text, 5);
    EnoughBits(text, Padding(bits));
    DecodeAtMost(TreeData(text), Pack(bits), 5);
  }

  lemma {:induction false} PaddingSize(bits: seq<bool>)
    ensures |Padding(bits)| == 8 * |Pack(bits)| - |bits|
  {
  }
}
