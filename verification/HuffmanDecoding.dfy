/**
 The decoder as a state machine over the bits of its input. It walks the flat tree and emits a
 character one bit after it has reached the character's leaf.
 */
module HuffmanDecoding {
  import opened Bytes
  import opened BitPacking
  import opened HuffmanTrees
  import opened HuffmanCodes
  import opened HuffmanOptimality
  import opened TreeBytes

  datatype DecodeError =
    | InvalidTreeLength
    | OffsetOutOfBounds(offset: nat)
    | InvalidNodeIndex(index: nat)
    | InvalidNodeType(kind: nat)

  datatype Result<+T> = Ok(value: T) | Err(error: DecodeError)

  /** What one bit does: go on, leave the loop over the byte's bits, or throw. */
  datatype Outcome =
    | Next(node: nat, out: seq<Byte>)
    | Break(node: nat, out: seq<Byte>)
    | Throw(error: DecodeError)

  function Follow(first: nat, second: nat, bit: bool, count: nat, out: seq<Byte>): Outcome
  {
    var child := if bit then second else first;
    if child >= count then Throw(InvalidNodeIndex(child)) else Next(child, out)
  }

  function Step(data: seq<Byte>, node: nat, out: seq<Byte>, limit: int, bit: bool): Outcome
    requires |data| > 0 && |data| % 3 == 0
  {
    var count := |data| / 3;
    if 3 * node + 2 >= |data| then Throw(OffsetOutOfBounds(3 * node))
    else
      var here := RecordAt(data, node);
      if here.kind == 0 then
        var out' := out + [here.first];
        var root := RecordAt(data, count - 1);
        if |out'| >= limit then Break(count - 1, out')
        else if root.kind == 1 then Follow(root.first, root.second, bit, count, out')
        else Next(count - 1, out')
      else if here.kind == 1 then Follow(here.first, here.second, bit, count, out)
      else Throw(InvalidNodeType(here.kind))
  }

  /** The loop over the bits of one byte. */
  function RunBits(data: seq<Byte>, node: nat, out: seq<Byte>, limit: int, bits: seq<bool>): Outcome
    requires |data| > 0 && |data| % 3 == 0
    decreases bits
  {
    if bits == [] then Next(node, out)
    else
      match Step(data, node, out, limit, bits[0])
      case Next(n, o) => RunBits(data, n, o, limit, bits[1..])
      case other => other
  }

  /** The loop over the bytes: leaving the inner loop early does not leave this one. */
  function RunBytes(data: seq<Byte>, node: nat, out: seq<Byte>, limit: int, bytes: seq<Byte>): Result<seq<Byte>>
    requires |data| > 0 && |data| % 3 == 0
    decreases bytes
  {
    if bytes == [] then Ok(out)
    else
      match RunBits(data, node, out, limit, ByteBits(bytes[0]))
      case Throw(e) => Err(e)
      case Next(n, o) => RunBytes(data, n, o, limit, bytes[1..])
      case Break(n, o) => RunBytes(data, n, o, limit, bytes[1..])
  }

  function Decode(data: seq<Byte>, bytes: seq<Byte>, limit: int): Result<seq<Byte>>
  {
    if |data| % 3 != 0 || |data| == 0 then Err(InvalidTreeLength)
    else RunBytes(data, |data| / 3 - 1, [], limit, bytes)
  }

  // ----- no input makes the decoder throw -----

  lemma {:induction false} RunBitsIsSafe(data: seq<Byte>, node: nat, out: seq<Byte>, limit: int, bits: seq<bool>)
    requires SafeTree(data) && node < |data| / 3
    ensures var r := RunBits(data, node, out, limit, bits); !r.Throw? && r.node < |data| / 3
    decreases bits
  {
    if bits != [] {
      assert SafeRecord(RecordAt(data, node), |data| / 3);
      assert SafeRecord(RecordAt(data, |data| / 3 - 1), |data| / 3);
      var s := Step(data, node, out, limit, bits[0]);
      assert !s.Throw? && s.node < |data| / 3;
      if s.Next? {
        RunBitsIsSafe(data, s.node, s.out, limit, bits[1..]);
      }
    }
  }

  lemma {:induction false} RunBytesIsSafe(data: seq<Byte>, node: nat, out: seq<Byte>, limit: int, bytes: seq<Byte>)
    requires SafeTree(data) && node < |data| / 3
    ensures RunBytes(data, node, out, limit, bytes).Ok?
    decreases bytes
  {
    if bytes != [] {
      RunBitsIsSafe(data, node, out, limit, ByteBits(bytes[0]));
      var r := RunBits(data, node, out, limit, ByteBits(bytes[0]));
      RunBytesIsSafe(data, r.node, r.out, limit, bytes[1..]);
    }
  }

  /** The tree data of every text is safe to decode any bytes with, for any requested length. */
  lemma {:induction false} DecodeNeverThrows(text: seq<CodeUnit>, bytes: seq<Byte>, limit: int)
    requires text != []
    ensures Decode(TreeData(text), bytes, limit).Ok?
  {
    FlatTreeIsSafe(HuffmanTree(text));
    assert SafeTree(TreeData(text)) && |TreeData(text)| > 0 && |TreeData(text)| % 3 == 0;
    hide SafeTree, TreeData, RunBytes, HuffmanTree;
    RunBytesIsSafe(TreeData(text), |TreeData(text)| / 3 - 1, [], limit, bytes);
  }

  // ----- runs over concatenated bits -----

  lemma {:induction false} RunBitsAppend(data: seq<Byte>, node: nat, out: seq<Byte>, limit: int,
                                         a: seq<bool>, b: seq<bool>)
    requires |data| > 0 && |data| % 3 == 0
    ensures RunBits(data, node, out, limit, a + b) ==
            match RunBits(data, node, out, limit, a)
            case Next(n, o) => RunBits(data, n, o, limit, b)
            case other => other
    decreases a
  {
    if a == [] {
      assert a + b == b;
    } else {
      assert (a + b)[1..] == a[1..] + b;
      var s := Step(data, node, out, limit, a[0]);
      if s.Next? {
        RunBitsAppend(data, s.node, s.out, limit, a[1..], b);
      }
    }
  }

  /** The byte loop is the bit loop over all bits, when it is left early in the last byte at most. */
  lemma {:induction false} BytesAreBits(data: seq<Byte>, node: nat, out: seq<Byte>, limit: int, bytes: seq<Byte>)
    requires |data| > 0 && |data| % 3 == 0 && bytes != []
    requires RunBits(data, node, out, limit, Unpack(bytes[..|bytes| - 1])).Next?
    ensures RunBytes(data, node, out, limit, bytes) ==
            match RunBits(data, node, out, limit, Unpack(bytes))
            case Next(_, o) => Ok(o)
            case Break(_, o) => Ok(o)
            case Throw(e) => Err(e)
    decreases bytes
  {
    var head, tail := ByteBits(bytes[0]), bytes[1..];
    assert Unpack(bytes) == head + Unpack(tail);
    RunBitsAppend(data, node, out, limit, head, Unpack(tail));
    var r := RunBits(data, node, out, limit, head);
    if tail == [] {
      assert Unpack(tail) == [];
    } else {
      var front := bytes[..|bytes| - 1];
      assert front[0] == bytes[0] && front[1..] == tail[..|tail| - 1];
      assert Unpack(front) == head + Unpack(tail[..|tail| - 1]);
      RunBitsAppend(data, node, out, limit, head, Unpack(tail[..|tail| - 1]));
      BytesAreBits(data, r.node, r.out, limit, tail);
    }
  }

  // ----- walking down the stored tree -----

  /** Record i is the root of the stored shape. */
  ghost predicate At(data: seq<Byte>, i: nat, s: Shape)
  {
    i < |data| / 3 && Rebuild(ReadRecords(data), i) == Some(s)
  }

  lemma {:induction false} AtRecord(data: seq<Byte>, i: nat, s: Shape)
    requires At(data, i, s)
    ensures match s
            case Tip(c) => RecordAt(data, i).kind == 0 && RecordAt(data, i).first == c
            case Fork(l, r) =>
              var x := RecordAt(data, i);
              x.kind == 1 && At(data, x.first, l) && At(data, x.second, r)
  {
  }

  /** From an inner node, the bits of a path lead to the path's leaf and emit nothing. */
  lemma {:induction false} WalkPath(data: seq<Byte>, i: nat, t: Tree, c: CodeUnit, out: seq<Byte>, limit: int)
    returns (leaf: nat)
    requires |data| > 0 && |data| % 3 == 0 && At(data, i, ShapeOf(t))
    requires c in Chars(t)
    ensures At(data, leaf, Tip(c))
    ensures RunBits(data, i, out, limit, Path(t, c)) == Next(leaf, out)
    decreases t
  {
    AtRecord(data, i, ShapeOf(t));
    match t
    case Leaf(_, _) => leaf := i;
    case Node(_, l, r) =>
      var here := RecordAt(data, i);
      var path := Path(t, c);
      if c in Chars(l) {
        leaf := WalkPath(data, here.first, l, c, out, limit);
        assert path[1..] == Path(l, c) && !path[0];
      } else {
        leaf := WalkPath(data, here.second, r, c, out, limit);
        assert path[1..] == Path(r, c) && path[0];
      }
  }

  /** From a leaf, the next bits first emit its character and then walk from the root. */
  lemma {:induction false} WalkFromLeaf(data: seq<Byte>, leaf: nat, b: CodeUnit, t: Tree, c: CodeUnit,
                                        out: seq<Byte>, limit: int)
    returns (next: nat)
    requires |data| > 0 && |data| % 3 == 0 && At(data, |data| / 3 - 1, ShapeOf(t)) && t.Node?
    requires At(data, leaf, Tip(b)) && b < 256 && |out| + 1 < limit
    requires c in Chars(t)
    ensures At(data, next, Tip(c))
    ensures RunBits(data, leaf, out, limit, Path(t, c)) == Next(next, out + [b])
  {
    AtRecord(data, leaf, Tip(b));
    AtRecord(data, |data| / 3 - 1, ShapeOf(t));
    var root := RecordAt(data, |data| / 3 - 1);
    var path := Path(t, c);
    var side := if path[0] then root.second else root.first;
    var t' := if c in Chars(t.left) then t.left else t.right;
    next := WalkPath(data, side, t', c, out + [b], limit);
    assert path[1..] == Path(t', c);
    assert Step(data, leaf, out, limit, path[0]) == Next(side, out + [b]);
  }

  function PathBits(t: Tree, text: seq<CodeUnit>): seq<bool>
    requires forall i :: 0 <= i < |text| ==> text[i] in Chars(t)
  {
    if text == [] then [] else Path(t, text[0]) + PathBits(t, text[1..])
  }

  lemma {:induction false} RunNothing(data: seq<Byte>, node: nat, out: seq<Byte>, limit: int)
    requires |data| > 0 && |data| % 3 == 0
    ensures RunBits(data, node, out, limit, []) == Next(node, out)
  {
  }

  lemma {:induction false} PathBitsNone(t: Tree, text: seq<CodeUnit>)
    requires text == []
    ensures PathBits(t, text) == []
  {
  }

  lemma {:induction false} PathBitsNext(t: Tree, text: seq<CodeUnit>)
    requires text != [] && forall i :: 0 <= i < |text| ==> text[i] in Chars(t)
    ensures PathBits(t, text) == Path(t, text[0]) + PathBits(t, text[1..])
  {
  }

  predicate ByteText(text: seq<CodeUnit>)
  {
    forall i :: 0 <= i < |text| ==> text[i] < 256
  }

  /** Between characters the decoder is at the leaf of the last one, which it has yet to emit. */
  lemma {:induction false} WalkText(data: seq<Byte>, t: Tree, text: seq<CodeUnit>, i: nat, leaf: nat)
    returns (last: nat)
    requires |data| > 0 && |data| % 3 == 0 && At(data, |data| / 3 - 1, ShapeOf(t)) && t.Node?
    requires ByteText(text) && i < |text| && At(data, leaf, Tip(text[i]))
    requires forall k :: 0 <= k < |text| ==> text[k] in Chars(t)
    ensures At(data, last, Tip(text[|text| - 1]))
    ensures RunBits(data, leaf, text[..i], |text|, PathBits(t, text[i + 1..])) == Next(last, text[..|text| - 1])
    decreases |text| - i
  {
    hide RunBits, At, ShapeOf, Path, Chars, PathBits;
    var rest := text[i + 1..];
    if rest == [] {
      last := leaf;
      RunNothing(data, leaf, text[..i], |text|);
      PathBitsNone(t, rest);
      assert text[..i] == text[..|text| - 1];
    } else {
      PathBitsNext(t, rest);
      var next := WalkFromLeaf(data, leaf, text[i], t, text[i + 1], text[..i], |text|);
      last := WalkText(data, t, text, i + 1, next);
      assert text[..i] + [text[i]] == text[..i + 1];
      assert rest[1..] == text[i + 2..];
      RunBitsAppend(data, leaf, text[..i], |text|, Path(t, rest[0]), PathBits(t, rest[1..]));
    }
  }

  /** The state after exactly the bits of the text, when the root is an inner node. */
  lemma {:induction false} RunText(data: seq<Byte>, t: Tree, text: seq<CodeUnit>) returns (last: nat)
    requires |data| > 0 && |data| % 3 == 0 && At(data, |data| / 3 - 1, ShapeOf(t)) && t.Node?
    requires text != [] && ByteText(text)
    requires forall k :: 0 <= k < |text| ==> text[k] in Chars(t)
    ensures At(data, last, Tip(text[|text| - 1]))
    ensures RunBits(data, |data| / 3 - 1, [], |text|, PathBits(t, text)) == Next(last, text[..|text| - 1])
  {
    var root := |data| / 3 - 1;
    var first := WalkPath(data, root, t, text[0], [], |text|);
    assert text[..0] == [];
    last := WalkText(data, t, text, 0, first);
    RunBitsAppend(data, root, [], |text|, Path(t, text[0]), PathBits(t, text[1..]));
  }

  /** At the last leaf, one more bit of any value emits the last character and ends the byte. */
  lemma {:induction false} PaddingEmitsLast(data: seq<Byte>, last: nat, text: seq<CodeUnit>, pad: seq<bool>)
    requires |data| > 0 && |data| % 3 == 0 && text != [] && ByteText(text)
    requires At(data, last, Tip(text[|text| - 1]))
    ensures RunBits(data, last, text[..|text| - 1], |text|, pad) ==
            if pad == [] then Next(last, text[..|text| - 1]) else Break(|data| / 3 - 1, text)
  {
    AtRecord(data, last, Tip(text[|text| - 1]));
    assert text[..|text| - 1] + [text[|text| - 1]] == text;
  }

  /** A lone leaf as root emits its character once per bit until the limit is reached. */
  lemma {:induction false} LoneLeafRun(data: seq<Byte>, text: seq<CodeUnit>, i: nat, bits: seq<bool>)
    requires |data| > 0 && |data| % 3 == 0 && ByteText(text) && i < |text|
    requires At(data, |data| / 3 - 1, Tip(text[0]))
    requires forall k :: 0 <= k < |text| ==> text[k] == text[0]
    ensures RunBits(data, |data| / 3 - 1, text[..i], |text|, bits) ==
            if i + |bits| < |text| then Next(|data| / 3 - 1, text[..i + |bits|]) else Break(|data| / 3 - 1, text)
    decreases bits
  {
    AtRecord(data, |data| / 3 - 1, Tip(text[0]));
    if bits != [] {
      assert text[..i] + [text[0]] == text[..i + 1];
      if i + 1 < |text| {
        LoneLeafRun(data, text, i + 1, bits[1..]);
      } else {
        assert text[..i + 1] == text;
      }
    }
  }

  // ----- the decode law -----

  /** The texts whose tree survives in bytes: at most 129 distinct characters, all below 256. */
  predicate Encodable(text: seq<CodeUnit>)
  {
    text != [] && |FirstSeen(text)| <= 129 && ByteText(text)
  }

  /** The bits of some characters, in the code of a text that may be another one. */
  function CodedBits(text: seq<CodeUnit>, other: seq<CodeUnit>): seq<bool>
    requires text != []
  {
    EncodeBits(TextCodes(text), other)
  }

  predicate Over(text: seq<CodeUnit>, other: seq<CodeUnit>)
  {
    forall i :: 0 <= i < |other| ==> other[i] in text
  }

  lemma {:induction false} StoredTree(text: seq<CodeUnit>)
    requires Encodable(text)
    ensures var data := TreeData(text);
            |data| > 0 && |data| % 3 == 0 && At(data, |data| / 3 - 1, ShapeOf(HuffmanTree(text)))
  {
    hide *;
    EncodableFits(text);
    var t := HuffmanTree(text);
    TruncationIsLossless(t);
    FlatTreeDeterminesTree(t);
    TreeDataSize(text);
    assert TreeData(text) == FlatTree(t);
    ReadFromRoot(TreeData(text), ShapeOf(t));
  }

  lemma {:induction false} EncodableFits(text: seq<CodeUnit>)
    requires Encodable(text)
    ensures text != [] && FitsBytes(HuffmanTree(text)) && FirstSeen(text) != []
    ensures TreeData(text) == Truncate(FlatTree(HuffmanTree(text)))
  {
    TwoSymbolsNode(text);
    HuffmanTreeShape(text);
    hide HuffmanTree, FlatTree;
  }

  lemma {:induction false} ReadFromRoot(data: seq<Byte>, s: Shape)
    requires ReadTree(data) == Some(s) && |data| % 3 == 0
    ensures |data| > 0 && At(data, |data| / 3 - 1, s)
  {
    hide ReadRecords;
  }

  lemma {:induction false} TextBitsArePaths(t: Tree, codes: Codes, text: seq<CodeUnit>)
    requires forall i :: 0 <= i < |text| ==>
               text[i] in Chars(t) && text[i] in codes && codes[text[i]] == Path(t, text[i])
    ensures EncodeBits(codes, text) == PathBits(t, text)
  {
    if text != [] {
      TextBitsArePaths(t, codes, text[1..]);
    }
  }

  lemma {:induction false} TextIsInTree(text: seq<CodeUnit>, other: seq<CodeUnit>)
    requires text != [] && Over(text, other)
    ensures forall i :: 0 <= i < |other| ==> other[i] in Chars(HuffmanTree(text))
    ensures HuffmanTree(text).Node? ==> CodedBits(text, other) == PathBits(HuffmanTree(text), other)
    ensures HuffmanTree(text).Leaf? ==>
              |CodedBits(text, other)| == |other| &&
              forall i :: 0 <= i < |other| ==> other[i] == HuffmanTree(text).symbol
  {
    var t := HuffmanTree(text);
    TextCode(text, text[0]);
    forall i | 0 <= i < |other|
      ensures other[i] in Chars(t) && other[i] in TextCodes(text)
      ensures TextCodes(text)[other[i]] == if t.Leaf? then [false] else Path(t, other[i])
    {
      TextCode(text, other[i]);
    }
    if t.Node? {
      TextBitsArePaths(t, TextCodes(text), other);
    } else {
      LoneSymbolBits(TextCodes(text), other, t.symbol);
    }
  }

  function Padding(bits: seq<bool>): seq<bool>
  {
    Falses(8 * |Pack(bits)| - |bits|)
  }

  /** The bits before the last byte are bits of the text. */
  lemma {:induction false} BitsBeforeLastByte(bits: seq<bool>)
    requires bits != []
    ensures var bytes := Pack(bits);
            && Unpack(bytes) == bits + Padding(bits)
            && 8 * (|bytes| - 1) < |bits|
            && Unpack(bytes[..|bytes| - 1]) == bits[..8 * (|bytes| - 1)]
  {
    var bytes := Pack(bits);
    UnpackPack(bits);
    UnpackPrefix(bytes, |bytes| - 1);
    assert Unpack(bytes)[..8 * (|bytes| - 1)] == bits[..8 * (|bytes| - 1)];
  }

  lemma {:induction false} UnpackPrefix(bytes: seq<Byte>, n: nat)
    requires n <= |bytes|
    ensures Unpack(bytes[..n]) == Unpack(bytes)[..8 * n]
  {
    if n > 0 {
      UnpackPrefix(bytes[1..], n - 1);
      assert bytes[..n][1..] == bytes[1..][..n - 1];
      assert Unpack(bytes) == ByteBits(bytes[0]) + Unpack(bytes[1..]);
    }
  }

  lemma {:induction false} RunsThroughPrefix(data: seq<Byte>, limit: int, front: seq<bool>, back: seq<bool>)
    requires |data| > 0 && |data| % 3 == 0
    requires RunBits(data, |data| / 3 - 1, [], limit, front + back).Next?
    ensures RunBits(data, |data| / 3 - 1, [], limit, front).Next?
  {
    hide *;
    RunBitsAppend(data, |data| / 3 - 1, [], limit, front, back);
  }

  lemma {:induction false} PaddingLength(bits: seq<bool>)
    ensures Padding(bits) == [] <==> |bits| % 8 == 0
  {
  }

  /** What the byte loop makes of packed bits that it runs through without leaving early. */
  lemma {:induction false} RunPacked(data: seq<Byte>, limit: int, bits: seq<bool>)
    requires |data| > 0 && |data| % 3 == 0 && bits != []
    requires RunBits(data, |data| / 3 - 1, [], limit, bits).Next?
    ensures RunBytes(data, |data| / 3 - 1, [], limit, Pack(bits)) ==
            match RunBits(data, |data| / 3 - 1, [], limit, bits + Padding(bits))
            case Next(_, o) => Ok(o)
            case Break(_, o) => Ok(o)
            case Throw(e) => Err(e)
  {
    hide *;
    var bytes := Pack(bits);
    BitsBeforeLastByte(bits);
    var cut := 8 * (|bytes| - 1);
    assert bits[..cut] + bits[cut..] == bits;
    RunsThroughPrefix(data, limit, bits[..cut], bits[cut..]);
    BytesAreBits(data, |data| / 3 - 1, [], limit, bytes);
  }

  lemma {:induction false} RunPackedAndPadding(data: seq<Byte>, limit: int, bits: seq<bool>, last: nat,
                                               front: seq<Byte>, all: seq<Byte>)
    requires |data| > 0 && |data| % 3 == 0 && bits != []
    requires RunBits(data, |data| / 3 - 1, [], limit, bits) == Next(last, front)
    requires RunBits(data, last, front, limit, Padding(bits)) ==
             if Padding(bits) == [] then Next(last, front) else Break(|data| / 3 - 1, all)
    ensures RunBytes(data, |data| / 3 - 1, [], limit, Pack(bits)) == Ok(if |bits| % 8 != 0 then all else front)
  {
    hide *;
    RunPacked(data, limit, bits);
    RunBitsAppend(data, |data| / 3 - 1, [], limit, bits, Padding(bits));
    PaddingLength(bits);
  }

  lemma {:induction false} RunPackedText(data: seq<Byte>, t: Tree, text: seq<CodeUnit>, bits: seq<bool>)
    requires |data| > 0 && |data| % 3 == 0 && At(data, |data| / 3 - 1, ShapeOf(t)) && t.Node?
    requires text != [] && ByteText(text)
    requires forall k :: 0 <= k < |text| ==> text[k] in Chars(t)
    requires bits == PathBits(t, text) && bits != []
    ensures RunBytes(data, |data| / 3 - 1, [], |text|, Pack(bits)) ==
            Ok(if |bits| % 8 != 0 then text else text[..|text| - 1])
  {
    var last := RunText(data, t, text);
    PaddingEmitsLast(data, last, text, Padding(bits));
    RunPackedAndPadding(data, |text|, bits, last, text[..|text| - 1], text);
  }

  lemma {:induction false} DecodeIsRun(data: seq<Byte>, bytes: seq<Byte>, limit: int)
    requires |data| > 0 && |data| % 3 == 0
    ensures Decode(data, bytes, limit) == RunBytes(data, |data| / 3 - 1, [], limit, bytes)
  {
  }

  lemma {:induction false} DecodePaths(text: seq<CodeUnit>, other: seq<CodeUnit>)
    requires Encodable(text) && HuffmanTree(text).Node? && Over(text, other) && other != []
    ensures Decode(TreeData(text), Pack(CodedBits(text, other)), |other|) ==
            Ok(if |CodedBits(text, other)| % 8 != 0 then other else other[..|other| - 1])
  {
    hide *;
    EncodableFits(text);
    OverIsByteText(text, other);
    StoredTree(text);
    TextIsInTree(text, other);
    BitsNonempty(text, other);
    RunPackedText(TreeData(text), HuffmanTree(text), other, CodedBits(text, other));
    DecodeIsRun(TreeData(text), Pack(CodedBits(text, other)), |other|);
  }

  lemma {:induction false} OverIsByteText(text: seq<CodeUnit>, other: seq<CodeUnit>)
    requires Encodable(text) && Over(text, other)
    ensures ByteText(other)
  {
  }

  lemma {:induction false} OverItself(text: seq<CodeUnit>)
    ensures Over(text, text)
  {
  }

  lemma {:induction false} BitsNonempty(text: seq<CodeUnit>, other: seq<CodeUnit>)
    requires text != [] && other != [] && Over(text, other)
    ensures CodedBits(text, other) != []
  {
    TextCode(text, other[0]);
  }

  lemma {:induction false} DecodeLone(text: seq<CodeUnit>, other: seq<CodeUnit>)
    requires Encodable(text) && HuffmanTree(text).Leaf? && Over(text, other) && other != []
    ensures Decode(TreeData(text), Pack(CodedBits(text, other)), |other|) == Ok(other)
  {
    OverIsByteText(text, other);
    var data, bits := TreeData(text), CodedBits(text, other);
    var bytes, root := Pack(bits), |data| / 3 - 1;
    StoredTree(text);
    TextIsInTree(text, other);
    BitsNonempty(text, other);
    BitsBeforeLastByte(bits);
    assert other[..0] == [];
    LoneLeafRun(data, other, 0, Unpack(bytes[..|bytes| - 1]));
    LoneLeafRun(data, other, 0, Unpack(bytes));
    BytesAreBits(data, root, [], |other|, bytes);
  }

  /**
   What an encoder built on a text makes of any characters of this text: `decode` gives them back
   exactly when their bits do not fill the last byte, or the text has one distinct character;
   otherwise the last one, whose leaf is reached by the last bit of the input, is lost.
   */
  lemma {:induction false} DecodeLaw(text: seq<CodeUnit>, other: seq<CodeUnit>)
    requires Encodable(text) && Over(text, other) && other != []
    ensures Decode(TreeData(text), Pack(CodedBits(text, other)), |other|) ==
            Ok(if |CodedBits(text, other)| % 8 != 0 || |FirstSeen(text)| == 1 then other else other[..|other| - 1])
  {
    hide Decode, TreeData, Pack, CodedBits, Encodable, HuffmanTree, Over;
    assert text != [] by {
      EncodableFits(text);
    }
    TwoSymbolsNode(text);
    if HuffmanTree(text).Node? {
      DecodePaths(text, other);
    } else {
      DecodeLone(text, other);
    }
  }

  /** With two distinct characters every code is one bit long. */
  lemma {:induction false} TwoSymbolBits(text: seq<CodeUnit>)
    requires |FirstSeen(text)| == 2
    ensures text != [] && |CodedBits(text, text)| == |text|
  {
    BitCountIsMergedFreqs(text);
    StartFreqIsLength(text);
    var heap := StartHeap(text);
    assert heap == [heap[0], heap[1]];
    TwoFirst(heap);
    assert MergedFreqs(heap, 1) == heap[0].freq + heap[1].freq + MergedFreqs(MergeStep(heap), 0);
  }

  lemma {:induction false} ThreeDiffer(keys: seq<CodeUnit>) returns (x: CodeUnit, y: CodeUnit, z: CodeUnit)
    requires |keys| > 2 && forall i, j :: 0 <= i < j < |keys| ==> keys[i] != keys[j]
    ensures x in keys && y in keys && z in keys && x != y && y != z && x != z
  {
    x, y, z := keys[0], keys[1], keys[2];
  }

  lemma {:induction false} TwoSymbols(text: seq<CodeUnit>, c: CodeUnit, d: CodeUnit)
    requires c in text && d in text && c != d
    requires forall i :: 0 <= i < |text| ==> text[i] == c || text[i] == d
    ensures |FirstSeen(text)| == 2
  {
    var keys := FirstSeen(text);
    assert c in keys && d in keys;
    assert forall k :: k in keys ==> k == c || k == d;
    var i :| 0 <= i < |keys| && keys[i] == c;
    var j :| 0 <= j < |keys| && keys[j] == d;
    if |keys| > 2 {
      var x, y, z := ThreeDiffer(keys);
    }
  }

  /** Eight characters of two kinds fill a byte, and the last of them does not come back. */
  lemma {:induction false} LastCharacterLost(text: seq<CodeUnit>)
    requires text == [97, 98, 98, 97, 98, 97, 97, 98]
    ensures Decode(TreeData(text), Pack(CodedBits(text, text)), 8) == Ok([97, 98, 98, 97, 98, 97, 97])
  {
    hide FirstSeen, TreeData, CodedBits, Decode, Pack;
    assert text[0] == 97 && text[1] == 98;
    TwoSymbols(text, 97, 98);
    TwoSymbolBits(text);
    DecodeLaw(text, text);
    assert text[..7] == [97, 98, 98, 97, 98, 97, 97];
  }
}
