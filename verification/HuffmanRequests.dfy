/**
 The decoder asked for other lengths than that of the encoded characters: leaving the loop over a
 byte's bits early does not leave the loop over the bytes, and the padding may spell more of them.
 */
module HuffmanRequests {
  import opened Bytes
  import opened BitPacking
  import opened HuffmanTrees
  import opened HuffmanCodes
  import opened HuffmanOptimality
  import opened TreeBytes
  import opened HuffmanDecoding

  // ----- output only grows -----

  lemma {:induction false} StepGrows(data: seq<Byte>, node: nat, out: seq<Byte>, limit: int, bit: bool)
    requires |data| > 0 && |data| % 3 == 0
    ensures var s := Step(data, node, out, limit, bit);
            && (!s.Throw? ==> out <= s.out)
            && (s.Break? ==> |s.out| == |out| + 1)
  {
  }

  /** Only an emission leaves the loop early. */
  lemma {:induction false} RunBitsGrows(data: seq<Byte>, node: nat, out: seq<Byte>, limit: int, bits: seq<bool>)
    requires |data| > 0 && |data| % 3 == 0
    ensures var r := RunBits(data, node, out, limit, bits);
            && (!r.Throw? ==> out <= r.out)
            && (r.Break? ==> |r.out| > |out|)
    decreases bits
  {
    if bits != [] {
      StepGrows(data, node, out, limit, bits[0]);
      var s := Step(data, node, out, limit, bits[0]);
      hide Step;
      if s.Next? {
        RunBitsGrows(data, s.node, s.out, limit, bits[1..]);
      }
    }
  }

  lemma {:induction false} RunBytesGrows(data: seq<Byte>, node: nat, out: seq<Byte>, limit: int, bytes: seq<Byte>)
    requires |data| > 0 && |data| % 3 == 0
    ensures var r := RunBytes(data, node, out, limit, bytes); r.Ok? ==> out <= r.value
    decreases bytes
  {
    if bytes != [] {
      RunBitsGrows(data, node, out, limit, ByteBits(bytes[0]));
      var r := RunBits(data, node, out, limit, ByteBits(bytes[0]));
      hide RunBits, ByteBits;
      if !r.Throw? {
        RunBytesGrows(data, r.node, r.out, limit, bytes[1..]);
      }
    }
  }

  /** The byte loop emits nothing exactly when the bits alone emit nothing. */
  lemma {:induction false} QuietBytes(data: seq<Byte>, node: nat, out: seq<Byte>, limit: int, bytes: seq<Byte>)
    requires SafeTree(data) && node < |data| / 3
    ensures RunBytes(data, node, out, limit, bytes).Ok? && !RunBits(data, node, out, limit, Unpack(bytes)).Throw?
    ensures RunBytes(data, node, out, limit, bytes).value == out <==>
            RunBits(data, node, out, limit, Unpack(bytes)).out == out
    decreases bytes
  {
    RunBytesIsSafe(data, node, out, limit, bytes);
    RunBitsIsSafe(data, node, out, limit, Unpack(bytes));
    if bytes != [] {
      var head, rest := ByteBits(bytes[0]), Unpack(bytes[1..]);
      assert Unpack(bytes) == head + rest;
      RunBitsIsSafe(data, node, out, limit, head);
      RunBitsGrows(data, node, out, limit, head);
      RunBitsAppend(data, node, out, limit, head, rest);
      var r := RunBits(data, node, out, limit, head);
      RunBytesGrows(data, r.node, r.out, limit, bytes[1..]);
      RunBitsGrows(data, r.node, r.out, limit, rest);
      hide RunBits, ByteBits, SafeTree, Unpack;
      if r.Next? {
        QuietBytes(data, r.node, r.out, limit, bytes[1..]);
      }
    }
  }

  // ----- walks that reach no leaf -----

  /** No character's path ends before the last of the bits. */
  ghost predicate NoPathBefore(t: Tree, bits: seq<bool>)
  {
    forall c :: c in Chars(t) ==> !(Path(t, c) < bits)
  }

  lemma {:induction false} NoPathInside(t: Tree, bits: seq<bool>)
    requires t.Node? && Unambiguous(t) && bits != []
    ensures NoPathBefore(t, bits) <==> NoPathBefore(if bits[0] then t.right else t.left, bits[1..])
  {
    var side := if bits[0] then t.right else t.left;
    forall c | c in Chars(t) ensures Path(t, c) < bits <==> c in Chars(side) && Path(side, c) < bits[1..] {
      var path := Path(t, c);
      if c in Chars(side) {
        assert path == [bits[0]] + Path(side, c);
        assert path[1..] == Path(side, c) && bits == [bits[0]] + bits[1..];
      } else {
        assert path[0] != bits[0];
      }
    }
    assert forall c :: c in Chars(side) ==> c in Chars(t);
  }

  lemma {:induction false} NoPathAtLeaf(t: Tree, bits: seq<bool>)
    requires t.Leaf? || bits == []
    ensures NoPathBefore(t, bits) <==> bits == []
  {
    if t.Leaf? {
      assert t.symbol in Chars(t) && Path(t, t.symbol) == [];
    }
  }

  /** From a node of the stored tree, bits emit something exactly when they pass the leaf of a path. */
  lemma {:induction false} QuietWalk(data: seq<Byte>, i: nat, t: Tree, out: seq<Byte>, limit: int, bits: seq<bool>)
    requires SafeTree(data) && At(data, i, ShapeOf(t)) && Unambiguous(t)
    ensures !RunBits(data, i, out, limit, bits).Throw?
    ensures RunBits(data, i, out, limit, bits).out == out <==> NoPathBefore(t, bits)
    decreases bits
  {
    RunBitsIsSafe(data, i, out, limit, bits);
    if bits == [] {
      NoPathAtLeaf(t, bits);
    } else {
      AtRecord(data, i, ShapeOf(t));
      var s := Step(data, i, out, limit, bits[0]);
      assert RunBits(data, i, out, limit, bits) == match s
                                                   case Next(n, o) => RunBits(data, n, o, limit, bits[1..])
                                                   case other => other;
      if t.Leaf? {
        NoPathAtLeaf(t, bits);
        assert s.Throw? || |s.out| > |out|;
        if s.Next? {
          RunBitsGrows(data, s.node, s.out, limit, bits[1..]);
        }
      } else {
        NoPathInside(t, bits);
        var side := if bits[0] then t.right else t.left;
        var here := RecordAt(data, i);
        var child := if bits[0] then here.second else here.first;
        assert s == Next(child, out);
        hide RunBits, Step, NoPathBefore, SafeTree, At;
        QuietWalk(data, child, side, out, limit, bits[1..]);
      }
    }
  }

  // ----- where the loop is left early -----

  /** Leaving byte b early resumes at the byte behind it. */
  lemma {:induction false} ResumeBehindBreak(data: seq<Byte>, node: nat, out: seq<Byte>, limit: int,
                                             bytes: seq<Byte>, b: nat)
    requires |data| > 0 && |data| % 3 == 0 && b < |bytes|
    requires RunBits(data, node, out, limit, Unpack(bytes[..b])).Next?
    requires RunBits(data, node, out, limit, Unpack(bytes[..b + 1])).Break?
    ensures var r := RunBits(data, node, out, limit, Unpack(bytes[..b + 1]));
            RunBytes(data, node, out, limit, bytes) == RunBytes(data, r.node, r.out, limit, bytes[b + 1..])
    decreases b
  {
    var head := ByteBits(bytes[0]);
    var front := bytes[..b + 1];
    assert front[0] == bytes[0] && Unpack(front) == head + Unpack(front[1..]);
    RunBitsAppend(data, node, out, limit, head, Unpack(front[1..]));
    if b == 0 {
      assert Unpack(front[1..]) == [];
      NothingMore(data, node, out, limit, head);
    } else {
      var before := bytes[..b];
      assert before[0] == bytes[0] && Unpack(before) == head + Unpack(before[1..]);
      RunBitsAppend(data, node, out, limit, head, Unpack(before[1..]));
      var r := RunBits(data, node, out, limit, head);
      hide RunBits, ByteBits, Unpack;
      var tail := bytes[1..];
      assert before[1..] == tail[..b - 1] && front[1..] == tail[..b] && tail[b..] == bytes[b + 1..];
      ResumeBehindBreak(data, r.node, r.out, limit, tail, b - 1);
    }
  }

  lemma {:induction false} NothingMore(data: seq<Byte>, node: nat, out: seq<Byte>, limit: int, bits: seq<bool>)
    requires |data| > 0 && |data| % 3 == 0
    ensures RunBits(data, node, out, limit, bits + []) == RunBits(data, node, out, limit, bits)
  {
    assert bits + [] == bits;
  }

  /** With the n-th character emitted by the first bit behind its path, the rest of that byte is skipped. */
  lemma {:induction false} StopAfter(data: seq<Byte>, t: Tree, text: seq<CodeUnit>, front: seq<bool>, bytes: seq<Byte>)
    requires |data| > 0 && |data| % 3 == 0 && At(data, |data| / 3 - 1, ShapeOf(t)) && t.Node?
    requires text != [] && ByteText(text) && forall k :: 0 <= k < |text| ==> text[k] in Chars(t)
    requires front == PathBits(t, text) && |front| / 8 < |bytes| && front < Unpack(bytes)
    ensures RunBytes(data, |data| / 3 - 1, [], |text|, bytes) ==
            RunBytes(data, |data| / 3 - 1, text, |text|, bytes[|front| / 8 + 1..])
  {
    hide *;
    var root, b, all := |data| / 3 - 1, |front| / 8, Unpack(bytes);
    UnpackPrefix(bytes, b);
    UnpackPrefix(bytes, b + 1);
    UnpackSize(bytes);
    var upTo, through := all[..8 * b], all[..8 * (b + 1)];
    assert front == all[..|front|];
    assert upTo + front[8 * b..] == front;
    var more := all[|front|..8 * (b + 1)];
    assert through == front + more && more != [];
    var last := RunText(data, t, text);
    RunsThroughPrefix(data, |text|, upTo, front[8 * b..]);
    PaddingEmitsLast(data, last, text, more);
    RunBitsAppend(data, root, [], |text|, front, more);
    ResumeBehindBreak(data, root, [], |text|, bytes, b);
  }

  lemma {:induction false} UnpackSize(bytes: seq<Byte>)
    ensures |Unpack(bytes)| == 8 * |bytes|
  {
  }

  // ----- fewer characters than were encoded -----

  /** The bits that are read after the n-th character: those behind the byte that emits it. */
  function BitsBehind(text: seq<CodeUnit>, other: seq<CodeUnit>, n: nat): seq<bool>
    requires text != [] && n <= |other|
  {
    var bytes := Pack(CodedBits(text, other));
    var b := |CodedBits(text, other[..n])| / 8;
    if b < |bytes| then Unpack(bytes[b + 1..]) else []
  }

  /** No code word ends before the last of the bits. */
  ghost predicate NoCodeBefore(codes: Codes, bits: seq<bool>)
  {
    forall c :: c in codes ==> !(codes[c] < bits)
  }

  lemma {:induction false} CodesArePaths(text: seq<CodeUnit>, bits: seq<bool>)
    requires text != [] && HuffmanTree(text).Node?
    ensures NoCodeBefore(TextCodes(text), bits) <==> NoPathBefore(HuffmanTree(text), bits)
  {
    HuffmanTreeShape(text);
    CodesPrefixFree(text);
    hide HuffmanTree, TextCodes;
    forall c | c in Symbols(text)
      ensures c in TextCodes(text) && c in Chars(HuffmanTree(text))
      ensures TextCodes(text)[c] == Path(HuffmanTree(text), c)
    {
      TextCode(text, c);
    }
  }

  lemma {:induction false} PathBitsAppend(t: Tree, a: seq<CodeUnit>, b: seq<CodeUnit>)
    requires forall i :: 0 <= i < |a| ==> a[i] in Chars(t)
    requires forall i :: 0 <= i < |b| ==> b[i] in Chars(t)
    ensures forall i :: 0 <= i < |a + b| ==> (a + b)[i] in Chars(t)
    ensures PathBits(t, a + b) == PathBits(t, a) + PathBits(t, b)
  {
    hide Chars, Path;
    if a == [] {
      assert a + b == b;
    } else {
      assert (a + b)[1..] == a[1..] + b;
      PathBitsAppend(t, a[1..], b);
    }
  }

  /** The codes of a front are a proper front of all codes. */
  lemma {:induction false} FrontBits(text: seq<CodeUnit>, other: seq<CodeUnit>, n: nat)
    requires text != [] && Over(text, other) && n < |other| && HuffmanTree(text).Node?
    ensures forall i :: 0 <= i < |other| ==> other[i] in Chars(HuffmanTree(text))
    ensures Over(text, other[..n]) && CodedBits(text, other[..n]) == PathBits(HuffmanTree(text), other[..n])
    ensures CodedBits(text, other[..n]) < CodedBits(text, other)
  {
    OverFront(text, other, n);
    hide *;
    TextIsInTree(text, other);
    TextIsInTree(text, other[..n]);
    FrontPaths(HuffmanTree(text), other, n);
  }

  lemma {:induction false} OverFront(text: seq<CodeUnit>, other: seq<CodeUnit>, n: nat)
    requires Over(text, other) && n <= |other|
    ensures Over(text, other[..n])
  {
  }

  lemma {:induction false} FrontPaths(t: Tree, other: seq<CodeUnit>, n: nat)
    requires t.Node? && n < |other| && forall i :: 0 <= i < |other| ==> other[i] in Chars(t)
    ensures PathBits(t, other[..n]) < PathBits(t, other)
  {
    hide Chars, Path, PathBits;
    var front, back := other[..n], other[n..];
    assert other == front + back;
    PathBitsAppend(t, front, back);
    PathBitsNonempty(t, back);
  }

  lemma {:induction false} PathBitsNonempty(t: Tree, text: seq<CodeUnit>)
    requires t.Node? && text != [] && forall i :: 0 <= i < |text| ==> text[i] in Chars(t)
    ensures PathBits(t, text) != []
  {
  }

  /**
   Asked for fewer characters than were encoded, the decoder gives at least these, and exactly
   these when no code word ends before the last of the bits behind the byte in which it stops.
   */
  lemma {:induction false} DecodeFewer(text: seq<CodeUnit>, other: seq<CodeUnit>, n: nat)
    requires Encodable(text) && |FirstSeen(text)| >= 2 && Over(text, other) && 0 < n < |other|
    ensures var r := Decode(TreeData(text), Pack(CodedBits(text, other)), n);
            && r.Ok? && other[..n] <= r.value
            && (r.value == other[..n] <==> NoCodeBefore(TextCodes(text), BitsBehind(text, other, n)))
  {
    hide *;
    EncodableFits(text);
    TwoSymbolsNode(text);
    var t, data, bytes := HuffmanTree(text), TreeData(text), Pack(CodedBits(text, other));
    StoredTree(text);
    HuffmanTreeShape(text);
    FlatTreeIsSafe(t);
    FrontBits(text, other, n);
    PackedBits(text, other, n);
    OverIsByteText(text, other);
    FrontIsByteText(other, n);
    var front := other[..n];
    var b := |PathBits(t, front)| / 8;
    StopAfter(data, t, front, PathBits(t, front), bytes);
    var rest := bytes[b + 1..];
    DecodeIsRun(data, bytes, n);
    RunBytesGrows(data, |data| / 3 - 1, front, n, rest);
    QuietBytes(data, |data| / 3 - 1, front, n, rest);
    QuietWalk(data, |data| / 3 - 1, t, front, n, Unpack(rest));
    CodesArePaths(text, Unpack(rest));
  }

  lemma {:induction false} FrontIsByteText(other: seq<CodeUnit>, n: nat)
    requires ByteText(other) && n <= |other|
    ensures ByteText(other[..n])
  {
  }

  /** The packed bits hold those of the front, and the front ends inside them. */
  lemma {:induction false} PackedBits(text: seq<CodeUnit>, other: seq<CodeUnit>, n: nat)
    requires text != [] && n < |other|
    requires CodedBits(text, other[..n]) < CodedBits(text, other)
    ensures var front, bytes := CodedBits(text, other[..n]), Pack(CodedBits(text, other));
            && |front| / 8 < |bytes| && front < Unpack(bytes)
            && BitsBehind(text, other, n) == Unpack(bytes[|front| / 8 + 1..])
  {
    var bits := CodedBits(text, other);
    UnpackPack(bits);
    UnpackSize(Pack(bits));
    hide CodedBits, Unpack, Pack;
  }

  // ----- more characters than were encoded -----

  /** A run that is not stopped by a limit is not stopped by a larger one. */
  lemma {:induction false} LargerLimit(data: seq<Byte>, node: nat, out: seq<Byte>, small: int, large: int,
                                       bits: seq<bool>)
    requires |data| > 0 && |data| % 3 == 0 && small <= large
    requires RunBits(data, node, out, small, bits).Next?
    ensures RunBits(data, node, out, large, bits) == RunBits(data, node, out, small, bits)
    decreases bits
  {
    if bits != [] {
      var s := Step(data, node, out, small, bits[0]);
      assert s.Next? && Step(data, node, out, large, bits[0]) == s;
      hide Step;
      LargerLimit(data, s.node, s.out, small, large, bits[1..]);
    }
  }

  /** Below the limit, the bit that emits the last character is read again from the root. */
  lemma {:induction false} EmitAndGoOn(data: seq<Byte>, t: Tree, last: nat, text: seq<CodeUnit>, n: int,
                                       bits: seq<bool>)
    requires |data| > 0 && |data| % 3 == 0 && At(data, |data| / 3 - 1, ShapeOf(t)) && t.Node?
    requires text != [] && ByteText(text) && At(data, last, Tip(text[|text| - 1])) && |text| < n && bits != []
    ensures RunBits(data, last, text[..|text| - 1], n, bits) == RunBits(data, |data| / 3 - 1, text, n, bits)
  {
    var root := |data| / 3 - 1;
    AtRecord(data, last, Tip(text[|text| - 1]));
    AtRecord(data, root, ShapeOf(t));
    assert text[..|text| - 1] + [text[|text| - 1]] == text;
    assert Step(data, last, text[..|text| - 1], n, bits[0]) == Step(data, root, text, n, bits[0]);
    hide Step, At;
  }

  /** What the padding adds to a text whose bits leave room in the last byte. */
  lemma {:induction false} RunBeyond(data: seq<Byte>, t: Tree, text: seq<CodeUnit>, bits: seq<bool>, n: int)
    requires |data| > 0 && |data| % 3 == 0 && At(data, |data| / 3 - 1, ShapeOf(t)) && t.Node?
    requires SafeTree(data) && Unambiguous(t)
    requires text != [] && ByteText(text) && |text| < n
    requires forall k :: 0 <= k < |text| ==> text[k] in Chars(t)
    requires bits == PathBits(t, text) && bits != []
    ensures var r := RunBytes(data, |data| / 3 - 1, [], n, Pack(bits));
            && r.Ok?
            && (Padding(bits) == [] ==> r.value == text[..|text| - 1])
            && (Padding(bits) != [] ==> text <= r.value && (r.value == text <==> NoPathBefore(t, Padding(bits))))
  {
    assert forall k :: 0 <= k < |text| ==> text[k] < 256;
    hide *;
    var root, pad := |data| / 3 - 1, Padding(bits);
    var last := RunText(data, t, text);
    LargerLimit(data, root, [], |text|, n, bits);
    RunPacked(data, n, bits);
    RunBitsAppend(data, root, [], n, bits, pad);
    assert RunBits(data, root, [], n, bits + pad) == RunBits(data, last, text[..|text| - 1], n, pad);
    if pad == [] {
      RunNothing(data, last, text[..|text| - 1], n);
    } else {
      EmitAndGoOn(data, t, last, text, n, pad);
      RunBitsGrows(data, root, text, n, pad);
      QuietWalk(data, root, t, text, n, pad);
    }
  }

  /**
   Asked for more characters than were encoded, the decoder loses the last one when the bits fill
   the last byte; otherwise it gives all of them, and more unless no code word ends before the last
   of the padding's bits.
   */
  lemma {:induction false} DecodeMore(text: seq<CodeUnit>, other: seq<CodeUnit>, n: int)
    requires Encodable(text) && |FirstSeen(text)| >= 2 && Over(text, other) && other != [] && |other| < n
    ensures var bits := CodedBits(text, other);
            var r := Decode(TreeData(text), Pack(bits), n);
            && r.Ok?
            && (|bits| % 8 == 0 ==> r.value == other[..|other| - 1])
            && (|bits| % 8 != 0 ==>
                  other <= r.value && (r.value == other <==> NoCodeBefore(TextCodes(text), Padding(bits))))
  {
    hide *;
    EncodableFits(text);
    TwoSymbolsNode(text);
    var t, data, bits := HuffmanTree(text), TreeData(text), CodedBits(text, other);
    StoredTree(text);
    HuffmanTreeShape(text);
    FlatTreeIsSafe(t);
    TextIsInTree(text, other);
    BitsNonempty(text, other);
    OverIsByteText(text, other);
    RunBeyond(data, t, other, bits, n);
    DecodeIsRun(data, Pack(bits), n);
    PaddingLength(bits);
    CodesArePaths(text, Padding(bits));
  }

  // ----- a lone character -----

  function Copies(c: Byte, n: nat): (r: seq<Byte>)
    ensures |r| == n && forall i :: 0 <= i < n ==> r[i] == c
  {
    seq(n, i => c)
  }

  /** How many copies come back from some bytes when n are asked for: one more for every byte left over. */
  function LoneCount(bytes: nat, n: nat): nat
    requires n > 0
  {
    var used := (n + 7) / 8;
    if used > bytes then 8 * bytes else n + (bytes - used)
  }

  lemma {:induction false} LoneLeftOver(data: seq<Byte>, c: Byte, out: seq<Byte>, limit: int, bytes: seq<Byte>)
    requires |data| > 0 && |data| % 3 == 0 && At(data, |data| / 3 - 1, Tip(c)) && |out| >= limit
    ensures RunBytes(data, |data| / 3 - 1, out, limit, bytes) == Ok(out + Copies(c, |bytes|))
    decreases bytes
  {
    var root := |data| / 3 - 1;
    if bytes == [] {
      assert out + Copies(c, 0) == out;
    } else {
      AtRecord(data, root, Tip(c));
      var bits := ByteBits(bytes[0]);
      assert Step(data, root, out, limit, bits[0]) == Break(root, out + [c]);
      assert RunBits(data, root, out, limit, bits) == Break(root, out + [c]);
      hide RunBits, Step, ByteBits, At;
      LoneLeftOver(data, c, out + [c], limit, bytes[1..]);
      assert out + [c] + Copies(c, |bytes| - 1) == out + Copies(c, |bytes|);
    }
  }

  /** More copies are asked for than there are bits. */
  lemma {:induction false} LoneRunOut(data: seq<Byte>, c: Byte, n: nat, bytes: seq<Byte>)
    requires |data| > 0 && |data| % 3 == 0 && At(data, |data| / 3 - 1, Tip(c)) && bytes != [] && 8 * |bytes| < n
    ensures RunBytes(data, |data| / 3 - 1, [], n, bytes) == Ok(Copies(c, 8 * |bytes|))
  {
    hide *;
    var all := Copies(c, n);
    assert all[..0] == [];
    CopiesAreText(c, n);
    UnpackSize(bytes);
    UnpackSize(bytes[..|bytes| - 1]);
    LoneLeafRun(data, all, 0, Unpack(bytes[..|bytes| - 1]));
    LoneLeafRun(data, all, 0, Unpack(bytes));
    BytesAreBits(data, |data| / 3 - 1, [], n, bytes);
    assert all[..8 * |bytes|] == Copies(c, 8 * |bytes|);
  }

  /** The last copy asked for is emitted by a bit of byte b. */
  lemma {:induction false} LoneRunStops(data: seq<Byte>, c: Byte, n: nat, bytes: seq<Byte>, b: nat)
    requires |data| > 0 && |data| % 3 == 0 && At(data, |data| / 3 - 1, Tip(c))
    requires b < |bytes| && 8 * b < n <= 8 * (b + 1)
    ensures RunBytes(data, |data| / 3 - 1, [], n, bytes) == Ok(Copies(c, n + (|bytes| - b - 1)))
  {
    hide *;
    var all := Copies(c, n);
    assert all[..0] == [];
    CopiesAreText(c, n);
    UnpackSize(bytes[..b]);
    UnpackSize(bytes[..b + 1]);
    LoneLeafRun(data, all, 0, Unpack(bytes[..b]));
    LoneLeafRun(data, all, 0, Unpack(bytes[..b + 1]));
    ResumeBehindBreak(data, |data| / 3 - 1, [], n, bytes, b);
    LoneLeftOver(data, c, all, n, bytes[b + 1..]);
    assert all + Copies(c, |bytes| - b - 1) == Copies(c, n + (|bytes| - b - 1));
  }

  lemma {:induction false} LoneRun(data: seq<Byte>, c: Byte, n: nat, bytes: seq<Byte>)
    requires |data| > 0 && |data| % 3 == 0 && At(data, |data| / 3 - 1, Tip(c)) && n > 0
    ensures RunBytes(data, |data| / 3 - 1, [], n, bytes) == Ok(Copies(c, LoneCount(|bytes|, n)))
  {
    if bytes == [] {
      assert Copies(c, 0) == [];
    } else if 8 * |bytes| < n {
      hide RunBytes, At;
      LoneRunOut(data, c, n, bytes);
    } else {
      hide RunBytes, At;
      LoneRunStops(data, c, n, bytes, (n + 7) / 8 - 1);
    }
  }

  lemma {:induction false} CopiesAreText(c: Byte, n: nat)
    ensures ByteText(Copies(c, n))
  {
  }

  /** An encoder built on a lone character gives it for any bytes, as often as their number allows. */
  lemma {:induction false} DecodeLoneBytes(text: seq<CodeUnit>, bytes: seq<Byte>, n: nat)
    requires Encodable(text) && |FirstSeen(text)| == 1 && n > 0
    ensures text != [] && text[0] < 256
    ensures Decode(TreeData(text), bytes, n) == Ok(Copies(text[0], LoneCount(|bytes|, n)))
  {
    LoneTree(text);
    hide *;
    EncodableFits(text);
    StoredTree(text);
    DecodeIsRun(TreeData(text), bytes, n);
    LoneRun(TreeData(text), text[0], n, bytes);
  }

  lemma {:induction false} LoneTree(text: seq<CodeUnit>)
    requires Encodable(text) && |FirstSeen(text)| == 1
    ensures text != [] && text[0] < 256 && ShapeOf(HuffmanTree(text)) == Tip(text[0])
  {
    TwoSymbolsNode(text);
    TextIsInTree(text, text);
    hide HuffmanTree;
  }

  /** It comes back once for every bit asked for, and once for every byte left over. */
  lemma {:induction false} DecodeLoneRequest(text: seq<CodeUnit>, other: seq<CodeUnit>, n: nat)
    requires Encodable(text) && |FirstSeen(text)| == 1 && Over(text, other) && n > 0
    ensures text != [] && text[0] < 256
    ensures Decode(TreeData(text), Pack(CodedBits(text, other)), n) ==
            Ok(Copies(text[0], LoneCount((|other| + 7) / 8, n)))
  {
    LoneTree(text);
    assert HuffmanTree(text).Leaf?;
    TextIsInTree(text, other);
    hide HuffmanTree, TreeData, CodedBits, Decode, Encodable, ShapeOf;
    DecodeLoneBytes(text, Pack(CodedBits(text, other)), n);
  }

  /**
   Copies asked for come back alone exactly when their bits reach into the last byte; asked for more
   than there are, just the encoded ones come back exactly when their bits fill the last byte.
   */
  lemma {:induction false} DecodeLoneExact(text: seq<CodeUnit>, other: seq<CodeUnit>, n: nat)
    requires Encodable(text) && |FirstSeen(text)| == 1 && Over(text, other) && other != [] && n > 0
    ensures var r := Decode(TreeData(text), Pack(CodedBits(text, other)), n);
            && r.Ok?
            && (n <= |other| ==> (r.value == other[..n] <==> (n + 7) / 8 == (|other| + 7) / 8))
            && (n > |other| ==> (r.value == other <==> |other| % 8 == 0))
  {
    AllAlike(text, other);
    hide *;
    DecodeLoneRequest(text, other, n);
    LoneCountIsExact(|other|, n);
    FrontIsCopies(other, n);
    SameCopies(text[0], LoneCount((|other| + 7) / 8, n), n);
    SameCopies(text[0], LoneCount((|other| + 7) / 8, n), |other|);
  }

  lemma {:induction false} LoneCountIsExact(length: nat, n: nat)
    requires 0 < length && 0 < n
    ensures n <= length ==> (LoneCount((length + 7) / 8, n) == n <==> (n + 7) / 8 == (length + 7) / 8)
    ensures n > length ==> (LoneCount((length + 7) / 8, n) == length <==> length % 8 == 0)
  {
  }

  lemma {:induction false} FrontIsCopies(text: seq<CodeUnit>, n: nat)
    requires text != [] && text[0] < 256 && forall i :: 0 <= i < |text| ==> text[i] == text[0]
    ensures text == Copies(text[0], |text|)
    ensures n <= |text| ==> text[..n] == Copies(text[0], n)
  {
  }

  lemma {:induction false} SameCopies(c: Byte, m: nat, n: nat)
    ensures Copies(c, m) == Copies(c, n) <==> m == n
  {
    assert |Copies(c, m)| == m && |Copies(c, n)| == n;
  }

  lemma {:induction false} AllAlike(text: seq<CodeUnit>, other: seq<CodeUnit>)
    requires |FirstSeen(text)| == 1 && Over(text, other)
    ensures text != [] && forall i :: 0 <= i < |other| ==> other[i] == text[0]
  {
    assert FirstSeen(text)[0] in text;
    assert text[0] in FirstSeen(text);
    forall i | 0 <= i < |other| ensures other[i] == text[0] {
      assert other[i] in FirstSeen(text);
    }
  }

  lemma {:induction false} TwoDiffer(keys: seq<CodeUnit>) returns (x: CodeUnit, y: CodeUnit)
    requires |keys| > 1 && forall i, j :: 0 <= i < j < |keys| ==> keys[i] != keys[j]
    ensures x in keys && y in keys && x != y
  {
    x, y := keys[0], keys[1];
  }

  lemma {:induction false} OneSymbol(text: seq<CodeUnit>, c: CodeUnit)
    requires text != [] && forall i :: 0 <= i < |text| ==> text[i] == c
    ensures |FirstSeen(text)| == 1
  {
    TextHasSymbols(text);
    assert forall k :: k in FirstSeen(text) ==> k == c;
    if |FirstSeen(text)| > 1 {
      var x, y := TwoDiffer(FirstSeen(text));
    }
  }

  /** One of nine equal characters asked for: two come back, because the second byte adds one. */
  lemma {:induction false} OneTooMany(text: seq<CodeUnit>)
    requires text == Copies(97, 9)
    ensures Decode(TreeData(text), Pack(CodedBits(text, text)), 1) == Ok([97, 97])
  {
    OneSymbol(text, 97);
    hide FirstSeen, Decode, TreeData, Pack, CodedBits;
    DecodeLoneRequest(text, text, 1);
    assert Copies(97, 2) == [97, 97];
  }

  // ----- no characters -----

  lemma {:induction false} SmallLimits(data: seq<Byte>, node: nat, out: seq<Byte>, n: int, bits: seq<bool>)
    requires |data| > 0 && |data| % 3 == 0 && n <= 1
    ensures RunBits(data, node, out, n, bits) == RunBits(data, node, out, 1, bits)
    decreases bits
  {
    if bits != [] {
      var s := Step(data, node, out, 1, bits[0]);
      assert Step(data, node, out, n, bits[0]) == s;
      hide Step;
      if s.Next? {
        SmallLimits(data, s.node, s.out, n, bits[1..]);
      }
    }
  }

  lemma {:induction false} SmallLimitsBytes(data: seq<Byte>, node: nat, out: seq<Byte>, n: int, bytes: seq<Byte>)
    requires |data| > 0 && |data| % 3 == 0 && n <= 1
    ensures RunBytes(data, node, out, n, bytes) == RunBytes(data, node, out, 1, bytes)
    decreases bytes
  {
    if bytes != [] {
      SmallLimits(data, node, out, n, ByteBits(bytes[0]));
      var r := RunBits(data, node, out, 1, ByteBits(bytes[0]));
      hide RunBits, ByteBits;
      if !r.Throw? {
        SmallLimitsBytes(data, r.node, r.out, n, bytes[1..]);
      }
    }
  }

  /** Asking for nothing, or for a negative number, is asking for one character. */
  lemma {:induction false} DecodeNothing(data: seq<Byte>, bytes: seq<Byte>, n: int)
    requires n <= 1
    ensures Decode(data, bytes, n) == Decode(data, bytes, 1)
  {
    if |data| > 0 && |data| % 3 == 0 {
      SmallLimitsBytes(data, |data| / 3 - 1, [], n, bytes);
    }
  }
}
