/** The encoder object of the WebAuthn prefix, with the loops and in-place updates of the original. */
module HuffmanEncoder {
  import opened Bytes
  import opened BitPacking
  import opened HuffmanTrees
  import opened HuffmanCodes
  import opened TreeBytes
  import Decoding = HuffmanDecoding

  class HuffmanEncoder {
    var codes: Codes
    var treeData: seq<Byte>

    /** The state that the constructor leaves behind for a text. */
    ghost predicate BuiltFrom(text: seq<CodeUnit>)
      reads this
    {
      text != [] && codes == TextCodes(text) && treeData == TreeData(text)
    }

    constructor (text: seq<CodeUnit>)
      requires text != []
      ensures BuiltFrom(text)
    {
      hide FirstSeen, Count, LeavesOf, SortByFreq, StartHeap, MergeSteps, HuffmanTree;
      hide CodeTable, TextCodes, FlatTree, Truncate, TreeData;
      HeapIsStart(text);
      var keys, freq := CountFrequencies(text);
      var heap: seq<Tree> := [];
      for i := 0 to |keys|
        invariant heap == LeavesOf(keys, text)[..i]
      {
        heap := heap + [Leaf(freq[keys[i]], keys[i])];
      }
      assert heap == LeavesOf(keys, text);
      heap := SortByFreq(heap);
      var root := MergeAll(heap);
      RootIsTree(text, root);
      codes := map[];
      treeData := [];
      new;
      BuildCodes(root, []);
      assert codes == CodeTable(root, []);
      treeData := SerializeTree(root);
    }

    static lemma {:induction false} HeapIsStart(text: seq<CodeUnit>)
      requires text != []
      ensures StartHeap(text) == SortByFreq(LeavesOf(FirstSeen(text), text)) && |StartHeap(text)| > 0
    {
      TextHasSymbols(text);
    }

    static lemma {:induction false} RootIsTree(text: seq<CodeUnit>, root: Tree)
      requires text != [] && |StartHeap(text)| > 0
      requires root == MergeSteps(StartHeap(text), |StartHeap(text)| - 1)[0]
      ensures root == HuffmanTree(text)
      ensures TextCodes(text) == CodeTable(root, []) && TreeData(text) == Truncate(FlatTree(root))
    {
      hide MergeSteps, StartHeap, CodeTable, FlatTree;
    }

    /** The insertion-ordered frequency map: its keys in order, and their counts. */
    static method CountFrequencies(text: seq<CodeUnit>) returns (keys: seq<CodeUnit>, freq: map<CodeUnit, nat>)
      ensures keys == FirstSeen(text)
      ensures forall c :: c in keys <==> c in freq
      ensures forall c :: c in freq ==> freq[c] == Count(text, c)
    {
      keys, freq := [], map[];
      hide *;
      NothingCounted();
      assert text[..0] == [] && text[..|text|] == text;
      for i := 0 to |text|
        invariant keys == FirstSeen(text[..i])
        invariant forall c :: c in keys <==> c in freq
        invariant forall c :: c in freq ==> freq[c] == Count(text[..i], c)
        invariant forall c :: c !in freq ==> Count(text[..i], c) == 0
      {
        var c := text[i];
        CountNext(text, i);
        FirstSeenNext(text, i);
        if c in freq {
          freq := freq[c := freq[c] + 1];
        } else {
          keys, freq := keys + [c], freq[c := 1];
        }
      }
    }

    static lemma {:induction false} NothingCounted()
      ensures FirstSeen([]) == [] && forall c :: Count([], c) == 0
    {
    }

    static lemma {:induction false} CountNext(text: seq<CodeUnit>, i: nat)
      requires i < |text|
      ensures forall c :: Count(text[..i + 1], c) == Count(text[..i], c) + if c == text[i] then 1 else 0
    {
      assert text[..i + 1] == text[..i] + [text[i]];
    }

    static lemma {:induction false} FirstSeenNext(text: seq<CodeUnit>, i: nat)
      requires i < |text|
      ensures FirstSeen(text[..i + 1]) ==
              if text[i] in FirstSeen(text[..i]) then FirstSeen(text[..i]) else FirstSeen(text[..i]) + [text[i]]
    {
      assert text[..i + 1][..i] == text[..i];
    }

    /** Merges the two lightest trees until one is left. */
    static method MergeAll(start: seq<Tree>) returns (root: Tree)
      requires start != []
      ensures root == MergeSteps(start, |start| - 1)[0]
    {
      var heap := start;
      ghost var passes := 0;
      while |heap| > 1
        invariant passes == |start| - |heap| < |start|
        invariant heap == MergeSteps(start, passes)
        decreases |heap|
      {
        MergeStepsExtend(start, passes);
        var left, right := heap[0], heap[1];
        ghost var before := heap;
        heap := heap[2..];
        var merged := Node(left.freq + right.freq, left, right);
        heap := InsertSorted(merged, heap);
        assert heap == MergeStep(before);
        passes := passes + 1;
      }
      root := heap[0];
    }

    static method InsertSorted(merged: Tree, list: seq<Tree>) returns (heap: seq<Tree>)
      ensures heap == Insert(merged, list)
    {
      heap := list;
      var inserted := false;
      var i := 0;
      while i < |heap|
        invariant i <= |heap| && heap == list && !inserted
        invariant forall j :: 0 <= j < i ==> heap[j].freq < merged.freq
      {
        if merged.freq <= heap[i].freq {
          assert i == InsertPosition(merged, list);
          heap := heap[..i] + [merged] + heap[i..];
          inserted := true;
          break;
        }
        i := i + 1;
      }
      if !inserted {
        assert InsertPosition(merged, list) == |list|;
        heap := heap + [merged];
      }
    }

    method BuildCodes(node: Tree, code: seq<bool>)
      modifies this`codes
      ensures codes == old(codes) + CodeTable(node, code)
      decreases node
    {
      match node
      case Leaf(_, c) =>
        codes := codes[c := if |code| == 0 then [false] else code];
      case Node(_, left, right) =>
        BuildCodes(left, code + [false]);
        BuildCodes(right, code + [true]);
        assert codes == old(codes) + CodeTable(left, code + [false]) + CodeTable(right, code + [true]);
    }

    static method SerializeTree(node: Tree) returns (bytes: seq<Byte>)
      ensures bytes == Truncate(FlatTree(node))
    {
      var data, _ := SerializeNode(node, [], 0);
      bytes := Truncate(data);
    }

    /** Appends the records of a node, children first, and returns the node's index. */
    static method SerializeNode(node: Tree, data: seq<nat>, ghost base: nat) returns (out: seq<nat>, index: nat)
      requires |data| == 3 * base
      ensures out == data + Flatten(Records(node, base))
      ensures index == base + Size(node) - 1
      decreases node
    {
      hide *;
      match node
      case Leaf(_, c) =>
        FlattenLeaf(node, base);
        out := data + [0, c, 0];
        index := |out| / 3 - 1;
      case Node(_, left, right) =>
        ghost var mid := base + Size(left);
        ghost var l, r := Flatten(Records(left, base)), Flatten(Records(right, mid));
        FlattenNode(node, base);
        var leftIndex, rightIndex;
        out, leftIndex := SerializeNode(left, data, base);
        out, rightIndex := SerializeNode(right, out, mid);
        Regroup(data, l, r, [1, leftIndex, rightIndex]);
        out := out + [1, leftIndex, rightIndex];
        assert |out| == 3 * (base + Size(node));
        index := |out| / 3 - 1;
    }

    static lemma {:induction false} Regroup(a: seq<nat>, b: seq<nat>, c: seq<nat>, d: seq<nat>)
      ensures a + b + c + d == a + (b + c + d)
    {
    }

    method Encode(text: seq<CodeUnit>) returns (bytes: seq<Byte>)
      ensures bytes == Pack(EncodeBits(codes, text))
    {
      var bits: seq<bool> := [];
      assert text[0..] == text;
      for i := 0 to |text|
        invariant bits + EncodeBits(codes, text[i..]) == EncodeBits(codes, text)
      {
        ghost var before := bits;
        assert text[i..][1..] == text[i + 1..];
        if text[i] in codes {
          bits := bits + codes[text[i]];
          assert bits + EncodeBits(codes, text[i + 1..]) ==
                 before + (codes[text[i]] + EncodeBits(codes, text[i + 1..]));
        }
      }
      assert bits + [] == bits;
      bytes := ToBytes(bits);
    }

    /** The packing loop of `encode`. */
    static method ToBytes(bits: seq<bool>) returns (bytes: seq<Byte>)
      ensures bytes == Pack(bits)
    {
      hide *;
      bytes := [];
      var i := 0;
      PackEnds(bits);
      assert [] + Pack(bits) == Pack(bits);
      while i < |bits|
        invariant 0 <= i
        invariant bytes + PackRest(bits, i) == Pack(bits)
        decreases |bits| - i
      {
        ghost var head := PackNext(bits, i);
        var byte := ToByte(bits, i, head);
        assert bytes + ([byte] + PackRest(bits, i + 8)) == bytes + [byte] + PackRest(bits, i + 8);
        bytes := bytes + [byte];
        i := i + 8;
      }
      assert bytes + [] == bytes;
    }

    /** The bytes still to be packed when the loop stands at bit i. */
    static ghost function PackRest(bits: seq<bool>, i: nat): seq<Byte>
    {
      if i < |bits| then Pack(bits[i..]) else []
    }

    static lemma {:induction false} PackEnds(bits: seq<bool>)
      ensures PackRest(bits, 0) == Pack(bits)
      ensures forall i: nat :: i >= |bits| ==> PackRest(bits, i) == []
    {
      assert bits[0..] == bits;
    }

    /** Packs the (at most eight) bits from i on, which are those of `head`. */
    static method ToByte(bits: seq<bool>, i: nat, ghost head: seq<bool>) returns (byte: Byte)
      requires |head| <= 8 && i + |head| <= |bits| && (|head| == 8 || i + |head| == |bits|)
      requires forall k :: 0 <= k < |head| ==> head[k] == bits[i + k]
      ensures byte == PackByte(head)
    {
      hide *;
      byte := 0;
      var j := 0;
      PackNothing();
      assert head[..0] == [];
      while j < 8 && i + j < |bits|
        invariant 0 <= j <= |head|
        invariant byte == PackByte(head[..j])
      {
        SetNextBit(head[..j], head[j]);
        assert head[..j] + [head[j]] == head[..j + 1];
        if bits[i + j] {
          byte := SetBit(byte, j);
        }
        j := j + 1;
      }
      assert head[..j] == head;
    }

    static lemma {:induction false} PackNext(bits: seq<bool>, i: nat) returns (head: seq<bool>)
      requires i < |bits|
      ensures |head| <= 8 && i + |head| <= |bits| && (|head| == 8 || i + |head| == |bits|)
      ensures forall k :: 0 <= k < |head| ==> head[k] == bits[i + k]
      ensures PackRest(bits, i) == [PackByte(head)] + PackRest(bits, i + 8)
    {
      var rest := bits[i..];
      head := if |rest| <= 8 then rest else rest[..8];
      assert |rest| > 8 ==> rest[8..] == bits[i + 8..];
    }

    method GetTreeData() returns (data: seq<Byte>)
      ensures data == treeData
    {
      return treeData;
    }

    method Decode(encodedData: seq<Byte>, originalStringLen: int) returns (r: Decoding.Result<seq<Byte>>)
      ensures r == Decoding.Decode(treeData, encodedData, originalStringLen)
    {
      if |treeData| % 3 != 0 || |treeData| == 0 {
        return Decoding.Err(Decoding.InvalidTreeLength);
      }
      var nodeCount := |treeData| / 3;
      var rootIndex := nodeCount - 1;
      var currentNode: nat := rootIndex;
      var decoded: seq<Byte> := [];
      ghost var goal := Decoding.Decode(treeData, encodedData, originalStringLen);

      var byteIdx := 0;
      while byteIdx < |encodedData|
        invariant 0 <= byteIdx <= |encodedData|
        invariant Decoding.RunBytes(treeData, currentNode, decoded, originalStringLen, encodedData[byteIdx..]) == goal
      {
        hide Decoding.RunBits, RecordAt, ByteBits;
        assert encodedData[byteIdx..][1..] == encodedData[byteIdx + 1..];
        var outcome := DecodeByte(treeData, currentNode, decoded, originalStringLen, encodedData[byteIdx]);
        if outcome.Throw? {
          return Decoding.Err(outcome.error);
        }
        currentNode, decoded := outcome.node, outcome.out;
        byteIdx := byteIdx + 1;
      }
      return Decoding.Ok(decoded);
    }

    /** The loop over the bits of one byte; the `break` that ends it early is reported to the caller. */
    static method DecodeByte(tree: seq<Byte>, node: nat, start: seq<Byte>, originalStringLen: int, byte: Byte)
      returns (outcome: Decoding.Outcome)
      requires |tree| > 0 && |tree| % 3 == 0
      ensures outcome == Decoding.RunBits(tree, node, start, originalStringLen, ByteBits(byte))
    {
      ghost var bits := ByteBits(byte);
      assert bits[0..] == bits;
      var bitPos := 0;
      outcome := Decoding.Next(node, start);
      while bitPos < 8
        invariant 0 <= bitPos <= 8 && outcome.Next?
        invariant Decoding.RunBits(tree, outcome.node, outcome.out, originalStringLen, bits[bitPos..]) ==
                  Decoding.RunBits(tree, node, start, originalStringLen, bits)
      {
        NextBit(tree, outcome.node, outcome.out, originalStringLen, bits, bitPos);
        assert TestBit(byte, bitPos) == bits[bitPos];
        hide Decoding.RunBits, Decoding.Step, ByteBits, TestBit;
        outcome := DecodeBit(tree, outcome.node, outcome.out, originalStringLen, TestBit(byte, bitPos));
        if !outcome.Next? {
          return outcome;
        }
        bitPos := bitPos + 1;
      }
    }

    /** The body of the loop over bits. */
    static method DecodeBit(tree: seq<Byte>, node: nat, start: seq<Byte>, originalStringLen: int, bit: bool)
      returns (outcome: Decoding.Outcome)
      requires |tree| > 0 && |tree| % 3 == 0
      ensures outcome == Decoding.Step(tree, node, start, originalStringLen, bit)
    {
      var nodeCount := |tree| / 3;
      var rootIndex := nodeCount - 1;
      var currentNode: nat, decoded := node, start;
      var nodeOffset := currentNode * 3;
      if nodeOffset + 2 >= |tree| {
        return Decoding.Throw(Decoding.OffsetOutOfBounds(nodeOffset));
      }
      var nodeType := tree[nodeOffset];
      var leftOrChar := tree[nodeOffset + 1];
      var right := tree[nodeOffset + 2];

      if nodeType == 0 {
        decoded := decoded + [leftOrChar];
        currentNode := rootIndex;
        if |decoded| >= originalStringLen {
          return Decoding.Break(currentNode, decoded);
        }
        var rootNodeOffset := currentNode * 3;
        if tree[rootNodeOffset] == 1 {
          currentNode := if bit then tree[rootNodeOffset + 2] else tree[rootNodeOffset + 1];
          if currentNode >= nodeCount {
            return Decoding.Throw(Decoding.InvalidNodeIndex(currentNode));
          }
        }
      } else if nodeType == 1 {
        currentNode := if bit then right else leftOrChar;
        if currentNode >= nodeCount {
          return Decoding.Throw(Decoding.InvalidNodeIndex(currentNode));
        }
      } else {
        return Decoding.Throw(Decoding.InvalidNodeType(nodeType));
      }
      return Decoding.Next(currentNode, decoded);
    }

    static lemma {:induction false} NextBit(tree: seq<Byte>, node: nat, out: seq<Byte>, limit: int,
                                            bits: seq<bool>, pos: nat)
      requires |tree| > 0 && |tree| % 3 == 0 && pos < |bits|
      ensures Decoding.RunBits(tree, node, out, limit, bits[pos..]) ==
              match Decoding.Step(tree, node, out, limit, bits[pos])
              case Next(n, o) => Decoding.RunBits(tree, n, o, limit, bits[pos + 1..])
              case other => other
    {
      hide Decoding.Step;
      assert bits[pos..][1..] == bits[pos + 1..];
    }
  }
}
