/**
 Which side a tree ends up on: the lighter one is on the left, ties are settled by age, and with
 them the bits and bytes of every text.
 */
module HuffmanOrder {
  import opened Bytes
  import opened BitPacking
  import opened HuffmanTrees
  import opened HuffmanCodes
  import opened HuffmanOptimality
  import opened TreeBytes
  import opened HuffmanDecoding

  /** c stands before d. */
  ghost predicate Before(keys: seq<CodeUnit>, c: CodeUnit, d: CodeUnit)
  {
    exists i, j :: 0 <= i < j < |keys| && keys[i] == c && keys[j] == d
  }

  /** Of two equally heavy trees, only leaves stand behind a leaf, and in the order of the keys. */
  ghost predicate TieOrder(keys: seq<CodeUnit>, first: Tree, second: Tree)
  {
    first.freq == second.freq && first.Leaf? ==> second.Leaf? && Before(keys, first.symbol, second.symbol)
  }

  /** The lighter side of every inner node is the left one; of equally heavy sides, the tie order decides. */
  ghost predicate InOrder(keys: seq<CodeUnit>, t: Tree)
  {
    t.Node? ==>
      && t.left.freq <= t.right.freq && TieOrder(keys, t.left, t.right)
      && InOrder(keys, t.left) && InOrder(keys, t.right)
  }

  ghost predicate TiesInOrder(keys: seq<CodeUnit>, heap: seq<Tree>)
  {
    forall i, j :: 0 <= i < j < |heap| ==> TieOrder(keys, heap[i], heap[j])
  }

  ghost predicate AllInOrder(keys: seq<CodeUnit>, heap: seq<Tree>)
  {
    forall i :: 0 <= i < |heap| ==> InOrder(keys, heap[i])
  }

  lemma {:induction false} InsertTies(keys: seq<CodeUnit>, t: Tree, heap: seq<Tree>)
    requires TiesInOrder(keys, heap) && forall i :: 0 <= i < |heap| ==> TieOrder(keys, t, heap[i])
    ensures TiesInOrder(keys, Insert(t, heap))
  {
    var p, r := InsertPosition(t, heap), Insert(t, heap);
    forall i, j | 0 <= i < j < |r| ensures TieOrder(keys, r[i], r[j]) {
      if j == p {
        assert r[i] == heap[i] && heap[i].freq < t.freq;
      } else {
        hide TieOrder;
        assert r[j] == heap[if j < p then j else j - 1];
        assert i == p || r[i] == heap[if i < p then i else i - 1];
      }
    }
  }

  lemma {:induction false} InsertInOrder(keys: seq<CodeUnit>, t: Tree, heap: seq<Tree>)
    requires AllInOrder(keys, heap) && InOrder(keys, t)
    ensures AllInOrder(keys, Insert(t, heap))
  {
    hide InOrder;
    var p, r := InsertPosition(t, heap), Insert(t, heap);
    forall i | 0 <= i < |r| ensures InOrder(keys, r[i]) {
      assert i == p || r[i] == heap[if i < p then i else i - 1];
    }
  }

  lemma {:induction false} SortTies(keys: seq<CodeUnit>, leaves: seq<Tree>)
    requires forall i :: 0 <= i < |leaves| ==> leaves[i].Leaf?
    requires forall i, j :: 0 <= i < j < |leaves| ==> TieOrder(keys, leaves[i], leaves[j])
    ensures TiesInOrder(keys, SortByFreq(leaves)) && AllInOrder(keys, SortByFreq(leaves))
  {
    if leaves != [] {
      var t, rest := leaves[0], SortByFreq(leaves[1..]);
      SortTies(keys, leaves[1..]);
      SortSorts(leaves[1..]);
      forall i | 0 <= i < |rest| ensures TieOrder(keys, t, rest[i]) {
        hide TieOrder;
        assert rest[i] in multiset(rest);
        assert rest[i] in leaves[1..];
        var j :| 1 <= j < |leaves| && leaves[j] == rest[i];
      }
      assert InOrder(keys, t);
      hide TieOrder, InOrder;
      InsertTies(keys, t, rest);
      InsertInOrder(keys, t, rest);
    }
  }

  lemma {:induction false} NodeInOrder(keys: seq<CodeUnit>, l: Tree, r: Tree, rest: seq<Tree>)
    requires l.freq <= r.freq && TieOrder(keys, l, r) && InOrder(keys, l) && InOrder(keys, r)
    ensures InOrder(keys, Node(l.freq + r.freq, l, r))
    ensures forall i :: 0 <= i < |rest| ==> TieOrder(keys, Node(l.freq + r.freq, l, r), rest[i])
  {
    hide Before;
  }

  lemma {:induction false} FirstTwo(keys: seq<CodeUnit>, heap: seq<Tree>)
    requires |heap| >= 2 && Sorted(heap) && TiesInOrder(keys, heap) && AllInOrder(keys, heap)
    ensures heap[0].freq <= heap[1].freq && TieOrder(keys, heap[0], heap[1])
    ensures InOrder(keys, heap[0]) && InOrder(keys, heap[1])
    ensures Sorted(heap[2..]) && TiesInOrder(keys, heap[2..]) && AllInOrder(keys, heap[2..])
  {
    hide TieOrder, InOrder;
  }

  /** A merge of the two lightest trees keeps the order of all trees and ties. */
  lemma {:induction false} MergeInOrder(keys: seq<CodeUnit>, heap: seq<Tree>)
    requires |heap| >= 2 && Sorted(heap) && TiesInOrder(keys, heap) && AllInOrder(keys, heap)
    ensures Sorted(MergeStep(heap)) && TiesInOrder(keys, MergeStep(heap)) && AllInOrder(keys, MergeStep(heap))
  {
    var m := Node(heap[0].freq + heap[1].freq, heap[0], heap[1]);
    assert MergeStep(heap) == Insert(m, heap[2..]);
    hide *;
    FirstTwo(keys, heap);
    NodeInOrder(keys, heap[0], heap[1], heap[2..]);
    InsertKeepsOrder(m, heap[2..]);
    InsertTies(keys, m, heap[2..]);
    InsertInOrder(keys, m, heap[2..]);
  }

  lemma {:induction false} MergesInOrder(keys: seq<CodeUnit>, heap: seq<Tree>, n: nat)
    requires n < |heap| && Sorted(heap) && TiesInOrder(keys, heap) && AllInOrder(keys, heap)
    ensures AllInOrder(keys, MergeSteps(heap, n))
    decreases n
  {
    hide Sorted, TiesInOrder, AllInOrder, MergeStep;
    if n > 0 {
      MergeInOrder(keys, heap);
      MergesInOrder(keys, MergeStep(heap), n - 1);
    }
  }

  /** The order of the sides at every inner node of a text's tree. */
  lemma {:induction false} TreeIsInOrder(text: seq<CodeUnit>)
    requires text != []
    ensures InOrder(FirstSeen(text), HuffmanTree(text))
  {
    var keys, heap := FirstSeen(text), StartHeap(text);
    LeavesInOrder(text);
    TextHasSymbols(text);
    hide TieOrder, InOrder, FirstSeen, SortByFreq;
    MergesInOrder(keys, heap, |heap| - 1);
  }

  lemma {:induction false} LeavesInOrder(text: seq<CodeUnit>)
    ensures var keys, heap := FirstSeen(text), StartHeap(text);
            Sorted(heap) && TiesInOrder(keys, heap) && AllInOrder(keys, heap)
  {
    var keys := FirstSeen(text);
    var leaves := LeavesOf(keys, text);
    forall i, j | 0 <= i < j < |leaves| ensures TieOrder(keys, leaves[i], leaves[j]) {
      assert keys[i] == leaves[i].symbol && keys[j] == leaves[j].symbol;
    }
    hide TieOrder, InOrder, FirstSeen, SortByFreq;
    SortTies(keys, leaves);
    SortSorts(leaves);
  }

  /** The keys stand in order of first appearance: each has appeared when a later one has not yet. */
  lemma {:induction false} KeysByAppearance(text: seq<CodeUnit>, i: nat, j: nat) returns (p: nat)
    requires i < j < |FirstSeen(text)|
    ensures p < |text| && text[p] == FirstSeen(text)[i]
    ensures forall q :: 0 <= q <= p ==> text[q] != FirstSeen(text)[j]
  {
    var front, c := text[..|text| - 1], text[|text| - 1];
    var keys := FirstSeen(front);
    if j < |keys| {
      p := KeysByAppearance(front, i, j);
    } else {
      assert FirstSeen(text) == keys + [c] && c !in front;
      assert keys[i] in front;
      p :| 0 <= p < |front| && front[p] == keys[i];
    }
  }

  // ----- two kinds of characters -----

  /** Of two characters the rarer one has the bit 0; of equally frequent ones, the first seen. */
  lemma {:induction false} TwoKinds(text: seq<CodeUnit>, c: CodeUnit, d: CodeUnit)
    requires FirstSeen(text) == [c, d]
    ensures text != []
    ensures HuffmanTree(text) == if Count(text, c) <= Count(text, d)
                                 then Node(|text|, Leaf(Count(text, c), c), Leaf(Count(text, d), d))
                                 else Node(|text|, Leaf(Count(text, d), d), Leaf(Count(text, c), c))
    ensures TextCodes(text) == if Count(text, c) <= Count(text, d) then map[c := [false], d := [true]]
                               else map[c := [true], d := [false]]
  {
    assert text != [] && c != d by {
      assert FirstSeen(text)[0] != FirstSeen(text)[1];
    }
    hide *;
    TwoKindsTree(text, c, d);
    var t := HuffmanTree(text);
    TwoKindsCodes(text, t);
  }

  lemma {:induction false} TwoKindsTree(text: seq<CodeUnit>, c: CodeUnit, d: CodeUnit)
    requires FirstSeen(text) == [c, d] && text != [] && c != d
    ensures HuffmanTree(text) == if Count(text, c) <= Count(text, d)
                                 then Node(|text|, Leaf(Count(text, c), c), Leaf(Count(text, d), d))
                                 else Node(|text|, Leaf(Count(text, d), d), Leaf(Count(text, c), c))
  {
    var t := HuffmanTree(text);
    TwoSymbolsNode(text);
    TwoLeaves(t);
    hide Leaves, HuffmanTree, FirstSeen, Count;
    HuffmanTreeFacts(text);
    HuffmanTreeShape(text);
    StartFreqIsLength(text);
    TwoChars(text, t, c, d);
    LeafWeights(text, t);
    hide LeavesFor, WellWeighted, Unambiguous, Chars, Symbols;
    TreeIsInOrder(text);
    if t.left.freq == t.right.freq {
      FirstBefore(c, d, t.left.symbol, t.right.symbol);
    }
  }

  lemma {:induction false} FirstBefore(c: CodeUnit, d: CodeUnit, x: CodeUnit, y: CodeUnit)
    requires Before([c, d], x, y)
    ensures x == c && y == d
  {
  }

  lemma {:induction false} TwoChars(text: seq<CodeUnit>, t: Tree, c: CodeUnit, d: CodeUnit)
    requires FirstSeen(text) == [c, d] && t.Node? && t.left.Leaf? && t.right.Leaf? && c != d
    requires Chars(t) == Symbols(text)
    ensures {t.left.symbol, t.right.symbol} == {c, d} && t.left.symbol != t.right.symbol
  {
    assert c in [c, d] && d in [c, d];
    assert Chars(t) == {t.left.symbol, t.right.symbol};
    hide FirstSeen;
    assert c in Symbols(text) && d in Symbols(text);
    assert forall x :: x in Symbols(text) ==> x in [c, d];
  }

  lemma {:induction false} TwoKindsCodes(text: seq<CodeUnit>, t: Tree)
    requires text != [] && t == HuffmanTree(text) && t.Node? && t.left.Leaf? && t.right.Leaf?
    requires t.left.symbol != t.right.symbol
    ensures TextCodes(text) == map[t.left.symbol := [false], t.right.symbol := [true]]
  {
    var l, r := t.left.symbol, t.right.symbol;
    TwoPaths(t);
    hide *;
    HuffmanTreeShape(text);
    CodesPrefixFree(text);
    SymbolsOf(text, l);
    SymbolsOf(text, r);
    TextCode(text, l);
    TextCode(text, r);
    TwoEntries(TextCodes(text), l, r);
  }

  lemma {:induction false} SymbolsOf(text: seq<CodeUnit>, c: CodeUnit)
    ensures c in Symbols(text) <==> c in text
  {
  }

  lemma {:induction false} TwoEntries(codes: Codes, l: CodeUnit, r: CodeUnit)
    requires codes.Keys == {l, r} && l != r && codes[l] == [false] && codes[r] == [true]
    ensures codes == map[l := [false], r := [true]]
  {
  }

  lemma {:induction false} TwoLeaves(t: Tree)
    requires t.Node? && |Leaves(t)| == 2
    ensures t.left.Leaf? && t.right.Leaf?
  {
    SizeFromLeaves(t);
    SizeFromLeaves(t.left);
    SizeFromLeaves(t.right);
    assert |Leaves(t)| == |Leaves(t.left)| + |Leaves(t.right)|;
  }

  lemma {:induction false} TwoPaths(t: Tree)
    requires t.Node? && t.left.Leaf? && t.right.Leaf? && t.left.symbol != t.right.symbol
    ensures Chars(t) == {t.left.symbol, t.right.symbol}
    ensures Path(t, t.left.symbol) == [false] && Path(t, t.right.symbol) == [true]
  {
  }

  lemma {:induction false} LeafWeights(text: seq<CodeUnit>, t: Tree)
    requires t.Node? && t.left.Leaf? && t.right.Leaf?
    requires LeavesFor(multiset(Leaves(t)), Symbols(text), text)
    ensures t.left.freq == Count(text, t.left.symbol) && t.right.freq == Count(text, t.right.symbol)
  {
    assert Leaves(t) == [t.left, t.right];
    assert multiset(Leaves(t))[t.left] >= 1 && multiset(Leaves(t))[t.right] >= 1;
  }

  // ----- two texts, down to their bytes -----

  lemma {:induction false} SeenNext(text: seq<CodeUnit>, c: CodeUnit)
    ensures FirstSeen(text + [c]) == if c in FirstSeen(text) then FirstSeen(text) else FirstSeen(text) + [c]
    ensures FirstSeen([]) == []
  {
    assert (text + [c])[..|text|] == text;
  }

  lemma {:induction false} PairBytes(t: Tree, f: nat, g: nat, x: Byte, y: Byte)
    requires t == Node(f + g, Leaf(f, x), Leaf(g, y))
    ensures Truncate(FlatTree(t)) == [0, x, 0, 0, y, 0, 1, 0, 1]
  {
    FlattenNode(t, 0);
    FlattenLeaf(t.left, 0);
    FlattenLeaf(t.right, 1);
    hide Flatten, Records;
    assert FlatTree(t) == [0, x, 0] + [0, y, 0] + [1, 0, 1];
  }

  lemma {:induction false} EncodeThree(codes: Codes, x: CodeUnit, y: CodeUnit, z: CodeUnit)
    requires x in codes && y in codes && z in codes
    ensures EncodeBits(codes, [x, y, z]) == codes[x] + codes[y] + codes[z]
  {
    var text := [x, y, z];
    assert text[1..] == [y, z] && [y, z][1..] == [z] && [z][1..] == [];
    assert EncodeBits(codes, [z]) == codes[z];
    assert EncodeBits(codes, [y, z]) == codes[y] + codes[z];
    assert codes[x] + (codes[y] + codes[z]) == codes[x] + codes[y] + codes[z];
  }

  /** "aab": b is rarer and gets the bit 0. */
  lemma {:induction false} TwiceAOnceB(text: seq<CodeUnit>)
    requires text == [97, 97, 98]
    ensures TreeData(text) == [0, 98, 0, 0, 97, 0, 1, 0, 1]
    ensures TextCodes(text) == map[97 := [true], 98 := [false]]
    ensures Pack(CodedBits(text, text)) == [0xC0]
  {
    ThreeSeen(text);
    TwoKinds(text, 97, 98);
    assert Count(text, 97) == 2 && Count(text, 98) == 1;
    PairBytes(HuffmanTree(text), 1, 2, 98, 97);
    EncodeThree(TextCodes(text), 97, 97, 98);
    assert CodedBits(text, text) == [true, true, false];
    hide HuffmanTree, TextCodes, CodedBits, FirstSeen;
    assert PackByte([true, true, false]) == 0xC0;
  }

  lemma {:induction false} ThreeSeen(text: seq<CodeUnit>)
    requires text == [97, 97, 98]
    ensures FirstSeen(text) == [97, 98]
  {
    hide *;
    var two: seq<CodeUnit> := [97, 97];
    SeenTwice(two);
    assert text[..2] == two && two + [98] == text;
    SeenNext(two, 98);
    assert 98 !in two;
    assert [97] + [98] == [97, 98];
  }

  lemma {:induction false} SeenTwice(text: seq<CodeUnit>)
    requires text == [97, 97]
    ensures FirstSeen(text) == [97]
  {
    hide *;
    SeenNext([], 97);
    assert [] + [97] == [97] && [97] + [97] == text;
    SeenNext([97], 97);
  }

  /** "ba": equally frequent, so b is first seen and gets the bit 0. */
  lemma {:induction false} OnceBOnceA(text: seq<CodeUnit>)
    requires text == [98, 97]
    ensures TreeData(text) == [0, 98, 0, 0, 97, 0, 1, 0, 1]
    ensures TextCodes(text) == map[98 := [false], 97 := [true]]
  {
    SeenNext([], 98);
    SeenNext([98], 97);
    assert [] + [98] == [98] && [98] + [97] == text;
    TwoKinds(text, 98, 97);
    assert Count(text, 98) == 1 && Count(text, 97) == 1;
    PairBytes(HuffmanTree(text), 1, 1, 98, 97);
  }
}
