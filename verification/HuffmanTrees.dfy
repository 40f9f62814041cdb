/**
 Huffman trees over the UTF-16 code units of a text: the frequency table, the sorted list of
 trees, its merge loop and the bit codes read off the final tree, as functions on values.
 */
module HuffmanTrees {

  /** What `charCodeAt` returns. */
  type CodeUnit = x: int | 0 <= x < 0x10000

  type Codes = map<CodeUnit, seq<bool>>

  datatype Tree =
    | Leaf(freq: nat, symbol: CodeUnit)
    | Node(freq: nat, left: Tree, right: Tree)

  /** The leaves from left to right. */
  function Leaves(t: Tree): (ls: seq<Tree>)
    ensures |ls| > 0
    ensures forall i :: 0 <= i < |ls| ==> ls[i].Leaf?
  {
    match t
    case Leaf(_, _) => [t]
    case Node(_, l, r) => Leaves(l) + Leaves(r)
  }

  function Chars(t: Tree): (cs: set<CodeUnit>)
  {
    match t
    case Leaf(_, c) => {c}
    case Node(_, l, r) => Chars(l) + Chars(r)
  }

  function Size(t: Tree): (n: nat)
    ensures n >= 1
  {
    match t
    case Leaf(_, _) => 1
    case Node(_, l, r) => Size(l) + Size(r) + 1
  }

  lemma {:induction false} SizeFromLeaves(t: Tree)
    ensures Size(t) == 2 * |Leaves(t)| - 1
  {
    if t.Node? {
      SizeFromLeaves(t.left);
      SizeFromLeaves(t.right);
    }
  }

  /** Every inner frequency is the sum of the frequencies below it. */
  predicate WellWeighted(t: Tree)
  {
    t.Node? ==> t.freq == t.left.freq + t.right.freq && WellWeighted(t.left) && WellWeighted(t.right)
  }

  /** The number of edges from the root to the leaf of `c`; 0 for a character without a leaf. */
  function Depth(t: Tree, c: CodeUnit): nat
  {
    match t
    case Leaf(_, _) => 0
    case Node(_, l, r) =>
      if c in Chars(l) then 1 + Depth(l, c)
      else if c in Chars(r) then 1 + Depth(r, c)
      else 0
  }

  /** The sum of the inner frequencies: what all merges of the tree have cost. */
  function Cost(t: Tree): nat
  {
    match t
    case Leaf(_, _) => 0
    case Node(f, l, r) => f + Cost(l) + Cost(r)
  }

  // ----- the frequency table and the sorted list -----

  function Count(text: seq<CodeUnit>, c: CodeUnit): nat
  {
    multiset(text)[c]
  }

  function Symbols(text: seq<CodeUnit>): set<CodeUnit>
  {
    set c | c in text
  }

  /** The characters in order of first appearance: the key order of a JavaScript Map. */
  function FirstSeen(text: seq<CodeUnit>): (ks: seq<CodeUnit>)
    ensures forall c :: c in ks <==> c in text
    ensures forall i, j :: 0 <= i < j < |ks| ==> ks[i] != ks[j]
  {
    if text == [] then []
    else
      var ks := FirstSeen(text[..|text| - 1]);
      var c := text[|text| - 1];
      assert text == text[..|text| - 1] + [c];
      if c in ks then ks else ks + [c]
  }

  /** One leaf per key, weighted with its frequency. */
  function LeavesOf(keys: seq<CodeUnit>, text: seq<CodeUnit>): (heap: seq<Tree>)
    ensures |heap| == |keys|
    ensures forall i :: 0 <= i < |keys| ==> heap[i] == Leaf(Count(text, keys[i]), keys[i])
  {
    seq(|keys|, i requires 0 <= i < |keys| => Leaf(Count(text, keys[i]), keys[i]))
  }

  predicate Sorted(heap: seq<Tree>)
  {
    forall i, j :: 0 <= i < j < |heap| ==> heap[i].freq <= heap[j].freq
  }

  /** The first position whose tree is at least as heavy as t, or the end of the list. */
  function InsertPosition(t: Tree, heap: seq<Tree>): (p: nat)
    ensures p <= |heap|
    ensures forall i :: 0 <= i < p ==> heap[i].freq < t.freq
    ensures p < |heap| ==> t.freq <= heap[p].freq
  {
    if heap == [] || t.freq <= heap[0].freq then 0 else 1 + InsertPosition(t, heap[1..])
  }

  function Insert(t: Tree, heap: seq<Tree>): (r: seq<Tree>)
    ensures |r| == |heap| + 1
  {
    var p := InsertPosition(t, heap);
    heap[..p] + [t] + heap[p..]
  }

  lemma {:induction false} InsertKeepsItems(t: Tree, heap: seq<Tree>)
    ensures multiset(Insert(t, heap)) == multiset(heap) + multiset{t}
  {
    var p := InsertPosition(t, heap);
    assert heap == heap[..p] + heap[p..];
  }

  lemma {:induction false} InsertKeepsOrder(t: Tree, heap: seq<Tree>)
    requires Sorted(heap)
    ensures Sorted(Insert(t, heap))
  {
    var p, r := InsertPosition(t, heap), Insert(t, heap);
    forall i, j | 0 <= i < j < |r| ensures r[i].freq <= r[j].freq {
      if j < p {
      } else if j == p {
      } else if i < p {
        assert r[j] == heap[j - 1];
      } else {
        assert r[j] == heap[j - 1];
        assert heap[p].freq <= heap[j - 1].freq;
      }
    }
  }

  /** The library's stable sort by frequency. */
  function SortByFreq(heap: seq<Tree>): (r: seq<Tree>)
    ensures |r| == |heap|
  {
    if heap == [] then [] else Insert(heap[0], SortByFreq(heap[1..]))
  }

  lemma {:induction false} SortSorts(heap: seq<Tree>)
    ensures Sorted(SortByFreq(heap)) && multiset(SortByFreq(heap)) == multiset(heap)
  {
    if heap != [] {
      assert heap == [heap[0]] + heap[1..];
      SortSorts(heap[1..]);
      InsertKeepsItems(heap[0], SortByFreq(heap[1..]));
      InsertKeepsOrder(heap[0], SortByFreq(heap[1..]));
    }
  }

  /** The trees of one frequency, in list order. */
  function WithFreq(heap: seq<Tree>, f: nat): seq<Tree>
  {
    if heap == [] then []
    else if heap[0].freq == f then [heap[0]] + WithFreq(heap[1..], f)
    else WithFreq(heap[1..], f)
  }

  lemma {:induction false} WithFreqFirst(t: Tree, s: seq<Tree>, f: nat)
    ensures WithFreq([t] + s, f) == if t.freq == f then [t] + WithFreq(s, f) else WithFreq(s, f)
  {
    assert ([t] + s)[1..] == s;
  }

  lemma {:induction false} MiddleGoesFirst(a: seq<Tree>, t: Tree, b: seq<Tree>, f: nat)
    requires forall i :: 0 <= i < |a| ==> a[i].freq < t.freq
    ensures WithFreq(a + [t] + b, f) == WithFreq([t] + (a + b), f)
  {
    WithFreqFirst(t, a + b, f);
    if a == [] {
      assert a + [t] + b == [t] + (a + b);
    } else {
      var x, rest := a[0], a[1..];
      assert a + [t] + b == [x] + (rest + [t] + b) && a + b == [x] + (rest + b);
      WithFreqFirst(x, rest + [t] + b, f);
      WithFreqFirst(x, rest + b, f);
      WithFreqFirst(t, rest + b, f);
      MiddleGoesFirst(rest, t, b, f);
    }
  }

  /** Equally frequent characters keep their order, as Array.prototype.sort promises. */
  lemma {:induction false} SortIsStable(heap: seq<Tree>, f: nat)
    ensures WithFreq(SortByFreq(heap), f) == WithFreq(heap, f)
  {
    if heap != [] {
      SortIsStable(heap[1..], f);
      var t, s := heap[0], SortByFreq(heap[1..]);
      var p := InsertPosition(t, s);
      MiddleGoesFirst(s[..p], t, s[p..], f);
      assert s[..p] + s[p..] == s;
      WithFreqFirst(t, s, f);
    }
  }

  /** The list the merge loop starts from. */
  function StartHeap(text: seq<CodeUnit>): (heap: seq<Tree>)
    ensures |heap| == |FirstSeen(text)|
  {
    SortByFreq(LeavesOf(FirstSeen(text), text))
  }

  // ----- the merge loop -----

  function Merge(l: Tree, r: Tree): Tree
  {
    Node(l.freq + r.freq, l, r)
  }

  /** One pass of the loop: the two lightest trees become one. */
  function MergeStep(heap: seq<Tree>): (r: seq<Tree>)
    requires |heap| >= 2
    ensures |r| == |heap| - 1
  {
    Insert(Merge(heap[0], heap[1]), heap[2..])
  }

  /** The list after n passes. */
  function MergeSteps(heap: seq<Tree>, n: nat): (r: seq<Tree>)
    requires n < |heap| || n == 0
    ensures |r| == |heap| - n
    decreases n
  {
    if n == 0 then heap else MergeSteps(MergeStep(heap), n - 1)
  }

  function HuffmanTree(text: seq<CodeUnit>): Tree
    requires text != []
  {
    assert text[0] in FirstSeen(text);
    var heap := StartHeap(text);
    MergeSteps(heap, |heap| - 1)[0]
  }

  function TotalFreq(heap: seq<Tree>): nat
  {
    if heap == [] then 0 else heap[0].freq + TotalFreq(heap[1..])
  }

  function AllLeaves(heap: seq<Tree>): multiset<Tree>
  {
    if heap == [] then multiset{} else multiset(Leaves(heap[0])) + AllLeaves(heap[1..])
  }

  function TotalCost(heap: seq<Tree>): nat
  {
    if heap == [] then 0 else Cost(heap[0]) + TotalCost(heap[1..])
  }

  /** The sum of the frequencies of the trees that n passes create. */
  function MergedFreqs(heap: seq<Tree>, n: nat): nat
    requires n < |heap| || n == 0
    decreases n
  {
    if n == 0 then 0 else heap[0].freq + heap[1].freq + MergedFreqs(MergeStep(heap), n - 1)
  }

  predicate AllWellWeighted(heap: seq<Tree>)
  {
    forall t :: t in heap ==> WellWeighted(t)
  }

  lemma {:induction false} SumsAppend(a: seq<Tree>, b: seq<Tree>)
    ensures TotalFreq(a + b) == TotalFreq(a) + TotalFreq(b)
    ensures AllLeaves(a + b) == AllLeaves(a) + AllLeaves(b)
    ensures TotalCost(a + b) == TotalCost(a) + TotalCost(b)
  {
    if a == [] {
      assert a + b == b;
    } else {
      assert (a + b)[1..] == a[1..] + b;
      SumsAppend(a[1..], b);
    }
  }

  lemma {:induction false} InsertSums(t: Tree, heap: seq<Tree>)
    ensures TotalFreq(Insert(t, heap)) == t.freq + TotalFreq(heap)
    ensures AllLeaves(Insert(t, heap)) == multiset(Leaves(t)) + AllLeaves(heap)
    ensures TotalCost(Insert(t, heap)) == Cost(t) + TotalCost(heap)
  {
    var p := InsertPosition(t, heap);
    var a, b := heap[..p], heap[p..];
    assert heap == a + b;
    assert Insert(t, heap) == a + [t] + b;
    SumsAppend(a, b);
    SumsAppend(a + [t], b);
    SumsAppend(a, [t]);
    SumsOfOne(t);
  }

  lemma {:induction false} SumsOfOne(t: Tree)
    ensures TotalFreq([t]) == t.freq && AllLeaves([t]) == multiset(Leaves(t)) && TotalCost([t]) == Cost(t)
  {
    assert [t][1..] == [];
  }

  lemma {:induction false} TwoFirst(heap: seq<Tree>)
    requires |heap| >= 2
    ensures TotalFreq(heap) == heap[0].freq + heap[1].freq + TotalFreq(heap[2..])
    ensures AllLeaves(heap) == multiset(Leaves(heap[0])) + multiset(Leaves(heap[1])) + AllLeaves(heap[2..])
    ensures TotalCost(heap) == Cost(heap[0]) + Cost(heap[1]) + TotalCost(heap[2..])
  {
    var rest := heap[1..];
    assert rest[0] == heap[1] && rest[1..] == heap[2..];
    assert TotalFreq(heap) == heap[0].freq + TotalFreq(rest);
    assert AllLeaves(heap) == multiset(Leaves(heap[0])) + AllLeaves(rest);
    assert TotalCost(heap) == Cost(heap[0]) + TotalCost(rest);
    assert AllLeaves(rest) == multiset(Leaves(heap[1])) + AllLeaves(heap[2..]);
  }

  lemma {:induction false} MergeSums(l: Tree, r: Tree)
    ensures Merge(l, r).freq == l.freq + r.freq
    ensures multiset(Leaves(Merge(l, r))) == multiset(Leaves(l)) + multiset(Leaves(r))
    ensures Cost(Merge(l, r)) == l.freq + r.freq + Cost(l) + Cost(r)
  {
    assert Leaves(Merge(l, r)) == Leaves(l) + Leaves(r);
  }

  lemma {:induction false} MergeStepKeepsSums(heap: seq<Tree>)
    requires |heap| >= 2
    ensures TotalFreq(MergeStep(heap)) == TotalFreq(heap)
    ensures AllLeaves(MergeStep(heap)) == AllLeaves(heap)
    ensures TotalCost(MergeStep(heap)) == TotalCost(heap) + heap[0].freq + heap[1].freq
  {
    TwoFirst(heap);
    InsertSums(Merge(heap[0], heap[1]), heap[2..]);
    MergeSums(heap[0], heap[1]);
  }

  lemma {:induction false} MergeStepKeepsShape(heap: seq<Tree>)
    requires |heap| >= 2 && Sorted(heap) && AllWellWeighted(heap)
    ensures Sorted(MergeStep(heap)) && AllWellWeighted(MergeStep(heap))
  {
    var m := Merge(heap[0], heap[1]);
    InsertKeepsOrder(m, heap[2..]);
    assert heap[0] in heap && heap[1] in heap;
    forall t | t in MergeStep(heap) ensures WellWeighted(t) {
      assert t == m || t in heap[2..];
    }
  }

  /** What every pass of the merge loop keeps, whatever the list it is at. */
  lemma {:induction false} MergeLoopInvariant(heap: seq<Tree>, n: nat)
    requires n < |heap| && Sorted(heap) && AllWellWeighted(heap)
    ensures |MergeSteps(heap, n)| == |heap| - n
    ensures Sorted(MergeSteps(heap, n)) && AllWellWeighted(MergeSteps(heap, n))
    ensures TotalFreq(MergeSteps(heap, n)) == TotalFreq(heap)
    ensures AllLeaves(MergeSteps(heap, n)) == AllLeaves(heap)
    ensures TotalCost(MergeSteps(heap, n)) == TotalCost(heap) + MergedFreqs(heap, n)
    decreases n
  {
    if n > 0 {
      MergeStepKeepsSums(heap);
      MergeStepKeepsShape(heap);
      MergeLoopInvariant(MergeStep(heap), n - 1);
    }
  }

  lemma {:induction false} MergeStepsExtend(heap: seq<Tree>, n: nat)
    requires n + 1 < |heap|
    ensures MergeSteps(heap, n + 1) == MergeStep(MergeSteps(heap, n))
    decreases n
  {
    if n > 0 {
      MergeStepsExtend(MergeStep(heap), n - 1);
    }
  }

  // ----- the leaves of the final tree are the frequency table -----

  /** The list of leaves is exactly one leaf per key, weighted with the count in `text`. */
  ghost predicate LeavesFor(ls: multiset<Tree>, keys: set<CodeUnit>, text: seq<CodeUnit>)
  {
    forall x: Tree :: ls[x] == if x.Leaf? && x.symbol in keys && x.freq == Count(text, x.symbol) then 1 else 0
  }

  lemma {:induction false} StartLeavesAreTheTable(keys: seq<CodeUnit>, text: seq<CodeUnit>)
    requires forall i, j :: 0 <= i < j < |keys| ==> keys[i] != keys[j]
    ensures LeavesFor(multiset(LeavesOf(keys, text)), (set c | c in keys), text)
  {
    var ls := LeavesOf(keys, text);
    if keys != [] {
      var front := keys[..|keys| - 1];
      var c := keys[|keys| - 1];
      StartLeavesAreTheTable(front, text);
      assert ls == LeavesOf(front, text) + [Leaf(Count(text, c), c)];
      assert keys == front + [c];
      assert c !in front;
    }
  }

  lemma {:induction false} LeafListFacts(heap: seq<Tree>)
    requires forall t :: t in heap ==> t.Leaf?
    ensures AllLeaves(heap) == multiset(heap) && TotalCost(heap) == 0 && AllWellWeighted(heap)
  {
    if heap != [] {
      assert heap == [heap[0]] + heap[1..];
      LeafListFacts(heap[1..]);
    }
  }

  lemma {:induction false} StartHeapFacts(text: seq<CodeUnit>)
    ensures var heap := StartHeap(text);
            && Sorted(heap)
            && AllWellWeighted(heap)
            && AllLeaves(heap) == multiset(heap)
            && TotalCost(heap) == 0
            && LeavesFor(multiset(heap), Symbols(text), text)
            && forall t :: t in heap ==> t.Leaf?
  {
    var keys := FirstSeen(text);
    var heap := StartHeap(text);
    SortSorts(LeavesOf(keys, text));
    StartLeavesAreTheTable(keys, text);
    assert (set c | c in keys) == Symbols(text);
    forall t | t in heap ensures t.Leaf? {
      assert t in multiset(heap);
      assert t in LeavesOf(keys, text);
    }
    LeafListFacts(heap);
  }

  lemma {:induction false} TextHasSymbols(text: seq<CodeUnit>)
    requires text != []
    ensures FirstSeen(text) != []
  {
    assert text[0] in FirstSeen(text);
  }

  lemma {:induction false} HuffmanTreeFacts(text: seq<CodeUnit>)
    requires text != []
    ensures FirstSeen(text) != []
    ensures WellWeighted(HuffmanTree(text))
    ensures HuffmanTree(text).freq == TotalFreq(StartHeap(text))
    ensures LeavesFor(multiset(Leaves(HuffmanTree(text))), Symbols(text), text)
    ensures Cost(HuffmanTree(text)) == MergedFreqs(StartHeap(text), |FirstSeen(text)| - 1)
  {
    TextHasSymbols(text);
    StartHeapFacts(text);
    LastTree(StartHeap(text));
  }

  lemma {:induction false} SumsOfLast(now: seq<Tree>)
    requires |now| == 1
    ensures AllLeaves(now) == multiset(Leaves(now[0])) && TotalCost(now) == Cost(now[0])
    ensures TotalFreq(now) == now[0].freq
    ensures AllWellWeighted(now) ==> WellWeighted(now[0])
  {
    SumsOfOne(now[0]);
    assert now == [now[0]] && now[0] in now;
  }

  lemma {:induction false} LastTree(heap: seq<Tree>)
    requires heap != [] && Sorted(heap) && AllWellWeighted(heap)
    ensures WellWeighted(MergeSteps(heap, |heap| - 1)[0])
    ensures MergeSteps(heap, |heap| - 1)[0].freq == TotalFreq(heap)
    ensures multiset(Leaves(MergeSteps(heap, |heap| - 1)[0])) == AllLeaves(heap)
    ensures Cost(MergeSteps(heap, |heap| - 1)[0]) == TotalCost(heap) + MergedFreqs(heap, |heap| - 1)
  {
    MergeLoopInvariant(heap, |heap| - 1);
    SumsOfLast(MergeSteps(heap, |heap| - 1));
  }

  /** The leaf of `c`, where there is one. */
  function TheLeaf(text: seq<CodeUnit>, c: CodeUnit): Tree
  {
    Leaf(Count(text, c), c)
  }

  lemma {:induction false} LeavesForPart(part: multiset<Tree>, t: Tree, all: multiset<Tree>, keys: set<CodeUnit>,
                                         text: seq<CodeUnit>)
    requires LeavesFor(all, keys, text) && part == multiset(Leaves(t)) && part <= all
    ensures LeavesFor(part, Chars(t), text)
    ensures Chars(t) <= keys
  {
    forall c: CodeUnit
      ensures c in Chars(t) <==> part[TheLeaf(text, c)] == 1
      ensures c in Chars(t) ==> c in keys
    {
      CharHasLeaf(t, c);
      if c in Chars(t) {
        var x :| x in part && x.Leaf? && x.symbol == c;
        assert all[x] >= 1;
        assert x == TheLeaf(text, c);
        assert all[x] == 1;
      }
    }
    forall x: Tree
      ensures part[x] == if x.Leaf? && x.symbol in Chars(t) && x.freq == Count(text, x.symbol) then 1 else 0
    {
      assert part[x] <= all[x];
      if x.Leaf? && x.freq == Count(text, x.symbol) {
        assert x == TheLeaf(text, x.symbol);
        assert all[x] <= 1;
      }
    }
  }

  /** No character is shared by the two sides of a node. */
  lemma {:induction false} LeavesForSides(t: Tree, keys: set<CodeUnit>, text: seq<CodeUnit>)
    requires t.Node? && LeavesFor(multiset(Leaves(t)), keys, text)
    ensures Chars(t.left) !! Chars(t.right) && Chars(t.left) + Chars(t.right) == keys
    ensures LeavesFor(multiset(Leaves(t.left)), Chars(t.left), text)
    ensures LeavesFor(multiset(Leaves(t.right)), Chars(t.right), text)
  {
    var l, r, all := multiset(Leaves(t.left)), multiset(Leaves(t.right)), multiset(Leaves(t));
    assert all == l + r;
    LeavesForPart(l, t.left, all, keys, text);
    LeavesForPart(r, t.right, all, keys, text);
    forall c: CodeUnit
      ensures !(c in Chars(t.left) && c in Chars(t.right))
      ensures c in keys ==> c in Chars(t.left) + Chars(t.right)
    {
      var x := TheLeaf(text, c);
      assert all[x] == l[x] + r[x];
      assert all[x] <= 1;
    }
  }

  lemma {:induction false} CharHasLeaf(t: Tree, c: CodeUnit)
    ensures c in Chars(t) <==> exists x :: x in Leaves(t) && x.Leaf? && x.symbol == c
  {
    match t
    case Leaf(_, _) => assert t in Leaves(t);
    case Node(_, l, r) =>
      CharHasLeaf(l, c);
      CharHasLeaf(r, c);
      assert forall x :: x in Leaves(t) <==> x in Leaves(l) || x in Leaves(r);
  }

  lemma {:induction false} LeavesForChars(t: Tree, keys: set<CodeUnit>, text: seq<CodeUnit>)
    requires LeavesFor(multiset(Leaves(t)), keys, text)
    ensures Chars(t) == keys
  {
    if t.Node? {
      LeavesForSides(t, keys, text);
    } else {
      assert multiset(Leaves(t))[t] == 1;
      forall c | c in keys ensures c == t.symbol {
        assert multiset(Leaves(t))[TheLeaf(text, c)] == 1;
      }
    }
  }
}
