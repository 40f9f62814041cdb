/** No prefix-free code encodes a text in fewer bits than the one the merge loop builds. */
module HuffmanOptimality {
  import opened HuffmanTrees
  import opened HuffmanCodes

  // ----- arrangements: trees hung at the leaf positions of a shape -----

  /** The depths of the leaves from left to right, for a root at depth d. */
  function Depths(shape: Tree, d: nat): (ds: seq<nat>)
    ensures |ds| == |Leaves(shape)|
  {
    match shape
    case Leaf(_, _) => [d]
    case Node(_, l, r) => Depths(l, d + 1) + Depths(r, d + 1)
  }

  /** k times d, as repeated addition. */
  function Times(k: nat, d: nat): nat
  {
    if d == 0 then 0 else k + Times(k, d - 1)
  }

  lemma {:induction false} TimesAdd(j: nat, k: nat, d: nat)
    ensures Times(j + k, d) == Times(j, d) + Times(k, d)
  {
    if d > 0 {
      TimesAdd(j, k, d - 1);
    }
  }

  lemma {:induction false} TimesMonotone(k: nat, a: nat, b: nat)
    requires a <= b
    ensures Times(k, a) <= Times(k, b)
    decreases b
  {
    if a < b {
      TimesMonotone(k, a, b - 1);
    }
  }

  /** The sum of frequency times depth. */
  function Dot(items: seq<Tree>, ds: seq<nat>): nat
    requires |items| == |ds|
  {
    if items == [] then 0 else Times(items[0].freq, ds[0]) + Dot(items[1..], ds[1..])
  }

  lemma {:induction false} DotFirst(x: Tree, d: nat, items: seq<Tree>, ds: seq<nat>)
    requires |items| == |ds|
    ensures Dot([x] + items, [d] + ds) == Times(x.freq, d) + Dot(items, ds)
  {
    assert ([x] + items)[1..] == items && ([d] + ds)[1..] == ds;
  }

  lemma {:induction false} DotAppend(a: seq<Tree>, da: seq<nat>, b: seq<Tree>, db: seq<nat>)
    requires |a| == |da| && |b| == |db|
    ensures Dot(a + b, da + db) == Dot(a, da) + Dot(b, db)
  {
    if a == [] {
      assert a + b == b && da + db == db;
    } else {
      assert a + b == [a[0]] + (a[1..] + b) && da + db == [da[0]] + (da[1..] + db);
      DotFirst(a[0], da[0], a[1..] + b, da[1..] + db);
      DotAppend(a[1..], da[1..], b, db);
    }
  }

  lemma {:induction false} DotUpdate(items: seq<Tree>, ds: seq<nat>, i: nat, x: Tree)
    requires |items| == |ds| && i < |items|
    ensures Dot(items[i := x], ds) + Times(items[i].freq, ds[i]) == Dot(items, ds) + Times(x.freq, ds[i])
  {
    if i == 0 {
      assert items[i := x][1..] == items[1..];
    } else {
      assert items[i := x][1..] == items[1..][i - 1 := x];
      DotUpdate(items[1..], ds[1..], i - 1, x);
    }
  }

  function Swap(items: seq<Tree>, i: nat, p: nat): (r: seq<Tree>)
    requires i < |items| && p < |items|
    ensures |r| == |items| && r[p] == items[i] && r[i] == items[p]
    ensures forall k :: 0 <= k < |r| && k != i && k != p ==> r[k] == items[k]
  {
    items[i := items[p]][p := items[i]]
  }

  lemma {:induction false} TimesExchange(x: nat, y: nat, a: nat, b: nat)
    requires x <= y && a <= b
    ensures Times(y, a) + Times(x, b) <= Times(x, a) + Times(y, b)
  {
    TimesAdd(x, y - x, a);
    TimesAdd(x, y - x, b);
    TimesMonotone(y - x, a, b);
  }

  /** Moving a lighter tree down and a heavier one up never costs more. */
  lemma {:induction false} ExchangeHelps(items: seq<Tree>, ds: seq<nat>, i: nat, p: nat)
    requires |items| == |ds| && i < |items| && p < |items|
    requires items[i].freq <= items[p].freq && ds[i] <= ds[p]
    ensures Dot(Swap(items, i, p), ds) <= Dot(items, ds)
  {
    if i == p {
      assert Swap(items, i, p) == items;
    } else {
      var half := items[i := items[p]];
      DotUpdate(items, ds, i, items[p]);
      DotUpdate(half, ds, p, items[i]);
      TimesExchange(items[i].freq, items[p].freq, ds[i], ds[p]);
    }
  }

  lemma {:induction false} SwapKeepsItems(items: seq<Tree>, i: nat, p: nat)
    requires i < |items| && p < |items|
    ensures multiset(Swap(items, i, p)) == multiset(items)
  {
  }

  lemma {:induction false} DotOfOne(x: Tree, d: nat)
    ensures Dot([x], [d]) == Times(x.freq, d)
  {
    assert [x][1..] == [] && [d][1..] == [];
  }

  /** Merging two sibling leaves saves exactly their two frequencies. */
  lemma {:induction false} ContractSaves(a: seq<Tree>, da: seq<nat>, x: Tree, y: Tree, d: nat,
                                         b: seq<Tree>, db: seq<nat>)
    requires |a| == |da| && |b| == |db| && d > 0
    ensures Dot(a + ([x] + ([y] + b)), da + ([d] + ([d] + db))) ==
            Dot(a + ([Merge(x, y)] + b), da + ([d - 1] + db)) + x.freq + y.freq
  {
    DotAppend(a, da, [x] + ([y] + b), [d] + ([d] + db));
    DotAppend(a, da, [Merge(x, y)] + b, [d - 1] + db);
    DotFirst(x, d, [y] + b, [d] + db);
    DotFirst(y, d, b, db);
    DotFirst(Merge(x, y), d - 1, b, db);
    TimesAdd(x.freq, y.freq, d - 1);
  }

  // ----- a deepest pair of siblings -----

  /** Replacing the pair at p by one leaf, one level up. */
  function Contract(ds: seq<nat>, p: nat): (r: seq<nat>)
    requires p + 1 < |ds| && ds[p] > 0
  {
    ds[..p] + [ds[p] - 1] + ds[p + 2..]
  }

  ghost predicate AllAtMost(ds: seq<nat>, m: nat)
  {
    forall i :: 0 <= i < |ds| ==> ds[i] <= m
  }

  ghost predicate DeepestPair(ds: seq<nat>, p: nat)
  {
    && p + 1 < |ds|
    && ds[p] == ds[p + 1] > 0
    && AllAtMost(ds, ds[p])
  }

  lemma {:induction false} PairInLeft(dl: seq<nat>, dr: seq<nat>, p: nat)
    requires DeepestPair(dl, p) && AllAtMost(dr, dl[p])
    ensures DeepestPair(dl + dr, p) && (dl + dr)[p] == dl[p]
    ensures Contract(dl + dr, p) == Contract(dl, p) + dr
  {
    assert (dl + dr)[p + 2..] == dl[p + 2..] + dr;
    assert (dl + dr)[..p] == dl[..p];
  }

  lemma {:induction false} PairInRight(dl: seq<nat>, dr: seq<nat>, p: nat)
    requires DeepestPair(dr, p) && AllAtMost(dl, dr[p])
    ensures DeepestPair(dl + dr, |dl| + p) && (dl + dr)[|dl| + p] == dr[p]
    ensures Contract(dl + dr, |dl| + p) == dl + Contract(dr, p)
  {
    assert (dl + dr)[|dl| + p + 2..] == dr[p + 2..];
    assert (dl + dr)[..|dl| + p] == dl + dr[..p];
  }

  /** p is a deepest pair of the shape, and `smaller` is the shape with the pair contracted. */
  ghost predicate Contracts(shape: Tree, d: nat, p: nat, smaller: Tree)
  {
    && DeepestPair(Depths(shape, d), p)
    && Depths(shape, d)[p] > d
    && Depths(smaller, d) == Contract(Depths(shape, d), p)
  }

  lemma {:induction false} ContractsLeft(l: Tree, r: Tree, d: nat, p: nat, smaller: Tree)
    requires Contracts(l, d + 1, p, smaller)
    requires AllAtMost(Depths(r, d + 1), Depths(l, d + 1)[p])
    ensures Contracts(Node(0, l, r), d, p, Node(0, smaller, r))
  {
    PairInLeft(Depths(l, d + 1), Depths(r, d + 1), p);
  }

  lemma {:induction false} ContractsRight(l: Tree, r: Tree, d: nat, p: nat, smaller: Tree)
    requires Contracts(r, d + 1, p, smaller)
    requires AllAtMost(Depths(l, d + 1), Depths(r, d + 1)[p])
    ensures Contracts(Node(0, l, r), d, |Depths(l, d + 1)| + p, Node(0, l, smaller))
  {
    PairInRight(Depths(l, d + 1), Depths(r, d + 1), p);
  }

  lemma {:induction false} ContractsLeaves(l: Tree, r: Tree, d: nat)
    requires l.Leaf? && r.Leaf?
    ensures Contracts(Node(0, l, r), d, 0, l)
  {
    assert Depths(Node(0, l, r), d) == [d + 1, d + 1];
  }

  lemma {:induction false} FindDeepestPair(shape: Tree, d: nat) returns (p: nat, smaller: Tree)
    requires shape.Node?
    ensures Contracts(shape, d, p, smaller)
  {
    hide Depths, Contract;
    var l, r := shape.left, shape.right;
    SameDepths(shape, d);
    if l.Leaf? && r.Leaf? {
      ContractsLeaves(l, r, d);
      p, smaller := 0, l;
    } else if l.Leaf? {
      p, smaller := FindDeepestPair(r, d + 1);
      ShallowLeaf(l, r, d + 1, p, smaller);
      ContractsRight(l, r, d, p, smaller);
      p, smaller := |Depths(l, d + 1)| + p, Node(0, l, smaller);
    } else {
      p, smaller := FindDeepestPair(l, d + 1);
      if r.Leaf? {
        ShallowLeaf(r, l, d + 1, p, smaller);
        ContractsLeft(l, r, d, p, smaller);
        smaller := Node(0, smaller, r);
      } else {
        var pr, sr := FindDeepestPair(r, d + 1);
        if Depths(l, d + 1)[p] >= Depths(r, d + 1)[pr] {
          ContractsLeft(l, r, d, p, smaller);
          smaller := Node(0, smaller, r);
        } else {
          ContractsRight(l, r, d, pr, sr);
          p, smaller := |Depths(l, d + 1)| + pr, Node(0, l, sr);
        }
      }
    }
  }

  lemma {:induction false} SameDepths(shape: Tree, d: nat)
    requires shape.Node?
    ensures Depths(shape, d) == Depths(Node(0, shape.left, shape.right), d)
  {
  }

  /** A leaf is not deeper than a deepest pair beside it. */
  lemma {:induction false} ShallowLeaf(leaf: Tree, other: Tree, d: nat, p: nat, smaller: Tree)
    requires leaf.Leaf? && Contracts(other, d, p, smaller)
    ensures AllAtMost(Depths(leaf, d), Depths(other, d)[p])
  {
    assert Depths(leaf, d) == [d];
  }

  // ----- the greedy step -----

  lemma {:induction false} IndexOf(x: Tree, items: seq<Tree>) returns (i: nat)
    requires x in multiset(items)
    ensures i < |items| && items[i] == x
  {
    i :| 0 <= i < |items| && items[i] == x;
  }

  /** The lightest tree can be brought to the deepest position. */
  lemma {:induction false} BringLightest(heap: seq<Tree>, items: seq<Tree>, ds: seq<nat>, p: nat) returns (r: seq<Tree>)
    requires heap != [] && Sorted(heap) && multiset(items) == multiset(heap) && |ds| == |items|
    requires p < |ds| && AllAtMost(ds, ds[p])
    ensures |r| == |items| && multiset(r) == multiset(heap) && r[p] == heap[0]
    ensures Dot(r, ds) <= Dot(items, ds)
  {
    assert heap[0] in multiset(heap);
    var i := IndexOf(heap[0], items);
    assert items[p] in multiset(items);
    var k := IndexOf(items[p], heap);
    ExchangeHelps(items, ds, i, p);
    SwapKeepsItems(items, i, p);
    r := Swap(items, i, p);
  }

  lemma {:induction false} Cancel(a: multiset<Tree>, b: multiset<Tree>, c: multiset<Tree>)
    requires a + c == b + c
    ensures a == b
  {
    assert a == (a + c) - c && b == (b + c) - c;
  }

  lemma {:induction false} OthersAreTheTail(heap: seq<Tree>, items: seq<Tree>, p: nat)
    requires heap != [] && multiset(items) == multiset(heap) && p < |items| && items[p] == heap[0]
    ensures multiset(items[..p] + items[p + 1..]) == multiset(heap[1..])
  {
    var x, others := heap[0], items[..p] + items[p + 1..];
    assert multiset(items) == multiset(others) + multiset{x} by {
      assert items == items[..p] + [x] + items[p + 1..];
    }
    assert multiset(heap) == multiset(heap[1..]) + multiset{x} by {
      assert heap == [x] + heap[1..];
    }
    Cancel(multiset(others), multiset(heap[1..]), multiset{x});
  }

  lemma {:induction false} FindSecond(heap: seq<Tree>, items: seq<Tree>, p: nat) returns (j: nat)
    requires |heap| >= 2 && Sorted(heap) && multiset(items) == multiset(heap)
    requires p + 1 < |items| && items[p] == heap[0]
    ensures j < |items| && j != p && items[j] == heap[1]
    ensures heap[1].freq <= items[p + 1].freq
  {
    OthersAreTheTail(heap, items, p);
    var others, tail := items[..p] + items[p + 1..], heap[1..];
    assert tail[0] in multiset(tail);
    var o := IndexOf(heap[1], others);
    j := if o < p then o else o + 1;
    assert others[p] == items[p + 1] && others[p] in multiset(others);
    var k := IndexOf(items[p + 1], tail);
  }

  /** ... and the second lightest next to it. */
  lemma {:induction false} BringSecond(heap: seq<Tree>, items: seq<Tree>, ds: seq<nat>, p: nat) returns (r: seq<Tree>)
    requires |heap| >= 2 && Sorted(heap) && multiset(items) == multiset(heap) && |ds| == |items|
    requires DeepestPair(ds, p) && items[p] == heap[0]
    ensures |r| == |items| && multiset(r) == multiset(heap) && r[p] == heap[0] && r[p + 1] == heap[1]
    ensures Dot(r, ds) <= Dot(items, ds)
  {
    var j := FindSecond(heap, items, p);
    ExchangeHelps(items, ds, j, p + 1);
    SwapKeepsItems(items, j, p + 1);
    r := Swap(items, j, p + 1);
  }

  lemma {:induction false} TwoInTheMiddle(a: seq<Tree>, x: Tree, y: Tree, b: seq<Tree>)
    ensures multiset(a + ([x] + ([y] + b))) == (multiset(a) + multiset(b)) + multiset{x, y}
  {
  }

  lemma {:induction false} MergedItems(heap: seq<Tree>, a: seq<Tree>, b: seq<Tree>)
    requires |heap| >= 2 && multiset(a + ([heap[0]] + ([heap[1]] + b))) == multiset(heap)
    ensures multiset(a + ([Merge(heap[0], heap[1])] + b)) == multiset(MergeStep(heap))
  {
    var m, two := Merge(heap[0], heap[1]), multiset{heap[0], heap[1]};
    InsertKeepsItems(m, heap[2..]);
    assert multiset(heap) == multiset(heap[2..]) + two by {
      assert heap == [heap[0], heap[1]] + heap[2..];
    }
    TwoInTheMiddle(a, heap[0], heap[1], b);
    Cancel(multiset(a) + multiset(b), multiset(heap[2..]), two);
  }

  /** With the two lightest trees on the deepest pair, merging them saves what the loop pays. */
  lemma {:induction false} MergePair(heap: seq<Tree>, items: seq<Tree>, ds: seq<nat>, p: nat)
    returns (merged: seq<Tree>)
    requires |heap| >= 2 && multiset(items) == multiset(heap) && |ds| == |items|
    requires DeepestPair(ds, p) && items[p] == heap[0] && items[p + 1] == heap[1]
    ensures |merged| == |items| - 1 && multiset(merged) == multiset(MergeStep(heap))
    ensures Dot(items, ds) == Dot(merged, Contract(ds, p)) + heap[0].freq + heap[1].freq
  {
    var a, b, d := items[..p], items[p + 2..], ds[p];
    var da, db := ds[..p], ds[p + 2..];
    assert items == a + ([heap[0]] + ([heap[1]] + b));
    assert ds == da + ([d] + ([d] + db));
    assert Contract(ds, p) == da + ([d - 1] + db);
    merged := a + ([Merge(heap[0], heap[1])] + b);
    ContractSaves(a, da, heap[0], heap[1], d, b, db);
    MergedItems(heap, a, b);
  }

  lemma {:induction false} GreedyStep(heap: seq<Tree>, items: seq<Tree>, shape: Tree)
    returns (merged: seq<Tree>, smaller: Tree)
    requires |heap| >= 2 && Sorted(heap) && multiset(items) == multiset(heap)
    requires |items| == |Leaves(shape)| && shape.Node?
    ensures multiset(merged) == multiset(MergeStep(heap)) && |merged| == |Leaves(smaller)|
    ensures Dot(merged, Depths(smaller, 0)) + heap[0].freq + heap[1].freq <= Dot(items, Depths(shape, 0))
  {
    var ds := Depths(shape, 0);
    var p;
    p, smaller := FindDeepestPair(shape, 0);
    var first := BringLightest(heap, items, ds, p);
    var both := BringSecond(heap, first, ds, p);
    merged := MergePair(heap, both, ds, p);
  }

  lemma {:induction false} MergedFreqsFirst(heap: seq<Tree>)
    requires heap != []
    ensures MergedFreqs(heap, |heap| - 1) ==
            if |heap| == 1 then 0
            else heap[0].freq + heap[1].freq + MergedFreqs(MergeStep(heap), |MergeStep(heap)| - 1)
  {
    hide MergeStep;
  }

  lemma {:induction false} SeveralLeaves(shape: Tree)
    requires |Leaves(shape)| >= 2
    ensures shape.Node?
  {
  }

  lemma {:induction false} SortedStep(heap: seq<Tree>)
    requires |heap| >= 2 && Sorted(heap)
    ensures Sorted(MergeStep(heap))
  {
    InsertKeepsOrder(Merge(heap[0], heap[1]), heap[2..]);
  }

  /** The merge loop costs no more than any arrangement of its trees in any binary shape. */
  lemma {:induction false} MergeLoopIsOptimal(heap: seq<Tree>, items: seq<Tree>, shape: Tree)
    requires heap != [] && Sorted(heap) && multiset(items) == multiset(heap)
    requires |items| == |Leaves(shape)|
    ensures MergedFreqs(heap, |heap| - 1) <= Dot(items, Depths(shape, 0))
    decreases |heap|
  {
    hide *;
    assert |items| == |multiset(items)| == |multiset(heap)| == |heap|;
    MergedFreqsFirst(heap);
    if |heap| >= 2 {
      SeveralLeaves(shape);
      SortedStep(heap);
      var merged, smaller := GreedyStep(heap, items, shape);
      assert |merged| == |multiset(merged)| == |multiset(MergeStep(heap))| == |MergeStep(heap)|;
      MergeLoopIsOptimal(MergeStep(heap), merged, smaller);
    }
  }

  // ----- from trees to codes -----

  lemma {:induction false} CostIsDot(t: Tree, d: nat)
    requires WellWeighted(t)
    ensures Dot(Leaves(t), Depths(t, d)) == Cost(t) + Times(t.freq, d)
  {
    match t
    case Leaf(_, _) => DotOfOne(t, d);
    case Node(_, l, r) =>
      CostIsDot(l, d + 1);
      CostIsDot(r, d + 1);
      TimesAdd(l.freq, r.freq, d);
      DotAppend(Leaves(l), Depths(l, d + 1), Leaves(r), Depths(r, d + 1));
  }

  /** The summed depths of the characters of a text; characters without a leaf count 0. */
  function TextDepth(t: Tree, text: seq<CodeUnit>): nat
  {
    if text == [] then 0 else Depth(t, text[0]) + TextDepth(t, text[1..])
  }

  /** The number of characters of a text that have a leaf. */
  function Occurrences(t: Tree, text: seq<CodeUnit>): nat
  {
    if text == [] then 0 else (if text[0] in Chars(t) then 1 else 0) + Occurrences(t, text[1..])
  }

  lemma {:induction false} LeafOccurrences(t: Tree, text: seq<CodeUnit>)
    requires t.Leaf?
    ensures Occurrences(t, text) == Count(text, t.symbol) && TextDepth(t, text) == 0
  {
    if text != [] {
      assert text == [text[0]] + text[1..];
      LeafOccurrences(t, text[1..]);
    }
  }

  lemma {:induction false} NodeOccurrences(t: Tree, text: seq<CodeUnit>)
    requires t.Node? && Chars(t.left) !! Chars(t.right)
    ensures Occurrences(t, text) == Occurrences(t.left, text) + Occurrences(t.right, text)
    ensures TextDepth(t, text) ==
            TextDepth(t.left, text) + TextDepth(t.right, text) + Occurrences(t, text)
  {
    if text != [] {
      NodeOccurrences(t, text[1..]);
      if text[0] !in Chars(t.left) {
        DepthOfStranger(t.left, text[0]);
      }
      if text[0] !in Chars(t.right) {
        DepthOfStranger(t.right, text[0]);
      }
    }
  }

  lemma {:induction false} DepthOfStranger(t: Tree, c: CodeUnit)
    requires c !in Chars(t)
    ensures Depth(t, c) == 0
  {
  }

  /** The cost of a tree over the frequencies of a text is what its paths spend on the text. */
  lemma {:induction false} CostIsTextDepth(t: Tree, keys: set<CodeUnit>, text: seq<CodeUnit>)
    requires WellWeighted(t) && LeavesFor(multiset(Leaves(t)), keys, text)
    ensures t.freq == Occurrences(t, text) && Cost(t) == TextDepth(t, text)
  {
    match t
    case Leaf(_, _) =>
      assert multiset(Leaves(t))[t] == 1;
      LeafOccurrences(t, text);
    case Node(_, l, r) =>
      LeavesForSides(t, keys, text);
      CostIsTextDepth(l, Chars(l), text);
      CostIsTextDepth(r, Chars(r), text);
      NodeOccurrences(t, text);
  }

  lemma {:induction false} BitsAreTextDepth(t: Tree, codes: Codes, text: seq<CodeUnit>)
    requires forall i :: 0 <= i < |text| ==> text[i] in codes && |codes[text[i]]| == Depth(t, text[i])
    ensures |EncodeBits(codes, text)| == TextDepth(t, text)
  {
    if text != [] {
      BitsAreTextDepth(t, codes, text[1..]);
    }
  }

  lemma {:induction false} AllOccur(t: Tree, text: seq<CodeUnit>)
    requires forall i :: 0 <= i < |text| ==> text[i] in Chars(t)
    ensures Occurrences(t, text) == |text|
  {
    if text != [] {
      AllOccur(t, text[1..]);
    }
  }

  lemma {:induction false} StartFreqIsLength(text: seq<CodeUnit>)
    requires text != []
    ensures TotalFreq(StartHeap(text)) == |text|
  {
    var t := HuffmanTree(text);
    HuffmanTreeFacts(text);
    CostIsTextDepth(t, Symbols(text), text);
    HuffmanTreeShape(text);
    AllOccur(t, text);
  }

  /**
   The merge loop over a text at any pass n: the list is sorted and one shorter per pass, its
   frequencies add up to the length of the text, and its leaves are the frequency table.
   */
  lemma {:induction false} MergeLoopOverText(text: seq<CodeUnit>, n: nat)
    requires text != [] && n < |FirstSeen(text)|
    ensures |MergeSteps(StartHeap(text), n)| == |FirstSeen(text)| - n
    ensures Sorted(MergeSteps(StartHeap(text), n))
    ensures TotalFreq(MergeSteps(StartHeap(text), n)) == |text|
    ensures LeavesFor(AllLeaves(MergeSteps(StartHeap(text), n)), Symbols(text), text)
  {
    StartHeapFacts(text);
    StartFreqIsLength(text);
    hide *;
    MergeLoopInvariant(StartHeap(text), n);
  }

  /** The bit count of a text is the sum of the frequencies of all merged trees. */
  lemma {:induction false} BitCountIsMergedFreqs(text: seq<CodeUnit>)
    requires |FirstSeen(text)| >= 2
    ensures text != []
    ensures |EncodeBits(TextCodes(text), text)| == MergedFreqs(StartHeap(text), |FirstSeen(text)| - 1)
  {
    assert FirstSeen(text)[0] in text;
    var t := HuffmanTree(text);
    HuffmanTreeFacts(text);
    CostIsTextDepth(t, Symbols(text), text);
    TwoSymbolsNode(text);
    forall i | 0 <= i < |text|
      ensures text[i] in TextCodes(text) && |TextCodes(text)[text[i]]| == Depth(t, text[i])
    {
      TextCode(text, text[i]);
    }
    BitsAreTextDepth(t, TextCodes(text), text);
  }

  lemma {:induction false} TwoSymbolsNode(text: seq<CodeUnit>)
    requires text != []
    ensures HuffmanTree(text).Node? <==> |FirstSeen(text)| >= 2
    ensures |Leaves(HuffmanTree(text))| == |FirstSeen(text)| >= 1
  {
    TextHasSymbols(text);
    var heap := StartHeap(text);
    StartHeapFacts(text);
    LastTree(heap);
    assert |Leaves(HuffmanTree(text))| == |multiset(Leaves(HuffmanTree(text)))|;
    assert |multiset(heap)| == |heap|;
  }

  lemma {:induction false} ShorterCodesFewerBits(t: Tree, codes: Codes, text: seq<CodeUnit>)
    requires forall i :: 0 <= i < |text| ==> text[i] in codes && |codes[text[i]]| >= Depth(t, text[i])
    ensures |EncodeBits(codes, text)| >= TextDepth(t, text)
  {
    if text != [] {
      ShorterCodesFewerBits(t, codes, text[1..]);
    }
  }

  // ----- every prefix-free code is dominated by a tree -----

  function Side(codes: Codes, bit: bool): Codes
  {
    map c | c in codes && codes[c] != [] && codes[c][0] == bit :: codes[c][1..]
  }

  lemma {:induction false} SidePrefixFree(codes: Codes, bit: bool)
    requires PrefixFree(codes)
    ensures PrefixFree(Side(codes, bit))
  {
    forall c, d | c in Side(codes, bit) && d in Side(codes, bit) && c != d
      ensures !(Side(codes, bit)[c] <= Side(codes, bit)[d])
    {
      assert !(codes[c] <= codes[d]);
      assert codes[c] == [bit] + codes[c][1..] && codes[d] == [bit] + codes[d][1..];
    }
  }

  /** The tree has one leaf per code, weighted by the text, none deeper than its code is long. */
  ghost predicate Dominates(t: Tree, codes: Codes, text: seq<CodeUnit>)
  {
    && WellWeighted(t)
    && LeavesFor(multiset(Leaves(t)), codes.Keys, text)
    && forall c :: c in codes ==> Depth(t, c) <= |codes[c]|
  }

  ghost predicate NoLonger(codes: Codes, longest: nat)
  {
    forall c :: c in codes ==> |codes[c]| <= longest
  }

  ghost predicate NoEmptyCode(codes: Codes)
  {
    forall c :: c in codes ==> codes[c] != []
  }

  lemma {:induction false} JoinSides(l: Tree, r: Tree, codes: Codes, text: seq<CodeUnit>)
    requires Dominates(l, Side(codes, false), text) && Dominates(r, Side(codes, true), text)
    requires NoEmptyCode(codes)
    ensures Dominates(Merge(l, r), codes, text)
  {
    var t := Merge(l, r);
    MergeSums(l, r);
    LeavesForChars(l, Side(codes, false).Keys, text);
    LeavesForChars(r, Side(codes, true).Keys, text);
    forall c | c in codes ensures Depth(t, c) <= |codes[c]| {
      assert c in Side(codes, codes[c][0]);
      assert c !in Side(codes, !codes[c][0]);
    }
    forall x: Tree
      ensures multiset(Leaves(t))[x] ==
              if x.Leaf? && x.symbol in codes.Keys && x.freq == Count(text, x.symbol) then 1 else 0
    {
      if x.Leaf? && x.symbol in codes {
        assert x.symbol in Side(codes, codes[x.symbol][0]);
      }
    }
  }

  lemma {:induction false} OneCode(codes: Codes, c: CodeUnit, text: seq<CodeUnit>)
    requires codes.Keys == {c}
    ensures Dominates(TheLeaf(text, c), codes, text)
  {
  }

  lemma {:induction false} OneSided(t: Tree, codes: Codes, bit: bool, text: seq<CodeUnit>)
    requires Side(codes, !bit) == map[] && Dominates(t, Side(codes, bit), text)
    requires NoEmptyCode(codes)
    ensures Dominates(t, codes, text)
  {
    forall c | c in codes ensures c in Side(codes, bit) {
      assert c !in Side(codes, !bit);
    }
    assert codes.Keys == Side(codes, bit).Keys;
  }

  /** Among two or more codes without a common prefix none is empty. */
  lemma {:induction false} TwoCodes(codes: Codes, c: CodeUnit, d: CodeUnit)
    requires PrefixFree(codes) && c in codes && d in codes && c != d
    ensures NoEmptyCode(codes)
  {
    forall e | e in codes ensures codes[e] != [] {
      var other := if e == c then d else c;
      assert !(codes[e] <= codes[other]);
    }
  }

  /** The sides of such a code are shorter, prefix-free, and not both empty. */
  lemma {:induction false} SidesShrink(codes: Codes, longest: nat, c: CodeUnit)
    requires PrefixFree(codes) && NoEmptyCode(codes) && NoLonger(codes, longest) && c in codes
    ensures longest > 0
    ensures NoLonger(Side(codes, false), longest - 1) && NoLonger(Side(codes, true), longest - 1)
    ensures PrefixFree(Side(codes, false)) && PrefixFree(Side(codes, true))
    ensures c in Side(codes, false) || c in Side(codes, true)
  {
    SidePrefixFree(codes, false);
    SidePrefixFree(codes, true);
    hide PrefixFree;
    assert |codes[c]| > 0;
  }

  lemma {:induction false} CodeTree(codes: Codes, longest: nat, text: seq<CodeUnit>) returns (t: Tree)
    requires codes != map[] && PrefixFree(codes) && NoLonger(codes, longest)
    ensures Dominates(t, codes, text)
    decreases longest, 1
  {
    hide PrefixFree, NoLonger, Dominates;
    var c :| c in codes;
    if codes.Keys == {c} {
      OneCode(codes, c, text);
      t := TheLeaf(text, c);
    } else {
      var d :| d in codes && d != c;
      TwoCodes(codes, c, d);
      SidesShrink(codes, longest, c);
      t := TreeOfSides(codes, longest, text);
    }
  }

  /** One side alone has the tree of all codes; two sides are merged. */
  lemma {:induction false} TreeOfSides(codes: Codes, longest: nat, text: seq<CodeUnit>) returns (t: Tree)
    requires longest > 0 && NoEmptyCode(codes)
    requires NoLonger(Side(codes, false), longest - 1) && NoLonger(Side(codes, true), longest - 1)
    requires PrefixFree(Side(codes, false)) && PrefixFree(Side(codes, true))
    requires Side(codes, false) != map[] || Side(codes, true) != map[]
    ensures Dominates(t, codes, text)
    decreases longest, 0
  {
    hide *;
    if Side(codes, false) == map[] {
      t := CodeTree(Side(codes, true), longest - 1, text);
      OneSided(t, codes, true, text);
    } else if Side(codes, true) == map[] {
      t := CodeTree(Side(codes, false), longest - 1, text);
      OneSided(t, codes, false, text);
    } else {
      var l := CodeTree(Side(codes, false), longest - 1, text);
      var r := CodeTree(Side(codes, true), longest - 1, text);
      JoinSides(l, r, codes, text);
      t := Merge(l, r);
    }
  }

  lemma {:induction false} LongestCode(codes: Codes) returns (longest: nat)
    ensures NoLonger(codes, longest)
    decreases codes.Keys
  {
    longest := 0;
    if codes != map[] {
      var c :| c in codes;
      assert (codes - {c}).Keys == codes.Keys - {c};
      longest := LongestCode(codes - {c});
      longest := if |codes[c]| > longest then |codes[c]| else longest;
      forall d | d in codes ensures |codes[d]| <= longest {
        assert d == c || (d in codes - {c} && (codes - {c})[d] == codes[d]);
      }
    }
  }

  /** Leaf lists for the same keys and text are the same up to order. */
  lemma {:induction false} SameLeaves(a: multiset<Tree>, b: multiset<Tree>, keys: set<CodeUnit>, text: seq<CodeUnit>)
    requires LeavesFor(a, keys, text) && LeavesFor(b, keys, text)
    ensures a == b
  {
    forall x: Tree ensures a[x] == b[x] {
    }
  }

  lemma {:induction false} Restrict(codes: Codes, keys: set<CodeUnit>) returns (some: Codes)
    requires PrefixFree(codes) && keys <= codes.Keys
    ensures some.Keys == keys && PrefixFree(some)
    ensures forall c :: c in keys ==> some[c] == codes[c]
  {
    some := map c | c in codes && c in keys :: codes[c];
    forall c, d | c in some && d in some && c != d ensures !(some[c] <= some[d]) {
      assert !(codes[c] <= codes[d]);
    }
  }

  lemma {:induction false} EncodeRestricted(codes: Codes, some: Codes, text: seq<CodeUnit>)
    requires forall i :: 0 <= i < |text| ==> text[i] in codes && text[i] in some && codes[text[i]] == some[text[i]]
    ensures EncodeBits(codes, text) == EncodeBits(some, text)
  {
    if text != [] {
      EncodeRestricted(codes, some, text[1..]);
    }
  }

  /** No tree over the frequencies of a text costs less than the merge loop pays. */
  lemma {:induction false} TreeCostsNoLess(t: Tree, text: seq<CodeUnit>)
    requires text != [] && WellWeighted(t) && LeavesFor(multiset(Leaves(t)), Symbols(text), text)
    ensures FirstSeen(text) != []
    ensures MergedFreqs(StartHeap(text), |FirstSeen(text)| - 1) <= Cost(t)
  {
    TextHasSymbols(text);
    var heap := StartHeap(text);
    StartHeapFacts(text);
    SameLeaves(multiset(heap), multiset(Leaves(t)), Symbols(text), text);
    MergeLoopIsOptimal(heap, Leaves(t), t);
    CostIsDot(t, 0);
  }

  lemma {:induction false} DominatingTreeCost(t: Tree, codes: Codes, text: seq<CodeUnit>)
    requires |FirstSeen(text)| >= 2 && text != []
    requires codes.Keys == Symbols(text) && Dominates(t, codes, text)
    ensures |EncodeBits(TextCodes(text), text)| <= TextDepth(t, text)
  {
    BitCountIsMergedFreqs(text);
    TreeCostsNoLess(t, text);
    CostIsTextDepth(t, Symbols(text), text);
  }

  lemma {:induction false} DominatingTreeDepth(t: Tree, codes: Codes, text: seq<CodeUnit>)
    requires codes.Keys == Symbols(text) && forall c :: c in codes ==> Depth(t, c) <= |codes[c]|
    ensures TextDepth(t, text) <= |EncodeBits(codes, text)|
  {
    forall i | 0 <= i < |text| ensures text[i] in codes {
    }
    ShorterCodesFewerBits(t, codes, text);
  }

  /**
   Optimality: for a text with two or more distinct characters no prefix-free code that covers
   the text produces fewer bits than the Huffman code.
   */
  lemma {:induction false} HuffmanIsOptimal(text: seq<CodeUnit>, codes: Codes)
    requires |FirstSeen(text)| >= 2 && PrefixFree(codes) && Symbols(text) <= codes.Keys
    ensures text != []
    ensures |EncodeBits(TextCodes(text), text)| <= |EncodeBits(codes, text)|
  {
    assert FirstSeen(text)[0] in text;
    var used := Restrict(codes, Symbols(text));
    assert text[0] in used;
    var longest := LongestCode(used);
    var t := CodeTree(used, longest, text);
    DominatingTreeCost(t, used, text);
    DominatingTreeDepth(t, used, text);
    EncodeRestricted(codes, used, text);
  }

  /** A lone character costs one bit each time: the least that a code without empty words can do. */
  lemma {:induction false} LoneSymbolIsOptimal(text: seq<CodeUnit>, codes: Codes)
    requires |FirstSeen(text)| == 1 && FirstSeen(text)[0] in codes && codes[FirstSeen(text)[0]] != []
    ensures text != []
    ensures |EncodeBits(TextCodes(text), text)| == |text| <= |EncodeBits(codes, text)|
  {
    var c := FirstSeen(text)[0];
    assert c in text;
    forall i | 0 <= i < |text| ensures text[i] == c {
      assert text[i] in FirstSeen(text);
    }
    TwoSymbolsNode(text);
    TextCode(text, c);
    LoneSymbolBits(TextCodes(text), text, c);
    LoneSymbolBits(codes, text, c);
  }

  lemma {:induction false} LoneSymbolBits(codes: Codes, text: seq<CodeUnit>, c: CodeUnit)
    requires c in codes && codes[c] != [] && forall i :: 0 <= i < |text| ==> text[i] == c
    ensures |EncodeBits(codes, text)| >= |text|
    ensures |codes[c]| == 1 ==> |EncodeBits(codes, text)| == |text|
  {
    if text != [] {
      LoneSymbolBits(codes, text[1..], c);
    }
  }
}
