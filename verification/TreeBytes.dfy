/** The flat form of a Huffman tree: three bytes per node, children before parents. */
module TreeBytes {
  import opened Bytes
  import opened HuffmanTrees

  /** A tree as it can be read back: frequencies are not stored. */
  datatype Shape = Tip(symbol: nat) | Fork(left: Shape, right: Shape)

  function ShapeOf(t: Tree): Shape
  {
    match t
    case Leaf(_, c) => Tip(c)
    case Node(_, l, r) => Fork(ShapeOf(l), ShapeOf(r))
  }

  /** [0, character, 0] for a leaf, [1, left index, right index] for an inner node. */
  datatype Record = Record(kind: nat, first: nat, second: nat)

  /** The records of a tree in post-order, the first of them with index `base`. */
  function Records(t: Tree, base: nat): (rs: seq<Record>)
    ensures |rs| == Size(t)
  {
    match t
    case Leaf(_, c) => [Record(0, c, 0)]
    case Node(_, l, r) =>
      Records(l, base) + Records(r, base + Size(l)) +
      [Record(1, base + Size(l) - 1, base + Size(l) + Size(r) - 1)]
  }

  function Flatten(rs: seq<Record>): (data: seq<nat>)
    ensures |data| == 3 * |rs|
  {
    if rs == [] then []
    else
      var r := rs[|rs| - 1];
      Flatten(rs[..|rs| - 1]) + [r.kind, r.first, r.second]
  }

  lemma {:induction false} FlattenAppend(a: seq<Record>, b: seq<Record>)
    ensures Flatten(a + b) == Flatten(a) + Flatten(b)
  {
    if b == [] {
      assert a + b == a;
    } else {
      var front := b[..|b| - 1];
      assert (a + b)[..|a + b| - 1] == a + front;
      FlattenAppend(a, front);
    }
  }

  lemma {:induction false} FlattenOne(r: Record)
    ensures Flatten([r]) == [r.kind, r.first, r.second]
  {
    assert [r][..0] == [];
  }

  lemma {:induction false} FlattenThree(l: seq<Record>, r: seq<Record>, root: Record)
    ensures Flatten(l + r + [root]) == Flatten(l) + Flatten(r) + [root.kind, root.first, root.second]
  {
    FlattenOne(root);
    hide *;
    FlattenAppend(l, r);
    FlattenAppend(l + r, [root]);
  }

  lemma {:induction false} NodeRecords(t: Tree, base: nat)
    requires t.Node?
    ensures var mid := base + Size(t.left);
            Records(t, base) ==
            Records(t.left, base) + Records(t.right, mid) + [Record(1, mid - 1, mid + Size(t.right) - 1)]
    ensures Size(t) == Size(t.left) + Size(t.right) + 1
  {
  }

  lemma {:induction false} FlattenNode(t: Tree, base: nat)
    requires t.Node?
    ensures var mid := base + Size(t.left);
            Flatten(Records(t, base)) ==
            Flatten(Records(t.left, base)) + Flatten(Records(t.right, mid)) + [1, mid - 1, mid + Size(t.right) - 1]
    ensures Size(t) == Size(t.left) + Size(t.right) + 1
  {
    hide *;
    NodeRecords(t, base);
    var mid := base + Size(t.left);
    FlattenThree(Records(t.left, base), Records(t.right, mid), Record(1, mid - 1, mid + Size(t.right) - 1));
  }

  lemma {:induction false} FlattenLeaf(t: Tree, base: nat)
    requires t.Leaf?
    ensures Flatten(Records(t, base)) == [0, t.symbol, 0] && Size(t) == 1
  {
    FlattenOne(Record(0, t.symbol, 0));
    assert Records(t, base) == [Record(0, t.symbol, 0)];
  }

  function RecordAt(data: seq<nat>, n: nat): Record
    requires 3 * n + 2 < |data|
  {
    Record(data[3 * n], data[3 * n + 1], data[3 * n + 2])
  }

  lemma {:induction false} FlattenAt(rs: seq<Record>, n: nat)
    requires n < |rs|
    ensures RecordAt(Flatten(rs), n) == rs[n]
  {
    if n < |rs| - 1 {
      FlattenAt(rs[..|rs| - 1], n);
    }
  }

  /** new Uint8Array(data): every number is cut to its low byte. */
  function Truncate(data: seq<nat>): (bytes: seq<Byte>)
    ensures |bytes| == |data|
    ensures forall i :: 0 <= i < |data| ==> bytes[i] == data[i] % 256
  {
    seq(|data|, i requires 0 <= i < |data| => data[i] % 256)
  }

  function FlatTree(t: Tree): seq<nat>
  {
    Flatten(Records(t, 0))
  }

  /** The bytes that the constructor stores. */
  function TreeData(text: seq<CodeUnit>): seq<Byte>
    requires text != []
  {
    Truncate(FlatTree(HuffmanTree(text)))
  }

  /** A text with k distinct characters has 2k - 1 nodes of three bytes each. */
  lemma {:induction false} TreeDataSize(text: seq<CodeUnit>)
    requires text != []
    ensures |TreeData(text)| == 3 * (2 * |FirstSeen(text)| - 1)
  {
    TextHasSymbols(text);
    var heap, t := StartHeap(text), HuffmanTree(text);
    StartHeapFacts(text);
    LastTree(heap);
    assert multiset(Leaves(t)) == multiset(heap);
    assert |multiset(Leaves(t))| == |multiset(heap)|;
    SizeFromLeaves(t);
  }

  // ----- reading a tree back -----

  function ReadRecords(data: seq<nat>): (rs: seq<Record>)
    ensures |rs| == |data| / 3
  {
    seq(|data| / 3, n requires 0 <= n < |data| / 3 => RecordAt(data, n))
  }

  lemma {:induction false} ReadFlattened(rs: seq<Record>)
    ensures ReadRecords(Flatten(rs)) == rs
  {
    forall n | 0 <= n < |rs| ensures ReadRecords(Flatten(rs))[n] == rs[n] {
      FlattenAt(rs, n);
    }
  }

  /** Reads the tree whose root is record i; fails unless every child comes before its parent. */
  function Rebuild(rs: seq<Record>, i: nat): Option<Shape>
    decreases i
  {
    if i >= |rs| then None
    else if rs[i].kind == 0 then Some(Tip(rs[i].first))
    else if rs[i].kind == 1 && rs[i].first < i && rs[i].second < i then
      var left, right := Rebuild(rs, rs[i].first), Rebuild(rs, rs[i].second);
      if left.Some? && right.Some? then Some(Fork(left.value, right.value)) else None
    else None
  }

  /** The records from index `base` on are those of the tree. */
  ghost predicate Stores(rs: seq<Record>, t: Tree, base: nat)
  {
    && base + Size(t) <= |rs|
    && match t
       case Leaf(_, c) => rs[base] == Record(0, c, 0)
       case Node(_, l, r) =>
         && Stores(rs, l, base)
         && Stores(rs, r, base + Size(l))
         && rs[base + Size(l) + Size(r)] == Record(1, base + Size(l) - 1, base + Size(l) + Size(r) - 1)
  }

  lemma {:induction false} StoresMore(rs: seq<Record>, more: seq<Record>, t: Tree, base: nat)
    requires Stores(rs, t, base)
    ensures Stores(rs + more, t, base)
  {
    if t.Node? {
      StoresMore(rs, more, t.left, base);
      StoresMore(rs, more, t.right, base + Size(t.left));
    }
  }

  lemma {:induction false} StoresLeaf(pre: seq<Record>, t: Tree)
    requires t.Leaf?
    ensures Stores(pre + Records(t, |pre|), t, |pre|)
  {
  }

  lemma {:induction false} StoresNode(pre: seq<Record>, t: Tree)
    requires t.Node?
    requires Stores(pre + Records(t, |pre|), t.left, |pre|)
    requires Stores(pre + Records(t, |pre|), t.right, |pre| + Size(t.left))
    ensures Stores(pre + Records(t, |pre|), t, |pre|)
  {
    var rs := pre + Records(t, |pre|);
    assert rs[|rs| - 1] == Records(t, |pre|)[Size(t) - 1];
  }

  lemma {:induction false} RecordsNode(pre: seq<Record>, t: Tree)
    requires t.Node?
    ensures var dl := pre + Records(t.left, |pre|);
            var dr := dl + Records(t.right, |dl|);
            pre + Records(t, |pre|) == dr + [Record(1, |dl| - 1, |dr| - 1)]
  {
  }

  lemma {:induction false} RecordsStored(pre: seq<Record>, t: Tree)
    ensures Stores(pre + Records(t, |pre|), t, |pre|)
    decreases t
  {
    hide Stores, Records;
    if t.Leaf? {
      StoresLeaf(pre, t);
    } else {
      var l, r := t.left, t.right;
      var dl := pre + Records(l, |pre|);
      var dr := dl + Records(r, |dl|);
      var root := [Record(1, |dl| - 1, |dr| - 1)];
      RecordsStored(pre, l);
      RecordsStored(dl, r);
      StoresMore(dl, Records(r, |dl|), l, |pre|);
      StoresMore(dr, root, l, |pre|);
      StoresMore(dr, root, r, |dl|);
      RecordsNode(pre, t);
      StoresNode(pre, t);
    }
  }

  lemma {:induction false} RebuildStored(rs: seq<Record>, t: Tree, base: nat)
    requires Stores(rs, t, base)
    ensures Rebuild(rs, base + Size(t) - 1) == Some(ShapeOf(t))
  {
    if t.Node? {
      RebuildStored(rs, t.left, base);
      RebuildStored(rs, t.right, base + Size(t.left));
    }
  }

  lemma {:induction false} RebuildRecords(t: Tree)
    ensures Rebuild(Records(t, 0), Size(t) - 1) == Some(ShapeOf(t))
  {
    hide *;
    AllRecordsStored(t, []);
    RebuildStored(Records(t, 0), t, 0);
  }

  lemma {:induction false} AllRecordsStored(t: Tree, none: seq<Record>)
    requires none == []
    ensures Stores(Records(t, |none|), t, |none|)
  {
    RecordsStored(none, t);
    assert none + Records(t, |none|) == Records(t, |none|);
  }

  function ReadTree(data: seq<nat>): Option<Shape>
  {
    if |data| < 3 then None else Rebuild(ReadRecords(data), |data| / 3 - 1)
  }

  lemma {:induction false} ReadFlattenedTree(rs: seq<Record>)
    requires rs != []
    ensures ReadTree(Flatten(rs)) == Rebuild(rs, |rs| - 1)
  {
    ReadFlattened(rs);
  }

  /** The flat form determines the tree: reading it from the last node gives the tree back. */
  lemma {:induction false} FlatTreeDeterminesTree(t: Tree)
    ensures ReadTree(FlatTree(t)) == Some(ShapeOf(t))
  {
    var rs := Records(t, 0);
    assert Rebuild(rs, |rs| - 1) == Some(ShapeOf(t)) by {
      RebuildRecords(t);
    }
    assert ReadTree(Flatten(rs)) == Rebuild(rs, |rs| - 1) by {
      ReadFlattenedTree(rs);
    }
  }

  // ----- indices -----

  /** Every record is a leaf, or a node whose children come before it. */
  ghost predicate ChildrenFirst(rs: seq<Record>, base: nat)
  {
    forall n :: 0 <= n < |rs| ==>
      rs[n].kind == 0 || (rs[n].kind == 1 && rs[n].first < base + n && rs[n].second < base + n)
  }

  lemma {:induction false} RecordsChildrenFirst(t: Tree, base: nat)
    ensures ChildrenFirst(Records(t, base), base)
  {
    if t.Node? {
      RecordsChildrenFirst(t.left, base);
      RecordsChildrenFirst(t.right, base + Size(t.left));
    }
  }

  predicate FitsByte(r: Record)
  {
    r.kind < 256 && r.first < 256 && r.second < 256
  }

  lemma {:induction false} FittingRecords(t: Tree, base: nat)
    requires base + Size(t) <= 257
    requires forall c :: c in Chars(t) ==> c < 256
    ensures forall n :: 0 <= n < Size(t) ==> FitsByte(Records(t, base)[n])
  {
    match t
    case Leaf(_, c) => assert c in Chars(t);
    case Node(_, l, r) =>
      assert Chars(t) == Chars(l) + Chars(r);
      FittingRecords(l, base);
      FittingRecords(r, base + Size(l));
  }

  lemma {:induction false} CharStored(t: Tree, base: nat, c: CodeUnit) returns (n: nat)
    requires c in Chars(t)
    ensures n < Size(t) && Records(t, base)[n].first == c
  {
    match t
    case Leaf(_, _) => n := 0;
    case Node(_, l, r) =>
      if c in Chars(l) {
        n := CharStored(l, base, c);
      } else {
        n := CharStored(r, base + Size(l), c);
        n := Size(l) + n;
      }
  }

  predicate FitsBytes(t: Tree)
  {
    |Leaves(t)| <= 129 && forall c :: c in Chars(t) ==> c < 256
  }

  lemma {:induction false} TruncateRecord(data: seq<nat>, n: nat)
    requires 3 * n + 2 < |data|
    ensures var r := RecordAt(data, n);
            RecordAt(Truncate(data), n) == Record(r.kind % 256, r.first % 256, r.second % 256)
  {
  }

  ghost predicate AllFit(rs: seq<Record>)
  {
    forall n :: 0 <= n < |rs| ==> FitsByte(rs[n])
  }

  /** Truncation is lossless exactly when every number of every record is below 256. */
  lemma {:induction false} TruncateFitting(rs: seq<Record>)
    ensures AllBytes(Flatten(rs)) <==> AllFit(rs)
  {
    if rs != [] {
      var front, r := rs[..|rs| - 1], rs[|rs| - 1];
      TruncateFitting(front);
      assert AllFit(rs) <==> AllFit(front) && FitsByte(r) by {
        assert rs == front + [r];
      }
      AllBytesAppend(Flatten(front), r);
    }
  }

  ghost predicate AllBytes(data: seq<nat>)
  {
    forall x :: x in data ==> x < 256
  }

  lemma {:induction false} AllBytesAppend(data: seq<nat>, r: Record)
    ensures AllBytes(data + [r.kind, r.first, r.second]) <==> AllBytes(data) && FitsByte(r)
  {
    var all := data + [r.kind, r.first, r.second];
    assert r.kind == all[|data|] && r.first == all[|data| + 1] && r.second == all[|data| + 2];
    assert forall x :: x in all <==> x in data || x == r.kind || x == r.first || x == r.second;
    if AllBytes(all) {
      assert r.kind in all && r.first in all && r.second in all;
    }
  }

  lemma {:induction false} TruncateAllBytes(data: seq<nat>)
    ensures Truncate(data) == data <==> AllBytes(data)
  {
    if AllBytes(data) {
      forall i | 0 <= i < |data| ensures Truncate(data)[i] == data[i] {
        assert data[i] in data;
      }
    }
    if Truncate(data) == data {
      forall x | x in data ensures x < 256 {
        var i :| 0 <= i < |data| && data[i] == x;
        assert Truncate(data)[i] == x;
      }
    }
  }

  /**
   Nothing is lost in the bytes exactly when there are at most 129 leaves, all for one-byte
   characters: the largest stored index, the root's right child, is 2k - 3 for k leaves.
   */
  lemma {:induction false} TruncationIsLossless(t: Tree)
    ensures Truncate(FlatTree(t)) == FlatTree(t) <==> FitsBytes(t)
  {
    var rs := Records(t, 0);
    SizeFromLeaves(t);
    TruncateFitting(rs);
    TruncateAllBytes(FlatTree(t));
    if FitsBytes(t) {
      FittingRecords(t, 0);
    }
    if AllFit(rs) {
      assert FitsByte(rs[|rs| - 1]);
      forall c | c in Chars(t) ensures c < 256 {
        var n := CharStored(t, 0, c);
        assert FitsByte(rs[n]);
      }
    }
  }

  /** What `decode` relies on: types are 0 or 1 and children are nodes of the array. */
  ghost predicate SafeTree(data: seq<Byte>)
  {
    && |data| > 0
    && |data| % 3 == 0
    && forall n :: 0 <= n < |data| / 3 ==> SafeRecord(RecordAt(data, n), |data| / 3)
  }

  predicate SafeRecord(r: Record, count: nat)
  {
    r.kind == 0 || (r.kind == 1 && r.first < count && r.second < count)
  }

  /** Cutting indices down cannot make them point outside the array. */
  lemma {:induction false} FlatTreeIsSafe(t: Tree)
    ensures SafeTree(Truncate(FlatTree(t)))
  {
    var rs := Records(t, 0);
    var data := Flatten(rs);
    RecordsChildrenFirst(t, 0);
    forall n | 0 <= n < |data| / 3 ensures SafeRecord(RecordAt(Truncate(data), n), |data| / 3) {
      FlattenAt(rs, n);
      TruncateRecord(data, n);
      assert rs[n].first % 256 <= rs[n].first && rs[n].second % 256 <= rs[n].second;
    }
  }
}
