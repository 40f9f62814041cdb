/**
 Where one byte per index or character is not enough: with more than 129 distinct characters, or
 a character above 255, no decoder that follows the stored tree can give the text back.
 */
module HuffmanLimits {
  import opened Bytes
  import opened BitPacking
  import opened HuffmanTrees
  import opened HuffmanCodes
  import opened TreeBytes
  import opened HuffmanArrival
  import opened HuffmanDecoding

  // ----- nodes that can be reached from the root -----

  ghost predicate IsTree(data: seq<Byte>)
  {
    && SafeTree(data)
    && forall n :: 0 <= n < |data| / 3 && RecordAt(data, n).kind == 1 ==>
         RecordAt(data, n).first < n && RecordAt(data, n).second < n
  }

  ghost predicate HasChild(data: seq<Byte>, m: nat, n: nat)
    requires 3 * m + 2 < |data|
  {
    RecordAt(data, m).kind == 1 && (RecordAt(data, m).first == n || RecordAt(data, m).second == n)
  }

  ghost predicate Reached(data: seq<Byte>, n: nat)
    decreases |data| / 3 - n
  {
    n == |data| / 3 - 1 || exists m :: n < m < |data| / 3 && Reached(data, m) && HasChild(data, m, n)
  }

  lemma {:induction false} ChildrenReached(data: seq<Byte>, m: nat)
    requires IsTree(data) && m < |data| / 3 && Reached(data, m) && RecordAt(data, m).kind == 1
    ensures Reached(data, RecordAt(data, m).first) && Reached(data, RecordAt(data, m).second)
  {
    assert HasChild(data, m, RecordAt(data, m).first) && HasChild(data, m, RecordAt(data, m).second);
  }

  /** The character of a leaf that can be reached. */
  ghost predicate Emittable(data: seq<Byte>, c: int)
  {
    exists n :: 0 <= n < |data| / 3 && Reached(data, n) && RecordAt(data, n).kind == 0 && RecordAt(data, n).first == c
  }

  ghost predicate AllEmittable(data: seq<Byte>, out: seq<Byte>)
  {
    forall i :: 0 <= i < |out| ==> Emittable(data, out[i])
  }

  lemma {:induction false} LeafEmits(data: seq<Byte>, n: nat, out: seq<Byte>)
    requires IsTree(data) && n < |data| / 3 && Reached(data, n) && RecordAt(data, n).kind == 0
    requires AllEmittable(data, out)
    ensures AllEmittable(data, out + [RecordAt(data, n).first]) && AllEmittable(data, [RecordAt(data, n).first] + out)
  {
    assert Emittable(data, RecordAt(data, n).first);
    hide Emittable;
  }

  lemma {:induction false} StepEmits(data: seq<Byte>, node: nat, out: seq<Byte>, limit: int, bit: bool)
    requires IsTree(data) && node < |data| / 3 && Reached(data, node) && AllEmittable(data, out)
    ensures var r := Step(data, node, out, limit, bit);
            !r.Throw? && r.node < |data| / 3 && Reached(data, r.node) && AllEmittable(data, r.out)
  {
    var here, root := RecordAt(data, node), |data| / 3 - 1;
    assert SafeRecord(here, |data| / 3) && SafeRecord(RecordAt(data, root), |data| / 3);
    assert Reached(data, root);
    if RecordAt(data, root).kind == 1 {
      ChildrenReached(data, root);
    }
    if here.kind == 0 {
      LeafEmits(data, node, out);
    } else {
      ChildrenReached(data, node);
    }
    hide Reached, AllEmittable, IsTree;
  }

  lemma {:induction false} RunBitsEmits(data: seq<Byte>, node: nat, out: seq<Byte>, limit: int, bits: seq<bool>)
    requires IsTree(data) && node < |data| / 3 && Reached(data, node) && AllEmittable(data, out)
    ensures var r := RunBits(data, node, out, limit, bits);
            !r.Throw? && r.node < |data| / 3 && Reached(data, r.node) && AllEmittable(data, r.out)
    decreases bits
  {
    if bits != [] {
      StepEmits(data, node, out, limit, bits[0]);
      var s := Step(data, node, out, limit, bits[0]);
      hide Reached, AllEmittable, Step;
      assert IsTree(data);
      if s.Next? {
        RunBitsEmits(data, s.node, s.out, limit, bits[1..]);
      }
    }
  }

  lemma {:induction false} RunBytesEmits(data: seq<Byte>, node: nat, out: seq<Byte>, limit: int, bytes: seq<Byte>)
    requires IsTree(data) && node < |data| / 3 && Reached(data, node) && AllEmittable(data, out)
    ensures var r := RunBytes(data, node, out, limit, bytes); r.Ok? && AllEmittable(data, r.value)
    decreases bytes
  {
    if bytes != [] {
      RunBitsEmits(data, node, out, limit, ByteBits(bytes[0]));
      var r := RunBits(data, node, out, limit, ByteBits(bytes[0]));
      hide Reached, AllEmittable, RunBits, ByteBits;
      RunBytesEmits(data, r.node, r.out, limit, bytes[1..]);
    }
  }

  lemma {:induction false} ArrivalEmits(data: seq<Byte>, node: nat, bits: seq<bool>, n: nat)
    requires IsTree(data) && node < |data| / 3 && Reached(data, node)
    ensures var r := DecodeOnArrival(data, node, bits, n); r.Some? ==> AllEmittable(data, r.value)
    decreases bits
  {
    var root := |data| / 3 - 1;
    if n > 0 && bits != [] {
      var here := RecordAt(data, node);
      assert SafeRecord(here, |data| / 3) && Reached(data, root);
      if here.kind == 1 {
        ChildrenReached(data, node);
      }
      hide Reached, AllEmittable;
      var child := if here.kind == 0 then node else if bits[0] then here.second else here.first;
      if RecordAt(data, child).kind == 0 {
        ArrivalEmits(data, root, bits[1..], n - 1);
        var rest := DecodeOnArrival(data, root, bits[1..], n - 1);
        if rest.Some? {
          LeafEmits(data, child, rest.value);
        }
      } else {
        ArrivalEmits(data, child, bits[1..], n);
      }
    }
  }

  // ----- counting -----

  lemma {:induction false} SubsetSize(a: set<nat>, b: set<nat>)
    requires a <= b
    ensures |a| <= |b| && (|a| == |b| ==> a == b)
  {
    if a != {} {
      var x :| x in a;
      SubsetSize(a - {x}, b - {x});
    }
  }

  function Range(n: nat): (r: set<nat>)
    ensures forall i :: i in r <==> 0 <= i < n
    ensures |r| == n
  {
    if n == 0 then {} else Range(n - 1) + {n - 1}
  }

  function Child(data: seq<Byte>, m: nat, second: bool): nat
  {
    if 3 * m + 2 >= |data| then 0
    else if second then RecordAt(data, m).second
    else RecordAt(data, m).first
  }

  function Children(data: seq<Byte>, s: set<nat>, second: bool): set<nat>
  {
    set m | m in s :: Child(data, m, second)
  }

  lemma {:induction false} FewChildren(data: seq<Byte>, s: set<nat>, second: bool)
    ensures |Children(data, s, second)| <= |s|
  {
    hide Child;
    if s != {} {
      var m :| m in s;
      FewChildren(data, s - {m}, second);
      assert Children(data, s, second) == Children(data, s - {m}, second) + {Child(data, m, second)};
    }
  }

  function Nodes(data: seq<Byte>): set<nat>
  {
    Range(|data| / 3)
  }

  function Inner(data: seq<Byte>): set<nat>
  {
    set n | n in Range(|data| / 3) && RecordAt(data, n).kind == 1
  }

  ghost function ReachedNodes(data: seq<Byte>): set<nat>
  {
    set n | n in Range(|data| / 3) && Reached(data, n)
  }

  lemma {:induction false} ReachedByInner(data: seq<Byte>, n: nat, inner: set<nat>)
    requires IsTree(data) && n in ReachedNodes(data) && n != |data| / 3 - 1
    requires inner == ReachedNodes(data) * Inner(data)
    ensures n in Children(data, inner, false) || n in Children(data, inner, true)
  {
    var m :| n < m < |data| / 3 && Reached(data, m) && HasChild(data, m, n);
    hide Reached;
    assert m in inner;
    assert n == Child(data, m, false) || n == Child(data, m, true);
  }

  /** Every inner node leads to at most two others. */
  lemma {:induction false} FewReached(data: seq<Byte>)
    requires IsTree(data)
    ensures |ReachedNodes(data)| <= 1 + 2 * |ReachedNodes(data) * Inner(data)|
  {
    RootReached(data);
    hide IsTree, Reached, ReachedNodes, Inner, Children, AllEmittable;
    var inner := ReachedNodes(data) * Inner(data);
    var root: nat := |data| / 3 - 1;
    var firsts, seconds := Children(data, inner, false), Children(data, inner, true);
    forall n | n in ReachedNodes(data) ensures n in {root} + firsts + seconds {
      if n != root {
        ReachedByInner(data, n, inner);
      }
    }
    SubsetSize(ReachedNodes(data), {root} + firsts + seconds);
    FewChildren(data, inner, false);
    FewChildren(data, inner, true);
  }

  lemma {:induction false} AllReached(data: seq<Byte>)
    requires IsTree(data) && |data| / 3 == 2 * |Inner(data)| + 1
    requires Nodes(data) - Inner(data) <= ReachedNodes(data)
    ensures forall n: nat :: n < |data| / 3 ==> Reached(data, n)
  {
    var reached, inner, nodes := ReachedNodes(data), Inner(data), Nodes(data);
    hide Reached, IsTree, HasChild;
    FewReached(data);
    assert reached == (nodes - inner) + reached * inner;
    assert inner <= nodes;
    assert |nodes - inner| == |nodes| - |inner|;
    SubsetSize(reached * inner, inner);
    assert reached == nodes;
    forall n: nat | n < |data| / 3 ensures Reached(data, n) {
      assert n in reached;
    }
  }

  /** If every leaf is reached, every node is: an unreached node hides a leaf. */
  lemma {:induction false} UnreachedLeaf(data: seq<Byte>, x: nat) returns (n: nat)
    requires IsTree(data) && |data| / 3 == 2 * |Inner(data)| + 1
    requires x < |data| / 3 && !Reached(data, x)
    ensures n < |data| / 3 && RecordAt(data, n).kind == 0 && !Reached(data, n)
  {
    if Nodes(data) - Inner(data) <= ReachedNodes(data) {
      AllReached(data);
    }
    n :| n in Nodes(data) - Inner(data) && n !in ReachedNodes(data);
    assert SafeRecord(RecordAt(data, n), |data| / 3);
  }

  // ----- the stored tree of a text -----

  function InnerRecords(rs: seq<Record>): nat
  {
    if rs == [] then 0
    else InnerRecords(rs[..|rs| - 1]) + if rs[|rs| - 1].kind == 1 then 1 else 0
  }

  lemma {:induction false} InnerRecordsAppend(a: seq<Record>, b: seq<Record>)
    ensures InnerRecords(a + b) == InnerRecords(a) + InnerRecords(b)
  {
    if b == [] {
      assert a + b == a;
    } else {
      assert (a + b)[..|a + b| - 1] == a + b[..|b| - 1];
      InnerRecordsAppend(a, b[..|b| - 1]);
    }
  }

  lemma {:induction false} InnerOfTree(t: Tree, base: nat)
    ensures Size(t) == 2 * InnerRecords(Records(t, base)) + 1
  {
    if t.Node? {
      InnerOfTree(t.left, base);
      InnerOfTree(t.right, base + Size(t.left));
      var l, r := Records(t.left, base), Records(t.right, base + Size(t.left));
      InnerRecordsAppend(l, r);
      assert Records(t, base)[..Size(t) - 1] == l + r;
    }
  }

  ghost function InnerIndices(rs: seq<Record>): (r: set<nat>)
    ensures forall n :: n in r <==> 0 <= n < |rs| && rs[n].kind == 1
    ensures |r| == InnerRecords(rs)
  {
    if rs == [] then {}
    else
      var front := InnerIndices(rs[..|rs| - 1]);
      if rs[|rs| - 1].kind == 1 then front + {|rs| - 1} else front
  }

  ghost predicate Cut(data: seq<Byte>, rs: seq<Record>)
  {
    && |data| == 3 * |rs|
    && forall n :: 0 <= n < |rs| ==>
         RecordAt(data, n) == Record(rs[n].kind % 256, rs[n].first % 256, rs[n].second % 256)
  }

  lemma {:induction false} StoredIsCut(t: Tree)
    ensures Cut(Truncate(FlatTree(t)), Records(t, 0))
  {
    var rs := Records(t, 0);
    forall n | 0 <= n < |rs|
      ensures RecordAt(Truncate(Flatten(rs)), n) == Record(rs[n].kind % 256, rs[n].first % 256, rs[n].second % 256)
    {
      FlattenAt(rs, n);
      TruncateRecord(Flatten(rs), n);
    }
  }

  lemma {:induction false} CutRecord(data: seq<Byte>, rs: seq<Record>, n: nat)
    requires Cut(data, rs) && ChildrenFirst(rs, 0) && n < |rs|
    ensures var r := RecordAt(data, n);
            && r.kind == rs[n].kind && (r.kind == 0 || r.kind == 1)
            && (r.kind == 1 ==> r.first < n && r.second < n)
            && (rs[n].first < 256 ==> r.first == rs[n].first)
  {
    assert rs[n].kind == 0 || (rs[n].kind == 1 && rs[n].first < 0 + n && rs[n].second < 0 + n);
    assert RecordAt(data, n) == Record(rs[n].kind % 256, rs[n].first % 256, rs[n].second % 256);
  }

  lemma {:induction false} CutIsTree(data: seq<Byte>, rs: seq<Record>)
    requires Cut(data, rs) && ChildrenFirst(rs, 0) && SafeTree(data)
    ensures IsTree(data) && Inner(data) == InnerIndices(rs)
  {
    forall n: nat | n < |rs|
      ensures RecordAt(data, n).kind == rs[n].kind
      ensures RecordAt(data, n).kind == 1 ==> RecordAt(data, n).first < n && RecordAt(data, n).second < n
    {
      CutRecord(data, rs, n);
    }
    hide SafeTree, ChildrenFirst;
  }

  lemma {:induction false} StoredIsTree(t: Tree)
    ensures var data := Truncate(FlatTree(t));
            IsTree(data) && |data| == 3 * Size(t) && |data| / 3 == 2 * |Inner(data)| + 1
  {
    hide *;
    FlatTreeIsSafe(t);
    StoredIsCut(t);
    RecordsChildrenFirst(t, 0);
    CutSize(t);
    CutIsTree(Truncate(FlatTree(t)), Records(t, 0));
    InnerOfTree(t, 0);
  }

  lemma {:induction false} CutSize(t: Tree)
    ensures |Truncate(FlatTree(t))| == 3 * Size(t) && |InnerIndices(Records(t, 0))| == InnerRecords(Records(t, 0))
  {
  }

  /** The characters of the leaf records of an unambiguous tree are all different. */
  lemma {:induction false} LeafChars(t: Tree, base: nat)
    ensures forall n :: 0 <= n < Size(t) && Records(t, base)[n].kind == 0 ==> Records(t, base)[n].first in Chars(t)
    ensures Unambiguous(t) ==> DistinctLeaves(Records(t, base))
  {
    if t.Node? {
      var l, r := Records(t.left, base), Records(t.right, base + Size(t.left));
      LeafChars(t.left, base);
      LeafChars(t.right, base + Size(t.left));
      var rs := Records(t, base);
      assert forall n :: 0 <= n < |l| ==> rs[n] == l[n];
      assert forall n :: |l| <= n < |l| + |r| ==> rs[n] == r[n - |l|];
      assert rs[|rs| - 1].kind == 1;
    }
  }

  ghost predicate DistinctLeaves(rs: seq<Record>)
  {
    forall i, j :: 0 <= i < j < |rs| && rs[i].kind == 0 && rs[j].kind == 0 ==> rs[i].first != rs[j].first
  }

  /** Node 256 cannot be named in a byte, and unless it is the root it is never reached. */
  lemma {:induction false} BeyondOneByte(data: seq<Byte>)
    requires IsTree(data) && |data| / 3 > 257
    ensures !Reached(data, 256)
  {
  }

  /** A tree with more than 129 leaves has a character that no decoder can emit. */
  lemma {:induction false} LostCharacter(t: Tree) returns (c: CodeUnit)
    requires Unambiguous(t) && |Leaves(t)| > 129
    requires forall c :: c in Chars(t) ==> c < 256
    ensures c in Chars(t) && !Emittable(Truncate(FlatTree(t)), c)
  {
    hide *;
    var rs, data := Records(t, 0), Truncate(FlatTree(t));
    SizeFromLeaves(t);
    StoredIsTree(t);
    StoredIsCut(t);
    LeafChars(t, 0);
    RecordsChildrenFirst(t, 0);
    BeyondOneByte(data);
    var n := UnreachedLeaf(data, 256);
    CutRecord(data, rs, n);
    c := rs[n].first;
    NeverEmitted(data, rs, t, n);
  }

  lemma {:induction false} NeverEmitted(data: seq<Byte>, rs: seq<Record>, t: Tree, n: nat)
    requires rs == Records(t, 0) && Cut(data, rs) && ChildrenFirst(rs, 0) && DistinctLeaves(rs)
    requires forall c :: c in Chars(t) ==> c < 256
    requires forall m :: 0 <= m < |rs| && rs[m].kind == 0 ==> rs[m].first in Chars(t)
    requires n < |rs| && rs[n].kind == 0 && !Reached(data, n)
    ensures !Emittable(data, rs[n].first)
  {
    hide Records, Reached, ChildrenFirst, Chars;
    if Emittable(data, rs[n].first) {
      var m: nat :| m < |data| / 3 && Reached(data, m) && RecordAt(data, m).kind == 0 &&
        RecordAt(data, m).first == rs[n].first;
      CutRecord(data, rs, m);
    }
  }

  // ----- which texts come back -----

  lemma {:induction false} LeavesAreSymbols(text: seq<CodeUnit>)
    requires text != []
    ensures |Leaves(HuffmanTree(text))| == |FirstSeen(text)|
  {
    hide *;
    StoredIsTree(HuffmanTree(text));
    TreeDataSize(text);
    SizeFromLeaves(HuffmanTree(text));
    TreeDataIsFlat(text);
  }

  lemma {:induction false} TreeDataIsFlat(text: seq<CodeUnit>)
    requires text != []
    ensures TreeData(text) == Truncate(FlatTree(HuffmanTree(text)))
  {
  }

  lemma {:induction false} RootReached(data: seq<Byte>)
    requires IsTree(data)
    ensures |data| > 0 && |data| % 3 == 0 && Reached(data, |data| / 3 - 1) && AllEmittable(data, [])
  {
  }

  /** Whatever the bytes are, some character of such a text is missing from the output. */
  lemma {:induction false} OutputMissesCharacter(text: seq<CodeUnit>, out: seq<Byte>)
    requires text != [] && !Encodable(text) && AllEmittable(TreeData(text), out)
    ensures out != text
  {
    if ByteText(text) {
      LeavesAreSymbols(text);
      HuffmanTreeShape(text);
      var c := LostCharacter(HuffmanTree(text));
      hide HuffmanTree, Emittable;
      assert c in text;
    }
  }

  lemma {:induction false} DecodeOutput(text: seq<CodeUnit>, bytes: seq<Byte>, limit: int)
    requires text != []
    ensures Decode(TreeData(text), bytes, limit).Ok?
    ensures AllEmittable(TreeData(text), Decode(TreeData(text), bytes, limit).value)
  {
    hide *;
    var data := TreeData(text);
    StoredIsTree(HuffmanTree(text));
    TreeDataIsFlat(text);
    RootReached(data);
    RunBytesEmits(data, |data| / 3 - 1, [], limit, bytes);
    DecodeIsRun(data, bytes, limit);
  }

  /** The requested text comes back exactly when it is encodable and its bits leave room in the last byte. */
  lemma {:induction false} DecodeReturnsText(text: seq<CodeUnit>)
    requires text != []
    ensures Decode(TreeData(text), Pack(CodedBits(text, text)), |text|) == Ok(text) <==>
            Encodable(text) && (|CodedBits(text, text)| % 8 != 0 || |FirstSeen(text)| == 1)
  {
    hide *;
    var bytes := Pack(CodedBits(text, text));
    if Encodable(text) {
      OverItself(text);
      DecodeLaw(text, text);
    } else {
      DecodeOutput(text, bytes, |text|);
      OutputMissesCharacter(text, Decode(TreeData(text), bytes, |text|).value);
    }
  }

  lemma {:induction false} ArrivalOutput(text: seq<CodeUnit>, bytes: seq<Byte>, n: nat)
    requires text != []
    ensures DecodeFromBytes(TreeData(text), bytes, n).Some? ==>
              AllEmittable(TreeData(text), DecodeFromBytes(TreeData(text), bytes, n).value)
  {
    hide *;
    var data := TreeData(text);
    StoredIsTree(HuffmanTree(text));
    TreeDataIsFlat(text);
    RootReached(data);
    ArrivalEmits(data, |data| / 3 - 1, Unpack(bytes), n);
    ArrivalIsRun(data, bytes, n);
  }

  lemma {:induction false} ArrivalIsRun(data: seq<Byte>, bytes: seq<Byte>, n: nat)
    requires |data| > 0 && |data| % 3 == 0
    ensures DecodeFromBytes(data, bytes, n) == DecodeOnArrival(data, |data| / 3 - 1, Unpack(bytes), n)
  {
  }

  /** Even a reader that emits on arrival recovers exactly the encodable texts. */
  lemma {:induction false} ArrivalReturnsText(text: seq<CodeUnit>)
    requires text != []
    ensures DecodeFromBytes(TreeData(text), Pack(CodedBits(text, text)), |text|) == Some(text) <==> Encodable(text)
  {
    hide *;
    var bytes := Pack(CodedBits(text, text));
    if Encodable(text) {
      OverItself(text);
      BytesDetermineText(text, text);
    } else if DecodeFromBytes(TreeData(text), bytes, |text|).Some? {
      ArrivalOutput(text, bytes, |text|);
      OutputMissesCharacter(text, DecodeFromBytes(TreeData(text), bytes, |text|).value);
    }
  }
}
