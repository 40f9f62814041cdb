/**
 The two orders of a prefix: the documented one, in which every length stands in front of its
 field, and the one that is written, with the lengths of tree and encoding in front of both.
 */
module PrefixFormats {
  import opened Bytes
  import opened BitPacking
  import opened HuffmanTrees
  import opened TreeBytes
  import opened HuffmanDecoding
  import opened HuffmanRequests
  import opened WebAuthnPrefix
  import HuffmanCodes
  import HuffmanCounts
  import HuffmanOptimality

  /** The format of the comment in `getWebAuthnPrefix`. */
  function Documented(f: Fields): seq<Byte>
  {
    ToLE(f.authType, 2) + (ToLE(|f.authData|, 2) + (f.authData + (f.order + (ToLE(f.originLen, 2) +
    (ToLE(|f.tree|, 2) + (f.tree + (ToLE(|f.encoded|, 2) + f.encoded)))))))
  }

  lemma {:induction false} SameBehind(front: seq<Byte>, a: seq<Byte>, b: seq<Byte>)
    ensures front + a == front + b <==> a == b
  {
    if front + a == front + b {
      assert a == (front + a)[|front|..] && b == (front + b)[|front|..];
    }
  }

  lemma {:induction false} SameBefore(a: seq<Byte>, b: seq<Byte>, back: seq<Byte>)
    requires |a| == |b|
    ensures a + back == b + back <==> a == b
  {
    if a + back == b + back {
      assert a == (a + back)[..|a|] && b == (b + back)[..|b|];
    }
  }

  /** The formats agree exactly when the encoding's length can trade places with the tree. */
  lemma {:induction false} FormatsSwap(f: Fields)
    ensures Layout(f) == Documented(f) <==> ToLE(|f.encoded|, 2) + f.tree == f.tree + ToLE(|f.encoded|, 2)
  {
    var e := ToLE(|f.encoded|, 2);
    var a, b := e + (f.tree + f.encoded), f.tree + (e + f.encoded);
    var l1, l2 := ToLE(|f.tree|, 2) + a, ToLE(|f.tree|, 2) + b;
    var m1, m2 := ToLE(f.originLen, 2) + l1, ToLE(f.originLen, 2) + l2;
    var n1, n2 := f.order + m1, f.order + m2;
    var o1, o2 := f.authData + n1, f.authData + n2;
    var p1, p2 := ToLE(|f.authData|, 2) + o1, ToLE(|f.authData|, 2) + o2;
    assert Layout(f) == ToLE(f.authType, 2) + p1 && Documented(f) == ToLE(f.authType, 2) + p2;
    hide *;
    SameBehind(ToLE(f.authType, 2), p1, p2);
    SameBehind(ToLE(|f.authData|, 2), o1, o2);
    SameBehind(f.authData, n1, n2);
    SameBehind(f.order, m1, m2);
    SameBehind(ToLE(f.originLen, 2), l1, l2);
    SameBehind(ToLE(|f.tree|, 2), a, b);
    assert a == (e + f.tree) + f.encoded && b == (f.tree + e) + f.encoded;
    SameBefore(e + f.tree, f.tree + e, f.encoded);
  }

  /** Two bytes trade places with an odd number of bytes only if all of them are the same. */
  lemma {:induction false} SwapIsConstant(e: seq<Byte>, t: seq<Byte>)
    requires |e| == 2 && |t| % 2 == 1
    ensures e + t == t + e <==> e[0] == e[1] && forall i :: 0 <= i < |t| ==> t[i] == e[0]
  {
    if e + t == t + e {
      SwapRepeats(e, t, |t| - 1);
      assert (e + t)[|t|] == (t + e)[|t|] == e[0] && (e + t)[|t| + 1] == (t + e)[|t| + 1] == e[1];
      if |t| > 1 {
        SwapRepeats(e, t, |t| - 2);
      }
      forall i | 0 <= i < |t| ensures t[i] == e[0] {
        SwapRepeats(e, t, i);
      }
    }
  }

  lemma {:induction false} SwapRepeats(e: seq<Byte>, t: seq<Byte>, i: nat)
    requires |e| == 2 && e + t == t + e && i < |t|
    ensures t[i] == e[i % 2]
    decreases i
  {
    assert (e + t)[i] == (t + e)[i];
    if i >= 2 {
      SwapRepeats(e, t, i - 2);
    }
  }

  /** The first number of a tree is the kind of a leaf. */
  lemma {:induction false} TreeStartsWithLeaf(t: Tree, base: nat)
    ensures Records(t, base)[0].kind == 0
  {
    if t.Node? {
      TreeStartsWithLeaf(t.left, base);
    }
  }

  /** All bytes of a stored tree are alike only for a lone character whose low byte is zero. */
  lemma {:induction false} TreeIsConstant(text: seq<CodeUnit>, b: Byte)
    requires text != []
    ensures |TreeData(text)| % 2 == 1
    ensures (forall i :: 0 <= i < |TreeData(text)| ==> TreeData(text)[i] == b) <==>
            b == 0 && |FirstSeen(text)| == 1 && text[0] % 256 == 0
  {
    hide *;
    var t, data := HuffmanTree(text), TreeData(text);
    TextTree(text);
    TreeBytesOf(t);
    if forall i :: 0 <= i < |data| ==> data[i] == b {
      assert data[0] == b && data[|data| - 3] == b;
      assert t.Leaf? && data[1] == b;
    }
  }

  lemma {:induction false} TextTree(text: seq<CodeUnit>)
    requires text != []
    ensures var t := HuffmanTree(text);
            && TreeData(text) == Truncate(FlatTree(t)) && |TreeData(text)| % 2 == 1
            && (t.Leaf? <==> |FirstSeen(text)| == 1)
            && (t.Leaf? ==> t.symbol == text[0])
  {
    hide *;
    TreeDataSize(text);
    HuffmanOptimality.TwoSymbolsNode(text);
    StoredBytes(text);
    if HuffmanTree(text).Leaf? {
      OverItself(text);
      TextIsInTree(text, text);
    }
  }

  lemma {:induction false} StoredBytes(text: seq<CodeUnit>)
    requires text != []
    ensures TreeData(text) == Truncate(FlatTree(HuffmanTree(text)))
  {
  }

  lemma {:induction false} TreeBytesOf(t: Tree)
    ensures var data := Truncate(FlatTree(t));
            && |data| >= 3 && data[0] == 0
            && (t.Node? ==> data[|data| - 3] == 1)
            && (t.Leaf? ==> data == [0, t.symbol % 256, 0])
  {
    var rs := Records(t, 0);
    TreeStartsWithLeaf(t, 0);
    FlattenAt(rs, 0);
    FlattenAt(rs, |rs| - 1);
    if t.Leaf? {
      FlattenLeaf(t, 0);
    }
  }

  lemma {:induction false} ZeroLength(n: nat)
    ensures ToLE(n, 2) == [0, 0] <==> n % U16 == 0
    ensures |ToLE(n, 2)| == 2
  {
    var low, high, rest := n % 256, n / 256 % 256, n / 256 / 256;
    assert ToLE(n, 2) == [low] + ToLE(n / 256, 1) && ToLE(n / 256, 1) == [high] + ToLE(rest, 0);
    assert ToLE(n, 2)[0] == low && ToLE(n, 2)[1] == high;
    hide ToLE;
    LowWord(n, rest, high, low);
  }

  lemma {:induction false} LowWord(n: nat, rest: nat, high: nat, low: nat)
    requires n == U16 * rest + (256 * high + low) && high < 256 && low < 256
    ensures n % U16 == 0 <==> high == 0 && low == 0
  {
    assert n % U16 == 256 * high + low;
  }

  /**
   What is written has the documented format exactly when the stored tree is three zeros and the
   low 16 bits of the encoding's length are zero.
   */
  lemma {:induction false} FormatsAgree(keys: seq<string>, origin: seq<CodeUnit>, authData: seq<Byte>)
    requires origin != []
    ensures var f := PrefixFields(keys, origin, authData);
            Layout(f) == Documented(f) <==>
            |FirstSeen(origin)| == 1 && origin[0] % 256 == 0 && |f.encoded| % U16 == 0
  {
    var f := PrefixFields(keys, origin, authData);
    var e := ToLE(|f.encoded|, 2);
    assert f.tree == TreeData(origin);
    hide PrefixFields, TreeData, Layout, Documented, FirstSeen, ToLE;
    FormatsSwap(f);
    TreeIsConstant(origin, e[0]);
    SwapIsConstant(e, f.tree);
    ZeroLength(|f.encoded|);
  }

  lemma {:induction false} LoneEncoding(keys: seq<string>, origin: seq<CodeUnit>, authData: seq<Byte>)
    requires |FirstSeen(origin)| == 1
    ensures origin != [] && |PrefixFields(keys, origin, authData).encoded| == (|origin| + 7) / 8
  {
    assert origin != [];
    HuffmanOptimality.TwoSymbolsNode(origin);
    TextIsInTree(origin, origin);
    hide HuffmanTree, FirstSeen, CodedBits, TreeData;
  }

  /** No origin of up to 524280 characters is written in the documented format. */
  lemma {:induction false} ShortOriginsDiffer(keys: seq<string>, origin: seq<CodeUnit>, authData: seq<Byte>)
    requires 0 < |origin| <= 8 * (U16 - 1)
    ensures Layout(PrefixFields(keys, origin, authData)) != Documented(PrefixFields(keys, origin, authData))
  {
    hide *;
    FormatsAgree(keys, origin, authData);
    if |FirstSeen(origin)| == 1 {
      LoneEncoding(keys, origin, authData);
    }
  }

  /** The shortest origin for which the formats agree: all its characters are zero. */
  lemma {:induction false} FormatsMeet(keys: seq<string>, origin: seq<CodeUnit>, authData: seq<Byte>)
    requires |origin| == 8 * (U16 - 1) + 1 && forall i :: 0 <= i < |origin| ==> origin[i] == 0
    ensures Layout(PrefixFields(keys, origin, authData)) == Documented(PrefixFields(keys, origin, authData))
  {
    hide *;
    OneSymbol(origin, 0);
    FormatsAgree(keys, origin, authData);
    LoneEncoding(keys, origin, authData);
    assert origin[0] == 0;
    FullWord((|origin| + 7) / 8);
  }

  lemma {:induction false} FullWord(n: nat)
    requires n == U16
    ensures n % U16 == 0
  {
  }

  /** The origin "a" without client data keys and authenticator data, in both formats. */
  lemma {:induction false} OneCharacterOrigin(origin: seq<CodeUnit>)
    requires origin == [97]
    ensures var f := PrefixFields([], origin, []);
            && Layout(f) ==
               [1, 0] + [0, 0] + [] + [0, 0, 0, 0] + [1, 0] + [3, 0] + [1, 0] + [0, 97, 0] + [0]
            && Documented(f) ==
               [1, 0] + [0, 0] + [] + [0, 0, 0, 0] + [1, 0] + [3, 0] + [0, 97, 0] + [1, 0] + [0]
            && Layout(f) != Documented(f)
  {
    OneCharacterFields(origin);
    hide *;
    OneByteNumber(0);
    OneByteNumber(1);
    OneByteNumber(3);
    FieldsInOrder(PrefixFields([], origin, []));
    ShortOriginsDiffer([], origin, []);
  }

  lemma {:induction false} FieldsInOrder(f: Fields)
    ensures Layout(f) ==
            ToLE(f.authType, 2) + ToLE(|f.authData|, 2) + f.authData + f.order + ToLE(f.originLen, 2) +
            ToLE(|f.tree|, 2) + ToLE(|f.encoded|, 2) + f.tree + f.encoded
    ensures Documented(f) ==
            ToLE(f.authType, 2) + ToLE(|f.authData|, 2) + f.authData + f.order + ToLE(f.originLen, 2) +
            ToLE(|f.tree|, 2) + f.tree + ToLE(|f.encoded|, 2) + f.encoded
  {
    hide ToLE;
  }

  lemma {:induction false} OneByteNumber(n: nat)
    requires n < 256
    ensures ToLE(n, 2) == [n, 0]
  {
    assert ToLE(n / 256, 1) == [0] + ToLE(0, 0);
  }

  lemma {:induction false} OneCharacterFields(origin: seq<CodeUnit>)
    requires origin == [97]
    ensures PrefixFields([], origin, []) == Fields(1, [], [0, 0, 0, 0], 1, [0, 97, 0], [0])
  {
    OneSymbol(origin, 97);
    HuffmanOptimality.TwoSymbolsNode(origin);
    TextIsInTree(origin, origin);
    TreeBytesOf(HuffmanTree(origin));
    OneZeroBit(origin);
    hide HuffmanTree, FirstSeen, CodedBits, Pack;
    assert FieldOrder([]) == [0, 0, 0, 0];
  }

  lemma {:induction false} OneZeroBit(origin: seq<CodeUnit>)
    requires |origin| == 1 && HuffmanTree(origin).Leaf?
    ensures Pack(CodedBits(origin, origin)) == [0]
  {
    HuffmanCodes.TextCode(origin, origin[0]);
    HuffmanCounts.OneCode(HuffmanCodes.TextCodes(origin), origin);
    hide HuffmanTree, HuffmanCodes.TextCodes, HuffmanCodes.EncodeBits;
    assert PackByte([false]) == 0;
  }
}
