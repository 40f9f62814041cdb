/** The bit codes of a Huffman tree: prefix-free, complete, and as long as the leaves are deep. */
module HuffmanCodes {
  import opened HuffmanTrees

  /** The codes below a node that is reached by `code`; a lone root gets the one-bit code 0. */
  function CodeTable(t: Tree, code: seq<bool>): Codes
  {
    match t
    case Leaf(_, c) => map[c := if code == [] then [false] else code]
    case Node(_, l, r) => CodeTable(l, code + [false]) + CodeTable(r, code + [true])
  }

  function TextCodes(text: seq<CodeUnit>): Codes
    requires text != []
  {
    CodeTable(HuffmanTree(text), [])
  }

  /** The bits of a text; characters without a code are skipped. */
  function EncodeBits(codes: Codes, text: seq<CodeUnit>): seq<bool>
  {
    if text == [] then []
    else (if text[0] in codes then codes[text[0]] else []) + EncodeBits(codes, text[1..])
  }

  ghost predicate PrefixFree(codes: Codes)
  {
    forall c, d :: c in codes && d in codes && c != d ==> !(codes[c] <= codes[d])
  }

  /** No character occurs at two leaves. */
  predicate Unambiguous(t: Tree)
  {
    t.Node? ==> Chars(t.left) !! Chars(t.right) && Unambiguous(t.left) && Unambiguous(t.right)
  }

  lemma {:induction false} LeavesForUnambiguous(t: Tree, keys: set<CodeUnit>, text: seq<CodeUnit>)
    requires LeavesFor(multiset(Leaves(t)), keys, text)
    ensures Unambiguous(t)
  {
    if t.Node? {
      LeavesForSides(t, keys, text);
      LeavesForUnambiguous(t.left, Chars(t.left), text);
      LeavesForUnambiguous(t.right, Chars(t.right), text);
    }
  }

  lemma {:induction false} HuffmanTreeShape(text: seq<CodeUnit>)
    requires text != []
    ensures Unambiguous(HuffmanTree(text))
    ensures Chars(HuffmanTree(text)) == Symbols(text)
  {
    HuffmanTreeFacts(text);
    LeavesForUnambiguous(HuffmanTree(text), Symbols(text), text);
    LeavesForChars(HuffmanTree(text), Symbols(text), text);
  }

  /** The turns from the root to the leaf of c: false is left, true is right. */
  function Path(t: Tree, c: CodeUnit): (p: seq<bool>)
    requires c in Chars(t)
    ensures |p| == Depth(t, c)
  {
    match t
    case Leaf(_, _) => []
    case Node(_, l, r) => if c in Chars(l) then [false] + Path(l, c) else [true] + Path(r, c)
  }

  lemma {:induction false} CodeTableKeys(t: Tree, code: seq<bool>)
    ensures CodeTable(t, code).Keys == Chars(t)
  {
    if t.Node? {
      CodeTableKeys(t.left, code + [false]);
      CodeTableKeys(t.right, code + [true]);
    }
  }

  lemma {:induction false} CodeBelow(t: Tree, code: seq<bool>, c: CodeUnit)
    requires Unambiguous(t) && c in Chars(t) && code != []
    ensures c in CodeTable(t, code) && CodeTable(t, code)[c] == code + Path(t, c)
  {
    if t.Node? {
      CodeSides(t, code, c);
      var bit := [c !in Chars(t.left)];
      var side := if c in Chars(t.left) then t.left else t.right;
      CodeBelow(side, code + bit, c);
      assert code + bit + Path(side, c) == code + (bit + Path(side, c));
    }
  }

  lemma {:induction false} CodeSides(t: Tree, code: seq<bool>, c: CodeUnit)
    requires t.Node? && Unambiguous(t) && c in Chars(t)
    ensures c in CodeTable(t, code)
    ensures var side := if c in Chars(t.left) then t.left else t.right;
            var below := CodeTable(side, code + [c !in Chars(t.left)]);
            c in below && CodeTable(t, code)[c] == below[c]
  {
    CodeTableKeys(t.left, code + [false]);
    CodeTableKeys(t.right, code + [true]);
  }

  lemma {:induction false} CodeIsPath(t: Tree, c: CodeUnit)
    requires Unambiguous(t) && c in Chars(t)
    ensures c in CodeTable(t, [])
    ensures CodeTable(t, [])[c] == if t.Leaf? then [false] else Path(t, c)
  {
    if t.Node? {
      CodeSides(t, [], c);
      if c in Chars(t.left) {
        CodeBelow(t.left, [] + [false], c);
      } else {
        CodeBelow(t.right, [] + [true], c);
      }
    }
  }

  lemma {:induction false} PathsPrefixFree(t: Tree, c: CodeUnit, d: CodeUnit)
    requires Unambiguous(t) && c in Chars(t) && d in Chars(t) && c != d
    ensures !(Path(t, c) <= Path(t, d))
  {
    if t.Node? {
      var p, q := Path(t, c), Path(t, d);
      if p[0] == q[0] && p <= q {
        assert p[1..] <= q[1..];
        if c in Chars(t.left) {
          PathsPrefixFree(t.left, c, d);
        } else {
          PathsPrefixFree(t.right, c, d);
        }
      }
    }
  }

  lemma {:induction false} TextCode(text: seq<CodeUnit>, c: CodeUnit)
    requires c in text
    ensures c in TextCodes(text) && c in Chars(HuffmanTree(text))
    ensures TextCodes(text)[c] == if HuffmanTree(text).Leaf? then [false] else Path(HuffmanTree(text), c)
    ensures TextCodes(text)[c] != []
  {
    HuffmanTreeShape(text);
    CodeIsPath(HuffmanTree(text), c);
  }

  /** The constructor's code table covers exactly the text and no code starts another. */
  lemma {:induction false} CodesPrefixFree(text: seq<CodeUnit>)
    requires text != []
    ensures TextCodes(text).Keys == Symbols(text)
    ensures PrefixFree(TextCodes(text))
    ensures forall c :: c in TextCodes(text) ==> TextCodes(text)[c] != []
  {
    var t := HuffmanTree(text);
    HuffmanTreeShape(text);
    CodeTableKeys(t, []);
    forall c | c in Chars(t) ensures TextCodes(text)[c] != [] {
      TextCode(text, c);
    }
    forall c, d | c in Chars(t) && d in Chars(t) && c != d
      ensures !(TextCodes(text)[c] <= TextCodes(text)[d])
    {
      TextCode(text, c);
      TextCode(text, d);
      PathsPrefixFree(t, c, d);
    }
  }

  // ----- completeness: the Kraft sum is one -----

  function HalfTo(n: nat): real
  {
    if n == 0 then 1.0 else HalfTo(n - 1) / 2.0
  }

  /** The sum of 2^-length over all codes of a table. */
  ghost function KraftSum(codes: Codes): real
  {
    if codes == map[] then 0.0
    else
      var c :| c in codes;
      HalfTo(|codes[c]|) + KraftSum(codes - {c})
  }

  /** The sum does not depend on the order in which the codes are taken. */
  lemma {:induction false} KraftSumTakes(codes: Codes, c: CodeUnit)
    requires c in codes
    ensures KraftSum(codes) == HalfTo(|codes[c]|) + KraftSum(codes - {c})
    decreases codes.Keys
  {
    var d :| d in codes && KraftSum(codes) == HalfTo(|codes[d]|) + KraftSum(codes - {d});
    if c != d {
      KraftSumTakes(codes - {d}, c);
      KraftSumTakes(codes - {c}, d);
      assert codes - {c} - {d} == codes - {d} - {c};
    }
  }

  lemma {:induction false} DropFromFirst(a: Codes, b: Codes, c: CodeUnit)
    requires c in a && c !in b
    ensures (a + b) - {c} == (a - {c}) + b
  {
  }

  lemma {:induction false} KraftSumAdds(a: Codes, b: Codes)
    requires a.Keys !! b.Keys
    ensures KraftSum(a + b) == KraftSum(a) + KraftSum(b)
    decreases a.Keys
  {
    if a == map[] {
      assert a + b == b;
    } else {
      var c :| c in a;
      var rest := a - {c};
      assert c !in b && rest.Keys == a.Keys - {c};
      DropFromFirst(a, b, c);
      KraftSumAdds(rest, b);
      KraftSumTakes(a, c);
      assert (a + b)[c] == a[c];
      KraftSumTakes(a + b, c);
    }
  }

  lemma {:induction false} KraftSumBelow(t: Tree, code: seq<bool>)
    requires Unambiguous(t)
    requires t.Leaf? ==> code != []
    ensures KraftSum(CodeTable(t, code)) == HalfTo(|code|)
  {
    match t
    case Leaf(_, c) =>
      KraftSumTakes(CodeTable(t, code), c);
      assert CodeTable(t, code) - {c} == map[];
    case Node(_, l, r) =>
      KraftSumBelow(l, code + [false]);
      KraftSumBelow(r, code + [true]);
      CodeTableKeys(l, code + [false]);
      CodeTableKeys(r, code + [true]);
      KraftSumAdds(CodeTable(l, code + [false]), CodeTable(r, code + [true]));
  }

  lemma {:induction false} OneLeafOneSymbol(t: Tree, keys: set<CodeUnit>, text: seq<CodeUnit>)
    requires LeavesFor(multiset(Leaves(t)), keys, text)
    ensures t.Leaf? <==> |keys| == 1
  {
    LeavesForChars(t, keys, text);
    if t.Node? {
      LeavesForSides(t, keys, text);
      CharsNonempty(t.left);
      CharsNonempty(t.right);
      assert |keys| == |Chars(t.left)| + |Chars(t.right)|;
    }
  }

  lemma {:induction false} CharsNonempty(t: Tree)
    ensures |Chars(t)| >= 1
  {
    if t.Node? {
      CharsNonempty(t.left);
      var c :| c in Chars(t.left);
      assert c in Chars(t);
    }
  }

  /** With two or more distinct characters the code wastes nothing; a lone one wastes the code 1. */
  lemma {:induction false} CodesComplete(text: seq<CodeUnit>)
    requires text != []
    ensures KraftSum(TextCodes(text)) == if |Symbols(text)| >= 2 then 1.0 else 0.5
  {
    var t := HuffmanTree(text);
    HuffmanTreeFacts(text);
    HuffmanTreeShape(text);
    OneLeafOneSymbol(t, Symbols(text), text);
    if t.Node? {
      KraftSumBelow(t, []);
      CharsNonempty(t);
    } else {
      KraftSumBelow(t, [false]);
      assert CodeTable(t, []) == CodeTable(t, [false]);
      assert HalfTo(1) == HalfTo(0) / 2.0;
    }
  }
}
