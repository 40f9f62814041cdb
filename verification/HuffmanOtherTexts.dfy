/**
 Texts other than the one that the code was built on: characters without a code are skipped by the
 encoder, and no decoder can bring them back.
 */
module HuffmanOtherTexts {
  import opened Bytes
  import opened BitPacking
  import opened HuffmanTrees
  import opened HuffmanCodes
  import opened TreeBytes
  import opened HuffmanArrival
  import opened HuffmanDecoding
  import opened HuffmanLimits

  /** The characters of another text that have a code. */
  function Known(text: seq<CodeUnit>, other: seq<CodeUnit>): (known: seq<CodeUnit>)
    ensures Over(text, known) && |known| <= |other|
  {
    if other == [] then []
    else (if other[0] in text then [other[0]] else []) + Known(text, other[1..])
  }

  lemma {:induction false} AllKnown(text: seq<CodeUnit>, other: seq<CodeUnit>)
    ensures Over(text, other) <==> Known(text, other) == other
    ensures Over(text, other) <==> |Known(text, other)| == |other|
  {
    if other != [] {
      AllKnown(text, other[1..]);
      assert other == [other[0]] + other[1..];
      assert Over(text, other) <==> other[0] in text && Over(text, other[1..]);
    }
  }

  /** Encoding another text is encoding those of its characters that have a code. */
  lemma {:induction false} SkipsUnknown(text: seq<CodeUnit>, other: seq<CodeUnit>)
    requires text != []
    ensures CodedBits(text, other) == CodedBits(text, Known(text, other))
  {
    CodesPrefixFree(text);
    assert forall c :: c in TextCodes(text) <==> c in text;
    SkipsWithoutCode(text, TextCodes(text), other);
  }

  lemma {:induction false} SkipsWithoutCode(text: seq<CodeUnit>, codes: Codes, other: seq<CodeUnit>)
    requires forall c :: c in codes <==> c in text
    ensures EncodeBits(codes, other) == EncodeBits(codes, Known(text, other))
  {
    if other != [] {
      SkipsWithoutCode(text, codes, other[1..]);
      var known := Known(text, other);
      if other[0] in text {
        assert known[0] == other[0] && known[1..] == Known(text, other[1..]);
      } else {
        assert known == Known(text, other[1..]);
        assert EncodeBits(codes, other) == EncodeBits(codes, other[1..]);
      }
    }
  }

  /** What can be read from the tree of an encodable text is a character of the text. */
  lemma {:induction false} EmittableIsSymbol(text: seq<CodeUnit>, c: int)
    requires Encodable(text) && Emittable(TreeData(text), c)
    ensures c in text
  {
    var t, data := HuffmanTree(text), TreeData(text);
    assert c >= 0;
    HuffmanTreeShape(text);
    hide HuffmanTree, Reached, FirstSeen;
    StoredIsCut(t);
    RecordsChildrenFirst(t, 0);
    LeafChars(t, 0);
    var n: nat :| n < |data| / 3 && RecordAt(data, n).kind == 0 && RecordAt(data, n).first == c;
    hide Records, TreeData, Cut, ChildrenFirst;
    CutRecord(data, Records(t, 0), n);
    assert Records(t, 0)[n].first in Chars(t);
  }

  lemma {:induction false} OutputIsOver(text: seq<CodeUnit>, out: seq<Byte>)
    requires Encodable(text) && AllEmittable(TreeData(text), out)
    ensures Over(text, out)
  {
    hide Encodable, Emittable;
    forall i | 0 <= i < |out| ensures out[i] in text {
      EmittableIsSymbol(text, out[i]);
    }
  }

  /** The requested text comes back exactly when all its characters have codes and none is lost at the end. */
  lemma {:induction false} DecodeReturnsOther(text: seq<CodeUnit>, other: seq<CodeUnit>)
    requires Encodable(text)
    ensures text != []
    ensures Decode(TreeData(text), Pack(CodedBits(text, other)), |other|) == Ok(other) <==>
            Over(text, other) && (other == [] || |CodedBits(text, other)| % 8 != 0 || |FirstSeen(text)| == 1)
  {
    hide *;
    EncodableFits(text);
    var bytes := Pack(CodedBits(text, other));
    DecodeOutput(text, bytes, |other|);
    OutputIsOver(text, Decode(TreeData(text), bytes, |other|).value);
    if other == [] {
      DecodeEmpty(text, other);
    } else if Over(text, other) {
      DecodeLaw(text, other);
    }
  }

  lemma {:induction false} DecodeEmpty(text: seq<CodeUnit>, none: seq<CodeUnit>)
    requires Encodable(text) && none == []
    ensures Over(text, none) && Decode(TreeData(text), Pack(CodedBits(text, none)), 0) == Ok([])
  {
    assert Pack(CodedBits(text, none)) == [];
    StoredTree(text);
  }

  /** A reader that emits on arrival recovers exactly the texts whose characters all have codes. */
  lemma {:induction false} ArrivalReturnsOther(text: seq<CodeUnit>, other: seq<CodeUnit>)
    requires Encodable(text)
    ensures text != []
    ensures DecodeFromBytes(TreeData(text), Pack(CodedBits(text, other)), |other|) == Some(other) <==>
            Over(text, other)
  {
    hide *;
    EncodableFits(text);
    var bytes := Pack(CodedBits(text, other));
    ArrivalOutput(text, bytes, |other|);
    if Over(text, other) {
      BytesDetermineText(text, other);
    } else if DecodeFromBytes(TreeData(text), bytes, |other|).Some? {
      OutputIsOver(text, DecodeFromBytes(TreeData(text), bytes, |other|).value);
    }
  }
}
