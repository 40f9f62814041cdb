/**
 The prefix that accompanies a WebAuthn signature: authenticator data (section 6.1 of Web
 Authentication Level 2), the order of the clientDataJSON keys (section 5.8.1) and the Huffman
 coded origin, written at running offsets into one buffer.
 */
module WebAuthnPrefix {
  import opened Bytes
  import opened BitPacking
  import opened HuffmanTrees
  import opened HuffmanCodes
  import opened TreeBytes
  import opened HuffmanArrival
  import opened HuffmanDecoding
  import opened HuffmanLimits
  import HuffmanOptimality
  import opened HuffmanEncoder

  /**
   The origin in the client data. NoText is a missing one or a JSON value that is not a string: such
   a value is falsy, or the encoder's constructor throws on it, because it has no `charCodeAt` or
   because an empty table leaves it without a root.
   */
  datatype Origin = Text(text: seq<CodeUnit>) | NoText

  /** The parsed clientDataJSON: its keys in order, and its origin. */
  datatype ClientData = ClientData(keys: seq<string>, origin: Origin)

  /** R1AuthenticationType.WebAuthn */
  const WEB_AUTHN: nat := 1

  /** The code of a known key; other keys leave a zero in the order. */
  function FieldCode(key: string): Byte
  {
    if key == "type" then 1
    else if key == "challenge" then 2
    else if key == "origin" then 3
    else if key == "crossOrigin" then 4
    else 0
  }

  function FieldOrder(keys: seq<string>): (order: seq<Byte>)
    ensures |order| == 4
  {
    seq(4, i requires 0 <= i < 4 => if i < |keys| then FieldCode(keys[i]) else 0)
  }

  method ClientDataFieldOrder(keys: seq<string>) returns (result: array<Byte>)
    ensures fresh(result) && result[..] == FieldOrder(keys)
  {
    result := new Byte[4](i => 0);
    for index := 0 to |keys|
      invariant forall i :: 0 <= i < 4 ==> result[i] == if i < index then FieldCode(keys[i]) else 0
    {
      if index < 4 && FieldCode(keys[index]) != 0 {
        result[index] := FieldCode(keys[index]);
      }
    }
  }

  // ----- what the order bytes tell -----

  /** The keys that the on-chain program knows, by their code: a table of the reader's own. */
  function KeyOf(code: Byte): Option<string>
  {
    match code
    case 1 => Some("type")
    case 2 => Some("challenge")
    case 3 => Some("origin")
    case 4 => Some("crossOrigin")
    case _ => None
  }

  const KNOWN_KEYS: set<string> := {"type", "challenge", "origin", "crossOrigin"}

  /** The key at a position, where there is one and it is known. */
  function KnownKeyAt(keys: seq<string>, i: nat): Option<string>
  {
    if i < |keys| && keys[i] in KNOWN_KEYS then Some(keys[i]) else None
  }

  /** The reader recovers the first four keys; a zero stands exactly for an unknown or missing one. */
  lemma {:induction false} OrderTellsKeys(keys: seq<string>, i: nat)
    requires i < 4
    ensures KeyOf(FieldOrder(keys)[i]) == KnownKeyAt(keys, i)
    ensures FieldOrder(keys)[i] == 0 <==> KnownKeyAt(keys, i) == None
  {
    if i < |keys| {
      CodeTellsKey(keys[i]);
    }
  }

  lemma {:induction false} CodeTellsKey(key: string)
    ensures KeyOf(FieldCode(key)) == if key in KNOWN_KEYS then Some(key) else None
    ensures FieldCode(key) == 0 <==> key !in KNOWN_KEYS
  {
  }

  /** The keys as browsers order them. */
  lemma {:induction false} UsualKeys()
    ensures FieldOrder(["type", "challenge", "origin", "crossOrigin"]) == [1, 2, 3, 4]
    ensures FieldOrder(["type", "challenge", "origin"]) == [1, 2, 3, 0]
  {
    var all := ["type", "challenge", "origin", "crossOrigin"];
    var most := ["type", "challenge", "origin"];
    hide FieldOrder;
    OrderIsCodes(all);
    OrderIsCodes(most);
  }

  lemma {:induction false} OrderIsCodes(keys: seq<string>)
    requires |keys| == 3 || |keys| == 4
    ensures FieldOrder(keys) ==
            [FieldCode(keys[0]), FieldCode(keys[1]), FieldCode(keys[2]), if |keys| == 4 then FieldCode(keys[3]) else 0]
  {
    hide FieldCode;
  }

  /** What a prefix carries. */
  datatype Fields = Fields(
    authType: nat, authData: seq<Byte>, order: seq<Byte>, originLen: nat, tree: seq<Byte>, encoded: seq<Byte>)

  /** The layout; lengths are cut to 16 bits as `setUint16` does. */
  function Layout(f: Fields): seq<Byte>
  {
    ToLE(f.authType, 2) + (ToLE(|f.authData|, 2) + (f.authData + (f.order + (ToLE(f.originLen, 2) +
    (ToLE(|f.tree|, 2) + (ToLE(|f.encoded|, 2) + (f.tree + f.encoded)))))))
  }

  function PrefixFields(keys: seq<string>, origin: seq<CodeUnit>, authData: seq<Byte>): Fields
    requires origin != []
  {
    Fields(WEB_AUTHN, authData, FieldOrder(keys), |origin|, TreeData(origin), Pack(CodedBits(origin, origin)))
  }

  lemma {:induction false} PrefixParts(keys: seq<string>, origin: seq<CodeUnit>, authData: seq<Byte>)
    requires origin != []
    ensures var f := PrefixFields(keys, origin, authData);
            && f.authType == WEB_AUTHN && f.authData == authData && f.originLen == |origin|
            && f.order == FieldOrder(keys) && f.tree == TreeData(origin)
            && f.encoded == Pack(EncodeBits(TextCodes(origin), origin))
  {
    hide FieldOrder, TreeData, Pack, EncodeBits, TextCodes;
  }

  /** Writes src at the end of what has been written so far. */
  method Put(dst: array<Byte>, offset: nat, src: seq<Byte>, ghost done: seq<Byte>) returns (next: nat)
    requires offset + |src| <= dst.Length && dst[..offset] == done
    modifies dst
    ensures next == offset + |src| && dst[..next] == done + src
  {
    SetBytes(dst, src, offset);
    next := offset + |src|;
    assert dst[..next] == done + src;
  }

  /**
   `parse` stands for decoding the bytes as text and parsing them as JSON; it gives None where
   these throw. None as the result stands for the error thrown then, or without a text as origin.
   */
  method GetWebAuthnPrefix(parse: seq<Byte> -> Option<ClientData>, clientJson: seq<Byte>, authData: seq<Byte>)
    returns (prefix: Option<array<Byte>>)
    ensures prefix.None? <==>
              parse(clientJson).None? || parse(clientJson).value.origin in {Text([]), NoText}
    ensures prefix.Some? ==>
              var client := parse(clientJson).value;
              && fresh(prefix.value)
              && prefix.value[..] == Layout(PrefixFields(client.keys, client.origin.text, authData))
    ensures prefix.Some? ==>
              var at, keys := 4 + |authData|, parse(clientJson).value.keys;
              && prefix.value.Length >= at + 4
              && KeyOf(prefix.value[at]) == KnownKeyAt(keys, 0)
              && KeyOf(prefix.value[at + 1]) == KnownKeyAt(keys, 1)
              && KeyOf(prefix.value[at + 2]) == KnownKeyAt(keys, 2)
              && KeyOf(prefix.value[at + 3]) == KnownKeyAt(keys, 3)
  {
    var parsed := parse(clientJson);
    if parsed.None? || parsed.value.origin == Text([]) || parsed.value.origin == NoText {
      return None;
    }
    var origin := parsed.value.origin.text;
    var encoder := new HuffmanEncoder(origin);
    assert encoder.treeData == TreeData(origin) && encoder.codes == TextCodes(origin);
    hide *;
    PrefixParts(parsed.value.keys, origin, authData);
    var fieldOrder := ClientDataFieldOrder(parsed.value.keys);
    var huffmanTree := encoder.GetTreeData();
    var huffmanEncodedOrigin := encoder.Encode(origin);
    var buffer := LayOut(Fields(WEB_AUTHN, authData, fieldOrder[..], |origin|, huffmanTree, huffmanEncodedOrigin));
    LaidOutKeys(parsed.value.keys, origin, authData);
    return Some(buffer);
  }

  /** The order bytes stand behind the authenticator data, and tell the first four keys. */
  lemma {:induction false} LaidOutKeys(keys: seq<string>, origin: seq<CodeUnit>, authData: seq<Byte>)
    requires origin != []
    ensures var bytes, at := Layout(PrefixFields(keys, origin, authData)), 4 + |authData|;
            && |bytes| >= at + 4
            && KeyOf(bytes[at]) == KnownKeyAt(keys, 0) && KeyOf(bytes[at + 1]) == KnownKeyAt(keys, 1)
            && KeyOf(bytes[at + 2]) == KnownKeyAt(keys, 2) && KeyOf(bytes[at + 3]) == KnownKeyAt(keys, 3)
  {
    hide *;
    PrefixParts(keys, origin, authData);
    OrderTellsKeys(keys, 0);
    OrderTellsKeys(keys, 1);
    OrderTellsKeys(keys, 2);
    OrderTellsKeys(keys, 3);
    var f := PrefixFields(keys, origin, authData);
    OrderAt(f, 0);
    OrderAt(f, 1);
    OrderAt(f, 2);
    OrderAt(f, 3);
  }

  lemma {:induction false} OrderAt(f: Fields, i: nat)
    requires i < |f.order|
    ensures |Layout(f)| > 4 + |f.authData| + i && Layout(f)[4 + |f.authData| + i] == f.order[i]
  {
    hide ToLE;
  }

  /** The part that writes the buffer; the running offset ends at its size. */
  method LayOut(f: Fields) returns (buffer: array<Byte>)
    requires |f.order| == 4
    ensures fresh(buffer) && buffer[..] == Layout(f)
  {
    hide *;
    var totalSize := 2 + 2 + |f.authData| + 4 + 2 + 2 + |f.tree| + 2 + |f.encoded|;
    buffer := new Byte[totalSize](i => 0);
    var offset := 0;
    assert buffer[..0] == [];
    offset := Put(buffer, offset, ToLE(f.authType, 2), []);
    ghost var d1 := [] + ToLE(f.authType, 2);
    offset := Put(buffer, offset, ToLE(|f.authData|, 2), d1);
    ghost var d2 := d1 + ToLE(|f.authData|, 2);
    offset := Put(buffer, offset, f.authData, d2);
    ghost var d3 := d2 + f.authData;
    offset := Put(buffer, offset, f.order, d3);
    ghost var d4 := d3 + f.order;
    offset := Put(buffer, offset, ToLE(f.originLen, 2), d4);
    ghost var d5 := d4 + ToLE(f.originLen, 2);
    offset := Put(buffer, offset, ToLE(|f.tree|, 2), d5);
    ghost var d6 := d5 + ToLE(|f.tree|, 2);
    offset := Put(buffer, offset, ToLE(|f.encoded|, 2), d6);
    ghost var d7 := d6 + ToLE(|f.encoded|, 2);
    offset := Put(buffer, offset, f.tree, d7);
    offset := Put(buffer, offset, f.encoded, d7 + f.tree);
    assert offset == totalSize && buffer[..offset] == buffer[..];
    LayoutInOrder(f, d7 + f.tree + f.encoded);
  }

  lemma {:induction false} LayoutInOrder(f: Fields, bytes: seq<Byte>)
    requires bytes == [] + ToLE(f.authType, 2) + ToLE(|f.authData|, 2) + f.authData + f.order +
                      ToLE(f.originLen, 2) + ToLE(|f.tree|, 2) + ToLE(|f.encoded|, 2) + f.tree + f.encoded
    ensures bytes == Layout(f)
  {
  }

  // ----- reading a prefix -----

  function Take(bytes: seq<Byte>, n: nat): Option<(seq<Byte>, seq<Byte>)>
  {
    if n <= |bytes| then Some((bytes[..n], bytes[n..])) else None
  }

  function TakeU16(bytes: seq<Byte>): Option<(nat, seq<Byte>)>
  {
    if 2 <= |bytes| then Some((FromLE(bytes[..2]), bytes[2..])) else None
  }

  lemma {:induction false} TakeFirst(a: seq<Byte>, rest: seq<Byte>)
    ensures Take(a + rest, |a|) == Some((a, rest))
  {
  }

  lemma {:induction false} TakeFirstU16(n: nat, rest: seq<Byte>)
    requires n < U16
    ensures TakeU16(ToLE(n, 2) + rest) == Some((n, rest))
  {
    PowersOf256();
    FromToLE(n, 2);
    assert (ToLE(n, 2) + rest)[..2] == ToLE(n, 2) && (ToLE(n, 2) + rest)[2..] == rest;
  }

  /** The last three fields, once their lengths are known. */
  function ReadTail(authType: nat, authData: seq<Byte>, order: seq<Byte>, bytes: seq<Byte>): Option<Fields>
  {
    var a := TakeU16(bytes);
    if a.None? then None else
    var b := TakeU16(a.value.1);
    if b.None? then None else
    var c := TakeU16(b.value.1);
    if c.None? then None else
    var tree := Take(c.value.1, b.value.0);
    if tree.None? || |tree.value.1| != c.value.0 then None
    else Some(Fields(authType, authData, order, a.value.0, tree.value.0, tree.value.1))
  }

  /** A reader of the layout: it fails unless the lengths account for every byte. */
  function ReadPrefix(bytes: seq<Byte>): Option<Fields>
  {
    var a := TakeU16(bytes);
    if a.None? then None else
    var b := TakeU16(a.value.1);
    if b.None? then None else
    var authData := Take(b.value.1, b.value.0);
    if authData.None? then None else
    var order := Take(authData.value.1, 4);
    if order.None? then None
    else ReadTail(a.value.0, authData.value.0, order.value.0, order.value.1)
  }

  ghost predicate LengthsFit(f: Fields)
  {
    && f.authType < U16 && |f.authData| < U16 && |f.order| == 4
    && f.originLen < U16 && |f.tree| < U16 && |f.encoded| < U16
  }

  lemma {:induction false} ReadLaidOut(f: Fields)
    requires LengthsFit(f)
    ensures ReadPrefix(Layout(f)) == Some(f)
  {
    var t0 := f.tree + f.encoded;
    var t1 := ToLE(|f.encoded|, 2) + t0;
    var t2 := ToLE(|f.tree|, 2) + t1;
    var t3 := ToLE(f.originLen, 2) + t2;
    var t4 := f.order + t3;
    var t5 := f.authData + t4;
    var t6 := ToLE(|f.authData|, 2) + t5;
    TakeFirstU16(f.authType, t6);
    TakeFirstU16(|f.authData|, t5);
    TakeFirst(f.authData, t4);
    TakeFirst(f.order, t3);
    TakeFirstU16(f.originLen, t2);
    TakeFirstU16(|f.tree|, t1);
    TakeFirstU16(|f.encoded|, t0);
    TakeFirst(f.tree, f.encoded);
  }

  /** 16-bit lengths suffice for the tree and for the encoding of any origin that fits itself. */
  lemma {:induction false} PrefixLengthsFit(keys: seq<string>, origin: seq<CodeUnit>, authData: seq<Byte>)
    requires Encodable(origin) && |authData| < U16 && |origin| < U16
    ensures LengthsFit(PrefixFields(keys, origin, authData))
  {
    HuffmanOptimality.TwoSymbolsNode(origin);
    SizeFromLeaves(HuffmanTree(origin));
    EncodingNeverLonger(origin);
    hide HuffmanTree, CodedBits, Pack;
  }

  /** A prefix that is read back as it was laid out has lengths that fit their fields. */
  lemma {:induction false} ReadLengthsFit(bytes: seq<Byte>)
    requires ReadPrefix(bytes).Some?
    ensures LengthsFit(ReadPrefix(bytes).value)
  {
    PowersOf256();
  }

  /**
   The prefix alone gives back the authenticator data, the key order, the tree, the encoded bytes
   and the origin exactly when the origin is encodable and both it and the authenticator data are
   shorter than 64 Ki.
   */
  lemma {:induction false} PrefixDeterminesOrigin(keys: seq<string>, origin: seq<CodeUnit>, authData: seq<Byte>)
    requires origin != []
    ensures var f := PrefixFields(keys, origin, authData);
            (&& ReadPrefix(Layout(f)) == Some(f)
             && DecodeFromBytes(f.tree, f.encoded, f.originLen) == Some(origin))
            <==>
            (Encodable(origin) && |authData| < U16 && |origin| < U16)
  {
    var f := PrefixFields(keys, origin, authData);
    ArrivalReturnsText(origin);
    if Encodable(origin) && |authData| < U16 && |origin| < U16 {
      PrefixLengthsFit(keys, origin, authData);
      ReadLaidOut(f);
    }
    if ReadPrefix(Layout(f)) == Some(f) {
      ReadLengthsFit(Layout(f));
    }
    hide ReadPrefix, Layout, DecodeFromBytes, TreeData, Pack, CodedBits, Encodable;
  }
}
