/** Fixed-size struct codecs: named fields, encoded one after another. */
module StructCodecs {
  import opened Bytes

  datatype Codec =
    | UInt(width: nat)
    | EnumOf(width: nat, count: nat)
    | Flag
    | FixedBytes(size: nat)

  datatype Value = Num(n: int) | Bool(b: bool) | Raw(bytes: seq<Byte>)

  /** The field names of all payload structs. */
  datatype Name =
    | Amount | Mint | Destination
    | RecurringAmount | Window | LastReset | CurrentAmount
    | ProgramId | TargetAccount | LimitAmount | ScopeType | NumericType | BalanceFieldStart | BalanceFieldEnd
    | SubAccountKey | Bump | Enabled | Padding | RoleId | SwigId
    | Reserved | MaxDurationSlots | SubAccountId

  /** The named fields of a struct, in wire order. */
  datatype Layout = End | Then(name: Name, codec: Codec, rest: Layout)

  /** The object of a struct codec. */
  type Struct = map<Name, Value>

  function CodecSize(c: Codec): nat
  {
    match c
    case UInt(w) => w
    case EnumOf(w, _) => w
    case Flag => 1
    case FixedBytes(n) => n
  }

  function Size(layout: Layout): nat
  {
    match layout
    case End => 0
    case Then(_, codec, rest) => CodecSize(codec) + Size(rest)
  }

  /** Longer byte strings are cut, shorter ones are filled up with zeros. */
  function FixSize(bs: seq<Byte>, n: nat): (r: seq<Byte>)
    ensures |r| == n
    ensures |bs| == n ==> r == bs
  {
    if |bs| >= n then bs[..n] else bs + Zeros(n - |bs|)
  }

  /** Numbers out of range, missing fields and fields of the wrong type are errors. */
  function EncodeValue(c: Codec, v: Value): (r: Option<seq<Byte>>)
    ensures r.Some? ==> |r.value| == CodecSize(c)
  {
    match (c, v)
    case (UInt(w), Num(n)) => if 0 <= n < Pow256(w) then Some(ToLE(n, w)) else None
    case (EnumOf(w, count), Num(n)) => if 0 <= n < count && n < Pow256(w) then Some(ToLE(n, w)) else None
    case (Flag, Bool(b)) => Some([if b then 1 else 0])
    case (FixedBytes(n), Raw(bs)) => Some(FixSize(bs, n))
    case _ => None
  }

  function DecodeValue(c: Codec, bs: seq<Byte>): Option<Value>
    requires |bs| == CodecSize(c)
  {
    match c
    case UInt(_) => Some(Num(FromLE(bs)))
    case EnumOf(_, count) => if FromLE(bs) < count then Some(Num(FromLE(bs))) else None
    case Flag => Some(Bool(bs[0] == 1))
    case FixedBytes(_) => Some(Raw(bs))
  }

  function EncodeStruct(layout: Layout, s: Struct): (r: Option<seq<Byte>>)
    ensures r.Some? ==> |r.value| == Size(layout)
  {
    match layout
    case End => Some([])
    case Then(name, codec, tail) =>
      if name !in s then None
      else
        var first := EncodeValue(codec, s[name]);
        var rest := EncodeStruct(tail, s);
        if first.None? || rest.None? then None else Some(first.value + rest.value)
  }

  /** Too few bytes are an error; bytes after the last field are ignored. */
  function DecodeStruct(layout: Layout, bs: seq<Byte>): Option<Struct>
  {
    match layout
    case End => Some(map[])
    case Then(name, codec, tail) =>
      var n := CodecSize(codec);
      if n > |bs| then None
      else
        var v := DecodeValue(codec, bs[..n]);
        var rest := DecodeStruct(tail, bs[n..]);
        if v.None? || rest.None? then None else Some(rest.value[name := v.value])
  }

  function Names(layout: Layout): set<Name>
  {
    match layout
    case End => {}
    case Then(name, _, rest) => {name} + Names(rest)
  }

  /** Byte strings have exactly the size of their field. */
  predicate ExactSizes(layout: Layout, s: Struct)
  {
    match layout
    case End => true
    case Then(name, codec, rest) =>
      && (codec.FixedBytes? && name in s && s[name].Raw? ==> |s[name].bytes| == codec.size)
      && ExactSizes(rest, s)
  }

  lemma {:induction false} ValueRoundTrip(c: Codec, v: Value)
    requires EncodeValue(c, v).Some?
    requires c.FixedBytes? && v.Raw? ==> |v.bytes| == c.size
    ensures DecodeValue(c, EncodeValue(c, v).value) == Some(v)
  {
    match (c, v)
    case (UInt(w), Num(n)) => FromToLE(n, w);
    case (EnumOf(w, _), Num(n)) => FromToLE(n, w);
    case _ =>
  }

  function Pick(s: Struct, names: set<Name>): Struct
  {
    map n | n in names && n in s :: s[n]
  }

  lemma {:induction false} PickOneMore(s: Struct, name: Name, names: set<Name>)
    requires name in s
    ensures Pick(s, names)[name := s[name]] == Pick(s, {name} + names)
  {
  }

  /** Decoding gives back the encoded fields, whatever bytes follow. */
  lemma {:induction false} StructRoundTrip(layout: Layout, s: Struct, more: seq<Byte>)
    requires EncodeStruct(layout, s).Some? && ExactSizes(layout, s)
    ensures Names(layout) <= s.Keys
    ensures DecodeStruct(layout, EncodeStruct(layout, s).value + more) == Some(Pick(s, Names(layout)))
  {
    match layout
    case End => assert Pick(s, Names(layout)) == map[];
    case Then(name, codec, tail) =>
      var first, rest := EncodeValue(codec, s[name]).value, EncodeStruct(tail, s).value;
      ValueRoundTrip(codec, s[name]);
      StructRoundTrip(tail, s, more);
      var bs := EncodeStruct(layout, s).value + more;
      assert bs[..|first|] == first && bs[|first|..] == rest + more;
      PickOneMore(s, name, Names(tail));
  }
}
