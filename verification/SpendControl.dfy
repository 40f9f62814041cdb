/** What an action lets its role spend of an asset. */
module SpendControl {
  import opened Bytes
  import opened StructCodecs
  import opened ActionCodec

  /** `null` is the uncapped limit. */
  datatype Limit = AtMost(amount: int) | Uncapped

  predicate Below(x: Limit, y: Limit)
  {
    y.Uncapped? || (x.AtMost? && x.amount <= y.amount)
  }

  function Join(x: Limit, y: Limit): (j: Limit)
    ensures Below(x, j) && Below(y, j) && (j == x || j == y)
  {
    if Below(x, y) then y else x
  }

  datatype Asset = Sol | Token(mint: seq<Byte>)

  datatype Control = Control(
    hasControl: bool,
    amount: Limit,
    window: Option<int> := None,
    lastReset: Option<int> := None,
    recurringAmount: Option<int> := None)
  {
    predicate IsAllowed() { hasControl }

    /** Nothing may be spent where spending is not allowed at all. */
    function SpendLimit(): Limit
    {
      if !IsAllowed() then AtMost(0) else amount
    }

    predicate CanSpendMax() { SpendLimit() == Uncapped }

    /** Without an amount, or with amount 0, the question is whether spending is allowed at all. */
    predicate CanSpend(wanted: Option<int>)
    {
      if wanted.Some? && wanted.value != 0 then WithinLimits(wanted.value) else IsAllowed()
    }

    predicate WithinLimits(wanted: int)
    {
      IsAllowed() && (SpendLimit().Uncapped? || SpendLimit().amount >= wanted)
    }
  }

  const NO_CONTROL: Control := Control(false, Uncapped)

  const MAX_CONTROL: Control := Control(true, Uncapped)

  function Number(s: Struct, name: Name): int
  {
    if name in s && s[name].Num? then s[name].n else 0
  }

  function KeyBytes(s: Struct, name: Name): seq<Byte>
  {
    if name in s && s[name].Raw? then s[name].bytes else []
  }

  function Recurring(s: Struct): Control
  {
    Control(true, AtMost(Number(s, CurrentAmount)), Some(Number(s, Window)), Some(Number(s, LastReset)),
            Some(Number(s, RecurringAmount)))
  }

  /** SpendController.get. */
  function GetControl(p: Payload): Control
  {
    match p.permission
    case SolRecurringLimit => Recurring(p.data)
    case TokenRecurringLimit => Recurring(p.data)
    case SolRecurringDestinationLimit => Recurring(p.data)
    case TokenRecurringDestinationLimit => Recurring(p.data)
    case SolLimit => Control(true, AtMost(Number(p.data, Amount)))
    case TokenLimit => Control(true, AtMost(Number(p.data, Amount)))
    case SolDestinationLimit => Control(true, AtMost(Number(p.data, Amount)))
    case TokenDestinationLimit => Control(true, AtMost(Number(p.data, Amount)))
    case All => MAX_CONTROL
    case _ => NO_CONTROL
  }

  predicate AllButManageAuthorityAccess(a: Action)
  {
    a.header.permission.All? || a.header.permission.AllButManageAuthority?
  }

  predicate IsSolLimit(p: Permission)
  {
    p.SolLimit? || p.SolRecurringLimit? || p.SolDestinationLimit? || p.SolRecurringDestinationLimit?
  }

  predicate IsTokenLimit(p: Permission)
  {
    p.TokenLimit? || p.TokenRecurringLimit? || p.TokenDestinationLimit? || p.TokenRecurringDestinationLimit?
  }

  /** solControl and tokenControl. */
  function ControlOf(a: Action, asset: Asset): Control
  {
    if AllButManageAuthorityAccess(a) then MAX_CONTROL
    else
      var p := a.payload.permission;
      match asset
      case Sol => if IsSolLimit(p) then GetControl(a.payload) else NO_CONTROL
      case Token(mint) =>
        if IsTokenLimit(p) && KeyBytes(a.payload.data, Mint) == mint then GetControl(a.payload) else NO_CONTROL
  }

  function LimitOf(a: Action, asset: Asset): Limit
  {
    ControlOf(a, asset).SpendLimit()
  }

  // ----- the fields that the controls read are there -----

  predicate Typed(layout: Layout, s: Struct)
  {
    match layout
    case End => true
    case Then(name, codec, rest) =>
      && name in s
      && (codec.UInt? ==> s[name].Num? && 0 <= s[name].n < Pow256(codec.width))
      && (codec.FixedBytes? ==> s[name].Raw? && |s[name].bytes| == codec.size)
      && Typed(rest, s)
  }

  predicate DistinctNames(layout: Layout)
  {
    match layout
    case End => true
    case Then(name, _, rest) => name !in Names(rest) && DistinctNames(rest)
  }

  lemma {:induction false} TypedElsewhere(layout: Layout, s: Struct, name: Name, v: Value)
    requires Typed(layout, s) && name !in Names(layout)
    ensures Typed(layout, s[name := v])
  {
    match layout
    case End =>
    case Then(_, _, rest) => TypedElsewhere(rest, s, name, v);
  }

  /** A decoded struct has every field of its layout, in range. */
  lemma {:induction false} DecodedIsTyped(layout: Layout, bs: seq<Byte>)
    requires DistinctNames(layout) && DecodeStruct(layout, bs).Some?
    ensures Typed(layout, DecodeStruct(layout, bs).value)
  {
    match layout
    case End =>
    case Then(name, codec, rest) =>
      var n := CodecSize(codec);
      DecodedIsTyped(rest, bs[n..]);
      TypedElsewhere(rest, DecodeStruct(rest, bs[n..]).value, name, DecodeValue(codec, bs[..n]).value);
  }

  lemma {:induction false} LimitLayoutsDistinct(p: Permission)
    requires IsSolLimit(p) || IsTokenLimit(p)
    ensures DistinctNames(PayloadLayout(p))
  {
    assert DistinctNames(AMOUNT);
    assert DistinctNames(RECURRING.rest.rest) && DistinctNames(TOKEN_RECURRING.rest.rest);
    assert DistinctNames(RECURRING) && DistinctNames(TOKEN_RECURRING);
  }
}
