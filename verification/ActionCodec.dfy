/** The action records of a role: their permissions, payload layouts and 8-byte headers. */
module ActionCodec {
  import opened Bytes
  import opened StructCodecs

  /** The wire enum, in the order of its values from 0. */
  datatype Permission =
    | NoPermission
    | SolLimit
    | SolRecurringLimit
    | Program
    | ProgramScope
    | TokenLimit
    | TokenRecurringLimit
    | All
    | ManageAuthority
    | SubAccount
    | StakeLimit
    | StakeRecurringLimit
    | StakeAll
    | ProgramAll
    | ProgramCurated
    | AllButManageAuthority
    | SolDestinationLimit
    | SolRecurringDestinationLimit
    | TokenDestinationLimit
    | TokenRecurringDestinationLimit
    | CloseSwigAuthority
    | ReplaceAuthority
    | SubAccountV2Create
    | SubAccountV2All
    | SubAccountV2Sign
    | SubAccountV2Withdraw
    | SubAccountV2Toggle
    | ManageAuthorizationLocks

  const PERMISSIONS: seq<Permission> := [
    NoPermission, SolLimit, SolRecurringLimit, Program, ProgramScope, TokenLimit, TokenRecurringLimit, All,
    ManageAuthority, SubAccount, StakeLimit, StakeRecurringLimit, StakeAll, ProgramAll, ProgramCurated,
    AllButManageAuthority, SolDestinationLimit, SolRecurringDestinationLimit, TokenDestinationLimit,
    TokenRecurringDestinationLimit, CloseSwigAuthority, ReplaceAuthority, SubAccountV2Create, SubAccountV2All,
    SubAccountV2Sign, SubAccountV2Withdraw, SubAccountV2Toggle, ManageAuthorizationLocks]

  function Code(p: Permission): (n: nat)
    ensures n < 28
  {
    match p
    case NoPermission => 0
    case SolLimit => 1
    case SolRecurringLimit => 2
    case Program => 3
    case ProgramScope => 4
    case TokenLimit => 5
    case TokenRecurringLimit => 6
    case All => 7
    case ManageAuthority => 8
    case SubAccount => 9
    case StakeLimit => 10
    case StakeRecurringLimit => 11
    case StakeAll => 12
    case ProgramAll => 13
    case ProgramCurated => 14
    case AllButManageAuthority => 15
    case SolDestinationLimit => 16
    case SolRecurringDestinationLimit => 17
    case TokenDestinationLimit => 18
    case TokenRecurringDestinationLimit => 19
    case CloseSwigAuthority => 20
    case ReplaceAuthority => 21
    case SubAccountV2Create => 22
    case SubAccountV2All => 23
    case SubAccountV2Sign => 24
    case SubAccountV2Withdraw => 25
    case SubAccountV2Toggle => 26
    case ManageAuthorizationLocks => 27
  }

  function FromCode(n: nat): (p: Permission)
    requires n < 28
    ensures Code(p) == n
  {
    PERMISSIONS[n]
  }

  lemma {:induction false} CodeIsInjective(p: Permission)
    ensures FromCode(Code(p)) == p
  {
  }

  // ----- payloads -----

  const AMOUNT: Layout := Then(Amount, UInt(8), End)

  const RECURRING: Layout :=
    Then(RecurringAmount, UInt(8), Then(Window, UInt(8), Then(LastReset, UInt(8), Then(CurrentAmount, UInt(8), End))))

  /** TokenRecurringLimit alone orders the recurring state differently. */
  const TOKEN_RECURRING: Layout :=
    Then(Window, UInt(8), Then(RecurringAmount, UInt(8), Then(CurrentAmount, UInt(8), Then(LastReset, UInt(8), End))))

  /** A public key in front of other fields. */
  function Keyed(name: Name, rest: Layout): Layout
  {
    Then(name, FixedBytes(32), rest)
  }

  const PROGRAM_SCOPE: Layout :=
    Then(CurrentAmount, UInt(16), Then(LimitAmount, UInt(16), Then(Window, UInt(8), Then(LastReset, UInt(8),
    Keyed(ProgramId, Keyed(TargetAccount, Then(ScopeType, EnumOf(8, 3), Then(NumericType, EnumOf(8, 4),
    Then(BalanceFieldStart, UInt(8), Then(BalanceFieldEnd, UInt(8), End))))))))))

  const SUB_ACCOUNT: Layout :=
    Keyed(SubAccountKey, Then(Bump, UInt(1), Then(Enabled, Flag, Then(Padding, FixedBytes(2),
    Then(RoleId, UInt(4), Keyed(SwigId, End))))))

  /** The fields of a permission's payload, in wire order; markers have none. */
  function PayloadLayout(p: Permission): Layout
  {
    match p
    case SolLimit => AMOUNT
    case SolRecurringLimit => RECURRING
    case Program => Keyed(ProgramId, End)
    case ProgramScope => PROGRAM_SCOPE
    case TokenLimit => Keyed(Mint, AMOUNT)
    case TokenRecurringLimit => Keyed(Mint, TOKEN_RECURRING)
    case SubAccount => SUB_ACCOUNT
    case StakeLimit => AMOUNT
    case StakeRecurringLimit => RECURRING
    case ProgramCurated => Keyed(Reserved, End)
    case SolDestinationLimit => Keyed(Destination, AMOUNT)
    case SolRecurringDestinationLimit => Keyed(Destination, RECURRING)
    case TokenDestinationLimit => Keyed(Mint, Keyed(Destination, AMOUNT))
    case TokenRecurringDestinationLimit => Keyed(Mint, Keyed(Destination, RECURRING))
    case ManageAuthorizationLocks => Then(MaxDurationSlots, UInt(8), End)
    case _ => End
  }

  datatype Payload = Payload(permission: Permission, data: Struct)

  /** The permissions that carry a u32 id in eight bytes. */
  predicate IsScoped(p: Permission)
  {
    p.ReplaceAuthority? || p.SubAccountV2All? || p.SubAccountV2Sign? || p.SubAccountV2Withdraw? || p.SubAccountV2Toggle?
  }

  function IdName(p: Permission): Name
  {
    if p.ReplaceAuthority? then RoleId else SubAccountId
  }

  function DecodeScopedU32(data: seq<Byte>): Option<nat>
  {
    if |data| != 8 || exists i :: 4 <= i < |data| && data[i] != 0 then None else Some(FromLE(data[..4]))
  }

  function DecodePayload(p: Permission, data: seq<Byte>): Option<Payload>
  {
    if p.NoPermission? then None
    else if IsScoped(p) then
      var id := DecodeScopedU32(data);
      if id.None? then None else Some(Payload(p, map[IdName(p) := Num(id.value)]))
    else if p.SubAccountV2Create? && |data| != 0 then None
    else if p.ManageAuthorizationLocks? && |data| != 8 then None
    else
      var s := DecodeStruct(PayloadLayout(p), data);
      if s.None? then None else Some(Payload(p, s.value))
  }

  // ----- headers and records -----

  const HEADER_LENGTH: nat := 8

  datatype Header = Header(permission: Permission, length: nat, boundary: nat)

  function EncodeHeader(h: Header): (r: Option<seq<Byte>>)
    ensures r.Some? ==> |r.value| == HEADER_LENGTH
  {
    if h.length < U16 && h.boundary < U32
    then Some(ToLE(Code(h.permission), 2) + ToLE(h.length, 2) + ToLE(h.boundary, 4))
    else None
  }

  function DecodeHeader(bs: seq<Byte>): Option<Header>
  {
    if |bs| < HEADER_LENGTH then None
    else
      var code := FromLE(bs[..2]);
      if code >= 28 then None
      else Some(Header(FromCode(code), FromLE(bs[2..4]), FromLE(bs[4..8])))
  }

  lemma {:induction false} HeaderRoundTrip(h: Header, more: seq<Byte>)
    requires EncodeHeader(h).Some?
    ensures DecodeHeader(EncodeHeader(h).value + more) == Some(h)
  {
    var bs := EncodeHeader(h).value + more;
    PowersOf256();
    CodeIsInjective(h.permission);
    FromToLE(Code(h.permission), 2);
    FromToLE(h.length, 2);
    FromToLE(h.boundary, 4);
    assert bs[..2] == ToLE(Code(h.permission), 2);
    assert bs[2..4] == ToLE(h.length, 2);
    assert bs[4..8] == ToLE(h.boundary, 4);
  }

  datatype Action = Action(header: Header, payload: Payload)

  /** One pass of the parser loop: the record at `cursor`, whose end the header states. */
  function ParseAt(buffer: seq<Byte>, cursor: nat): Option<Action>
  {
    var header := DecodeHeader(Slice(buffer, cursor, cursor + HEADER_LENGTH));
    if header.None? then None
    else
      var data := Slice(buffer, cursor + HEADER_LENGTH, header.value.boundary);
      var payload := DecodePayload(header.value.permission, data);
      if payload.None? then None else Some(Action(header.value, payload.value))
  }

  function Parse(buffer: seq<Byte>, cursor: nat, count: nat): (r: Option<seq<Action>>)
    ensures r.Some? ==> |r.value| == count
    decreases count
  {
    if count == 0 then Some([])
    else
      var first := ParseAt(buffer, cursor);
      if first.None? then None
      else
        var rest := Parse(buffer, first.value.header.boundary, count - 1);
        if rest.None? then None else Some([first.value] + rest.value)
  }

  function Prepend(front: seq<Action>, rest: Option<seq<Action>>): Option<seq<Action>>
  {
    if rest.None? then None else Some(front + rest.value)
  }

  lemma {:induction false} PrependEnds(rest: Option<seq<Action>>, front: seq<Action>)
    ensures Prepend([], rest) == rest && Prepend(front, Some([])) == Some(front)
  {
    assert front + [] == front;
    assert rest.Some? ==> [] + rest.value == rest.value;
  }

  lemma {:induction false} ParseNext(buffer: seq<Byte>, cursor: nat, count: nat, front: seq<Action>)
    requires count > 0
    ensures Prepend(front, Parse(buffer, cursor, count)) ==
            var first := ParseAt(buffer, cursor);
            if first.None? then None
            else Prepend(front + [first.value], Parse(buffer, first.value.header.boundary, count - 1))
  {
    var first := ParseAt(buffer, cursor);
    if first.Some? {
      var rest := Parse(buffer, first.value.header.boundary, count - 1);
      if rest.Some? {
        assert front + ([first.value] + rest.value) == front + [first.value] + rest.value;
      }
    }
  }

  method DeserializeActions(buffer: seq<Byte>, count: nat) returns (actions: Option<seq<Action>>)
    ensures actions == Parse(buffer, 0, count)
  {
    var cursor: nat := 0;
    var parsed: seq<Action> := [];
    PrependEnds(Parse(buffer, 0, count), []);
    for i := 0 to count
      invariant Prepend(parsed, Parse(buffer, cursor, count - i)) == Parse(buffer, 0, count)
    {
      ParseNext(buffer, cursor, count - i, parsed);
      hide Parse, DecodeHeader, DecodePayload, Slice;
      var header := DecodeHeader(Slice(buffer, cursor, cursor + HEADER_LENGTH));
      if header.None? {
        return None;
      }
      cursor := cursor + HEADER_LENGTH;
      var payload := DecodePayload(header.value.permission, Slice(buffer, cursor, header.value.boundary));
      if payload.None? {
        return None;
      }
      cursor := header.value.boundary;
      parsed := parsed + [Action(header.value, payload.value)];
    }
    PrependEnds(None, parsed);
    return Some(parsed);
  }
}
