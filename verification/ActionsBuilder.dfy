/** The fluent builder of a role's actions, and the parser's view of what it builds. */
module ActionsBuilder {
  import opened Bytes
  import opened StructCodecs
  import opened ActionCodec

  /** The builder's methods with their arguments. */
  datatype Call =
    | CallAll
    | CallManageAuthority
    | CallAllButManageAuthority
    | CallCloseSwigAuthority
    | CallRentDestination
    | CallReplaceAuthority(roleId: int)
    | CallSubAccountV2Create
    | CallSubAccountV2All(subAccountId: int)
    | CallSubAccountV2Sign(subAccountId: int)
    | CallSubAccountV2Withdraw(subAccountId: int)
    | CallSubAccountV2Toggle(subAccountId: int)
    | CallManageAuthorizationLocks(maxDurationSlots: int)
    | CallProgramLimit(programId: Key)
    | CallProgramAll
    | CallProgramCurated
    | CallProgramScopeBasic(programId: Key, targetAccount: Key)
    | CallProgramScopeLimit(amount: int, numericType: int, programId: Key, targetAccount: Key)
    | CallProgramScopeRecurringLimit(amount: int, window: int, numericType: int, programId: Key, targetAccount: Key)
    | CallSubAccount
    | CallStakeAll
    | CallStakeLimit(amount: int)
    | CallStakeRecurringLimit(amount: int, window: int)
    | CallSolLimit(amount: int)
    | CallSolRecurringLimit(amount: int, window: int)
    | CallTokenLimit(mint: Key, amount: int)
    | CallTokenRecurringLimit(mint: Key, amount: int, window: int)
    | CallSolDestinationLimit(amount: int, destination: Key)
    | CallSolRecurringDestinationLimit(amount: int, window: int, destination: Key)
    | CallTokenDestinationLimit(mint: Key, amount: int, destination: Key)
    | CallTokenRecurringDestinationLimit(mint: Key, amount: int, window: int, destination: Key)

  datatype Body = Marker | ScopedId(id: nat) | Data(data: Struct)

  datatype Config = Config(permission: Permission, length: nat, body: Body)

  /** The state of a new recurring limit: nothing spent, never reset. */
  function Fresh(amount: int, window: int): Struct
  {
    map[RecurringAmount := Num(amount), Window := Num(window),
        LastReset := Num(0), CurrentAmount := Num(amount)]
  }

  function Scope(amount: int, window: int, numericType: int, programId: Key, targetAccount: Key): Struct
  {
    map[CurrentAmount := Num(amount), LimitAmount := Num(amount), Window := Num(window), LastReset := Num(0),
        ProgramId := Raw(programId), TargetAccount := Raw(targetAccount),
        ScopeType := Num(0), NumericType := Num(numericType),
        BalanceFieldStart := Num(0), BalanceFieldEnd := Num(0)]
  }

  function MarkerConfig(p: Permission): Option<Config>
  {
    Some(Config(p, 0, Marker))
  }

  function ScopedConfig(p: Permission, id: int): Option<Config>
  {
    if 0 <= id < U32 then Some(Config(p, 8, ScopedId(id))) else None
  }

  function DataConfig(p: Permission, length: nat, data: Struct): Option<Config>
  {
    Some(Config(p, length, Data(data)))
  }

  /** The config that a builder method pushes; None stands for the error it throws. */
  function ConfigOf(call: Call): Option<Config>
  {
    match call
    case CallAll => MarkerConfig(All)
    case CallManageAuthority => MarkerConfig(ManageAuthority)
    case CallAllButManageAuthority => MarkerConfig(AllButManageAuthority)
    case CallCloseSwigAuthority => MarkerConfig(CloseSwigAuthority)
    case CallRentDestination => None
    case CallReplaceAuthority(id) => ScopedConfig(ReplaceAuthority, id)
    case CallSubAccountV2Create => MarkerConfig(SubAccountV2Create)
    case CallSubAccountV2All(id) => ScopedConfig(SubAccountV2All, id)
    case CallSubAccountV2Sign(id) => ScopedConfig(SubAccountV2Sign, id)
    case CallSubAccountV2Withdraw(id) => ScopedConfig(SubAccountV2Withdraw, id)
    case CallSubAccountV2Toggle(id) => ScopedConfig(SubAccountV2Toggle, id)
    case CallManageAuthorizationLocks(max) =>
      if 0 < max < U64 then DataConfig(ManageAuthorizationLocks, 8, map[MaxDurationSlots := Num(max)]) else None
    case CallProgramLimit(id) => DataConfig(Program, 32, map[ProgramId := Raw(id)])
    case CallProgramAll => MarkerConfig(ProgramAll)
    case CallProgramCurated => DataConfig(ProgramCurated, 32, map[Reserved := Raw(Zeros(32))])
    case CallProgramScopeBasic(id, target) => DataConfig(ProgramScope, 144, Scope(0, 0, 0, id, target))
    case CallProgramScopeLimit(amount, numeric, id, target) =>
      DataConfig(ProgramScope, 144, Scope(amount, 0, numeric, id, target))
    case CallProgramScopeRecurringLimit(amount, window, numeric, id, target) =>
      DataConfig(ProgramScope, 144, Scope(amount, window, numeric, id, target))
    case CallSubAccount =>
      DataConfig(SubAccount, 72, map[SubAccountKey := Raw(Zeros(32)), Bump := Num(0), Enabled := Bool(false),
                                     Padding := Raw(Zeros(2)), RoleId := Num(0), SwigId := Raw(Zeros(32))])
    case CallStakeAll => MarkerConfig(StakeAll)
    case CallStakeLimit(amount) => DataConfig(StakeLimit, 8, map[Amount := Num(amount)])
    case CallStakeRecurringLimit(amount, window) => DataConfig(StakeRecurringLimit, 32, Fresh(amount, window))
    case CallSolLimit(amount) => DataConfig(SolLimit, 8, map[Amount := Num(amount)])
    case CallSolRecurringLimit(amount, window) => DataConfig(SolRecurringLimit, 32, Fresh(amount, window))
    case CallTokenLimit(mint, amount) => DataConfig(TokenLimit, 40, map[Mint := Raw(mint), Amount := Num(amount)])
    case CallTokenRecurringLimit(mint, amount, window) =>
      DataConfig(TokenRecurringLimit, 64, Fresh(amount, window)[Mint := Raw(mint)])
    case CallSolDestinationLimit(amount, destination) =>
      DataConfig(SolDestinationLimit, 40, map[Destination := Raw(destination), Amount := Num(amount)])
    case CallSolRecurringDestinationLimit(amount, window, destination) =>
      DataConfig(SolRecurringDestinationLimit, 64, Fresh(amount, window)[Destination := Raw(destination)])
    case CallTokenDestinationLimit(mint, amount, destination) =>
      DataConfig(TokenDestinationLimit, 72,
                 map[Mint := Raw(mint), Destination := Raw(destination), Amount := Num(amount)])
    case CallTokenRecurringDestinationLimit(mint, amount, window, destination) =>
      DataConfig(TokenRecurringDestinationLimit, 96,
                 Fresh(amount, window)[Mint := Raw(mint)][Destination := Raw(destination)])
  }

  /** The stated length is the size of the payload, and the payload has the fields of its layout. */
  predicate Sound(c: Config)
  {
    match c.body
    case Marker =>
      && c.length == 0 && PayloadLayout(c.permission).End?
      && !c.permission.NoPermission? && !IsScoped(c.permission)
    case ScopedId(id) => c.length == 8 && IsScoped(c.permission) && id < U32
    case Data(d) =>
      var layout := PayloadLayout(c.permission);
      layout.Then? && c.length == Size(layout) < U16 && d.Keys == Names(layout) && ExactSizes(layout, d)
  }

  predicate FourNumbers(layout: Layout, names: set<Name>, s: Struct)
  {
    Size(layout) == 32 && Names(layout) == names && ExactSizes(layout, s)
  }

  lemma {:induction false} RecurringLayouts(s: Struct)
    ensures FourNumbers(RECURRING, {RecurringAmount, Window, LastReset, CurrentAmount}, s)
    ensures FourNumbers(TOKEN_RECURRING, {RecurringAmount, Window, LastReset, CurrentAmount}, s)
  {
    var r, t := RECURRING.rest.rest, TOKEN_RECURRING.rest.rest;
    assert Size(r) == 16 && Names(r) == {LastReset, CurrentAmount} && ExactSizes(r, s);
    assert Size(t) == 16 && Names(t) == {CurrentAmount, LastReset} && ExactSizes(t, s);
  }

  lemma {:induction false} ScopeTail(s: Struct)
    requires ProgramId in s && s[ProgramId].Raw? && |s[ProgramId].bytes| == 32
    requires TargetAccount in s && s[TargetAccount].Raw? && |s[TargetAccount].bytes| == 32
    ensures var tail := PROGRAM_SCOPE.rest.rest.rest.rest;
            && Size(tail) == 96
            && Names(tail) == {ProgramId, TargetAccount, ScopeType, NumericType, BalanceFieldStart, BalanceFieldEnd}
            && ExactSizes(tail, s)
  {
    var end := PROGRAM_SCOPE.rest.rest.rest.rest.rest.rest;
    assert Size(end.rest.rest) == 16 && Names(end.rest.rest) == {BalanceFieldStart, BalanceFieldEnd};
    assert ExactSizes(end.rest.rest, s);
    assert Size(end) == 32 && ExactSizes(end, s);
    assert Names(end) == {ScopeType, NumericType, BalanceFieldStart, BalanceFieldEnd};
  }

  lemma {:induction false} ScopeIsSound(amount: int, window: int, numericType: int, programId: Key, targetAccount: Key)
    ensures Sound(Config(ProgramScope, 144, Data(Scope(amount, window, numericType, programId, targetAccount))))
  {
    var d := Scope(amount, window, numericType, programId, targetAccount);
    ScopeTail(d);
    var half := PROGRAM_SCOPE.rest.rest;
    assert Size(half) == 112 && ExactSizes(half, d);
    assert Names(half) == {Window, LastReset} + Names(half.rest.rest);
    assert Names(PROGRAM_SCOPE) == d.Keys;
  }

  lemma {:induction false} SubAccountIsSound(d: Struct)
    requires ConfigOf(CallSubAccount) == DataConfig(SubAccount, 72, d)
    ensures Sound(Config(SubAccount, 72, Data(d)))
  {
    var l := SUB_ACCOUNT;
    LayoutStep(SubAccountKey, FixedBytes(32), l.rest, d);
    LayoutStep(Bump, UInt(1), l.rest.rest, d);
    LayoutStep(Enabled, Flag, l.rest.rest.rest, d);
    LayoutStep(Padding, FixedBytes(2), l.rest.rest.rest.rest, d);
    LayoutStep(RoleId, UInt(4), l.rest.rest.rest.rest.rest, d);
    LayoutStep(SwigId, FixedBytes(32), End, d);
    hide Size, Names, ExactSizes;
    assert d.Keys == {SubAccountKey} + ({Bump} + ({Enabled} + ({Padding} + ({RoleId} + {SwigId}))));
  }

  lemma {:induction false} LayoutStep(name: Name, codec: Codec, rest: Layout, d: Struct)
    ensures Size(Then(name, codec, rest)) == CodecSize(codec) + Size(rest) && Size(End) == 0
    ensures Names(Then(name, codec, rest)) == {name} + Names(rest) && Names(End) == {}
    ensures ExactSizes(Then(name, codec, rest), d) <==>
            (codec.FixedBytes? && name in d && d[name].Raw? ==> |d[name].bytes| == codec.size) && ExactSizes(rest, d)
    ensures ExactSizes(End, d)
  {
  }

  lemma {:induction false} AmountIsSound(p: Permission, amount: int)
    requires p.SolLimit? || p.StakeLimit?
    ensures Sound(Config(p, 8, Data(map[Amount := Num(amount)])))
  {
    var d := map[Amount := Num(amount)];
    assert AMOUNT.rest.End?;
    assert PayloadLayout(p) == AMOUNT;
    assert Size(AMOUNT) == 8;
    assert Names(AMOUNT) == {Amount} + {} == d.Keys;
    assert ExactSizes(AMOUNT, d);
  }

  lemma {:induction false} RecurringIsSound(p: Permission, amount: int, window: int)
    requires p.SolRecurringLimit? || p.StakeRecurringLimit?
    ensures Sound(Config(p, 32, Data(Fresh(amount, window))))
  {
    RecurringLayouts(Fresh(amount, window));
  }

  lemma {:induction false} KeyedAmountIsSound(p: Permission, name: Name, key: Key, amount: int)
    requires (p.TokenLimit? && name.Mint?) || (p.SolDestinationLimit? && name.Destination?)
    ensures Sound(Config(p, 40, Data(map[name := Raw(key), Amount := Num(amount)])))
  {
    var d := map[name := Raw(key), Amount := Num(amount)];
    assert AMOUNT.rest.End? && Size(AMOUNT) == 8 && ExactSizes(AMOUNT, d);
    assert Names(PayloadLayout(p)) == d.Keys;
  }

  lemma {:induction false} KeyedRecurringIsSound(p: Permission, name: Name, key: Key, amount: int, window: int)
    requires (p.TokenRecurringLimit? && name.Mint?) || (p.SolRecurringDestinationLimit? && name.Destination?)
    ensures Sound(Config(p, 64, Data(Fresh(amount, window)[name := Raw(key)])))
  {
    var d := Fresh(amount, window)[name := Raw(key)];
    RecurringLayouts(d);
    assert Names(PayloadLayout(p)) == d.Keys;
  }

  lemma {:induction false} TwoKeysAmountIsSound(mint: Key, destination: Key, amount: int)
    ensures Sound(Config(TokenDestinationLimit, 72,
                         Data(map[Mint := Raw(mint), Destination := Raw(destination), Amount := Num(amount)])))
  {
    var d := map[Mint := Raw(mint), Destination := Raw(destination), Amount := Num(amount)];
    assert Size(AMOUNT) == 8 && Names(AMOUNT) == {Amount} && ExactSizes(AMOUNT, d);
    assert Names(PayloadLayout(TokenDestinationLimit)) == d.Keys;
  }

  lemma {:induction false} TwoKeysRecurringIsSound(mint: Key, destination: Key, amount: int, window: int)
    ensures Sound(Config(TokenRecurringDestinationLimit, 96,
                         Data(Fresh(amount, window)[Mint := Raw(mint)][Destination := Raw(destination)])))
  {
    var d := Fresh(amount, window)[Mint := Raw(mint)][Destination := Raw(destination)];
    RecurringLayouts(d);
    LayoutStep(Mint, FixedBytes(32), Keyed(Destination, RECURRING), d);
    LayoutStep(Destination, FixedBytes(32), RECURRING, d);
    assert PayloadLayout(TokenRecurringDestinationLimit) == Keyed(Mint, Keyed(Destination, RECURRING));
    hide Size, Names, ExactSizes, PayloadLayout;
    assert d.Keys == {Mint} + ({Destination} + {RecurringAmount, Window, LastReset, CurrentAmount});
  }

  lemma {:induction false} SingleIsSound(p: Permission, length: nat, name: Name, v: Value)
    requires || (p.Program? && length == 32 && name.ProgramId? && v.Raw? && |v.bytes| == 32)
             || (p.ProgramCurated? && length == 32 && name.Reserved? && v.Raw? && |v.bytes| == 32)
             || (p.ManageAuthorizationLocks? && length == 8 && name.MaxDurationSlots?)
    ensures Sound(Config(p, length, Data(map[name := v])))
  {
  }

  lemma {:induction false} PlainIsSound(call: Call)
    requires ConfigOf(call).Some? && !ConfigOf(call).value.body.Data?
    ensures Sound(ConfigOf(call).value)
  {
  }

  /** Whatever a builder method pushes states its payload's true length and has its layout's fields. */
  lemma {:induction false} ConfigsAreSound(call: Call)
    ensures ConfigOf(call).Some? ==> Sound(ConfigOf(call).value)
  {
    if ConfigOf(call).None? {
      return;
    }
    if !ConfigOf(call).value.body.Data? {
      PlainIsSound(call);
      return;
    }
    hide Sound;
    match call
    case CallManageAuthorizationLocks(max) => SingleIsSound(ManageAuthorizationLocks, 8, MaxDurationSlots, Num(max));
    case CallProgramLimit(id) => SingleIsSound(Program, 32, ProgramId, Raw(id));
    case CallProgramCurated => SingleIsSound(ProgramCurated, 32, Reserved, Raw(Zeros(32)));
    case CallProgramScopeBasic(id, target) => ScopeIsSound(0, 0, 0, id, target);
    case CallProgramScopeLimit(amount, numeric, id, target) => ScopeIsSound(amount, 0, numeric, id, target);
    case CallProgramScopeRecurringLimit(amount, window, numeric, id, target) =>
      ScopeIsSound(amount, window, numeric, id, target);
    case CallSubAccount => SubAccountIsSound(ConfigOf(call).value.body.data);
    case CallStakeLimit(amount) => AmountIsSound(StakeLimit, amount);
    case CallStakeRecurringLimit(amount, window) => RecurringIsSound(StakeRecurringLimit, amount, window);
    case CallSolLimit(amount) => AmountIsSound(SolLimit, amount);
    case CallSolRecurringLimit(amount, window) => RecurringIsSound(SolRecurringLimit, amount, window);
    case CallTokenLimit(mint, amount) => KeyedAmountIsSound(TokenLimit, Mint, mint, amount);
    case CallTokenRecurringLimit(mint, amount, window) =>
      KeyedRecurringIsSound(TokenRecurringLimit, Mint, mint, amount, window);
    case CallSolDestinationLimit(amount, key) => KeyedAmountIsSound(SolDestinationLimit, Destination, key, amount);
    case CallSolRecurringDestinationLimit(amount, window, key) =>
      KeyedRecurringIsSound(SolRecurringDestinationLimit, Destination, key, amount, window);
    case CallTokenDestinationLimit(mint, amount, key) => TwoKeysAmountIsSound(mint, key, amount);
    case CallTokenRecurringDestinationLimit(mint, amount, window, key) =>
      TwoKeysRecurringIsSound(mint, key, amount, window);
    case _ =>
  }

  ghost predicate AllSound(configs: seq<Config>)
  {
    forall i :: 0 <= i < |configs| ==> Sound(configs[i])
  }

  lemma {:induction false} SoundAt(configs: seq<Config>, i: nat)
    requires AllSound(configs) && i < |configs|
    ensures Sound(configs[i])
  {
    hide Sound;
  }

  lemma {:induction false} SoundParts(configs: seq<Config>)
    requires AllSound(configs) && configs != []
    ensures Sound(configs[0]) && AllSound(configs[1..])
  {
    hide Sound;
  }

  // ----- encoding -----

  function EncodeBody(c: Config): Option<seq<Byte>>
  {
    match c.body
    case Marker => Some([])
    case ScopedId(id) => Some(ToLE(id, 4) + Zeros(4))
    case Data(d) => EncodeStruct(PayloadLayout(c.permission), d)
  }

  lemma {:induction false} BodyHasStatedLength(c: Config)
    requires Sound(c) && EncodeBody(c).Some?
    ensures |EncodeBody(c).value| == c.length
  {
  }

  function LengthWithHeader(c: Config): nat
  {
    HEADER_LENGTH + c.length
  }

  /** Header and payload of one action whose end is at `boundary`. */
  function RecordOf(c: Config, boundary: nat): Option<seq<Byte>>
  {
    var data := EncodeBody(c);
    var header := EncodeHeader(Header(c.permission, c.length, boundary));
    if data.None? || header.None? then None else Some(header.value + data.value)
  }

  method EncodeWithHeader(c: Config, boundary: nat) returns (bytes: Option<seq<Byte>>)
    requires Sound(c)
    ensures bytes == RecordOf(c, boundary)
    ensures bytes.Some? ==> |bytes.value| == LengthWithHeader(c)
  {
    var data := EncodeBody(c);
    if data.None? {
      return None;
    }
    var header := EncodeHeader(Header(c.permission, c.length, boundary));
    if header.None? {
      return None;
    }
    BodyHasStatedLength(c);
    var buffer := new Byte[LengthWithHeader(c)](i => 0);
    SetBytes(buffer, header.value, 0);
    assert buffer[..HEADER_LENGTH] == header.value;
    if LengthWithHeader(c) > HEADER_LENGTH {
      SetBytes(buffer, data.value, HEADER_LENGTH);
    }
    assert buffer[..] == header.value + data.value;
    return Some(buffer[..]);
  }

  function BufferLength(configs: seq<Config>): nat
  {
    if configs == [] then 0 else LengthWithHeader(configs[0]) + BufferLength(configs[1..])
  }

  /** The records of a list of configs, the first of them starting at `cursor`. */
  function BuildFrom(configs: seq<Config>, cursor: nat): (r: Option<seq<Byte>>)
  {
    if configs == [] then Some([])
    else
      var boundary := cursor + LengthWithHeader(configs[0]);
      var first := RecordOf(configs[0], boundary);
      var rest := BuildFrom(configs[1..], boundary);
      if first.None? || rest.None? then None else Some(first.value + rest.value)
  }

  lemma {:induction false} BuildNext(configs: seq<Config>, i: nat, cursor: nat, front: seq<Byte>)
    requires i < |configs|
    ensures BufferLength(configs[i..]) == LengthWithHeader(configs[i]) + BufferLength(configs[i + 1..])
    ensures var boundary := cursor + LengthWithHeader(configs[i]);
            var first := RecordOf(configs[i], boundary);
            After(front, BuildFrom(configs[i..], cursor)) ==
            if first.None? then None else After(front + first.value, BuildFrom(configs[i + 1..], boundary))
  {
    hide *;
    var rest := configs[i..];
    assert rest[0] == configs[i] && rest[1..] == configs[i + 1..];
    BuildFirst(rest, cursor);
    var boundary := cursor + LengthWithHeader(configs[i]);
    AfterAfter(front, RecordOf(configs[i], boundary), BuildFrom(configs[i + 1..], boundary));
  }

  lemma {:induction false} AfterAfter(front: seq<Byte>, first: Option<seq<Byte>>, rest: Option<seq<Byte>>)
    ensures After(front, if first.None? || rest.None? then None else Some(first.value + rest.value)) ==
            if first.None? then None else After(front + first.value, rest)
  {
    if first.Some? && rest.Some? {
      assert front + (first.value + rest.value) == front + first.value + rest.value;
    }
  }

  /** What the loop over the configs keeps, and how it ends when a config cannot be encoded. */
  lemma {:induction false} BuildGoesOn(configs: seq<Config>, i: nat, cursor: nat, front: seq<Byte>,
                                       goal: Option<seq<Byte>>)
    requires i < |configs| && After(front, BuildFrom(configs[i..], cursor)) == goal
    ensures BufferLength(configs[i..]) == LengthWithHeader(configs[i]) + BufferLength(configs[i + 1..])
    ensures var record := RecordOf(configs[i], cursor + LengthWithHeader(configs[i]));
            if record.None? then goal == None
            else After(front + record.value, BuildFrom(configs[i + 1..], cursor + LengthWithHeader(configs[i]))) == goal
  {
    hide *;
    BuildNext(configs, i, cursor, front);
  }

  lemma {:induction false} BuildNone()
    ensures BufferLength([]) == 0 && forall cursor: nat :: BuildFrom([], cursor) == Some([])
  {
  }

  lemma {:induction false} AfterEnds(rest: Option<seq<Byte>>, front: seq<Byte>)
    ensures After([], rest) == rest && After(front, Some([])) == Some(front)
  {
    assert rest.Some? ==> [] + rest.value == rest.value;
    assert front + [] == front;
  }

  /** Sets bytes right behind those that are done. */
  method AppendBytes(buffer: array<Byte>, src: seq<Byte>, offset: nat, ghost done: seq<Byte>)
    requires offset + |src| <= buffer.Length && done == buffer[..][..offset]
    modifies buffer
    ensures buffer[..][..offset + |src|] == done + src
  {
    SetBytes(buffer, src, offset);
  }

  datatype Actions = Actions(raw: seq<Byte>, actions: seq<Action>)

  /** Actions.from: the constructor that parses. */
  function From(raw: seq<Byte>, count: nat): Option<Actions>
  {
    var parsed := Parse(raw, 0, count);
    if parsed.None? then None else Some(Actions(raw, parsed.value))
  }

  method ActionsFrom(raw: seq<Byte>, count: nat) returns (r: Option<Actions>)
    ensures r == From(raw, count)
  {
    var actions := DeserializeActions(raw, count);
    return if actions.None? then None else Some(Actions(raw, actions.value));
  }

  class ActionsBuilder {
    var configs: seq<Config>

    ghost predicate Valid()
      reads this
    {
      AllSound(configs)
    }

    constructor ()
      ensures Valid() && configs == []
    {
      configs := [];
    }

    /** One builder method; `ok` is false when it throws, and then nothing is pushed. */
    method Add(call: Call) returns (ok: bool)
      requires Valid()
      modifies this
      ensures Valid()
      ensures ok <==> ConfigOf(call).Some?
      ensures configs == if ok then old(configs) + [ConfigOf(call).value] else old(configs)
    {
      var config := ConfigOf(call);
      ok := config.Some?;
      if ok {
        ConfigsAreSound(call);
        configs := configs + [config.value];
      }
    }

    method Data() returns (bytes: Option<seq<Byte>>)
      requires Valid()
      ensures bytes == BuildFrom(configs, 0)
    {
      var list := configs;
      assert AllSound(list);
      BuildNone();
      hide *;
      var cursor: nat := 0;
      var buffer := new Byte[BufferLength(list)](i => 0);
      ghost var done: seq<Byte> := [];
      assert list[0..] == list;
      AfterEnds(BuildFrom(list, 0), done);
      for i := 0 to |list|
        invariant cursor + BufferLength(list[i..]) == buffer.Length
        invariant cursor <= buffer.Length && done == buffer[..][..cursor]
        invariant After(done, BuildFrom(list[i..], cursor)) == BuildFrom(list, 0)
      {
        var config := list[i];
        BuildGoesOn(list, i, cursor, done, BuildFrom(list, 0));
        SoundAt(list, i);
        var boundary := cursor + LengthWithHeader(config);
        var encoded := EncodeWithHeader(config, boundary);
        if encoded.None? {
          return None;
        }
        AppendBytes(buffer, encoded.value, cursor, done);
        done := done + encoded.value;
        cursor := boundary;
      }
      assert list[|list|..] == [];
      AfterEnds(None, done);
      assert done == buffer[..];
      return Some(buffer[..]);
    }

    method Get() returns (actions: Option<Actions>)
      requires Valid()
      ensures BuildFrom(configs, 0).None? ==> actions == None
      ensures BuildFrom(configs, 0).Some? ==> actions == From(BuildFrom(configs, 0).value, |configs|)
    {
      var bytes := Data();
      if bytes.None? {
        return None;
      }
      actions := ActionsFrom(bytes.value, |configs|);
    }
  }

  // ----- the round trip -----

  /** The payload that a config describes. */
  function PayloadOf(c: Config): Payload
  {
    match c.body
    case Marker => Payload(c.permission, map[])
    case ScopedId(id) => Payload(c.permission, map[IdName(c.permission) := Num(id)])
    case Data(d) => Payload(c.permission, d)
  }

  lemma {:induction false} MarkerRoundTrip(p: Permission)
    requires PayloadLayout(p).End? && !p.NoPermission? && !IsScoped(p)
    ensures DecodePayload(p, []) == Some(Payload(p, map[]))
  {
  }

  lemma {:induction false} ScopedU32RoundTrip(id: nat)
    requires id < U32
    ensures DecodeScopedU32(ToLE(id, 4) + Zeros(4)) == Some(id)
  {
    PowersOf256();
    FromToLE(id, 4);
    hide ToLE, FromLE, Pow256;
    var bytes := ToLE(id, 4) + Zeros(4);
    assert bytes[..4] == ToLE(id, 4);
    assert forall i :: 4 <= i < 8 ==> bytes[i] == 0;
  }

  lemma {:induction false} ScopedRoundTrip(p: Permission, id: nat)
    requires IsScoped(p) && id < U32
    ensures DecodePayload(p, ToLE(id, 4) + Zeros(4)) == Some(Payload(p, map[IdName(p) := Num(id)]))
  {
    hide ToLE, DecodeScopedU32, DecodeStruct, PayloadLayout;
    ScopedU32RoundTrip(id);
  }

  lemma {:induction false} DataPermissions(p: Permission)
    requires PayloadLayout(p).Then?
    ensures !IsScoped(p) && !p.NoPermission? && !p.SubAccountV2Create?
    ensures p.ManageAuthorizationLocks? ==> Size(PayloadLayout(p)) == 8
  {
  }

  lemma {:induction false} DataRoundTrip(p: Permission, d: Struct)
    requires PayloadLayout(p).Then? && d.Keys == Names(PayloadLayout(p)) && ExactSizes(PayloadLayout(p), d)
    requires EncodeStruct(PayloadLayout(p), d).Some?
    ensures DecodePayload(p, EncodeStruct(PayloadLayout(p), d).value) == Some(Payload(p, d))
  {
    var bytes := EncodeStruct(PayloadLayout(p), d).value;
    DataPermissions(p);
    StructRoundTrip(PayloadLayout(p), d, []);
    hide PayloadLayout, Size, Names, ExactSizes, EncodeStruct, DecodeStruct, IsScoped, DecodeScopedU32;
    assert bytes + [] == bytes;
    assert Pick(d, Names(PayloadLayout(p))) == d;
  }

  lemma {:induction false} PayloadRoundTrip(c: Config)
    requires Sound(c) && EncodeBody(c).Some?
    ensures DecodePayload(c.permission, EncodeBody(c).value) == Some(PayloadOf(c))
  {
    hide PayloadLayout, Size, Names, ExactSizes, EncodeStruct, DecodePayload, IsScoped, ToLE;
    match c.body
    case Marker => MarkerRoundTrip(c.permission);
    case ScopedId(id) => ScopedRoundTrip(c.permission, id);
    case Data(d) => DataRoundTrip(c.permission, d);
  }

  /** What the parser should see: the configs in order, each ending where the next one begins. */
  function Expected(configs: seq<Config>, cursor: nat): (actions: seq<Action>)
    ensures |actions| == |configs|
  {
    if configs == [] then []
    else
      var boundary := cursor + LengthWithHeader(configs[0]);
      [Action(Header(configs[0].permission, configs[0].length, boundary), PayloadOf(configs[0]))] +
      Expected(configs[1..], boundary)
  }

  lemma {:induction false} RecordParts(c: Config, boundary: nat)
    requires Sound(c) && RecordOf(c, boundary).Some?
    ensures EncodeBody(c).Some? && EncodeHeader(Header(c.permission, c.length, boundary)).Some?
    ensures RecordOf(c, boundary).value ==
            EncodeHeader(Header(c.permission, c.length, boundary)).value + EncodeBody(c).value
    ensures |EncodeBody(c).value| == c.length && LengthWithHeader(c) == HEADER_LENGTH + c.length
  {
    hide EncodeBody, Sound, EncodeHeader;
    BodyHasStatedLength(c);
  }

  lemma {:induction false} ParseParts(pre: seq<Byte>, header: seq<Byte>, data: seq<Byte>, more: seq<Byte>,
                                      h: Header, p: Payload)
    requires |header| == HEADER_LENGTH && h.boundary == |pre| + HEADER_LENGTH + |data|
    requires DecodeHeader(header) == Some(h) && DecodePayload(h.permission, data) == Some(p)
    ensures ParseAt(pre + (header + data) + more, |pre|) == Some(Action(h, p))
  {
    hide DecodeHeader, DecodePayload;
    var buffer := pre + (header + data) + more;
    assert Slice(buffer, |pre|, |pre| + HEADER_LENGTH) == header;
    assert Slice(buffer, |pre| + HEADER_LENGTH, h.boundary) == data;
  }

  lemma {:induction false} ParseRecord(pre: seq<Byte>, c: Config, more: seq<Byte>)
    requires Sound(c)
    requires RecordOf(c, |pre| + LengthWithHeader(c)).Some?
    ensures var boundary := |pre| + LengthWithHeader(c);
            var record := RecordOf(c, boundary).value;
            && |record| == LengthWithHeader(c)
            && ParseAt(pre + record + more, |pre|) ==
               Some(Action(Header(c.permission, c.length, boundary), PayloadOf(c)))
  {
    hide *;
    var boundary := |pre| + LengthWithHeader(c);
    RecordParts(c, boundary);
    var h := Header(c.permission, c.length, boundary);
    var header, data := EncodeHeader(h).value, EncodeBody(c).value;
    PayloadRoundTrip(c);
    HeaderRoundTrip(h, []);
    assert header + [] == header;
    ParseParts(pre, header, data, more, h, PayloadOf(c));
  }

  lemma {:induction false} BuildFirst(configs: seq<Config>, cursor: nat)
    requires configs != []
    ensures BufferLength(configs) == LengthWithHeader(configs[0]) + BufferLength(configs[1..])
    ensures var boundary := cursor + LengthWithHeader(configs[0]);
            var first, rest := RecordOf(configs[0], boundary), BuildFrom(configs[1..], boundary);
            BuildFrom(configs, cursor) ==
            if first.None? || rest.None? then None else Some(first.value + rest.value)
  {
    hide RecordOf, LengthWithHeader;
  }

  lemma {:induction false} ExpectedFirst(configs: seq<Config>, cursor: nat)
    requires configs != []
    ensures var boundary := cursor + LengthWithHeader(configs[0]);
            Expected(configs, cursor) ==
            [Action(Header(configs[0].permission, configs[0].length, boundary), PayloadOf(configs[0]))] +
            Expected(configs[1..], boundary)
  {
    hide PayloadOf, LengthWithHeader;
  }

  lemma {:induction false} PrependBoth(first: Action, later: seq<Action>)
    ensures Prepend([] + [first], Some(later)) == Some([first] + later)
  {
    assert [] + [first] == [first];
  }

  lemma {:induction false} ParseNone(buffer: seq<Byte>, cursor: nat)
    ensures Parse(buffer, cursor, 0) == Some(Expected([], cursor))
  {
  }

  lemma {:induction false} ParseBuilt(pre: seq<Byte>, configs: seq<Config>, more: seq<Byte>)
    requires AllSound(configs) && BuildFrom(configs, |pre|).Some?
    ensures Parse(pre + BuildFrom(configs, |pre|).value + more, |pre|, |configs|) == Some(Expected(configs, |pre|))
    decreases |configs|
  {
    hide *;
    if configs == [] {
      ParseNone(pre + BuildFrom(configs, |pre|).value + more, |pre|);
    } else {
      var c, tail := configs[0], configs[1..];
      SoundParts(configs);
      var boundary := |pre| + LengthWithHeader(c);
      BuildFirst(configs, |pre|);
      ExpectedFirst(configs, |pre|);
      var record, rest := RecordOf(c, boundary).value, BuildFrom(tail, boundary).value;
      ParseRecord(pre, c, rest + more);
      ParseBuilt(pre + record, tail, more);
      assert pre + (record + rest) + more == pre + record + (rest + more) == pre + record + rest + more;
      var buffer, later := pre + (record + rest) + more, Expected(tail, boundary);
      var first := Action(Header(c.permission, c.length, boundary), PayloadOf(c));
      PrependEnds(Parse(buffer, |pre|, |configs|), []);
      ParseNext(buffer, |pre|, |configs|, []);
      PrependBoth(first, later);
    }
  }

  /** Parsing what was built gives the same number of actions, with the same payloads in call order. */
  lemma {:induction false} BuiltActionsParse(configs: seq<Config>)
    requires AllSound(configs) && BuildFrom(configs, 0).Some?
    ensures From(BuildFrom(configs, 0).value, |configs|) ==
            Some(Actions(BuildFrom(configs, 0).value, Expected(configs, 0)))
  {
    hide Sound, BuildFrom, Parse, Expected;
    var bytes := BuildFrom(configs, 0).value;
    ParseBuilt([], configs, []);
    assert [] + bytes + [] == bytes;
  }

  /** The i-th action carries the permission and the payload of the i-th config. */
  lemma {:induction false} ExpectedAt(configs: seq<Config>, cursor: nat, i: nat)
    requires i < |configs|
    ensures var a := Expected(configs, cursor)[i];
            && a.payload == PayloadOf(configs[i])
            && a.header.permission == configs[i].permission && a.header.length == configs[i].length
    decreases |configs|
  {
    hide PayloadOf, LengthWithHeader;
    if i > 0 {
      ExpectedAt(configs[1..], cursor + LengthWithHeader(configs[0]), i - 1);
    }
  }

  ghost predicate AllEncodable(configs: seq<Config>)
  {
    forall i :: 0 <= i < |configs| ==> EncodeBody(configs[i]).Some?
  }

  lemma {:induction false} AllEncodableNone()
    ensures AllEncodable([])
  {
  }

  lemma {:induction false} AllEncodableFirst(configs: seq<Config>)
    requires configs != []
    ensures AllEncodable(configs) <==> EncodeBody(configs[0]).Some? && AllEncodable(configs[1..])
  {
    hide EncodeBody;
    assert forall i :: 0 <= i < |configs| - 1 ==> configs[1..][i] == configs[i + 1];
    if AllEncodable(configs[1..]) && EncodeBody(configs[0]).Some? {
      forall i | 0 <= i < |configs| ensures EncodeBody(configs[i]).Some? {
        assert i > 0 ==> configs[i] == configs[1..][i - 1];
      }
    }
  }

  lemma {:induction false} RecordSucceeds(c: Config, boundary: nat)
    requires Sound(c)
    ensures RecordOf(c, boundary).Some? <==> EncodeBody(c).Some? && boundary < U32
    ensures RecordOf(c, boundary).Some? ==> |RecordOf(c, boundary).value| == LengthWithHeader(c)
  {
    assert c.length < U16;
    hide EncodeBody, Sound;
    if EncodeBody(c).Some? {
      BodyHasStatedLength(c);
    }
  }

  /** Building succeeds exactly when every payload is in range and the total size fits 32 bits. */
  lemma {:induction false} BuildSucceeds(configs: seq<Config>, cursor: nat)
    requires AllSound(configs)
    ensures BuildFrom(configs, cursor).Some? <==>
            AllEncodable(configs) && (configs == [] || cursor + BufferLength(configs) < U32)
    ensures BuildFrom(configs, cursor).Some? ==> |BuildFrom(configs, cursor).value| == BufferLength(configs)
    decreases |configs|
  {
    hide *;
    BuildNone();
    if configs == [] {
      AllEncodableNone();
    } else {
      var c, tail := configs[0], configs[1..];
      SoundParts(configs);
      BuildFirst(configs, cursor);
      BuildSucceeds(tail, cursor + LengthWithHeader(c));
      RecordSucceeds(c, cursor + LengthWithHeader(c));
      AllEncodableFirst(configs);
    }
  }

  /** Boundaries strictly increase, and the last one is the length of the buffer. */
  lemma {:induction false} BoundariesIncrease(configs: seq<Config>, cursor: nat)
    ensures forall i :: 0 <= i < |configs| ==>
              cursor < Expected(configs, cursor)[i].header.boundary <= cursor + BufferLength(configs)
    ensures forall i, j :: 0 <= i < j < |configs| ==>
              Expected(configs, cursor)[i].header.boundary < Expected(configs, cursor)[j].header.boundary
    ensures configs != [] ==>
              Expected(configs, cursor)[|configs| - 1].header.boundary == cursor + BufferLength(configs)
    decreases |configs|
  {
    if configs != [] {
      BoundariesIncrease(configs[1..], cursor + LengthWithHeader(configs[0]));
    }
  }
}
