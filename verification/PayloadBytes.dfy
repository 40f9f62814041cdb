/** The payload bytes: where the parser finds each field of each kind of action. */
module PayloadBytes {
  import opened Bytes
  import opened StructCodecs
  import opened ActionCodec

  function WordAt(data: seq<Byte>, at: nat): Value
    requires at + 8 <= |data|
  {
    Num(FromLE(data[at..at + 8]))
  }

  function KeyAt(data: seq<Byte>, at: nat): Value
    requires at + 32 <= |data|
  {
    Raw(data[at..at + 32])
  }

  /** The fewest bytes that a payload can have; the kinds that carry an id must have exactly eight. */
  function Least(p: Permission): nat
  {
    match p
    case SolLimit => 8
    case SolRecurringLimit => 32
    case Program => 32
    case ProgramScope => 144
    case TokenLimit => 40
    case TokenRecurringLimit => 64
    case SubAccount => 72
    case StakeLimit => 8
    case StakeRecurringLimit => 32
    case ProgramCurated => 32
    case SolDestinationLimit => 40
    case SolRecurringDestinationLimit => 64
    case TokenDestinationLimit => 72
    case TokenRecurringDestinationLimit => 96
    case ManageAuthorizationLocks => 8
    case ReplaceAuthority => 8
    case SubAccountV2All => 8
    case SubAccountV2Sign => 8
    case SubAccountV2Withdraw => 8
    case SubAccountV2Toggle => 8
    case _ => 0
  }

  predicate CarriesId(p: Permission)
  {
    p in {ReplaceAuthority, SubAccountV2All, SubAccountV2Sign, SubAccountV2Withdraw, SubAccountV2Toggle}
  }

  /** The payloads that are not rejected. */
  predicate Accepted(p: Permission, data: seq<Byte>)
  {
    && p != NoPermission
    && |data| >= Least(p)
    && (CarriesId(p) || p == SubAccountV2Create || p == ManageAuthorizationLocks ==> |data| == Least(p))
    && (CarriesId(p) ==> data[4] == data[5] == data[6] == data[7] == 0)
    && (p == ProgramScope ==> FromLE(data[112..120]) < 3 && FromLE(data[120..128]) < 4)
  }

  /** Four words of a recurring limit in the common order. */
  function RecurringFields(data: seq<Byte>, at: nat): Struct
    requires at + 32 <= |data|
  {
    map[RecurringAmount := WordAt(data, at), Window := WordAt(data, at + 8),
        LastReset := WordAt(data, at + 16), CurrentAmount := WordAt(data, at + 24)]
  }

  /** Every field, read at its own offset. */
  function Fields(p: Permission, data: seq<Byte>): Struct
    requires Accepted(p, data)
  {
    match p
    case SolLimit => map[Amount := WordAt(data, 0)]
    case StakeLimit => map[Amount := WordAt(data, 0)]
    case SolRecurringLimit => RecurringFields(data, 0)
    case StakeRecurringLimit => RecurringFields(data, 0)
    case Program => map[ProgramId := KeyAt(data, 0)]
    case ProgramCurated => map[Reserved := KeyAt(data, 0)]
    case ProgramScope =>
      map[BalanceFieldEnd := WordAt(data, 136), BalanceFieldStart := WordAt(data, 128),
          NumericType := WordAt(data, 120), ScopeType := WordAt(data, 112),
          TargetAccount := KeyAt(data, 80), ProgramId := KeyAt(data, 48),
          LastReset := WordAt(data, 40), Window := WordAt(data, 32),
          LimitAmount := Num(FromLE(data[16..32])), CurrentAmount := Num(FromLE(data[0..16]))]
    case TokenLimit => map[Mint := KeyAt(data, 0), Amount := WordAt(data, 32)]
    case TokenRecurringLimit =>
      map[Mint := KeyAt(data, 0), Window := WordAt(data, 32), RecurringAmount := WordAt(data, 40),
          CurrentAmount := WordAt(data, 48), LastReset := WordAt(data, 56)]
    case SubAccount =>
      map[SubAccountKey := KeyAt(data, 0), Bump := Num(data[32]), Enabled := Bool(data[33] == 1),
          Padding := Raw(data[34..36]), RoleId := Num(FromLE(data[36..40])), SwigId := KeyAt(data, 40)]
    case SolDestinationLimit => map[Destination := KeyAt(data, 0), Amount := WordAt(data, 32)]
    case SolRecurringDestinationLimit => RecurringFields(data, 32)[Destination := KeyAt(data, 0)]
    case TokenDestinationLimit =>
      map[Mint := KeyAt(data, 0), Destination := KeyAt(data, 32), Amount := WordAt(data, 64)]
    case TokenRecurringDestinationLimit =>
      RecurringFields(data, 64)[Mint := KeyAt(data, 0)][Destination := KeyAt(data, 32)]
    case ManageAuthorizationLocks => map[MaxDurationSlots := WordAt(data, 0)]
    case ReplaceAuthority => map[RoleId := Num(FromLE(data[0..4]))]
    case SubAccountV2All => map[SubAccountId := Num(FromLE(data[0..4]))]
    case SubAccountV2Sign => map[SubAccountId := Num(FromLE(data[0..4]))]
    case SubAccountV2Withdraw => map[SubAccountId := Num(FromLE(data[0..4]))]
    case SubAccountV2Toggle => map[SubAccountId := Num(FromLE(data[0..4]))]
    case _ => map[]
  }

  // ----- one field after another -----

  function With(s: Option<Struct>, name: Name, v: Option<Value>): Option<Struct>
  {
    if s.None? || v.None? then None else Some(s.value[name := v.value])
  }

  lemma {:induction false} NeedsBytes(layout: Layout, bs: seq<Byte>)
    requires DecodeStruct(layout, bs).Some?
    ensures |bs| >= Size(layout)
  {
    if layout.Then? {
      NeedsBytes(layout.rest, bs[CodecSize(layout.codec)..]);
    }
  }

  lemma {:induction false} FieldAt(name: Name, codec: Codec, rest: Layout, data: seq<Byte>, at: nat)
    requires at + CodecSize(codec) <= |data|
    ensures DecodeStruct(Then(name, codec, rest), data[at..]) ==
            With(DecodeStruct(rest, data[at + CodecSize(codec)..]), name,
                 DecodeValue(codec, data[at..at + CodecSize(codec)]))
  {
    var n := CodecSize(codec);
    assert data[at..][..n] == data[at..at + n] && data[at..][n..] == data[at + n..];
  }

  lemma {:induction false} WordFirst(name: Name, rest: Layout, data: seq<Byte>, at: nat)
    requires at + 8 <= |data|
    ensures DecodeStruct(Then(name, UInt(8), rest), data[at..]) ==
            With(DecodeStruct(rest, data[at + 8..]), name, Some(WordAt(data, at)))
  {
    hide DecodeStruct;
    FieldAt(name, UInt(8), rest, data, at);
  }

  lemma {:induction false} KeyFirst(name: Name, rest: Layout, data: seq<Byte>, at: nat)
    requires at + 32 <= |data|
    ensures DecodeStruct(Keyed(name, rest), data[at..]) ==
            With(DecodeStruct(rest, data[at + 32..]), name, Some(KeyAt(data, at)))
  {
    hide DecodeStruct;
    FieldAt(name, FixedBytes(32), rest, data, at);
  }

  /** The order in which the fields of a map are given does not matter. */
  lemma {:induction false} FourFields(r: Value, w: Value, l: Value, c: Value)
    ensures map[CurrentAmount := c][LastReset := l][Window := w][RecurringAmount := r] ==
            map[RecurringAmount := r, Window := w, LastReset := l, CurrentAmount := c]
    ensures map[LastReset := l][CurrentAmount := c][RecurringAmount := r][Window := w] ==
            map[Window := w, RecurringAmount := r, CurrentAmount := c, LastReset := l]
  {
  }

  lemma {:induction false} NoFields(bs: seq<Byte>)
    ensures DecodeStruct(End, bs) == Some(map[])
  {
  }

  lemma {:induction false} AmountAt(data: seq<Byte>, at: nat)
    requires at + 8 <= |data|
    ensures DecodeStruct(AMOUNT, data[at..]) == Some(map[Amount := WordAt(data, at)])
  {
    hide DecodeStruct, WordAt;
    WordFirst(Amount, End, data, at);
    NoFields(data[at + 8..]);
  }

  lemma {:induction false} RecurringAt(data: seq<Byte>, at: nat)
    requires at + 32 <= |data|
    ensures DecodeStruct(RECURRING, data[at..]) == Some(RecurringFields(data, at))
  {
    hide DecodeStruct, WordAt;
    var l := RECURRING;
    WordFirst(RecurringAmount, l.rest, data, at);
    WordFirst(Window, l.rest.rest, data, at + 8);
    WordFirst(LastReset, l.rest.rest.rest, data, at + 16);
    WordFirst(CurrentAmount, End, data, at + 24);
    NoFields(data[at + 32..]);
    FourFields(WordAt(data, at), WordAt(data, at + 8), WordAt(data, at + 16), WordAt(data, at + 24));
  }

  lemma {:induction false} TokenRecurringAt(data: seq<Byte>)
    requires |data| >= 64
    ensures DecodeStruct(TOKEN_RECURRING, data[32..]) ==
            Some(map[Window := WordAt(data, 32), RecurringAmount := WordAt(data, 40),
                     CurrentAmount := WordAt(data, 48), LastReset := WordAt(data, 56)])
  {
    hide DecodeStruct, WordAt;
    var l := TOKEN_RECURRING;
    WordFirst(Window, l.rest, data, 32);
    WordFirst(RecurringAmount, l.rest.rest, data, 40);
    WordFirst(CurrentAmount, l.rest.rest.rest, data, 48);
    WordFirst(LastReset, End, data, 56);
    NoFields(data[64..]);
    FourFields(WordAt(data, 40), WordAt(data, 32), WordAt(data, 56), WordAt(data, 48));
  }

  lemma {:induction false} FromStart(data: seq<Byte>)
    ensures data[0..] == data
  {
  }

  lemma {:induction false} FewBytes(p: Permission, data: seq<Byte>)
    requires !p.NoPermission? && !CarriesId(p) && |data| < Least(p)
    ensures DecodeStruct(PayloadLayout(p), data) == None
  {
    SizesOfLayouts(p);
    hide DecodeStruct, Size, PayloadLayout, Least;
    if DecodeStruct(PayloadLayout(p), data).Some? {
      NeedsBytes(PayloadLayout(p), data);
    }
  }

  lemma {:induction false} SizesOfLayouts(p: Permission)
    requires !CarriesId(p)
    ensures Size(PayloadLayout(p)) == Least(p)
  {
    SmallSizes();
    ScopeSize();
    SubAccountSize();
    hide RECURRING, TOKEN_RECURRING, PROGRAM_SCOPE, SUB_ACCOUNT, AMOUNT;
  }

  lemma {:induction false} SmallSizes()
    ensures Size(AMOUNT) == 8 && Size(RECURRING) == 32 && Size(TOKEN_RECURRING) == 32
  {
    assert Size(RECURRING.rest.rest) == 16 && Size(TOKEN_RECURRING.rest.rest) == 16;
  }

  lemma {:induction false} ScopeSize()
    ensures Size(PROGRAM_SCOPE) == 144
  {
    var half := PROGRAM_SCOPE.rest.rest.rest.rest.rest;
    assert Size(half.rest.rest.rest) == 16;
    assert Size(half) == 64;
    assert Size(PROGRAM_SCOPE.rest.rest) == 16 + 32 + 64;
  }

  lemma {:induction false} SubAccountSize()
    ensures Size(SUB_ACCOUNT) == 72
  {
    assert Size(SUB_ACCOUNT.rest.rest.rest) == 38;
  }

  // ----- kind by kind -----

  lemma {:induction false} PlainKinds(p: Permission, data: seq<Byte>)
    requires Accepted(p, data)
    requires p.SolLimit? || p.StakeLimit? || p.SolRecurringLimit? || p.StakeRecurringLimit?
    ensures DecodeStruct(PayloadLayout(p), data) == Some(Fields(p, data))
  {
    hide DecodeStruct, WordAt;
    FromStart(data);
    if p.SolLimit? || p.StakeLimit? {
      AmountAt(data, 0);
    } else {
      RecurringAt(data, 0);
    }
  }

  lemma {:induction false} LoneFields(p: Permission, data: seq<Byte>)
    requires Accepted(p, data) && (p.Program? || p.ProgramCurated? || p.ManageAuthorizationLocks?)
    ensures DecodeStruct(PayloadLayout(p), data) == Some(Fields(p, data))
  {
    hide DecodeStruct, WordAt, KeyAt;
    FromStart(data);
    if p.ManageAuthorizationLocks? {
      WordFirst(MaxDurationSlots, End, data, 0);
      NoFields(data[8..]);
    } else {
      KeyFirst(if p.Program? then ProgramId else Reserved, End, data, 0);
      NoFields(data[32..]);
    }
  }

  lemma {:induction false} KeyLast(name: Name, key: Value, amount: Value)
    requires name.Mint? || name.Destination?
    ensures map[Amount := amount][name := key] == map[name := key, Amount := amount]
  {
  }

  lemma {:induction false} TwoKeys(s: Struct, mint: Value, destination: Value)
    requires Mint !in s && Destination !in s
    ensures s[Destination := destination][Mint := mint] == s[Mint := mint][Destination := destination]
    ensures forall amount :: s == map[Amount := amount] ==>
              s[Mint := mint][Destination := destination] ==
              map[Mint := mint, Destination := destination, Amount := amount]
  {
  }

  lemma {:induction false} KeyedAmounts(p: Permission, data: seq<Byte>)
    requires Accepted(p, data) && (p.TokenLimit? || p.SolDestinationLimit? || p.TokenDestinationLimit?)
    ensures DecodeStruct(PayloadLayout(p), data) == Some(Fields(p, data))
  {
    hide DecodeStruct, WordAt, KeyAt, AMOUNT;
    FromStart(data);
    if p.TokenDestinationLimit? {
      KeyFirst(Mint, Keyed(Destination, AMOUNT), data, 0);
      KeyFirst(Destination, AMOUNT, data, 32);
      AmountAt(data, 64);
      TwoKeys(map[Amount := WordAt(data, 64)], KeyAt(data, 0), KeyAt(data, 32));
    } else {
      KeyFirst(if p.TokenLimit? then Mint else Destination, AMOUNT, data, 0);
      AmountAt(data, 32);
    }
    KeyLast(if p.TokenLimit? then Mint else Destination, KeyAt(data, 0), WordAt(data, 32));
  }

  lemma {:induction false} FiveFields(m: Value, w: Value, r: Value, c: Value, l: Value)
    ensures map[Window := w, RecurringAmount := r, CurrentAmount := c, LastReset := l][Mint := m] ==
            map[Mint := m, Window := w, RecurringAmount := r, CurrentAmount := c, LastReset := l]
  {
  }

  lemma {:induction false} KeyedRecurring(p: Permission, data: seq<Byte>)
    requires Accepted(p, data)
    requires p.TokenRecurringLimit? || p.SolRecurringDestinationLimit? || p.TokenRecurringDestinationLimit?
    ensures DecodeStruct(PayloadLayout(p), data) == Some(Fields(p, data))
  {
    hide DecodeStruct, WordAt, KeyAt, RECURRING, TOKEN_RECURRING;
    FromStart(data);
    if p.TokenRecurringLimit? {
      KeyFirst(Mint, TOKEN_RECURRING, data, 0);
      TokenRecurringAt(data);
      FiveFields(KeyAt(data, 0), WordAt(data, 32), WordAt(data, 40), WordAt(data, 48), WordAt(data, 56));
    } else if p.SolRecurringDestinationLimit? {
      KeyFirst(Destination, RECURRING, data, 0);
      RecurringAt(data, 32);
    } else {
      KeyFirst(Mint, Keyed(Destination, RECURRING), data, 0);
      KeyFirst(Destination, RECURRING, data, 32);
      RecurringAt(data, 64);
      TwoKeys(RecurringFields(data, 64), KeyAt(data, 0), KeyAt(data, 32));
    }
  }

  lemma {:induction false} SixFields(k: Value, b: Value, e: Value, p: Value, r: Value, i: Value)
    ensures map[SwigId := i][RoleId := r][Padding := p][Enabled := e][Bump := b][SubAccountKey := k] ==
            map[SubAccountKey := k, Bump := b, Enabled := e, Padding := p, RoleId := r, SwigId := i]
  {
  }

  lemma {:induction false} SubAccountFields(data: seq<Byte>)
    requires |data| >= 72
    ensures DecodeStruct(SUB_ACCOUNT, data) == Some(Fields(SubAccount, data))
  {
    hide DecodeStruct, KeyAt;
    var l := SUB_ACCOUNT;
    FromStart(data);
    KeyFirst(SubAccountKey, l.rest, data, 0);
    FieldAt(Bump, UInt(1), l.rest.rest, data, 32);
    FieldAt(Enabled, Flag, l.rest.rest.rest, data, 33);
    var m := l.rest.rest.rest;
    FieldAt(Padding, FixedBytes(2), m.rest, data, 34);
    FieldAt(RoleId, UInt(4), m.rest.rest, data, 36);
    KeyFirst(SwigId, End, data, 40);
    NoFields(data[72..]);
    OneByte(data[32..33]);
    hide FromLE, SUB_ACCOUNT;
    SixFields(KeyAt(data, 0), Num(data[32]), Bool(data[33] == 1), Raw(data[34..36]), Num(FromLE(data[36..40])),
              KeyAt(data, 40));
  }

  lemma {:induction false} OneByte(bs: seq<Byte>)
    requires |bs| == 1
    ensures FromLE(bs) == bs[0]
  {
    assert FromLE(bs[1..]) == 0;
  }

  lemma {:induction false} ScopeEnds(data: seq<Byte>)
    requires |data| >= 144
    ensures DecodeStruct(PROGRAM_SCOPE.rest.rest.rest.rest.rest.rest.rest.rest, data[128..]) ==
            Some(map[BalanceFieldEnd := WordAt(data, 136), BalanceFieldStart := WordAt(data, 128)])
  {
    hide DecodeStruct, WordAt;
    WordFirst(BalanceFieldStart, Then(BalanceFieldEnd, UInt(8), End), data, 128);
    WordFirst(BalanceFieldEnd, End, data, 136);
    NoFields(data[144..]);
  }

  lemma {:induction false} EnumFirst(name: Name, count: nat, rest: Layout, data: seq<Byte>, at: nat)
    requires at + 8 <= |data|
    ensures DecodeStruct(Then(name, EnumOf(8, count), rest), data[at..]) ==
            if FromLE(data[at..at + 8]) < count
            then With(DecodeStruct(rest, data[at + 8..]), name, Some(WordAt(data, at))) else None
  {
    hide DecodeStruct;
    FieldAt(name, EnumOf(8, count), rest, data, at);
  }

  lemma {:induction false} ScopeTypes(data: seq<Byte>)
    requires |data| >= 144
    ensures DecodeStruct(PROGRAM_SCOPE.rest.rest.rest.rest.rest.rest, data[112..]) ==
            if FromLE(data[112..120]) < 3 && FromLE(data[120..128]) < 4
            then Some(map[BalanceFieldEnd := WordAt(data, 136), BalanceFieldStart := WordAt(data, 128),
                          NumericType := WordAt(data, 120), ScopeType := WordAt(data, 112)])
            else None
  {
    hide DecodeStruct, WordAt, FromLE;
    var l := PROGRAM_SCOPE.rest.rest.rest.rest.rest.rest;
    ScopeEnds(data);
    EnumFirst(ScopeType, 3, l.rest, data, 112);
    EnumFirst(NumericType, 4, l.rest.rest, data, 120);
  }

  lemma {:induction false} ScopeKeys(data: seq<Byte>)
    requires |data| >= 144
    ensures DecodeStruct(PROGRAM_SCOPE.rest.rest.rest.rest, data[48..]) ==
            With(With(DecodeStruct(PROGRAM_SCOPE.rest.rest.rest.rest.rest.rest, data[112..]),
                      TargetAccount, Some(KeyAt(data, 80))), ProgramId, Some(KeyAt(data, 48)))
  {
    hide DecodeStruct, KeyAt;
    var m := PROGRAM_SCOPE.rest.rest.rest.rest;
    KeyFirst(ProgramId, m.rest, data, 48);
    KeyFirst(TargetAccount, m.rest.rest, data, 80);
  }

  lemma {:induction false} ScopeAmounts(data: seq<Byte>)
    requires |data| >= 144
    ensures DecodeStruct(PROGRAM_SCOPE, data) ==
            With(With(DecodeStruct(PROGRAM_SCOPE.rest.rest, data[32..]),
                      LimitAmount, Some(Num(FromLE(data[16..32])))), CurrentAmount, Some(Num(FromLE(data[0..16]))))
  {
    hide DecodeStruct, FromLE;
    FromStart(data);
    FieldAt(CurrentAmount, UInt(16), PROGRAM_SCOPE.rest, data, 0);
    FieldAt(LimitAmount, UInt(16), PROGRAM_SCOPE.rest.rest, data, 16);
  }

  lemma {:induction false} ScopeWords(data: seq<Byte>)
    requires |data| >= 144
    ensures DecodeStruct(PROGRAM_SCOPE.rest.rest, data[32..]) ==
            With(With(DecodeStruct(PROGRAM_SCOPE.rest.rest.rest.rest, data[48..]),
                      LastReset, Some(WordAt(data, 40))), Window, Some(WordAt(data, 32)))
  {
    hide DecodeStruct, WordAt;
    var m := PROGRAM_SCOPE.rest.rest;
    WordFirst(Window, m.rest, data, 32);
    WordFirst(LastReset, m.rest.rest, data, 40);
  }

  lemma {:induction false} ScopeAccepted(data: seq<Byte>)
    requires |data| >= 144
    ensures Accepted(ProgramScope, data) <==> FromLE(data[112..120]) < 3 && FromLE(data[120..128]) < 4
  {
    hide FromLE;
  }

  lemma {:induction false} ScopeFields(data: seq<Byte>)
    requires |data| >= 144
    ensures DecodeStruct(PROGRAM_SCOPE, data) ==
            if Accepted(ProgramScope, data) then Some(Fields(ProgramScope, data)) else None
  {
    ScopeAmounts(data);
    ScopeWords(data);
    ScopeKeys(data);
    ScopeTypes(data);
    hide DecodeStruct, WordAt, KeyAt, FromLE, PROGRAM_SCOPE, Least;
    assert Accepted(ProgramScope, data) <==> FromLE(data[112..120]) < 3 && FromLE(data[120..128]) < 4 by {
      ScopeAccepted(data);
    }
    hide Accepted;
  }

  lemma {:induction false} IdBytes(data: seq<Byte>)
    ensures DecodeScopedU32(data) ==
            if |data| == 8 && data[4] == data[5] == data[6] == data[7] == 0 then Some(FromLE(data[0..4])) else None
  {
    hide FromLE;
    if |data| == 8 {
      assert (exists i :: 4 <= i < |data| && data[i] != 0) <==>
             data[4] != 0 || data[5] != 0 || data[6] != 0 || data[7] != 0;
      assert data[0..4] == data[..4];
    }
  }

  lemma {:induction false} IdPayloads(p: Permission, data: seq<Byte>)
    requires CarriesId(p)
    ensures DecodePayload(p, data) == if Accepted(p, data) then Some(Payload(p, Fields(p, data))) else None
  {
    IdBytes(data);
    hide FromLE, DecodeScopedU32;
  }

  lemma {:induction false} Markers(p: Permission, data: seq<Byte>)
    requires PayloadLayout(p).End? && !CarriesId(p)
    ensures DecodePayload(p, data) == if Accepted(p, data) then Some(Payload(p, Fields(p, data))) else None
  {
  }

  lemma {:induction false} ByLayout(p: Permission, data: seq<Byte>)
    requires !PayloadLayout(p).End?
    ensures DecodePayload(p, data) ==
            var s := DecodeStruct(PayloadLayout(p), data);
            if s.None? || (p.ManageAuthorizationLocks? && |data| != 8) then None else Some(Payload(p, s.value))
  {
    hide DecodeStruct;
  }

  lemma {:induction false} LayoutKinds(p: Permission, data: seq<Byte>)
    requires !PayloadLayout(p).End? && |data| >= Least(p) && !p.ProgramScope? && Accepted(p, data)
    ensures DecodeStruct(PayloadLayout(p), data) == Some(Fields(p, data))
  {
    hide DecodeStruct, Fields, Accepted, Least;
    match p
    case SubAccount => SubAccountLayout(data);
    case SolLimit => PlainKinds(p, data);
    case StakeLimit => PlainKinds(p, data);
    case SolRecurringLimit => PlainKinds(p, data);
    case StakeRecurringLimit => PlainKinds(p, data);
    case Program => LoneFields(p, data);
    case ProgramCurated => LoneFields(p, data);
    case ManageAuthorizationLocks => LoneFields(p, data);
    case TokenLimit => KeyedAmounts(p, data);
    case SolDestinationLimit => KeyedAmounts(p, data);
    case TokenDestinationLimit => KeyedAmounts(p, data);
    case TokenRecurringLimit => KeyedRecurring(p, data);
    case SolRecurringDestinationLimit => KeyedRecurring(p, data);
    case TokenRecurringDestinationLimit => KeyedRecurring(p, data);
    case _ =>
  }

  lemma {:induction false} SubAccountLayout(data: seq<Byte>)
    requires Accepted(SubAccount, data)
    ensures DecodeStruct(PayloadLayout(SubAccount), data) == Some(Fields(SubAccount, data))
  {
    hide DecodeStruct;
    SubAccountFields(data);
  }

  lemma {:induction false} ScopeKind(data: seq<Byte>)
    requires |data| >= 144
    ensures DecodePayload(ProgramScope, data) ==
            if Accepted(ProgramScope, data) then Some(Payload(ProgramScope, Fields(ProgramScope, data))) else None
  {
    ByLayout(ProgramScope, data);
    ScopeFields(data);
    hide DecodePayload, DecodeStruct, Fields, Accepted;
  }

  /** When a payload of a kind with fields is accepted. */
  lemma {:induction false} AcceptedByLayout(p: Permission, data: seq<Byte>)
    requires !PayloadLayout(p).End?
    ensures !CarriesId(p)
    ensures Accepted(p, data) ==> |data| >= Least(p) && (p.ManageAuthorizationLocks? ==> |data| == 8)
    ensures !p.ProgramScope? ==>
              (Accepted(p, data) <==> |data| >= Least(p) && (p.ManageAuthorizationLocks? ==> |data| == 8))
  {
    hide FromLE;
  }

  lemma {:induction false} WithFields(p: Permission, data: seq<Byte>)
    requires !PayloadLayout(p).End?
    ensures DecodePayload(p, data) == if Accepted(p, data) then Some(Payload(p, Fields(p, data))) else None
  {
    ByLayout(p, data);
    AcceptedByLayout(p, data);
    assert !p.NoPermission? && Least(ProgramScope) == 144;
    hide DecodePayload, DecodeStruct, Fields, Accepted, Least, PayloadLayout;
    if |data| < Least(p) {
      FewBytes(p, data);
    } else if p.ProgramScope? {
      ScopeKind(data);
    } else if Accepted(p, data) {
      LayoutKinds(p, data);
    }
  }

  /** The parser accepts exactly these payloads, and finds every field at its offset. */
  lemma {:induction false} FieldsAtOffsets(p: Permission, data: seq<Byte>)
    ensures DecodePayload(p, data) == if Accepted(p, data) then Some(Payload(p, Fields(p, data))) else None
  {
    hide *;
    if CarriesId(p) {
      IdPayloads(p, data);
    } else if PayloadLayout(p).End? {
      Markers(p, data);
    } else {
      WithFields(p, data);
    }
  }
}
