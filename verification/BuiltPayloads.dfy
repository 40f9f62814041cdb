/** The bytes that each builder call writes, field by field in the order of the wire. */
module BuiltPayloads {
  import opened Bytes
  import opened StructCodecs
  import opened ActionCodec
  import opened ActionsBuilder
  import opened BuilderCalls

  /** Amount, window, last reset, current amount: a new limit is full and was never reset. */
  function FreshBytes(amount: nat, window: nat): seq<Byte>
  {
    ToLE(amount, 8) + (ToLE(window, 8) + (ToLE(0, 8) + ToLE(amount, 8)))
  }

  /** Current amount, limit, window, last reset, the two keys, scope type, numeric type, balance field. */
  function ScopeBytes(amount: nat, window: nat, numericType: nat, id: Key, target: Key): seq<Byte>
  {
    ToLE(amount, 16) + (ToLE(amount, 16) + (ToLE(window, 8) + (ToLE(0, 8) + (id + (target +
    (ToLE(0, 8) + (ToLE(numericType, 8) + (ToLE(0, 8) + ToLE(0, 8)))))))))
  }

  /** The payload of a call whose arguments fit. */
  function Written(call: Call): seq<Byte>
    requires ConfigOf(call).Some? && Fits(call)
  {
    match call
    case CallReplaceAuthority(id) => ToLE(id, 4) + [0, 0, 0, 0]
    case CallSubAccountV2All(id) => ToLE(id, 4) + [0, 0, 0, 0]
    case CallSubAccountV2Sign(id) => ToLE(id, 4) + [0, 0, 0, 0]
    case CallSubAccountV2Withdraw(id) => ToLE(id, 4) + [0, 0, 0, 0]
    case CallSubAccountV2Toggle(id) => ToLE(id, 4) + [0, 0, 0, 0]
    case CallManageAuthorizationLocks(max) => ToLE(max, 8)
    case CallProgramLimit(id) => id
    case CallProgramCurated => Zeros(32)
    case CallProgramScopeBasic(id, target) => ScopeBytes(0, 0, 0, id, target)
    case CallProgramScopeLimit(amount, numeric, id, target) => ScopeBytes(amount, 0, numeric, id, target)
    case CallProgramScopeRecurringLimit(amount, window, numeric, id, target) =>
      ScopeBytes(amount, window, numeric, id, target)
    case CallSubAccount => Zeros(72)
    case CallStakeLimit(amount) => ToLE(amount, 8)
    case CallStakeRecurringLimit(amount, window) => FreshBytes(amount, window)
    case CallSolLimit(amount) => ToLE(amount, 8)
    case CallSolRecurringLimit(amount, window) => FreshBytes(amount, window)
    case CallTokenLimit(mint, amount) => mint + ToLE(amount, 8)
    case CallTokenRecurringLimit(mint, amount, window) =>
      mint + (ToLE(window, 8) + (ToLE(amount, 8) + (ToLE(amount, 8) + ToLE(0, 8))))
    case CallSolDestinationLimit(amount, destination) => destination + ToLE(amount, 8)
    case CallSolRecurringDestinationLimit(amount, window, destination) => destination + FreshBytes(amount, window)
    case CallTokenDestinationLimit(mint, amount, destination) => mint + (destination + ToLE(amount, 8))
    case CallTokenRecurringDestinationLimit(mint, amount, window, destination) =>
      mint + (destination + FreshBytes(amount, window))
    case _ => []
  }

  /** The number that stands for a call's action in its header. */
  function WireCode(call: Call): nat
  {
    match call
    case CallAll => 7
    case CallManageAuthority => 8
    case CallAllButManageAuthority => 15
    case CallCloseSwigAuthority => 20
    case CallRentDestination => 0
    case CallReplaceAuthority(_) => 21
    case CallSubAccountV2Create => 22
    case CallSubAccountV2All(_) => 23
    case CallSubAccountV2Sign(_) => 24
    case CallSubAccountV2Withdraw(_) => 25
    case CallSubAccountV2Toggle(_) => 26
    case CallManageAuthorizationLocks(_) => 27
    case CallProgramLimit(_) => 3
    case CallProgramAll => 13
    case CallProgramCurated => 14
    case CallProgramScopeBasic(_, _) => 4
    case CallProgramScopeLimit(_, _, _, _) => 4
    case CallProgramScopeRecurringLimit(_, _, _, _, _) => 4
    case CallSubAccount => 9
    case CallStakeAll => 12
    case CallStakeLimit(_) => 10
    case CallStakeRecurringLimit(_, _) => 11
    case CallSolLimit(_) => 1
    case CallSolRecurringLimit(_, _) => 2
    case CallTokenLimit(_, _) => 5
    case CallTokenRecurringLimit(_, _, _) => 6
    case CallSolDestinationLimit(_, _) => 16
    case CallSolRecurringDestinationLimit(_, _, _) => 17
    case CallTokenDestinationLimit(_, _, _) => 18
    case CallTokenRecurringDestinationLimit(_, _, _, _) => 19
  }

  // ----- one field after another -----

  lemma {:induction false} EncodeFirst(name: Name, codec: Codec, rest: Layout, s: Struct)
    requires name in s && EncodeValue(codec, s[name]).Some?
    ensures EncodeStruct(Then(name, codec, rest), s) ==
            After(EncodeValue(codec, s[name]).value, EncodeStruct(rest, s))
    ensures EncodeStruct(Then(name, codec, End), s) == EncodeValue(codec, s[name])
  {
    var first := EncodeValue(codec, s[name]).value;
    assert first + [] == first;
  }

  lemma {:induction false} EncodeNumber(name: Name, width: nat, rest: Layout, s: Struct, n: int)
    requires name in s && s[name] == Num(n) && 0 <= n < Pow256(width)
    ensures EncodeStruct(Then(name, UInt(width), rest), s) == After(ToLE(n, width), EncodeStruct(rest, s))
    ensures EncodeStruct(Then(name, UInt(width), End), s) == Some(ToLE(n, width))
  {
    hide EncodeStruct, ToLE, Pow256;
    EncodeFirst(name, UInt(width), rest, s);
  }

  lemma {:induction false} EncodeWord(name: Name, rest: Layout, s: Struct, n: int)
    requires name in s && s[name] == Num(n) && IsUint64(n)
    ensures EncodeStruct(Then(name, UInt(8), rest), s) == After(ToLE(n, 8), EncodeStruct(rest, s))
    ensures EncodeStruct(Then(name, UInt(8), End), s) == Some(ToLE(n, 8))
  {
    PowersOf256();
    hide EncodeStruct, ToLE, Pow256;
    EncodeNumber(name, 8, rest, s, n);
  }

  lemma {:induction false} EncodeKey(name: Name, rest: Layout, s: Struct, key: Key)
    requires name in s && s[name] == Raw(key)
    ensures EncodeStruct(Keyed(name, rest), s) == After(key, EncodeStruct(rest, s))
    ensures EncodeStruct(Keyed(name, End), s) == Some(key)
  {
    hide EncodeStruct;
    EncodeFirst(name, FixedBytes(32), rest, s);
  }

  lemma {:induction false} EncodeEnum(name: Name, count: nat, rest: Layout, s: Struct, n: int)
    requires name in s && s[name] == Num(n) && 0 <= n < count <= 4
    ensures EncodeStruct(Then(name, EnumOf(8, count), rest), s) == After(ToLE(n, 8), EncodeStruct(rest, s))
  {
    PowersOf256();
    hide EncodeStruct, ToLE, Pow256;
    EncodeFirst(name, EnumOf(8, count), rest, s);
  }

  predicate HasWord(s: Struct, name: Name, n: int)
  {
    name in s && s[name] == Num(n) && IsUint64(n)
  }

  /** The two orders of the four words of a recurring limit. */
  lemma {:induction false} FourWritten(s: Struct, full: int, window: int, lastReset: int, current: int)
    requires HasWord(s, RecurringAmount, full) && HasWord(s, Window, window)
    requires HasWord(s, LastReset, lastReset) && HasWord(s, CurrentAmount, current)
    ensures EncodeStruct(RECURRING, s) ==
            Some(ToLE(full, 8) + (ToLE(window, 8) + (ToLE(lastReset, 8) + ToLE(current, 8))))
    ensures EncodeStruct(TOKEN_RECURRING, s) ==
            Some(ToLE(window, 8) + (ToLE(full, 8) + (ToLE(current, 8) + ToLE(lastReset, 8))))
  {
    hide EncodeStruct, ToLE;
    var r, t := RECURRING, TOKEN_RECURRING;
    EncodeWord(RecurringAmount, r.rest, s, full);
    EncodeWord(Window, r.rest.rest, s, window);
    EncodeWord(LastReset, r.rest.rest.rest, s, lastReset);
    EncodeWord(CurrentAmount, End, s, current);
    EncodeWord(Window, t.rest, s, window);
    EncodeWord(RecurringAmount, t.rest.rest, s, full);
    EncodeWord(CurrentAmount, t.rest.rest.rest, s, current);
    EncodeWord(LastReset, End, s, lastReset);
  }

  lemma {:induction false} FreshWritten(s: Struct, amount: int, window: int)
    requires HasFresh(s, amount, window) && IsUint64(amount) && IsUint64(window)
    ensures EncodeStruct(RECURRING, s) == Some(FreshBytes(amount, window))
    ensures EncodeStruct(TOKEN_RECURRING, s) ==
            Some(ToLE(window, 8) + (ToLE(amount, 8) + (ToLE(amount, 8) + ToLE(0, 8))))
  {
    hide EncodeStruct, ToLE;
    FourWritten(s, amount, window, 0, amount);
  }

  lemma {:induction false} AmountWritten(s: Struct, amount: int)
    requires Amount in s && s[Amount] == Num(amount) && IsUint64(amount)
    ensures EncodeStruct(AMOUNT, s) == Some(ToLE(amount, 8))
  {
    hide EncodeStruct, ToLE;
    EncodeWord(Amount, End, s, amount);
  }

  lemma {:induction false} ScopeTailWritten(s: Struct, numericType: int)
    requires ScopeType in s && s[ScopeType] == Num(0) && NumericType in s && s[NumericType] == Num(numericType)
    requires BalanceFieldStart in s && s[BalanceFieldStart] == Num(0)
    requires BalanceFieldEnd in s && s[BalanceFieldEnd] == Num(0)
    requires 0 <= numericType < 4
    ensures EncodeStruct(PROGRAM_SCOPE.rest.rest.rest.rest.rest.rest, s) ==
            Some(ToLE(0, 8) + (ToLE(numericType, 8) + (ToLE(0, 8) + ToLE(0, 8))))
  {
    hide EncodeStruct, ToLE;
    var l := PROGRAM_SCOPE.rest.rest.rest.rest.rest.rest;
    EncodeEnum(ScopeType, 3, l.rest, s, 0);
    EncodeEnum(NumericType, 4, l.rest.rest, s, numericType);
    EncodeWord(BalanceFieldStart, l.rest.rest.rest, s, 0);
    EncodeWord(BalanceFieldEnd, End, s, 0);
  }

  lemma {:induction false} ScopeRestWritten(s: Struct, window: int, numericType: int, id: Key, target: Key)
    requires Window in s && s[Window] == Num(window) && LastReset in s && s[LastReset] == Num(0)
    requires ProgramId in s && s[ProgramId] == Raw(id) && TargetAccount in s && s[TargetAccount] == Raw(target)
    requires IsUint64(window)
    ensures EncodeStruct(PROGRAM_SCOPE.rest.rest, s) ==
            After(ToLE(window, 8), After(ToLE(0, 8), After(id, After(target,
            EncodeStruct(PROGRAM_SCOPE.rest.rest.rest.rest.rest.rest, s)))))
  {
    hide EncodeStruct, ToLE;
    var m := PROGRAM_SCOPE.rest.rest;
    EncodeWord(Window, m.rest, s, window);
    EncodeWord(LastReset, m.rest.rest, s, 0);
    EncodeKey(ProgramId, m.rest.rest.rest, s, id);
    EncodeKey(TargetAccount, m.rest.rest.rest.rest, s, target);
  }

  lemma {:induction false} ScopeAmountsWritten(s: Struct, amount: int)
    requires CurrentAmount in s && s[CurrentAmount] == Num(amount)
    requires LimitAmount in s && s[LimitAmount] == Num(amount)
    requires 0 <= amount < U128
    ensures EncodeStruct(PROGRAM_SCOPE, s) ==
            After(ToLE(amount, 16), After(ToLE(amount, 16), EncodeStruct(PROGRAM_SCOPE.rest.rest, s)))
  {
    var l := PROGRAM_SCOPE;
    PowersOf256();
    hide EncodeStruct, ToLE, Pow256;
    EncodeNumber(CurrentAmount, 16, l.rest, s, amount);
    EncodeNumber(LimitAmount, 16, l.rest.rest, s, amount);
  }

  lemma {:induction false} ScopeWritten(amount: int, window: int, numericType: int, id: Key, target: Key)
    requires 0 <= amount < U128 && IsUint64(window) && 0 <= numericType < 4
    ensures EncodeStruct(PROGRAM_SCOPE, Scope(amount, window, numericType, id, target)) ==
            Some(ScopeBytes(amount, window, numericType, id, target))
  {
    hide EncodeStruct, ToLE, PROGRAM_SCOPE;
    var s := Scope(amount, window, numericType, id, target);
    ScopeAmountsWritten(s, amount);
    ScopeRestWritten(s, window, numericType, id, target);
    ScopeTailWritten(s, numericType);
    hide Scope;
  }

  lemma {:induction false} ZeroWord(width: nat)
    ensures ToLE(0, width) == Zeros(width)
  {
    if width > 0 {
      ZeroWord(width - 1);
    }
  }

  lemma {:induction false} MoreZeros(m: nat, n: nat)
    ensures Zeros(m) + Zeros(n) == Zeros(m + n)
  {
  }

  lemma {:induction false} SubAccountZeros()
    ensures Zeros(32) + (Zeros(1) + ([0] + (Zeros(2) + (Zeros(4) + Zeros(32))))) == Zeros(72)
  {
    assert [0] == Zeros(1);
    hide Zeros;
    MoreZeros(4, 32);
    MoreZeros(2, 36);
    MoreZeros(1, 38);
    MoreZeros(1, 39);
    MoreZeros(32, 40);
  }

  lemma {:induction false} SubAccountTail(s: Struct)
    requires RoleId in s && s[RoleId] == Num(0) && SwigId in s && s[SwigId] == Raw(Zeros(32))
    requires Padding in s && s[Padding] == Raw(Zeros(2))
    ensures EncodeStruct(SUB_ACCOUNT.rest.rest.rest, s) == Some(Zeros(2) + (Zeros(4) + Zeros(32)))
  {
    var m := SUB_ACCOUNT.rest.rest.rest;
    PowersOf256();
    ZeroWord(4);
    hide EncodeStruct, ToLE, Pow256, Zeros;
    EncodeFirst(Padding, FixedBytes(2), m.rest, s);
    EncodeNumber(RoleId, 4, m.rest.rest, s, 0);
    EncodeKey(SwigId, End, s, Zeros(32));
  }

  lemma {:induction false} SubAccountWritten(s: Struct)
    requires ConfigOf(CallSubAccount) == DataConfig(SubAccount, 72, s)
    ensures EncodeStruct(SUB_ACCOUNT, s) == Some(Zeros(72))
  {
    var l := SUB_ACCOUNT;
    PowersOf256();
    ZeroWord(1);
    SubAccountZeros();
    hide EncodeStruct, ToLE, Pow256, Zeros;
    SubAccountTail(s);
    EncodeKey(SubAccountKey, l.rest, s, Zeros(32));
    EncodeNumber(Bump, 1, l.rest.rest, s, 0);
    EncodeFirst(Enabled, Flag, l.rest.rest.rest, s);
    hide SUB_ACCOUNT;
  }

  // ----- call by call -----

  lemma {:induction false} PlainWritten(call: Call)
    requires ConfigOf(call).Some? && Fits(call) && !ConfigOf(call).value.body.Data?
    ensures EncodeBody(ConfigOf(call).value) == Some(Written(call))
  {
    hide ToLE;
    assert Zeros(4) == [0, 0, 0, 0];
  }

  lemma {:induction false} SinglesWritten(call: Call)
    requires ConfigOf(call).Some?
    requires call.CallManageAuthorizationLocks? || call.CallProgramLimit? || call.CallProgramCurated?
    ensures EncodeBody(ConfigOf(call).value) == Some(Written(call))
  {
    hide EncodeStruct, ToLE;
    var s := ConfigOf(call).value.body.data;
    match call
    case CallManageAuthorizationLocks(max) => EncodeWord(MaxDurationSlots, End, s, max);
    case CallProgramLimit(id) => EncodeKey(ProgramId, End, s, id);
    case CallProgramCurated => EncodeKey(Reserved, End, s, Zeros(32));
  }

  lemma {:induction false} AmountsWritten(call: Call)
    requires call.CallSolLimit? || call.CallStakeLimit?
    requires Fits(call)
    ensures EncodeBody(ConfigOf(call).value) == Some(Written(call))
  {
    hide EncodeStruct, ToLE, AMOUNT;
    AmountWritten(ConfigOf(call).value.body.data, call.amount);
  }

  lemma {:induction false} KeyedAmountWritten(call: Call)
    requires call.CallTokenLimit? || call.CallSolDestinationLimit?
    requires Fits(call)
    ensures EncodeBody(ConfigOf(call).value) == Some(Written(call))
  {
    hide EncodeStruct, ToLE, AMOUNT;
    var s := ConfigOf(call).value.body.data;
    AmountWritten(s, call.amount);
    match call
    case CallTokenLimit(mint, _) => EncodeKey(Mint, AMOUNT, s, mint);
    case CallSolDestinationLimit(_, destination) => EncodeKey(Destination, AMOUNT, s, destination);
  }

  lemma {:induction false} TwoKeysAmountWritten(call: Call)
    requires call.CallTokenDestinationLimit? && Fits(call)
    ensures EncodeBody(ConfigOf(call).value) == Some(Written(call))
  {
    hide EncodeStruct, ToLE, AMOUNT;
    var s := ConfigOf(call).value.body.data;
    AmountWritten(s, call.amount);
    EncodeKey(Mint, Keyed(Destination, AMOUNT), s, call.mint);
    EncodeKey(Destination, AMOUNT, s, call.destination);
  }

  lemma {:induction false} RecurringWritten(call: Call)
    requires call.CallSolRecurringLimit? || call.CallStakeRecurringLimit?
    requires Fits(call)
    ensures EncodeBody(ConfigOf(call).value) == Some(Written(call))
  {
    hide EncodeStruct, ToLE, RECURRING, FreshBytes;
    var s := ConfigOf(call).value.body.data;
    assert HasFresh(s, call.amount, call.window);
    assert EncodeBody(ConfigOf(call).value) == EncodeStruct(RECURRING, s);
    hide ConfigOf, HasFresh, EncodeBody;
    FreshWritten(s, call.amount, call.window);
  }

  lemma {:induction false} TokenRecurringWritten(call: Call)
    requires call.CallTokenRecurringLimit? && Fits(call)
    ensures EncodeBody(ConfigOf(call).value) == Some(Written(call))
  {
    hide EncodeStruct, ToLE, TOKEN_RECURRING;
    var s := ConfigOf(call).value.body.data;
    assert HasFresh(s, call.amount, call.window) && s[Mint] == Raw(call.mint);
    assert EncodeBody(ConfigOf(call).value) == EncodeStruct(Keyed(Mint, TOKEN_RECURRING), s);
    hide ConfigOf, HasFresh, EncodeBody, Keyed;
    FreshWritten(s, call.amount, call.window);
    EncodeKey(Mint, TOKEN_RECURRING, s, call.mint);
  }

  lemma {:induction false} DestinationRecurringWritten(call: Call)
    requires call.CallSolRecurringDestinationLimit? && Fits(call)
    ensures EncodeBody(ConfigOf(call).value) == Some(Written(call))
  {
    hide EncodeStruct, ToLE, RECURRING, FreshBytes;
    var s := ConfigOf(call).value.body.data;
    assert HasFresh(s, call.amount, call.window) && s[Destination] == Raw(call.destination);
    assert EncodeBody(ConfigOf(call).value) == EncodeStruct(Keyed(Destination, RECURRING), s);
    hide ConfigOf, HasFresh, EncodeBody, Keyed;
    FreshWritten(s, call.amount, call.window);
    EncodeKey(Destination, RECURRING, s, call.destination);
  }

  lemma {:induction false} TwoKeysRecurringWritten(call: Call)
    requires call.CallTokenRecurringDestinationLimit? && Fits(call)
    ensures EncodeBody(ConfigOf(call).value) == Some(Written(call))
  {
    hide EncodeStruct, ToLE, RECURRING, FreshBytes;
    var s := ConfigOf(call).value.body.data;
    assert HasFresh(s, call.amount, call.window);
    assert s[Mint] == Raw(call.mint) && s[Destination] == Raw(call.destination);
    assert EncodeBody(ConfigOf(call).value) == EncodeStruct(Keyed(Mint, Keyed(Destination, RECURRING)), s);
    hide ConfigOf, HasFresh, EncodeBody, Keyed;
    FreshWritten(s, call.amount, call.window);
    EncodeKey(Mint, Keyed(Destination, RECURRING), s, call.mint);
    EncodeKey(Destination, RECURRING, s, call.destination);
  }

  lemma {:induction false} ScopesWritten(call: Call)
    requires call.CallProgramScopeBasic? || call.CallProgramScopeLimit? || call.CallProgramScopeRecurringLimit?
    requires Fits(call)
    ensures EncodeBody(ConfigOf(call).value) == Some(Written(call))
  {
    hide EncodeStruct, ScopeBytes, PROGRAM_SCOPE, Scope;
    match call
    case CallProgramScopeBasic(id, target) => ScopeWritten(0, 0, 0, id, target);
    case CallProgramScopeLimit(amount, numeric, id, target) => ScopeWritten(amount, 0, numeric, id, target);
    case CallProgramScopeRecurringLimit(amount, window, numeric, id, target) =>
      ScopeWritten(amount, window, numeric, id, target);
  }

  /** What a call pushes is encoded as exactly these bytes. */
  lemma {:induction false} PayloadWritten(call: Call)
    requires ConfigOf(call).Some? && Fits(call)
    ensures EncodeBody(ConfigOf(call).value) == Some(Written(call))
  {
    if !ConfigOf(call).value.body.Data? {
      PlainWritten(call);
      return;
    }
    hide EncodeBody, Written;
    match call
    case CallManageAuthorizationLocks(_) => SinglesWritten(call);
    case CallProgramLimit(_) => SinglesWritten(call);
    case CallProgramCurated => SinglesWritten(call);
    case CallProgramScopeBasic(_, _) => ScopesWritten(call);
    case CallProgramScopeLimit(_, _, _, _) => ScopesWritten(call);
    case CallProgramScopeRecurringLimit(_, _, _, _, _) => ScopesWritten(call);
    case CallSubAccount => SubAccountBytes();
    case CallStakeLimit(_) => AmountsWritten(call);
    case CallSolLimit(_) => AmountsWritten(call);
    case CallTokenLimit(_, _) => KeyedAmountWritten(call);
    case CallSolDestinationLimit(_, _) => KeyedAmountWritten(call);
    case CallTokenDestinationLimit(_, _, _) => TwoKeysAmountWritten(call);
    case CallStakeRecurringLimit(_, _) => RecurringWritten(call);
    case CallSolRecurringLimit(_, _) => RecurringWritten(call);
    case CallTokenRecurringLimit(_, _, _) => TokenRecurringWritten(call);
    case CallSolRecurringDestinationLimit(_, _, _) => DestinationRecurringWritten(call);
    case CallTokenRecurringDestinationLimit(_, _, _, _) => TwoKeysRecurringWritten(call);
    case _ =>
  }

  lemma {:induction false} SubAccountBytes()
    ensures EncodeBody(ConfigOf(CallSubAccount).value) == Some(Written(CallSubAccount))
  {
    hide EncodeStruct;
    SubAccountWritten(ConfigOf(CallSubAccount).value.body.data);
  }

  lemma {:induction false} CodeOfCall(call: Call)
    requires ConfigOf(call).Some?
    ensures Code(ConfigOf(call).value.permission) == WireCode(call)
  {
  }

  /** The whole record of a call: code, payload length and end of the record, and the payload. */
  lemma {:induction false} RecordWritten(call: Call, boundary: nat)
    requires ConfigOf(call).Some? && Fits(call) && boundary < U32
    ensures RecordOf(ConfigOf(call).value, boundary) ==
            Some(ToLE(WireCode(call), 2) + ToLE(|Written(call)|, 2) + ToLE(boundary, 4) + Written(call))
  {
    var c := ConfigOf(call).value;
    ConfigsAreSound(call);
    PayloadWritten(call);
    CodeOfCall(call);
    BodyHasStatedLength(c);
    LengthFits(c);
    hide ConfigOf, EncodeBody, Written, WireCode, Fits, ToLE, Sound, Code;
  }

  lemma {:induction false} LengthFits(c: Config)
    requires Sound(c)
    ensures c.length < U16
  {
  }
}
