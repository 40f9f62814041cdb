/** Which sequences of builder calls can be built, and what the parser makes of them. */
module BuilderCalls {
  import opened Bytes
  import opened StructCodecs
  import opened ActionCodec
  import opened ActionsBuilder

  /** The arguments are in the range of their wire fields. */
  predicate Fits(call: Call)
  {
    match call
    case CallProgramScopeLimit(amount, numeric, _, _) => 0 <= amount < U128 && 0 <= numeric < 4
    case CallProgramScopeRecurringLimit(amount, window, numeric, _, _) =>
      0 <= amount < U128 && IsUint64(window) && 0 <= numeric < 4
    case CallStakeLimit(amount) => IsUint64(amount)
    case CallStakeRecurringLimit(amount, window) => IsUint64(amount) && IsUint64(window)
    case CallSolLimit(amount) => IsUint64(amount)
    case CallSolRecurringLimit(amount, window) => IsUint64(amount) && IsUint64(window)
    case CallTokenLimit(_, amount) => IsUint64(amount)
    case CallTokenRecurringLimit(_, amount, window) => IsUint64(amount) && IsUint64(window)
    case CallSolDestinationLimit(amount, _) => IsUint64(amount)
    case CallSolRecurringDestinationLimit(amount, window, _) => IsUint64(amount) && IsUint64(window)
    case CallTokenDestinationLimit(_, amount, _) => IsUint64(amount)
    case CallTokenRecurringDestinationLimit(_, amount, window, _) => IsUint64(amount) && IsUint64(window)
    case _ => true
  }

  function Encodes(layout: Layout, s: Struct): bool
  {
    EncodeStruct(layout, s).Some?
  }

  lemma {:induction false} EncodesFirst(name: Name, codec: Codec, rest: Layout, s: Struct)
    requires name in s
    ensures Encodes(Then(name, codec, rest), s) <==> EncodeValue(codec, s[name]).Some? && Encodes(rest, s)
    ensures Encodes(End, s)
  {
  }

  lemma {:induction false} EncodesU64(name: Name, rest: Layout, s: Struct, n: int)
    requires name in s && s[name] == Num(n)
    ensures Encodes(Then(name, UInt(8), rest), s) <==> IsUint64(n) && Encodes(rest, s)
  {
    EncodesFirst(name, UInt(8), rest, s);
    PowersOf256();
    hide Encodes, Pow256, ToLE;
  }

  lemma {:induction false} EncodesKey(name: Name, rest: Layout, s: Struct)
    requires name in s && s[name].Raw?
    ensures Encodes(Keyed(name, rest), s) <==> Encodes(rest, s)
  {
    EncodesFirst(name, FixedBytes(32), rest, s);
    hide Encodes;
  }

  lemma {:induction false} AmountEncodes(s: Struct, n: int)
    requires Amount in s && s[Amount] == Num(n)
    ensures Encodes(AMOUNT, s) <==> IsUint64(n)
  {
    hide Encodes, IsUint64;
    EncodesU64(Amount, End, s, n);
    EncodesFirst(Amount, UInt(8), End, s);
  }

  predicate HasFresh(s: Struct, amount: int, window: int)
  {
    && RecurringAmount in s && s[RecurringAmount] == Num(amount)
    && Window in s && s[Window] == Num(window)
    && LastReset in s && s[LastReset] == Num(0)
    && CurrentAmount in s && s[CurrentAmount] == Num(amount)
  }

  lemma {:induction false} RecurringEncodes(s: Struct, amount: int, window: int)
    requires HasFresh(s, amount, window)
    ensures Encodes(RECURRING, s) <==> IsUint64(amount) && IsUint64(window)
    ensures Encodes(TOKEN_RECURRING, s) <==> IsUint64(amount) && IsUint64(window)
  {
    hide Encodes;
    EncodesFirst(RecurringAmount, UInt(8), End, s);
    var r := RECURRING;
    EncodesU64(RecurringAmount, r.rest, s, amount);
    EncodesU64(Window, r.rest.rest, s, window);
    EncodesU64(LastReset, r.rest.rest.rest, s, 0);
    EncodesU64(CurrentAmount, End, s, amount);
    var t := TOKEN_RECURRING;
    EncodesU64(Window, t.rest, s, window);
    EncodesU64(RecurringAmount, t.rest.rest, s, amount);
    EncodesU64(CurrentAmount, t.rest.rest.rest, s, amount);
    EncodesU64(LastReset, End, s, 0);
  }

  lemma {:induction false} EncodesU128(name: Name, rest: Layout, s: Struct, n: int)
    requires name in s && s[name] == Num(n)
    ensures Encodes(Then(name, UInt(16), rest), s) <==> 0 <= n < U128 && Encodes(rest, s)
  {
    EncodesFirst(name, UInt(16), rest, s);
    PowersOf256();
    hide Encodes, Pow256, ToLE;
  }

  lemma {:induction false} EncodesEnum(name: Name, count: nat, rest: Layout, s: Struct, n: int)
    requires name in s && s[name] == Num(n) && count <= 4
    ensures Encodes(Then(name, EnumOf(8, count), rest), s) <==> 0 <= n < count && Encodes(rest, s)
  {
    EncodesFirst(name, EnumOf(8, count), rest, s);
    PowersOf256();
    hide Encodes, Pow256, ToLE;
  }

  lemma {:induction false} ScopeEncodes(amount: int, window: int, numericType: int, id: Key, target: Key)
    ensures Encodes(PROGRAM_SCOPE, Scope(amount, window, numericType, id, target)) <==>
            0 <= amount < U128 && IsUint64(window) && 0 <= numericType < 4
  {
    hide Encodes;
    var s := Scope(amount, window, numericType, id, target);
    var l := PROGRAM_SCOPE;
    EncodesU128(CurrentAmount, l.rest, s, amount);
    EncodesU128(LimitAmount, l.rest.rest, s, amount);
    var m := l.rest.rest;
    EncodesU64(Window, m.rest, s, window);
    EncodesU64(LastReset, m.rest.rest, s, 0);
    ScopeTailEncodes(s, m.rest.rest, numericType);
  }

  lemma {:induction false} ScopeTailEncodes(s: Struct, tail: Layout, numericType: int)
    requires tail == PROGRAM_SCOPE.rest.rest.rest.rest
    requires ProgramId in s && s[ProgramId].Raw? && TargetAccount in s && s[TargetAccount].Raw?
    requires ScopeType in s && s[ScopeType] == Num(0) && NumericType in s && s[NumericType] == Num(numericType)
    requires BalanceFieldStart in s && s[BalanceFieldStart] == Num(0)
    requires BalanceFieldEnd in s && s[BalanceFieldEnd] == Num(0)
    ensures Encodes(tail, s) <==> 0 <= numericType < 4
  {
    hide Encodes;
    EncodesKey(ProgramId, tail.rest, s);
    EncodesKey(TargetAccount, tail.rest.rest, s);
    var m := tail.rest.rest;
    EncodesEnum(ScopeType, 3, m.rest, s, 0);
    EncodesEnum(NumericType, 4, m.rest.rest, s, numericType);
    EncodesU64(BalanceFieldStart, m.rest.rest.rest, s, 0);
    EncodesU64(BalanceFieldEnd, End, s, 0);
    EncodesFirst(BalanceFieldEnd, UInt(8), End, s);
  }

  lemma {:induction false} SubAccountEncodes(s: Struct)
    requires ConfigOf(CallSubAccount) == DataConfig(SubAccount, 72, s)
    ensures Encodes(SUB_ACCOUNT, s)
  {
    hide Encodes;
    var l := SUB_ACCOUNT;
    EncodesKey(SubAccountKey, l.rest, s);
    EncodesFirst(Bump, UInt(1), l.rest.rest, s);
    EncodesFirst(Enabled, Flag, l.rest.rest.rest, s);
    var m := l.rest.rest.rest;
    EncodesFirst(Padding, FixedBytes(2), m.rest, s);
    EncodesFirst(RoleId, UInt(4), m.rest.rest, s);
    EncodesKey(SwigId, End, s);
    EncodesFirst(SwigId, FixedBytes(32), End, s);
  }

  lemma {:induction false} SinglesEncode(call: Call)
    requires ConfigOf(call).Some?
    requires call.CallManageAuthorizationLocks? || call.CallProgramLimit? || call.CallProgramCurated?
    ensures EncodeBody(ConfigOf(call).value).Some?
  {
    var c := ConfigOf(call).value;
    var s := c.body.data;
    assert EncodeBody(c).Some? == Encodes(PayloadLayout(c.permission), s);
    hide Encodes, EncodeBody;
    if call.CallManageAuthorizationLocks? {
      EncodesU64(MaxDurationSlots, End, s, call.maxDurationSlots);
      EncodesFirst(MaxDurationSlots, UInt(8), End, s);
    } else if call.CallProgramLimit? {
      EncodesKey(ProgramId, End, s);
      EncodesFirst(ProgramId, FixedBytes(32), End, s);
    } else {
      EncodesKey(Reserved, End, s);
      EncodesFirst(Reserved, FixedBytes(32), End, s);
    }
  }

  lemma {:induction false} PlainEncodes(call: Call)
    requires ConfigOf(call).Some? && !ConfigOf(call).value.body.Data?
    ensures EncodeBody(ConfigOf(call).value).Some? && Fits(call)
  {
  }

  lemma {:induction false} KeyedAmountEncodes(call: Call)
    requires call.CallTokenLimit? || call.CallSolDestinationLimit?
    ensures EncodeBody(ConfigOf(call).value).Some? <==> IsUint64(call.amount)
  {
    var c := ConfigOf(call).value;
    var s := c.body.data;
    assert EncodeBody(c).Some? == Encodes(PayloadLayout(c.permission), s);
    hide Encodes, IsUint64, EncodeBody;
    AmountEncodes(s, call.amount);
    EncodesKey(if call.CallTokenLimit? then Mint else Destination, AMOUNT, s);
  }

  lemma {:induction false} TwoKeysAmountEncodes(call: Call)
    requires call.CallTokenDestinationLimit?
    ensures EncodeBody(ConfigOf(call).value).Some? <==> IsUint64(call.amount)
  {
    var c := ConfigOf(call).value;
    var s := c.body.data;
    assert EncodeBody(c).Some? == Encodes(PayloadLayout(c.permission), s);
    hide Encodes, IsUint64, EncodeBody;
    AmountEncodes(s, call.amount);
    EncodesKey(Mint, Keyed(Destination, AMOUNT), s);
    EncodesKey(Destination, AMOUNT, s);
  }

  lemma {:induction false} KeyedRecurringEncodes(call: Call)
    requires call.CallTokenRecurringLimit? || call.CallSolRecurringDestinationLimit?
    ensures EncodeBody(ConfigOf(call).value).Some? <==> IsUint64(call.amount) && IsUint64(call.window)
  {
    var c := ConfigOf(call).value;
    var s := c.body.data;
    assert EncodeBody(c).Some? == Encodes(PayloadLayout(c.permission), s);
    hide Encodes, IsUint64, EncodeBody;
    RecurringEncodes(s, call.amount, call.window);
    if call.CallTokenRecurringLimit? {
      EncodesKey(Mint, TOKEN_RECURRING, s);
    } else {
      EncodesKey(Destination, RECURRING, s);
    }
  }

  lemma {:induction false} TwoKeysRecurringEncodes(call: Call)
    requires call.CallTokenRecurringDestinationLimit?
    ensures EncodeBody(ConfigOf(call).value).Some? <==> IsUint64(call.amount) && IsUint64(call.window)
  {
    var c := ConfigOf(call).value;
    var s := c.body.data;
    assert EncodeBody(c).Some? == Encodes(PayloadLayout(c.permission), s);
    hide Encodes, IsUint64, EncodeBody;
    RecurringEncodes(s, call.amount, call.window);
    EncodesKey(Mint, Keyed(Destination, RECURRING), s);
    EncodesKey(Destination, RECURRING, s);
  }

  lemma {:induction false} UnkeyedEncodes(call: Call)
    requires call.CallSolLimit? || call.CallStakeLimit? || call.CallSolRecurringLimit? || call.CallStakeRecurringLimit?
    ensures EncodeBody(ConfigOf(call).value).Some? <==> Fits(call)
  {
    var c := ConfigOf(call).value;
    var s := c.body.data;
    assert EncodeBody(c).Some? == Encodes(PayloadLayout(c.permission), s);
    hide Encodes, IsUint64, EncodeBody;
    if call.CallSolLimit? || call.CallStakeLimit? {
      AmountEncodes(s, call.amount);
    } else {
      RecurringEncodes(s, call.amount, call.window);
    }
  }

  lemma {:induction false} ScopeCallEncodes(call: Call)
    requires call.CallProgramScopeBasic? || call.CallProgramScopeLimit? || call.CallProgramScopeRecurringLimit?
    ensures EncodeBody(ConfigOf(call).value).Some? <==> Fits(call)
  {
    var c := ConfigOf(call).value;
    assert EncodeBody(c).Some? == Encodes(PROGRAM_SCOPE, c.body.data);
    hide Encodes, EncodeBody, Scope;
    match call
    case CallProgramScopeBasic(id, target) => ScopeEncodes(0, 0, 0, id, target);
    case CallProgramScopeLimit(amount, numeric, id, target) => ScopeEncodes(amount, 0, numeric, id, target);
    case CallProgramScopeRecurringLimit(amount, window, numeric, id, target) =>
      ScopeEncodes(amount, window, numeric, id, target);
  }

  /** A pushed config can be encoded exactly when the arguments of its call fit. */
  lemma {:induction false} CallEncodes(call: Call)
    requires ConfigOf(call).Some?
    ensures EncodeBody(ConfigOf(call).value).Some? <==> Fits(call)
  {
    if !ConfigOf(call).value.body.Data? {
      PlainEncodes(call);
      return;
    }
    hide EncodeBody, Encodes, IsUint64;
    match call
    case CallManageAuthorizationLocks(_) => SinglesEncode(call);
    case CallProgramLimit(_) => SinglesEncode(call);
    case CallProgramCurated => SinglesEncode(call);
    case CallProgramScopeBasic(_, _) => ScopeCallEncodes(call);
    case CallProgramScopeLimit(_, _, _, _) => ScopeCallEncodes(call);
    case CallProgramScopeRecurringLimit(_, _, _, _, _) => ScopeCallEncodes(call);
    case CallSubAccount => SubAccountCallEncodes();
    case CallStakeLimit(_) => UnkeyedEncodes(call);
    case CallStakeRecurringLimit(_, _) => UnkeyedEncodes(call);
    case CallSolLimit(_) => UnkeyedEncodes(call);
    case CallSolRecurringLimit(_, _) => UnkeyedEncodes(call);
    case CallTokenLimit(_, _) => KeyedAmountEncodes(call);
    case CallSolDestinationLimit(_, _) => KeyedAmountEncodes(call);
    case CallTokenDestinationLimit(_, _, _) => TwoKeysAmountEncodes(call);
    case CallTokenRecurringLimit(_, _, _) => KeyedRecurringEncodes(call);
    case CallSolRecurringDestinationLimit(_, _, _) => KeyedRecurringEncodes(call);
    case CallTokenRecurringDestinationLimit(_, _, _, _) => TwoKeysRecurringEncodes(call);
    case _ =>
  }

  lemma {:induction false} SubAccountCallEncodes()
    ensures EncodeBody(ConfigOf(CallSubAccount).value).Some?
  {
    var c := ConfigOf(CallSubAccount).value;
    assert EncodeBody(c).Some? == Encodes(SUB_ACCOUNT, c.body.data);
    SubAccountEncodes(c.body.data);
  }

  /** The calls that throw: an id that is not a u32, an empty or too long lock, and the rent destination. */
  lemma {:induction false} ThrowsExactly(call: Call)
    ensures ConfigOf(call).None? <==>
            || call.CallRentDestination?
            || (call.CallReplaceAuthority? && !(0 <= call.roleId <= 0xffff_ffff))
            || ((call.CallSubAccountV2All? || call.CallSubAccountV2Sign? || call.CallSubAccountV2Withdraw?
                 || call.CallSubAccountV2Toggle?) && !(0 <= call.subAccountId <= 0xffff_ffff))
            || (call.CallManageAuthorizationLocks? && !(1 <= call.maxDurationSlots <= 0xffff_ffff_ffff_ffff))
  {
    hide Scope, Fresh;
  }

  // ----- whole sequences of calls -----

  /** The configs that a sequence of calls pushes, when none of them throws. */
  function Configs(calls: seq<Call>): (r: Option<seq<Config>>)
    ensures r.Some? ==> |r.value| == |calls|
  {
    if calls == [] then Some([])
    else
      var front, last := Configs(calls[..|calls| - 1]), ConfigOf(calls[|calls| - 1]);
      if front.None? || last.None? then None else Some(front.value + [last.value])
  }

  predicate AllFit(calls: seq<Call>)
  {
    forall i :: 0 <= i < |calls| ==> Fits(calls[i])
  }

  lemma {:induction false} ConfigsFacts(calls: seq<Call>)
    requires Configs(calls).Some?
    ensures AllSound(Configs(calls).value)
    ensures AllEncodable(Configs(calls).value) <==> AllFit(calls)
  {
    hide Sound, ConfigOf, EncodeBody, Fits;
    if calls != [] {
      var front, last := calls[..|calls| - 1], calls[|calls| - 1];
      ConfigsFacts(front);
      ConfigsAreSound(last);
      CallEncodes(last);
      AllFitAppend(front, last);
      AllEncodableAppend(Configs(front).value, ConfigOf(last).value);
      assert calls == front + [last];
    }
  }

  lemma {:induction false} AllFitAppend(calls: seq<Call>, last: Call)
    ensures AllFit(calls + [last]) <==> AllFit(calls) && Fits(last)
  {
    hide Fits;
    assert (calls + [last])[|calls|] == last;
    assert forall i :: 0 <= i < |calls| ==> (calls + [last])[i] == calls[i];
  }

  lemma {:induction false} AllEncodableAppend(configs: seq<Config>, last: Config)
    ensures AllEncodable(configs + [last]) <==> AllEncodable(configs) && EncodeBody(last).Some?
  {
    hide EncodeBody;
    assert (configs + [last])[|configs|] == last;
    assert forall i :: 0 <= i < |configs| ==> (configs + [last])[i] == configs[i];
  }

  /** The builder run over a sequence of calls, followed by `get`. */
  method Build(calls: seq<Call>) returns (actions: Option<Actions>)
    ensures actions.Some? <==>
            && Configs(calls).Some? && AllFit(calls)
            && (calls == [] || BufferLength(Configs(calls).value) < U32)
    ensures actions.Some? ==> actions.value.actions == Expected(Configs(calls).value, 0)
    ensures actions.Some? ==> |actions.value.raw| == BufferLength(Configs(calls).value)
  {
    hide *;
    var builder := new ActionsBuilder();
    NoConfigs();
    assert calls[..0] == [] && calls[..|calls|] == calls;
    for i := 0 to |calls|
      invariant builder.Valid()
      invariant Configs(calls[..i]) == Some(builder.configs)
    {
      NextConfig(calls, i);
      var ok := builder.Add(calls[i]);
      if !ok {
        ThrownCall(calls, i);
        return None;
      }
    }
    ConfigsFacts(calls);
    BuildSucceeds(builder.configs, 0);
    actions := builder.Get();
    if BuildFrom(builder.configs, 0).Some? {
      BuiltActionsParse(builder.configs);
    }
  }

  lemma {:induction false} NoConfigs()
    ensures Configs([]) == Some([])
  {
  }

  lemma {:induction false} NextConfig(calls: seq<Call>, i: nat)
    requires i < |calls|
    ensures Configs(calls[..i + 1]) ==
            if Configs(calls[..i]).None? || ConfigOf(calls[i]).None? then None
            else Some(Configs(calls[..i]).value + [ConfigOf(calls[i]).value])
  {
    hide ConfigOf;
    assert calls[..i + 1][..i] == calls[..i];
  }

  lemma {:induction false} ThrownCall(calls: seq<Call>, i: nat)
    requires i < |calls| && ConfigOf(calls[i]).None?
    ensures Configs(calls).None?
  {
    hide ConfigOf;
    if i < |calls| - 1 {
      ThrownCall(calls[..|calls| - 1], i);
    }
  }
}
