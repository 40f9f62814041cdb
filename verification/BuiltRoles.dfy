/** What the queries answer about a role that was built by a sequence of builder calls. */
module BuiltRoles {
  import opened Bytes
  import opened StructCodecs
  import opened ActionCodec
  import opened SpendControl
  import opened ActionsBuilder
  import opened ActionQueries
  import opened BuilderCalls

  /** How much one call lets a role spend. */
  function Granted(call: Call, asset: Asset): Limit
  {
    match call
    case CallAll => Uncapped
    case CallAllButManageAuthority => Uncapped
    case CallSolLimit(amount) => AtMost(if asset.Sol? then amount else 0)
    case CallSolRecurringLimit(amount, _) => AtMost(if asset.Sol? then amount else 0)
    case CallSolDestinationLimit(amount, _) => AtMost(if asset.Sol? then amount else 0)
    case CallSolRecurringDestinationLimit(amount, _, _) => AtMost(if asset.Sol? then amount else 0)
    case CallTokenLimit(mint, amount) => AtMost(if asset == Token(mint) then amount else 0)
    case CallTokenRecurringLimit(mint, amount, _) => AtMost(if asset == Token(mint) then amount else 0)
    case CallTokenDestinationLimit(mint, amount, _) => AtMost(if asset == Token(mint) then amount else 0)
    case CallTokenRecurringDestinationLimit(mint, amount, _, _) => AtMost(if asset == Token(mint) then amount else 0)
    case _ => AtMost(0)
  }

  function GrantedByAll(calls: seq<Call>, asset: Asset): Limit
  {
    if calls == [] then AtMost(0)
    else Join(GrantedByAll(calls[..|calls| - 1], asset), Granted(calls[|calls| - 1], asset))
  }

  /** The action that the parser makes of a call. */
  function ActionOf(call: Call, boundary: nat): Action
    requires ConfigOf(call).Some?
  {
    var c := ConfigOf(call).value;
    Action(Header(c.permission, c.length, boundary), PayloadOf(c))
  }

  lemma {:induction false} PlainGrants(call: Call, boundary: nat, asset: Asset)
    requires ConfigOf(call).Some? && !ConfigOf(call).value.body.Data?
    ensures LimitOf(ActionOf(call, boundary), asset) == Granted(call, asset)
  {
  }

  predicate IsSolCall(call: Call)
  {
    || call.CallSolLimit? || call.CallSolRecurringLimit?
    || call.CallSolDestinationLimit? || call.CallSolRecurringDestinationLimit?
  }

  predicate IsTokenCall(call: Call)
  {
    || call.CallTokenLimit? || call.CallTokenRecurringLimit?
    || call.CallTokenDestinationLimit? || call.CallTokenRecurringDestinationLimit?
  }

  lemma {:induction false} SolGrants(call: Call, boundary: nat, asset: Asset)
    requires IsSolCall(call)
    ensures ConfigOf(call).Some? && LimitOf(ActionOf(call, boundary), asset) == Granted(call, asset)
  {
  }

  lemma {:induction false} TokenGrants(call: Call, boundary: nat, asset: Asset)
    requires IsTokenCall(call)
    ensures ConfigOf(call).Some? && LimitOf(ActionOf(call, boundary), asset) == Granted(call, asset)
  {
  }

  lemma {:induction false} OtherGrants(call: Call, boundary: nat, asset: Asset)
    requires ConfigOf(call).Some? && ConfigOf(call).value.body.Data? && !IsSolCall(call) && !IsTokenCall(call)
    ensures LimitOf(ActionOf(call, boundary), asset) == Granted(call, asset)
  {
  }

  lemma {:induction false} CallGrants(call: Call, boundary: nat, asset: Asset)
    requires ConfigOf(call).Some?
    ensures LimitOf(ActionOf(call, boundary), asset) == Granted(call, asset)
  {
    hide LimitOf, Granted, ActionOf, ConfigOf;
    if IsSolCall(call) {
      SolGrants(call, boundary, asset);
    } else if IsTokenCall(call) {
      TokenGrants(call, boundary, asset);
    } else if !ConfigOf(call).value.body.Data? {
      PlainGrants(call, boundary, asset);
    } else {
      OtherGrants(call, boundary, asset);
    }
  }

  /** A recurring limit starts full: its controller states the call's amount, window and no reset. */
  lemma {:induction false} RecurringStartsFull(call: Call, boundary: nat, asset: Asset)
    requires || (asset.Sol? && (call.CallSolRecurringLimit? || call.CallSolRecurringDestinationLimit?))
             || (asset.Token? && (call.CallTokenRecurringLimit? || call.CallTokenRecurringDestinationLimit?) &&
                 call.mint == asset.mint)
    ensures ConfigOf(call).Some?
    ensures ControlOf(ActionOf(call, boundary), asset) ==
            Control(true, AtMost(call.amount), Some(call.window), Some(0), Some(call.amount))
  {
  }

  lemma {:induction false} SameLimits(actions: seq<Action>, calls: seq<Call>, asset: Asset)
    requires |actions| == |calls|
    requires forall i :: 0 <= i < |calls| ==> LimitOf(actions[i], asset) == Granted(calls[i], asset)
    ensures SpendLimit(actions, asset) == GrantedByAll(calls, asset)
  {
    hide LimitOf, Granted, Join;
    if calls != [] {
      SameLimits(actions[..|actions| - 1], calls[..|calls| - 1], asset);
    }
  }

  lemma {:induction false} ConfigAt(calls: seq<Call>, i: nat)
    requires Configs(calls).Some? && i < |calls|
    ensures ConfigOf(calls[i]) == Some(Configs(calls).value[i])
  {
    hide ConfigOf;
    if i < |calls| - 1 {
      ConfigAt(calls[..|calls| - 1], i);
    }
  }

  /** The i-th action of a built role is the one that the i-th call describes. */
  lemma {:induction false} BuiltActionAt(calls: seq<Call>, i: nat)
    requires Configs(calls).Some? && i < |calls|
    ensures ConfigOf(calls[i]).Some?
    ensures var a := Expected(Configs(calls).value, 0)[i]; a == ActionOf(calls[i], a.header.boundary)
  {
    ConfigAt(calls, i);
    hide Configs, ConfigOf, PayloadOf, Expected;
    ExpectedAt(Configs(calls).value, 0, i);
  }

  /** The spend limit of a built role is the largest that any of its calls grants. */
  lemma {:induction false} BuiltSpendLimit(calls: seq<Call>, asset: Asset)
    requires Configs(calls).Some?
    ensures SpendLimit(Expected(Configs(calls).value, 0), asset) == GrantedByAll(calls, asset)
  {
    hide Configs, ConfigOf, LimitOf, Granted, Expected, ActionOf;
    var actions := Expected(Configs(calls).value, 0);
    forall i | 0 <= i < |calls| ensures LimitOf(actions[i], asset) == Granted(calls[i], asset) {
      BuiltActionAt(calls, i);
      CallGrants(calls[i], actions[i].header.boundary, asset);
    }
    SameLimits(actions, calls, asset);
  }

  /**
   An unrelated call in front makes the spend controller of a built role deny what its limit
   allows.
   */
  lemma {:induction false} UnrelatedActionHidesLimit(amount: int)
    requires 0 < amount < U64
    ensures var calls := [CallProgramAll, CallSolLimit(amount)];
            && Configs(calls).Some? && AllFit(calls) && BufferLength(Configs(calls).value) < U32
            && var actions := Expected(Configs(calls).value, 0);
            && SpendLimit(actions, Sol) == AtMost(amount)
            && CanSpend(actions, Sol, Some(amount))
            && !Spend(actions, Sol).IsAllowed()
  {
    var first, second := CallProgramAll, CallSolLimit(amount);
    var calls := [first, second];
    TwoCalls(first, second);
    var actions := Expected(Configs(calls).value, 0);
    BuiltSpendLimit(calls, Sol);
    TwoGrants(first, second, Sol);
    CanSpendIffWithinLimit(actions, Sol, amount);
    CanSpendMaxIffUncapped(actions, Sol);
    BuiltActionAt(calls, 0);
    assert !ControlOf(ActionOf(first, actions[0].header.boundary), Sol).IsAllowed();
    hide Configs, ConfigOf, Expected, ActionOf, ControlOf, SpendLimit, GrantedByAll;
  }

  lemma {:induction false} TwoCalls(first: Call, second: Call)
    requires ConfigOf(first).Some? && ConfigOf(second).Some?
    ensures Configs([first, second]) == Some([ConfigOf(first).value, ConfigOf(second).value])
    ensures BufferLength([ConfigOf(first).value, ConfigOf(second).value]) ==
            16 + ConfigOf(first).value.length + ConfigOf(second).value.length
  {
    hide ConfigOf;
    var calls, configs := [first, second], [ConfigOf(first).value, ConfigOf(second).value];
    NoConfigs();
    NextConfig(calls, 0);
    NextConfig(calls, 1);
    assert calls[..0] == [] && calls[..2] == calls;
    hide Configs;
    assert [] + [configs[0]] + [configs[1]] == configs;
    assert configs[1..] == [configs[1]] && [configs[1]][1..] == [];
    assert BufferLength([configs[1]]) == 8 + configs[1].length;
  }

  lemma {:induction false} TwoGrants(first: Call, second: Call, asset: Asset)
    ensures GrantedByAll([first, second], asset) ==
            Join(Join(AtMost(0), Granted(first, asset)), Granted(second, asset))
  {
    hide Granted, Join;
    var calls := [first, second];
    assert calls[..1] == [first] && [first][..0] == [];
    assert GrantedByAll([first], asset) == Join(AtMost(0), Granted(first, asset));
  }

  /** The programs that one call allows. */
  predicate Allows(call: Call, program: Key)
  {
    || call.CallAll? || call.CallAllButManageAuthority? || call.CallProgramAll? || call.CallProgramCurated?
    || (call.CallProgramLimit? && call.programId == program)
  }

  lemma {:induction false} CallAllows(call: Call, boundary: nat, program: Key)
    requires ConfigOf(call).Some?
    ensures UsesProgram(ActionOf(call, boundary), program) <==> Allows(call, program)
  {
  }

  /** A built role can use a program exactly when one of its calls allows it. */
  lemma {:induction false} BuiltPrograms(calls: seq<Call>, program: Key)
    requires Configs(calls).Some?
    ensures CanUseProgram(Expected(Configs(calls).value, 0), program) <==>
            exists i :: 0 <= i < |calls| && Allows(calls[i], program)
  {
    hide Configs, ConfigOf, Expected, ActionOf, UsesProgram, Allows;
    var actions := Expected(Configs(calls).value, 0);
    forall i | 0 <= i < |calls| ensures UsesProgram(actions[i], program) <==> Allows(calls[i], program) {
      BuiltActionAt(calls, i);
      CallAllows(calls[i], actions[i].header.boundary, program);
    }
  }

  // ----- the program action added to built roles -----

  /** The calls after which `ensureProgramAction` adds nothing. */
  predicate GivesProgram(call: Call)
  {
    || call.CallAll? || call.CallAllButManageAuthority? || call.CallProgramAll? || call.CallProgramCurated?
    || call.CallProgramLimit?
  }

  predicate Builds(calls: seq<Call>)
  {
    Configs(calls).Some? && AllFit(calls) && (calls == [] || BufferLength(Configs(calls).value) < U32)
  }

  /** What `get` gives after the calls. */
  lemma {:induction false} BuiltValue(calls: seq<Call>) returns (built: Actions)
    requires Builds(calls)
    ensures var configs := Configs(calls).value;
            && BuildFrom(configs, 0).Some?
            && From(BuildFrom(configs, 0).value, |configs|) == Some(built)
            && |built.raw| == BufferLength(configs)
    ensures built.actions == Expected(Configs(calls).value, 0) && WellFormed(built)
  {
    var configs := Configs(calls).value;
    hide *;
    ConfigsFacts(calls);
    BuildSucceeds(configs, 0);
    BuiltActionsParse(configs);
    BuiltIsWellFormed(configs);
    built := From(BuildFrom(configs, 0).value, |configs|).value;
  }

  lemma {:induction false} CallGivesProgram(call: Call, boundary: nat)
    requires ConfigOf(call).Some?
    ensures IsProgramAction(ActionOf(call, boundary)) <==> GivesProgram(call)
  {
  }

  /**
   A built role is well formed after `ensureProgramAction` exactly when one of its calls gave a
   program action, or it has no actions at all.
   */
  lemma {:induction false} EnsuredBuiltRole(calls: seq<Call>) returns (built: Actions)
    requires Builds(calls)
    ensures BuildFrom(Configs(calls).value, 0).Some? && Ensured(built).Some?
    ensures From(BuildFrom(Configs(calls).value, 0).value, |calls|) == Some(built)
    ensures WellFormed(Ensured(built).value) <==>
            calls == [] || exists i :: 0 <= i < |calls| && GivesProgram(calls[i])
  {
    hide BuildFrom, From, WellFormed, Ensured, ConfigOf, Configs, Expected, IsProgramAction, GivesProgram, ActionOf;
    built := BuiltValue(calls);
    EnsuredIsWellFormed(built);
    forall i | 0 <= i < |calls| ensures IsProgramAction(built.actions[i]) <==> GivesProgram(calls[i]) {
      BuiltActionAt(calls, i);
      CallGivesProgram(calls[i], built.actions[i].header.boundary);
    }
  }

  lemma {:induction false} OneCall(call: Call)
    requires ConfigOf(call).Some?
    ensures Configs([call]) == Some([ConfigOf(call).value])
    ensures BufferLength([ConfigOf(call).value]) == 8 + ConfigOf(call).value.length
  {
    hide ConfigOf;
    NoConfigs();
    NextConfig([call], 0);
    assert [call][..0] == [] && [call][..1] == [call];
    hide Configs;
    assert [] + [ConfigOf(call).value] == [ConfigOf(call).value];
    assert [ConfigOf(call).value][1..] == [];
  }

  /** After `manageAuthority()` alone, the added record claims to end at byte 8 of 16. */
  lemma {:induction false} EnsuredManageAuthority() returns (built: Actions)
    ensures Builds([CallManageAuthority]) && BuildFrom(Configs([CallManageAuthority]).value, 0).Some?
    ensures From(BuildFrom(Configs([CallManageAuthority]).value, 0).value, 1) == Some(built) && WellFormed(built)
    ensures Ensured(built).Some?
    ensures var ensured := Ensured(built).value;
            && |ensured.raw| == 16 && ensured.actions == built.actions + [PROGRAM_ALL]
            && ensured.actions[1].header.boundary == 8
            && !WellFormed(ensured)
  {
    var call := CallManageAuthority;
    OneCall(call);
    assert ConfigOf(call).Some? && ConfigOf(call).value.length == 0 && Fits(call) && !GivesProgram(call);
    assert !IsProgramAction(ActionOf(call, 8));
    hide BuildFrom, From, WellFormed, Ensured, ConfigOf, Configs, Expected;
    built := BuiltValue([call]);
    EnsuredIsWellFormed(built);
    EnsuredKeepsOldActions(built);
    BuiltActionAt([call], 0);
    CallGivesProgram(call, built.actions[0].header.boundary);
  }
}
