/**
 Program scopes across the SDKs: what the TypeScript builder writes for a limited scope, and what
 the Rust SDK then reads from the role.
 */
module BuiltScopes {
  import opened Bytes
  import opened StructCodecs
  import opened ActionCodec
  import opened ActionsBuilder
  import opened BuilderCalls
  import opened BuiltRoles
  import Roles = RolePermissions

  predicate IsScopeCall(call: Call)
  {
    call.CallProgramScopeBasic? || call.CallProgramScopeLimit? || call.CallProgramScopeRecurringLimit?
  }

  /** The scope type that the builder method is named and documented after. */
  function DocumentedType(call: Call): nat
    requires IsScopeCall(call)
  {
    match call
    case CallProgramScopeBasic(_, _) => 0
    case CallProgramScopeLimit(_, _, _, _) => 1
    case CallProgramScopeRecurringLimit(_, _, _, _, _) => 2
  }

  lemma {:induction false} ScopeCall(call: Call)
    requires ConfigOf(call).Some? && ConfigOf(call).value.permission.ProgramScope?
    ensures IsScopeCall(call)
  {
  }

  /** The payload of a scope call; all three kinds are written alike. */
  lemma {:induction false} ScopePayload(call: Call, boundary: nat)
    requires IsScopeCall(call)
    ensures ConfigOf(call).Some?
    ensures var data := ActionOf(call, boundary).payload.data;
            match call
            case CallProgramScopeBasic(id, target) => data == Scope(0, 0, 0, id, target)
            case CallProgramScopeLimit(amount, numeric, id, target) => data == Scope(amount, 0, numeric, id, target)
            case CallProgramScopeRecurringLimit(amount, window, numeric, id, target) =>
              data == Scope(amount, window, numeric, id, target)
  {
    hide Scope;
  }

  /** Every built scope is of the basic type, which is the documented one for basic scopes alone. */
  lemma {:induction false} BuiltScopesAreBasic(calls: seq<Call>, i: nat)
    requires Configs(calls).Some? && i < |calls|
    requires Expected(Configs(calls).value, 0)[i].header.permission.ProgramScope?
    ensures IsScopeCall(calls[i])
    ensures var data := Expected(Configs(calls).value, 0)[i].payload.data;
            && ScopeType in data && data[ScopeType] == Num(0)
            && (data[ScopeType] == Num(DocumentedType(calls[i])) <==> calls[i].CallProgramScopeBasic?)
  {
    hide Configs, ConfigOf, Expected;
    var a := Expected(Configs(calls).value, 0)[i];
    BuiltActionAt(calls, i);
    ScopeCall(calls[i]);
    hide ActionOf;
    ScopePayload(calls[i], a.header.boundary);
  }

  // ----- the same scope read by the Rust SDK -----

  predicate IsNumber(s: Struct, name: Name, bound: nat)
  {
    name in s && s[name].Num? && 0 <= s[name].n < bound
  }

  predicate IsKey(s: Struct, name: Name)
  {
    name in s && s[name].Raw? && |s[name].bytes| == 32
  }

  predicate ScopeFields(s: Struct)
  {
    && IsKey(s, ProgramId) && IsKey(s, TargetAccount)
    && IsNumber(s, CurrentAmount, U128) && IsNumber(s, LimitAmount, U128)
    && IsNumber(s, Window, U64) && IsNumber(s, LastReset, U64)
    && IsNumber(s, ScopeType, U64) && IsNumber(s, NumericType, U64)
    && IsNumber(s, BalanceFieldStart, U64) && IsNumber(s, BalanceFieldEnd, U64)
  }

  /** The role action with the fields of a scope payload. */
  function StoredScope(s: Struct): Roles.ClientAction
    requires ScopeFields(s)
  {
    Roles.ProgramScopeAction(
      s[ProgramId].bytes, s[TargetAccount].bytes, s[ScopeType].n, s[NumericType].n, s[CurrentAmount].n,
      s[LimitAmount].n, s[Window].n, s[LastReset].n, s[BalanceFieldStart].n, s[BalanceFieldEnd].n)
  }

  /** What is left of a built scope when it is read: program, account and number type, but no limit. */
  function Remaining(call: Call): Roles.Permission
    requires IsScopeCall(call) && Fits(call)
  {
    var numeric: Roles.UInt64 := if call.CallProgramScopeBasic? then 0 else call.numericType;
    Roles.ProgramScope(call.programId, call.targetAccount, numeric, None, None, Some(0), Some(0))
  }

  /** The limit of a built scope is invisible to the Rust SDK, whatever its amount and window are. */
  lemma {:induction false} BuiltScopeReads(calls: seq<Call>, i: nat)
    requires Configs(calls).Some? && AllFit(calls) && i < |calls|
    requires Expected(Configs(calls).value, 0)[i].header.permission.ProgramScope?
    ensures IsScopeCall(calls[i])
    ensures var data := Expected(Configs(calls).value, 0)[i].payload.data;
            && ScopeFields(data)
            && Roles.Readable(StoredScope(data))
            && Roles.ReadAs(StoredScope(data)) == Remaining(calls[i])
            && Remaining(calls[i]).limit == None && Remaining(calls[i]).window == None
  {
    hide Configs, ConfigOf, Expected;
    var a := Expected(Configs(calls).value, 0)[i];
    BuiltActionAt(calls, i);
    ScopeCall(calls[i]);
    hide ActionOf;
    ScopePayload(calls[i], a.header.boundary);
    ScopeReads(calls[i], a.payload.data);
    hide ScopeFields, StoredScope, Remaining, Roles.ReadAs;
  }

  lemma {:induction false} ScopeReads(call: Call, data: Struct)
    requires IsScopeCall(call) && Fits(call)
    requires match call
             case CallProgramScopeBasic(id, target) => data == Scope(0, 0, 0, id, target)
             case CallProgramScopeLimit(amount, numeric, id, target) => data == Scope(amount, 0, numeric, id, target)
             case CallProgramScopeRecurringLimit(amount, window, numeric, id, target) =>
               data == Scope(amount, window, numeric, id, target)
    ensures ScopeFields(data)
    ensures Roles.Readable(StoredScope(data)) && Roles.ReadAs(StoredScope(data)) == Remaining(call)
  {
    match call
    case CallProgramScopeBasic(id, target) => ScopeStored(0, 0, 0, id, target);
    case CallProgramScopeLimit(amount, numeric, id, target) => ScopeStored(amount, 0, numeric, id, target);
    case CallProgramScopeRecurringLimit(amount, window, numeric, id, target) =>
      ScopeStored(amount, window, numeric, id, target);
    hide Scope;
  }

  lemma {:induction false} ScopeStored(amount: nat, window: int, numeric: int, id: Key, target: Key)
    requires amount < U128 && IsUint64(window) && IsUint64(numeric)
    ensures ScopeFields(Scope(amount, window, numeric, id, target))
    ensures StoredScope(Scope(amount, window, numeric, id, target)) ==
            Roles.ProgramScopeAction(id, target, 0, numeric, amount, amount, window, 0, 0, 0)
  {
  }

  /** The Rust permission with the arguments of a scope call. */
  function RustScope(call: Call): Roles.Permission
    requires IsScopeCall(call) && Fits(call) && (!call.CallProgramScopeBasic? ==> call.amount < U64)
  {
    match call
    case CallProgramScopeBasic(id, target) => Roles.ProgramScope(id, target, 0, None, None, None, None)
    case CallProgramScopeLimit(amount, numeric, id, target) =>
      Roles.ProgramScope(id, target, numeric, Some(amount), None, None, None)
    case CallProgramScopeRecurringLimit(amount, window, numeric, id, target) =>
      Roles.ProgramScope(id, target, numeric, Some(amount), Some(window), None, None)
  }

  /**
   The Rust SDK stores the documented type, and reads the same from it as from the built scope
   exactly when the scope is basic.
   */
  lemma {:induction false} RustKeepsLimit(call: Call)
    requires IsScopeCall(call) && Fits(call) && (!call.CallProgramScopeBasic? ==> call.amount < U64)
    ensures var stored := Roles.Translate(RustScope(call));
            && stored.Some? && stored.value.ProgramScopeAction?
            && stored.value.scopeType == DocumentedType(call)
            && Roles.ReadAs(stored.value).limit == RustScope(call).limit
            && Roles.ReadAs(stored.value).window == RustScope(call).window
            && (Roles.ReadAs(stored.value) == Remaining(call) <==> call.CallProgramScopeBasic?)
  {
    Roles.ReadTranslated(RustScope(call));
    hide Roles.ReadAs;
  }

  /**
   A built limit scope starts with its current amount at the limit, the Rust SDK's at zero; the two
   store the same action exactly when the scope is basic.
   */
  lemma {:induction false} ScopesStartApart(calls: seq<Call>, i: nat)
    requires Configs(calls).Some? && AllFit(calls) && i < |calls|
    requires Expected(Configs(calls).value, 0)[i].header.permission.ProgramScope?
    requires IsScopeCall(calls[i]) && (!calls[i].CallProgramScopeBasic? ==> calls[i].amount < U64)
    ensures var data := Expected(Configs(calls).value, 0)[i].payload.data;
            var amount := if calls[i].CallProgramScopeBasic? then 0 else calls[i].amount;
            var stored := Roles.Translate(RustScope(calls[i]));
            && ScopeFields(data) && data[CurrentAmount] == Num(amount) && data[LimitAmount] == Num(amount)
            && stored.Some? && stored.value.ProgramScopeAction?
            && stored.value.currentAmount == 0 && stored.value.limit == amount
            && (StoredScope(data) == stored.value <==> calls[i].CallProgramScopeBasic?)
  {
    hide *;
    var call, a := calls[i], Expected(Configs(calls).value, 0)[i];
    BuiltActionAt(calls, i);
    assert a.payload == ActionOf(call, a.header.boundary).payload;
    ScopePayload(call, a.header.boundary);
    FitAt(calls, i);
    ScopeStarts(call, a.payload.data);
  }

  lemma {:induction false} FitAt(calls: seq<Call>, i: nat)
    requires AllFit(calls) && i < |calls|
    ensures Fits(calls[i])
  {
  }

  lemma {:induction false} ScopeStarts(call: Call, data: Struct)
    requires IsScopeCall(call) && Fits(call) && (!call.CallProgramScopeBasic? ==> call.amount < U64)
    requires match call
             case CallProgramScopeBasic(id, target) => data == Scope(0, 0, 0, id, target)
             case CallProgramScopeLimit(amount, numeric, id, target) => data == Scope(amount, 0, numeric, id, target)
             case CallProgramScopeRecurringLimit(amount, window, numeric, id, target) =>
               data == Scope(amount, window, numeric, id, target)
    ensures var amount := if call.CallProgramScopeBasic? then 0 else call.amount;
            var stored := Roles.Translate(RustScope(call));
            && ScopeFields(data) && data[CurrentAmount] == Num(amount) && data[LimitAmount] == Num(amount)
            && stored.Some? && stored.value.ProgramScopeAction?
            && stored.value.currentAmount == 0 && stored.value.limit == amount
            && (StoredScope(data) == stored.value <==> call.CallProgramScopeBasic?)
  {
    match call
    case CallProgramScopeBasic(id, target) => ScopeStored(0, 0, 0, id, target);
    case CallProgramScopeLimit(amount, numeric, id, target) => ScopeStored(amount, 0, numeric, id, target);
    case CallProgramScopeRecurringLimit(amount, window, numeric, id, target) =>
      ScopeStored(amount, window, numeric, id, target);
  }
}
