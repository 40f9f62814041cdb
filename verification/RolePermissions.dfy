/** The Rust SDK's permissions, the role actions they stand for, and reading a role's actions back. */
module RolePermissions {
  import opened Bytes
  import Wire = ActionCodec

  type UInt64 = n: int | IsUint64(n)

  type UInt32 = n: int | 0 <= n < U32

  datatype RecurringConfig = RecurringConfig(window: UInt64, lastReset: UInt64, currentAmount: UInt64)

  datatype Permission =
    | All
    | ManageAuthority
    | ReplaceAuthority(roleId: UInt32)
    | Token(mint: Key, amount: UInt64, recurring: Option<RecurringConfig>)
    | TokenDestination(mint: Key, destination: Key, amount: UInt64, recurring: Option<RecurringConfig>)
    | Sol(amount: UInt64, recurring: Option<RecurringConfig>)
    | SolDestination(destination: Key, amount: UInt64, recurring: Option<RecurringConfig>)
    | Program(programId: Key)
    | ProgramAll
    | ProgramScope(programId: Key, targetAccount: Key, numericType: UInt64, limit: Option<UInt64>,
                   window: Option<UInt64>, balanceFieldStart: Option<UInt64>, balanceFieldEnd: Option<UInt64>)
    | ProgramCurated
    | SubAccount(subAccount: Key)
    | Stake(amount: UInt64, recurring: Option<RecurringConfig>)
    | StakeAll
    | AllButManageAuthority
    | SubAccountV2Create
    | SubAccountV2All(subaccId: UInt32)
    | SubAccountV2Sign(subaccId: UInt32)
    | SubAccountV2Withdraw(subaccId: UInt32)
    | SubAccountV2Toggle(subaccId: UInt32)

  /** The state of a limit that refills: an on-chain role keeps the last reset and what is left. */
  datatype Refill = Refill(amount: UInt64, window: UInt64, lastReset: UInt64, current: UInt64)

  /** The actions stored in a role; the last two have no counterpart among the permissions. */
  datatype ClientAction =
    | AllAction
    | ManageAuthorityAction
    | ReplaceAuthorityAction(roleId: UInt32)
    | TokenLimit(mint: Key, amount: UInt64)
    | TokenRecurringLimit(mint: Key, refill: Refill)
    | TokenDestinationLimit(mint: Key, destination: Key, amount: UInt64)
    | TokenRecurringDestinationLimit(mint: Key, destination: Key, refill: Refill)
    | SolLimit(amount: UInt64)
    | SolRecurringLimit(refill: Refill)
    | SolDestinationLimit(destination: Key, amount: UInt64)
    | SolRecurringDestinationLimit(destination: Key, refill: Refill)
    | ProgramAction(programId: Key)
    | ProgramAllAction
    | ProgramCuratedAction
    | ProgramScopeAction(programId: Key, targetAccount: Key, scopeType: UInt64, numericType: UInt64,
                         currentAmount: nat, limit: nat, window: UInt64, lastReset: UInt64,
                         balanceFieldStart: UInt64, balanceFieldEnd: UInt64)
    | SubAccountAction(subAccount: Key)
    | StakeLimit(amount: UInt64)
    | StakeRecurringLimit(refill: Refill)
    | StakeAllAction
    | AllButManageAuthorityAction
    | SubAccountV2CreateAction
    | SubAccountV2AllAction(subaccId: UInt32)
    | SubAccountV2SignAction(subaccId: UInt32)
    | SubAccountV2WithdrawAction(subaccId: UInt32)
    | SubAccountV2ToggleAction(subaccId: UInt32)
    | CloseSwigAuthority
    | ManageAuthorizationLocks(maxDurationSlots: UInt64)

  function KindOf(a: ClientAction): Wire.Permission
  {
    match a
    case AllAction => Wire.All
    case ManageAuthorityAction => Wire.ManageAuthority
    case ReplaceAuthorityAction(_) => Wire.ReplaceAuthority
    case TokenLimit(_, _) => Wire.TokenLimit
    case TokenRecurringLimit(_, _) => Wire.TokenRecurringLimit
    case TokenDestinationLimit(_, _, _) => Wire.TokenDestinationLimit
    case TokenRecurringDestinationLimit(_, _, _) => Wire.TokenRecurringDestinationLimit
    case SolLimit(_) => Wire.SolLimit
    case SolRecurringLimit(_) => Wire.SolRecurringLimit
    case SolDestinationLimit(_, _) => Wire.SolDestinationLimit
    case SolRecurringDestinationLimit(_, _) => Wire.SolRecurringDestinationLimit
    case ProgramAction(_) => Wire.Program
    case ProgramAllAction => Wire.ProgramAll
    case ProgramCuratedAction => Wire.ProgramCurated
    case ProgramScopeAction(_, _, _, _, _, _, _, _, _, _) => Wire.ProgramScope
    case SubAccountAction(_) => Wire.SubAccount
    case StakeLimit(_) => Wire.StakeLimit
    case StakeRecurringLimit(_) => Wire.StakeRecurringLimit
    case StakeAllAction => Wire.StakeAll
    case AllButManageAuthorityAction => Wire.AllButManageAuthority
    case SubAccountV2CreateAction => Wire.SubAccountV2Create
    case SubAccountV2AllAction(_) => Wire.SubAccountV2All
    case SubAccountV2SignAction(_) => Wire.SubAccountV2Sign
    case SubAccountV2WithdrawAction(_) => Wire.SubAccountV2Withdraw
    case SubAccountV2ToggleAction(_) => Wire.SubAccountV2Toggle
    case CloseSwigAuthority => Wire.CloseSwigAuthority
    case ManageAuthorizationLocks(_) => Wire.ManageAuthorizationLocks
  }

  // ----- one permission -----

  /** A new limit starts full and was never reset, whatever the caller's config says. */
  function NewRefill(amount: UInt64, config: RecurringConfig): Refill
  {
    Refill(amount, config.window, 0, amount)
  }

  function OrZero(n: Option<UInt64>): UInt64
  {
    if n.Some? then n.value else 0
  }

  /** A window without a limit has no scope type: None stands for InvalidProgramScope. */
  function ScopeType(window: Option<UInt64>, limit: Option<UInt64>): Option<UInt64>
  {
    match (window, limit)
    case (Some(_), Some(_)) => Some(2)
    case (None, Some(_)) => Some(1)
    case (None, None) => Some(0)
    case (Some(_), None) => None
  }

  function Translate(p: Permission): Option<ClientAction>
  {
    match p
    case All => Some(AllAction)
    case ManageAuthority => Some(ManageAuthorityAction)
    case ReplaceAuthority(id) => Some(ReplaceAuthorityAction(id))
    case Token(mint, amount, recurring) =>
      Some(if recurring.Some? then TokenRecurringLimit(mint, NewRefill(amount, recurring.value))
           else TokenLimit(mint, amount))
    case TokenDestination(mint, destination, amount, recurring) =>
      Some(if recurring.Some?
           then TokenRecurringDestinationLimit(mint, destination, NewRefill(amount, recurring.value))
           else TokenDestinationLimit(mint, destination, amount))
    case Sol(amount, recurring) =>
      Some(if recurring.Some? then SolRecurringLimit(NewRefill(amount, recurring.value)) else SolLimit(amount))
    case SolDestination(destination, amount, recurring) =>
      Some(if recurring.Some? then SolRecurringDestinationLimit(destination, NewRefill(amount, recurring.value))
           else SolDestinationLimit(destination, amount))
    case Program(id) => Some(ProgramAction(id))
    case ProgramAll => Some(ProgramAllAction)
    case ProgramScope(id, target, numeric, limit, window, from, end) =>
      var scope := ScopeType(window, limit);
      if scope.None? then None
      else Some(ProgramScopeAction(id, target, scope.value, numeric, 0, OrZero(limit), OrZero(window), 0,
                                   OrZero(from), OrZero(end)))
    case ProgramCurated => Some(ProgramCuratedAction)
    case SubAccount(key) => Some(SubAccountAction(key))
    case Stake(amount, recurring) =>
      Some(if recurring.Some? then StakeRecurringLimit(NewRefill(amount, recurring.value)) else StakeLimit(amount))
    case StakeAll => Some(StakeAllAction)
    case AllButManageAuthority => Some(AllButManageAuthorityAction)
    case SubAccountV2Create => Some(SubAccountV2CreateAction)
    case SubAccountV2All(id) => Some(SubAccountV2AllAction(id))
    case SubAccountV2Sign(id) => Some(SubAccountV2SignAction(id))
    case SubAccountV2Withdraw(id) => Some(SubAccountV2WithdrawAction(id))
    case SubAccountV2Toggle(id) => Some(SubAccountV2ToggleAction(id))
  }

  function ConfigFrom(r: Refill): Option<RecurringConfig>
  {
    Some(RecurringConfig(r.window, r.lastReset, r.current))
  }

  /** The actions that a role's permissions tell of. */
  predicate Readable(a: ClientAction)
  {
    !a.CloseSwigAuthority? && !a.ManageAuthorizationLocks?
  }

  /** The permission that a stored action is read as. */
  function ReadAs(a: ClientAction): Permission
    requires Readable(a)
  {
    match a
    case AllAction => All
    case ManageAuthorityAction => ManageAuthority
    case ReplaceAuthorityAction(id) => ReplaceAuthority(id)
    case TokenLimit(mint, amount) => Token(mint, amount, None)
    case TokenRecurringLimit(mint, r) => Token(mint, r.amount, ConfigFrom(r))
    case TokenDestinationLimit(mint, destination, amount) => TokenDestination(mint, destination, amount, None)
    case TokenRecurringDestinationLimit(mint, destination, r) =>
      TokenDestination(mint, destination, r.amount, ConfigFrom(r))
    case SolLimit(amount) => Sol(amount, None)
    case SolRecurringLimit(r) => Sol(r.amount, ConfigFrom(r))
    case SolDestinationLimit(destination, amount) => SolDestination(destination, amount, None)
    case SolRecurringDestinationLimit(destination, r) => SolDestination(destination, r.amount, ConfigFrom(r))
    case ProgramAction(id) => Program(id)
    case ProgramAllAction => ProgramAll
    case ProgramCuratedAction => ProgramCurated
    case ProgramScopeAction(id, target, scope, numeric, _, limit, window, _, from, end) =>
      ProgramScope(id, target, numeric, if scope > 0 then Some(limit % U64) else None,
                   if scope == 2 then Some(window) else None, Some(from), Some(end))
    case SubAccountAction(key) => SubAccount(key)
    case StakeLimit(amount) => Stake(amount, None)
    case StakeRecurringLimit(r) => Stake(r.amount, ConfigFrom(r))
    case StakeAllAction => StakeAll
    case AllButManageAuthorityAction => AllButManageAuthority
    case SubAccountV2CreateAction => SubAccountV2Create
    case SubAccountV2AllAction(id) => SubAccountV2All(id)
    case SubAccountV2SignAction(id) => SubAccountV2Sign(id)
    case SubAccountV2WithdrawAction(id) => SubAccountV2Withdraw(id)
    case SubAccountV2ToggleAction(id) => SubAccountV2Toggle(id)
  }

  function ToActionType(p: Permission): (n: nat)
    ensures n < 28
  {
    match p
    case All => 7
    case ManageAuthority => 8
    case ReplaceAuthority(_) => 21
    case Sol(_, recurring) => if recurring.Some? then 2 else 1
    case SolDestination(_, _, recurring) => if recurring.Some? then 17 else 16
    case Token(_, _, recurring) => if recurring.Some? then 6 else 5
    case TokenDestination(_, _, _, recurring) => if recurring.Some? then 19 else 18
    case Program(_) => 3
    case ProgramAll => 13
    case ProgramCurated => 14
    case ProgramScope(_, _, _, _, _, _, _) => 4
    case SubAccount(_) => 9
    case SubAccountV2Create => 22
    case SubAccountV2All(_) => 23
    case SubAccountV2Sign(_) => 24
    case SubAccountV2Withdraw(_) => 25
    case SubAccountV2Toggle(_) => 26
    case Stake(_, recurring) => if recurring.Some? then 11 else 10
    case StakeAll => 12
    case AllButManageAuthority => 15
  }

  /** The kind of action that a permission stands for. */
  function Kind(p: Permission): Wire.Permission
  {
    Wire.FromCode(ToActionType(p))
  }

  function Reset(amount: UInt64, recurring: Option<RecurringConfig>): Option<RecurringConfig>
  {
    if recurring.Some? then Some(RecurringConfig(recurring.value.window, 0, amount)) else None
  }

  /** What a permission is after a round trip: limits full, never reset, both balance fields given. */
  function Norm(p: Permission): Permission
  {
    match p
    case Token(mint, amount, recurring) => Token(mint, amount, Reset(amount, recurring))
    case TokenDestination(mint, destination, amount, recurring) =>
      TokenDestination(mint, destination, amount, Reset(amount, recurring))
    case Sol(amount, recurring) => Sol(amount, Reset(amount, recurring))
    case SolDestination(destination, amount, recurring) => SolDestination(destination, amount, Reset(amount, recurring))
    case Stake(amount, recurring) => Stake(amount, Reset(amount, recurring))
    case ProgramScope(id, target, numeric, limit, window, from, end) =>
      ProgramScope(id, target, numeric, limit, window, Some(OrZero(from)), Some(OrZero(end)))
    case _ => p
  }

  lemma {:induction false} ActionTypeIsWireCode(p: Permission)
    requires Translate(p).Some?
    ensures Wire.Code(KindOf(Translate(p).value)) == ToActionType(p)
  {
  }

  lemma {:induction false} KindIsKept(p: Permission)
    requires Translate(p).Some?
    ensures KindOf(Translate(p).value) == Kind(p)
  {
    ActionTypeIsWireCode(p);
    Wire.CodeIsInjective(KindOf(Translate(p).value));
    hide *;
    KindDefinition(p);
  }

  lemma {:induction false} KindDefinition(p: Permission)
    ensures Kind(p) == Wire.FromCode(ToActionType(p))
  {
    hide ToActionType;
  }

  /** Reading a translated permission gives its normal form. */
  lemma {:induction false} ReadTranslated(p: Permission)
    requires Translate(p).Some?
    ensures Readable(Translate(p).value) && ReadAs(Translate(p).value) == Norm(p)
  {
    if p.ProgramScope? && p.limit.Some? {
      assert p.limit.value % U64 == p.limit.value;
    }
  }

  lemma {:induction false} NormFacts(p: Permission)
    ensures Norm(Norm(p)) == Norm(p) && Kind(Norm(p)) == Kind(p)
    ensures Translate(Norm(p)).Some? <==> Translate(p).Some?
  {
  }

  /** Translation fails exactly on a program scope with a window but no limit. */
  lemma {:induction false} TranslateFails(p: Permission)
    ensures Translate(p).None? <==> p.ProgramScope? && p.window.Some? && p.limit.None?
  {
  }

  /** Whatever is read from a role can be translated again, into the same kind of action. */
  lemma {:induction false} ReadTranslates(a: ClientAction)
    requires Readable(a)
    ensures Translate(ReadAs(a)).Some? && KindOf(Translate(ReadAs(a)).value) == KindOf(a)
  {
  }

  predicate IsNew(r: Refill)
  {
    r.lastReset == 0 && r.current == r.amount
  }

  /** Nothing spent and never reset, and for a program scope only the fields that its type uses. */
  predicate Untouched(a: ClientAction)
  {
    match a
    case TokenRecurringLimit(_, r) => IsNew(r)
    case TokenRecurringDestinationLimit(_, _, r) => IsNew(r)
    case SolRecurringLimit(r) => IsNew(r)
    case SolRecurringDestinationLimit(_, r) => IsNew(r)
    case StakeRecurringLimit(r) => IsNew(r)
    case ProgramScopeAction(_, _, scope, _, current, limit, window, lastReset, _, _) =>
      && scope <= 2 && current == 0 && lastReset == 0 && limit < U64
      && (scope == 0 ==> limit == 0) && (scope < 2 ==> window == 0)
    case _ => true
  }

  /** Storing what was read gives the same action exactly when it has never been used. */
  lemma {:induction false} RestoreKeepsAction(a: ClientAction)
    requires Readable(a)
    ensures Translate(ReadAs(a)) == Some(a) <==> Untouched(a)
  {
    if a.ProgramScopeAction? && a.limit < U64 {
      assert a.limit % U64 == a.limit;
    }
  }
}
