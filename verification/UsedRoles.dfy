/** Reading a role that has been used: what the permissions tell of the stored state, and in which order. */
module UsedRoles {
  import opened Bytes
  import opened RolePermissions
  import opened RoleReading
  import Wire = ActionCodec

  /** The window, the last reset and what is left, as they are stored. */
  predicate Carries(c: Option<RecurringConfig>, r: Refill)
  {
    c.Some? && c.value.window == r.window && c.value.lastReset == r.lastReset && c.value.currentAmount == r.current
  }

  /** The permission tells the stored fields of the action. */
  predicate Tells(p: Permission, a: ClientAction)
  {
    match a
    case TokenLimit(mint, amount) => p.Token? && p.mint == mint && p.amount == amount && p.recurring.None?
    case TokenRecurringLimit(mint, r) => p.Token? && p.mint == mint && p.amount == r.amount && Carries(p.recurring, r)
    case TokenDestinationLimit(mint, destination, amount) =>
      p.TokenDestination? && p.mint == mint && p.destination == destination && p.amount == amount && p.recurring.None?
    case TokenRecurringDestinationLimit(mint, destination, r) =>
      && p.TokenDestination? && p.mint == mint && p.destination == destination
      && p.amount == r.amount && Carries(p.recurring, r)
    case SolLimit(amount) => p.Sol? && p.amount == amount && p.recurring.None?
    case SolRecurringLimit(r) => p.Sol? && p.amount == r.amount && Carries(p.recurring, r)
    case SolDestinationLimit(destination, amount) =>
      p.SolDestination? && p.destination == destination && p.amount == amount && p.recurring.None?
    case SolRecurringDestinationLimit(destination, r) =>
      p.SolDestination? && p.destination == destination && p.amount == r.amount && Carries(p.recurring, r)
    case StakeLimit(amount) => p.Stake? && p.amount == amount && p.recurring.None?
    case StakeRecurringLimit(r) => p.Stake? && p.amount == r.amount && Carries(p.recurring, r)
    case ProgramScopeAction(id, target, scope, numeric, _, limit, window, _, from, end) =>
      && p.ProgramScope? && p.programId == id && p.targetAccount == target && p.numericType == numeric
      && p.balanceFieldStart == Some(from) && p.balanceFieldEnd == Some(end)
      && (if scope == 0 then p.limit.None? else p.limit == Some(limit % U64))
      && (if scope == 2 then p.window == Some(window) else p.window.None?)
    case ProgramAction(id) => p.Program? && p.programId == id
    case SubAccountAction(key) => p.SubAccount? && p.subAccount == key
    case ReplaceAuthorityAction(id) => p.ReplaceAuthority? && p.roleId == id
    case SubAccountV2AllAction(id) => p.SubAccountV2All? && p.subaccId == id
    case SubAccountV2SignAction(id) => p.SubAccountV2Sign? && p.subaccId == id
    case SubAccountV2WithdrawAction(id) => p.SubAccountV2Withdraw? && p.subaccId == id
    case SubAccountV2ToggleAction(id) => p.SubAccountV2Toggle? && p.subaccId == id
    case AllAction => p.All?
    case ManageAuthorityAction => p.ManageAuthority?
    case ProgramAllAction => p.ProgramAll?
    case ProgramCuratedAction => p.ProgramCurated?
    case StakeAllAction => p.StakeAll?
    case AllButManageAuthorityAction => p.AllButManageAuthority?
    case SubAccountV2CreateAction => p.SubAccountV2Create?
    case CloseSwigAuthority => false
    case ManageAuthorizationLocks(_) => false
  }

  /** The state of an action is known from what it is read as; a program scope hides some of its own. */
  lemma {:induction false} TellsWhich(p: Permission, a: ClientAction, b: ClientAction)
    requires Tells(p, a) && Tells(p, b) && !a.ProgramScopeAction?
    ensures a == b
  {
    TellsKindOf(p, a);
    TellsKindOf(p, b);
    hide KindOf;
    SameFields(p, a, b);
  }

  lemma {:induction false} TellsKindOf(p: Permission, a: ClientAction)
    requires Tells(p, a)
    ensures KindOf(a) == Kind(p) && (a.ProgramScopeAction? <==> p.ProgramScope?)
  {
    Wire.CodeIsInjective(KindOf(a));
    assert Wire.Code(KindOf(a)) == ToActionType(p);
  }

  lemma {:induction false} SameFields(p: Permission, a: ClientAction, b: ClientAction)
    requires Tells(p, a) && Tells(p, b) && KindOf(a) == KindOf(b) && !a.ProgramScopeAction?
    ensures a == b
  {
  }

  lemma {:induction false} ReadingTells(a: ClientAction)
    requires Readable(a)
    ensures Tells(ReadAs(a), a)
  {
  }

  /** Two actions that are read as the same permission are the same action, program scopes aside. */
  lemma {:induction false} SameReadingSameAction(a: ClientAction, b: ClientAction)
    requires Readable(a) && Readable(b) && ReadAs(a) == ReadAs(b) && !a.ProgramScopeAction?
    ensures a == b
  {
    hide ReadAs, Tells;
    ReadingTells(a);
    ReadingTells(b);
    TellsWhich(ReadAs(a), a, b);
  }

  // ----- whole roles -----

  lemma {:induction false} ReadingHasKind(a: ClientAction)
    requires Readable(a)
    ensures Kind(ReadAs(a)) == KindOf(a)
  {
    hide *;
    ReadTranslates(a);
    KindIsKept(ReadAs(a));
  }

  lemma {:induction false} BlockIsOfKind(actions: seq<ClientAction>, k: Wire.Permission)
    requires Rank(k) < KINDS
    ensures forall i :: 0 <= i < |ReadKind(actions, k)| ==> Kind(ReadKind(actions, k)[i]) == k
  {
    FoundReadable(actions, k);
    hide ReadAs, ActionsOf, KindOf, Readable, Rank, Kind, Repeatable;
    var kept := Keep(k, ActionsOf(actions, k));
    forall i | 0 <= i < |kept| ensures Kind(ReadAs(kept[i])) == k {
      ReadingHasKind(kept[i]);
    }
  }

  /** The kind at position n of the reading order, and the block that reads it. */
  lemma {:induction false} NextBlock(actions: seq<ClientAction>, n: nat, k: Wire.Permission)
    returns (j: Wire.Permission)
    requires n < KINDS
    ensures Rank(j) == n && (Rank(k) == n ==> j == k)
    ensures ReadFirst(actions, n + 1) == ReadFirst(actions, n) + ReadKind(actions, j)
  {
    j := READ_ORDER[n];
    RankOfOrder(n);
    if Rank(k) == n {
      OrderOfRank(k);
    }
    hide Rank, ReadKind;
  }

  lemma {:induction false} KindOfBlocks(actions: seq<ClientAction>, n: nat, k: Wire.Permission)
    requires n <= KINDS && Rank(k) < KINDS
    ensures PermissionsOf(ReadFirst(actions, n), k) == if Rank(k) < n then ReadKind(actions, k) else []
  {
    hide Rank, ReadKind, PermissionsOf, Kind, READ_ORDER;
    if n == 0 {
      PermissionsOfOneKind([], k, k);
    } else {
      KindOfBlocks(actions, n - 1, k);
      var j := NextBlock(actions, n - 1, k);
      hide ReadFirst;
      BlockIsOfKind(actions, j);
      PermissionsOfAppend(ReadFirst(actions, n - 1), ReadKind(actions, j), k);
      PermissionsOfOneKind(ReadKind(actions, j), j, k);
      assert [] + ReadKind(actions, k) == ReadKind(actions, k) && ReadKind(actions, k) + [] == ReadKind(actions, k);
    }
  }

  /** The codes of the kinds of which all entries are read; of the others, only the first is. */
  const ALL_READ: set<nat> := {3, 4, 5, 6, 16, 17, 18, 19, 21, 23, 24, 25, 26}

  lemma {:induction false} RepeatableCodes(k: Wire.Permission)
    ensures Repeatable(k) <==> Wire.Code(k) in ALL_READ
  {
  }

  /** How many entries of a kind are read. */
  function Taken(code: nat, entries: nat): nat
  {
    if code in ALL_READ || entries == 0 then entries else 1
  }

  /** For every kind, the permissions of a result tell the role's entries one by one. */
  ghost predicate TellsRole(ps: seq<Permission>, actions: seq<ClientAction>)
  {
    forall k :: k !in {Wire.NoPermission, Wire.CloseSwigAuthority, Wire.ManageAuthorizationLocks} ==>
      TellsKind(PermissionsOf(ps, k), ActionsOf(actions, k), Wire.Code(k))
  }

  ghost predicate TellsKind(read: seq<Permission>, stored: seq<ClientAction>, code: nat)
  {
    && |read| == Taken(code, |stored|) <= |stored|
    && forall j :: 0 <= j < |read| ==> Tells(read[j], stored[j])
  }

  /** Reading any role, used or not, tells the stored state of every entry that is read. */
  lemma {:induction false} ReadRoleTells(actions: seq<ClientAction>)
    ensures TellsRole(ReadRole(actions), actions)
  {
    forall k | k !in {Wire.NoPermission, Wire.CloseSwigAuthority, Wire.ManageAuthorizationLocks}
      ensures TellsKind(PermissionsOf(ReadRole(actions), k), ActionsOf(actions, k), Wire.Code(k))
    {
      ReadKindTells(actions, k);
    }
  }

  lemma {:induction false} ReadKindTells(actions: seq<ClientAction>, k: Wire.Permission)
    requires k !in {Wire.NoPermission, Wire.CloseSwigAuthority, Wire.ManageAuthorizationLocks}
    ensures TellsKind(PermissionsOf(ReadRole(actions), k), ActionsOf(actions, k), Wire.Code(k))
  {
    assert Rank(k) < KINDS;
    hide Rank, PermissionsOf, ActionsOf, Tells, ReadAs, Readable, ReadFirst, KindOf, Kind, Wire.Code, ALL_READ;
    hide Repeatable;
    KindOfBlocks(actions, KINDS, k);
    RepeatableCodes(k);
    var stored, read := ActionsOf(actions, k), ReadKind(actions, k);
    FoundReadable(actions, k);
    assert |read| == Taken(Wire.Code(k), |stored|);
    forall j | 0 <= j < |read| ensures Tells(read[j], stored[j]) {
      assert read[j] == ReadAs(stored[j]);
      ReadingTells(stored[j]);
    }
  }

  // ----- the order -----

  /** The codes in the order in which a role is read. */
  const ORDER: seq<nat> := [
    7, 8, 21, 1, 2, 5, 6, 18, 19, 16, 17, 13, 14, 3, 4, 9, 22, 23, 24, 25, 26, 10, 11, 12, 15]

  lemma {:induction false} CodesInOrder(k: Wire.Permission)
    requires Rank(k) < KINDS
    ensures ORDER[Rank(k)] == Wire.Code(k)
  {
  }

  lemma {:induction false} BlocksAreGrouped(actions: seq<ClientAction>, n: nat)
    requires n <= KINDS
    ensures KindsBelow(ReadFirst(actions, n), n) && Grouped(ReadFirst(actions, n))
  {
    hide Rank, ReadKind, Kind, READ_ORDER;
    if n > 0 {
      BlocksAreGrouped(actions, n - 1);
      var j := NextBlock(actions, n - 1, Wire.All);
      BlockIsOfKind(actions, j);
      JoinGrouped(ReadFirst(actions, n - 1), ReadKind(actions, j), n - 1);
    }
  }

  /** The types of the permissions that are read follow this order. */
  lemma {:induction false} ReadInOrder(actions: seq<ClientAction>, i: nat, j: nat) returns (a: nat, b: nat)
    requires i < j < |ReadRole(actions)|
    ensures a <= b < |ORDER|
    ensures ToActionType(ReadRole(actions)[i]) == ORDER[a] && ToActionType(ReadRole(actions)[j]) == ORDER[b]
  {
    BlocksAreGrouped(actions, KINDS);
    var p, q := ReadRole(actions)[i], ReadRole(actions)[j];
    hide ReadFirst, Rank, ORDER, READ_ORDER, ToActionType, Wire.Code;
    a, b := Rank(Kind(p)), Rank(Kind(q));
    CodesInOrder(Kind(p));
    CodesInOrder(Kind(q));
    OrderLength();
  }

  lemma {:induction false} OrderLength()
    ensures |ORDER| == KINDS
  {
  }
}
