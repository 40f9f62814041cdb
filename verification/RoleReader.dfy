/** Permission::from_role: twenty-five blocks, each of which looks for the actions of one kind. */
module RoleReader {
  import opened Bytes
  import opened RolePermissions
  import opened RoleReading
  import opened UsedRoles
  import Wire = ActionCodec

  lemma {:induction false} ReadNext(actions: seq<ClientAction>, k: Wire.Permission)
    requires Rank(k) < KINDS
    ensures ReadFirst(actions, Rank(k) + 1) == ReadFirst(actions, Rank(k)) + ReadKind(actions, k)
  {
    OrderOfRank(k);
    hide ReadKind, Rank;
  }

  lemma {:induction false} ReadKindOnce(actions: seq<ClientAction>, k: Wire.Permission)
    requires Rank(k) < KINDS && !Repeatable(k)
    ensures ActionsOf(actions, k) == [] ==> ReadKind(actions, k) == []
    ensures ActionsOf(actions, k) != [] ==>
              Readable(ActionsOf(actions, k)[0]) && ReadKind(actions, k) == [ReadAs(ActionsOf(actions, k)[0])]
  {
    FoundReadable(actions, k);
    hide ReadAs, ActionsOf, KindOf, Readable, Rank;
  }

  lemma {:induction false} ReadKindAll(actions: seq<ClientAction>, k: Wire.Permission)
    requires Rank(k) < KINDS && Repeatable(k)
    ensures forall i :: 0 <= i < |ActionsOf(actions, k)| ==> Readable(ActionsOf(actions, k)[i])
    ensures ReadKind(actions, k) == ReadEach(ActionsOf(actions, k))
  {
    FoundReadable(actions, k);
    hide ReadAs, ActionsOf, KindOf, Readable, Rank;
  }

  /** A block that looks for one action: `get_action`. */
  method ReadOne(actions: seq<ClientAction>, k: Wire.Permission, ps: seq<Permission>) returns (out: seq<Permission>)
    requires Rank(k) < KINDS && !Repeatable(k) && ps == ReadFirst(actions, Rank(k))
    ensures out == ReadFirst(actions, Rank(k) + 1)
  {
    hide *;
    ReadNext(actions, k);
    ReadKindOnce(actions, k);
    FoundReadable(actions, k);
    var found := ActionsOf(actions, k);
    out := ps;
    if found != [] {
      out := out + [ReadAs(found[0])];
    } else {
      assert out + [] == out;
    }
  }

  /** A block that reads all actions of a kind: `get_all_actions_of_type`. */
  method ReadAll(actions: seq<ClientAction>, k: Wire.Permission, ps: seq<Permission>) returns (out: seq<Permission>)
    requires Rank(k) < KINDS && Repeatable(k) && ps == ReadFirst(actions, Rank(k))
    ensures out == ReadFirst(actions, Rank(k) + 1)
  {
    hide *;
    ReadNext(actions, k);
    ReadKindAll(actions, k);
    var found := ActionsOf(actions, k);
    out := ps;
    for i := 0 to |found|
      invariant out == ps + ReadEach(found)[..i]
    {
      ReadEachAt(found, i);
      out := out + [ReadAs(found[i])];
    }
  }

  lemma {:induction false} FirstRanks()
    ensures Rank(Wire.All) == 0 && Rank(Wire.ManageAuthority) == 1
    ensures Rank(Wire.ReplaceAuthority) == 2 && Rank(Wire.SolLimit) == 3
    ensures Rank(Wire.SolRecurringLimit) == 4 && Rank(Wire.TokenLimit) == 5
    ensures Rank(Wire.TokenRecurringLimit) == 6 && Rank(Wire.TokenDestinationLimit) == 7
    ensures Rank(Wire.TokenRecurringDestinationLimit) == 8 && Rank(Wire.SolDestinationLimit) == 9
    ensures Rank(Wire.SolRecurringDestinationLimit) == 10 && Rank(Wire.ProgramAll) == 11
  {
  }

  lemma {:induction false} LastRanks()
    ensures Rank(Wire.ProgramCurated) == 12 && Rank(Wire.Program) == 13
    ensures Rank(Wire.ProgramScope) == 14 && Rank(Wire.SubAccount) == 15
    ensures Rank(Wire.SubAccountV2Create) == 16 && Rank(Wire.SubAccountV2All) == 17
    ensures Rank(Wire.SubAccountV2Sign) == 18 && Rank(Wire.SubAccountV2Withdraw) == 19
    ensures Rank(Wire.SubAccountV2Toggle) == 20 && Rank(Wire.StakeLimit) == 21
    ensures Rank(Wire.StakeRecurringLimit) == 22 && Rank(Wire.StakeAll) == 23
    ensures Rank(Wire.AllButManageAuthority) == 24
  {
  }

  lemma {:induction false} RepeatableKinds()
    ensures !Repeatable(Wire.All) && !Repeatable(Wire.ManageAuthority)
    ensures !Repeatable(Wire.SolLimit) && !Repeatable(Wire.SolRecurringLimit)
    ensures !Repeatable(Wire.ProgramAll) && !Repeatable(Wire.ProgramCurated)
    ensures !Repeatable(Wire.SubAccount) && !Repeatable(Wire.SubAccountV2Create)
    ensures !Repeatable(Wire.StakeLimit) && !Repeatable(Wire.StakeRecurringLimit)
    ensures !Repeatable(Wire.StakeAll) && !Repeatable(Wire.AllButManageAuthority)
    ensures Repeatable(Wire.ReplaceAuthority) && Repeatable(Wire.TokenLimit)
    ensures Repeatable(Wire.TokenRecurringLimit) && Repeatable(Wire.TokenDestinationLimit)
    ensures Repeatable(Wire.TokenRecurringDestinationLimit) && Repeatable(Wire.SolDestinationLimit)
    ensures Repeatable(Wire.SolRecurringDestinationLimit) && Repeatable(Wire.Program)
    ensures Repeatable(Wire.ProgramScope) && Repeatable(Wire.SubAccountV2All)
    ensures Repeatable(Wire.SubAccountV2Sign) && Repeatable(Wire.SubAccountV2Withdraw)
    ensures Repeatable(Wire.SubAccountV2Toggle)
  {
  }

  /** A role whose bytes cannot be read as actions is None, and gives InvalidSwigData. */
  method FromRole(role: Option<seq<ClientAction>>) returns (r: Option<seq<Permission>>)
    ensures role.None? ==> r == None
    ensures role.Some? ==> r == Some(ReadRole(role.value)) && TellsRole(r.value, role.value)
  {
    if role.None? {
      return None;
    }
    var actions := role.value;
    ReadRoleEnds(actions);
    ReadRoleTells(actions);
    FirstRanks();
    LastRanks();
    RepeatableKinds();
    assert KINDS == 25;
    hide *;
    var ps: seq<Permission> := [];
    ps := ReadOne(actions, Wire.All, ps);
    ps := ReadOne(actions, Wire.ManageAuthority, ps);
    ps := ReadAll(actions, Wire.ReplaceAuthority, ps);
    ps := ReadOne(actions, Wire.SolLimit, ps);
    ps := ReadOne(actions, Wire.SolRecurringLimit, ps);
    ps := ReadAll(actions, Wire.TokenLimit, ps);
    ps := ReadAll(actions, Wire.TokenRecurringLimit, ps);
    ps := ReadAll(actions, Wire.TokenDestinationLimit, ps);
    ps := ReadAll(actions, Wire.TokenRecurringDestinationLimit, ps);
    ps := ReadAll(actions, Wire.SolDestinationLimit, ps);
    ps := ReadAll(actions, Wire.SolRecurringDestinationLimit, ps);
    ps := ReadOne(actions, Wire.ProgramAll, ps);
    ps := ReadOne(actions, Wire.ProgramCurated, ps);
    ps := ReadAll(actions, Wire.Program, ps);
    ps := ReadAll(actions, Wire.ProgramScope, ps);
    ps := ReadOne(actions, Wire.SubAccount, ps);
    ps := ReadOne(actions, Wire.SubAccountV2Create, ps);
    ps := ReadAll(actions, Wire.SubAccountV2All, ps);
    ps := ReadAll(actions, Wire.SubAccountV2Sign, ps);
    ps := ReadAll(actions, Wire.SubAccountV2Withdraw, ps);
    ps := ReadAll(actions, Wire.SubAccountV2Toggle, ps);
    ps := ReadOne(actions, Wire.StakeLimit, ps);
    ps := ReadOne(actions, Wire.StakeRecurringLimit, ps);
    ps := ReadOne(actions, Wire.StakeAll, ps);
    ps := ReadOne(actions, Wire.AllButManageAuthority, ps);
    return Some(ps);
  }
}
