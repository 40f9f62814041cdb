/** Lists of permissions: storing them as a role's actions and reading the role back. */
module RoleReading {
  import opened Bytes
  import opened RolePermissions
  import Wire = ActionCodec

  // ----- storing -----

  function TranslateAll(ps: seq<Permission>): (r: Option<seq<ClientAction>>)
    ensures r.Some? ==> |r.value| == |ps|
  {
    if ps == [] then Some([])
    else
      var front, last := TranslateAll(ps[..|ps| - 1]), Translate(ps[|ps| - 1]);
      if front.None? || last.None? then None else Some(front.value + [last.value])
  }

  lemma {:induction false} TranslateAllAt(ps: seq<Permission>, i: nat)
    requires i < |ps|
    ensures Translate(ps[i]).None? ==> TranslateAll(ps).None?
    ensures TranslateAll(ps).Some? ==> Translate(ps[i]) == Some(TranslateAll(ps).value[i])
  {
    hide Translate;
    if i < |ps| - 1 {
      TranslateAllAt(ps[..|ps| - 1], i);
    }
  }

  method ToClientActions(ps: seq<Permission>) returns (actions: Option<seq<ClientAction>>)
    ensures actions == TranslateAll(ps)
  {
    var pushed: seq<ClientAction> := [];
    for i := 0 to |ps|
      invariant TranslateAll(ps[..i]) == Some(pushed)
    {
      assert ps[..i + 1][..i] == ps[..i];
      var action := Translate(ps[i]);
      if action.None? {
        TranslateAllAt(ps, i);
        return None;
      }
      pushed := pushed + [action.value];
    }
    assert ps[..|ps|] == ps;
    return Some(pushed);
  }

  /** Exactly the lists with a program scope that has a window but no limit are rejected. */
  lemma {:induction false} TranslationFails(ps: seq<Permission>)
    ensures TranslateAll(ps).None? <==>
            exists i :: 0 <= i < |ps| && ps[i].ProgramScope? && ps[i].window.Some? && ps[i].limit.None?
  {
    hide Translate;
    if ps != [] {
      var front := ps[..|ps| - 1];
      TranslationFails(front);
      TranslateFails(ps[|ps| - 1]);
      assert forall i :: 0 <= i < |front| ==> front[i] == ps[i];
    }
  }

  // ----- reading -----

  /** The kinds in the order in which a role is read. */
  const READ_ORDER: seq<Wire.Permission> := [
    Wire.All, Wire.ManageAuthority, Wire.ReplaceAuthority, Wire.SolLimit, Wire.SolRecurringLimit, Wire.TokenLimit,
    Wire.TokenRecurringLimit, Wire.TokenDestinationLimit, Wire.TokenRecurringDestinationLimit,
    Wire.SolDestinationLimit, Wire.SolRecurringDestinationLimit, Wire.ProgramAll, Wire.ProgramCurated, Wire.Program,
    Wire.ProgramScope, Wire.SubAccount, Wire.SubAccountV2Create, Wire.SubAccountV2All, Wire.SubAccountV2Sign,
    Wire.SubAccountV2Withdraw, Wire.SubAccountV2Toggle, Wire.StakeLimit, Wire.StakeRecurringLimit, Wire.StakeAll,
    Wire.AllButManageAuthority]

  const KINDS: nat := 25

  /** The position of a kind in the reading order. */
  function Rank(k: Wire.Permission): (n: nat)
    ensures n <= KINDS
  {
    match k
    case All => 0
    case ManageAuthority => 1
    case ReplaceAuthority => 2
    case SolLimit => 3
    case SolRecurringLimit => 4
    case TokenLimit => 5
    case TokenRecurringLimit => 6
    case TokenDestinationLimit => 7
    case TokenRecurringDestinationLimit => 8
    case SolDestinationLimit => 9
    case SolRecurringDestinationLimit => 10
    case ProgramAll => 11
    case ProgramCurated => 12
    case Program => 13
    case ProgramScope => 14
    case SubAccount => 15
    case SubAccountV2Create => 16
    case SubAccountV2All => 17
    case SubAccountV2Sign => 18
    case SubAccountV2Withdraw => 19
    case SubAccountV2Toggle => 20
    case StakeLimit => 21
    case StakeRecurringLimit => 22
    case StakeAll => 23
    case AllButManageAuthority => 24
    case NoPermission => 25
    case CloseSwigAuthority => 25
    case ManageAuthorizationLocks => 25
  }

  lemma {:induction false} RankOfOrder(n: nat)
    requires n < KINDS
    ensures Rank(READ_ORDER[n]) == n
  {
  }

  lemma {:induction false} OrderOfRank(k: Wire.Permission)
    requires Rank(k) < KINDS
    ensures READ_ORDER[Rank(k)] == k
  {
  }

  lemma {:induction false} EveryPermissionIsRead(p: Permission)
    ensures Rank(Kind(p)) < KINDS
  {
  }

  /** The kinds of which a role may hold several actions. */
  predicate Repeatable(k: Wire.Permission)
  {
    match k
    case ReplaceAuthority => true
    case TokenLimit => true
    case TokenRecurringLimit => true
    case TokenDestinationLimit => true
    case TokenRecurringDestinationLimit => true
    case SolDestinationLimit => true
    case SolRecurringDestinationLimit => true
    case Program => true
    case ProgramScope => true
    case SubAccountV2All => true
    case SubAccountV2Sign => true
    case SubAccountV2Withdraw => true
    case SubAccountV2Toggle => true
    case _ => false
  }

  /** All entries of a repeatable kind are read, and the first entry of any other kind. */
  function Keep<T>(k: Wire.Permission, entries: seq<T>): seq<T>
  {
    if Repeatable(k) || entries == [] then entries else [entries[0]]
  }

  /** get_all_actions_of_type: an order-preserving filter. */
  function ActionsOf(actions: seq<ClientAction>, k: Wire.Permission): (r: seq<ClientAction>)
    ensures forall i :: 0 <= i < |r| ==> KindOf(r[i]) == k
  {
    if actions == [] then []
    else
      var front, last := ActionsOf(actions[..|actions| - 1], k), actions[|actions| - 1];
      if KindOf(last) == k then front + [last] else front
  }

  function ReadEach(actions: seq<ClientAction>): (r: seq<Permission>)
    requires forall i :: 0 <= i < |actions| ==> Readable(actions[i])
    ensures |r| == |actions|
  {
    seq(|actions|, i requires 0 <= i < |actions| => ReadAs(actions[i]))
  }

  lemma {:induction false} ReadEachAt(actions: seq<ClientAction>, i: nat)
    requires i < |actions| && forall j :: 0 <= j < |actions| ==> Readable(actions[j])
    ensures ReadEach(actions)[i] == ReadAs(actions[i])
  {
  }

  function ReadKind(actions: seq<ClientAction>, k: Wire.Permission): seq<Permission>
    requires Rank(k) < KINDS
  {
    ReadEach(Keep(k, ActionsOf(actions, k)))
  }

  /** What the first n blocks of from_role push. */
  function ReadFirst(actions: seq<ClientAction>, n: nat): seq<Permission>
    requires n <= KINDS
  {
    if n == 0 then []
    else
      RankOfOrder(n - 1);
      ReadFirst(actions, n - 1) + ReadKind(actions, READ_ORDER[n - 1])
  }

  function ReadRole(actions: seq<ClientAction>): seq<Permission>
  {
    ReadFirst(actions, KINDS)
  }

  lemma {:induction false} FoundReadable(actions: seq<ClientAction>, k: Wire.Permission)
    requires Rank(k) < KINDS
    ensures forall i :: 0 <= i < |ActionsOf(actions, k)| ==> Readable(ActionsOf(actions, k)[i])
  {
    forall i | 0 <= i < |ActionsOf(actions, k)| ensures Readable(ActionsOf(actions, k)[i]) {
      RankedIsReadable(ActionsOf(actions, k)[i]);
    }
  }

  lemma {:induction false} RankedIsReadable(a: ClientAction)
    requires Rank(KindOf(a)) < KINDS
    ensures Readable(a)
  {
  }

  lemma {:induction false} ReadRoleEnds(actions: seq<ClientAction>)
    ensures ReadFirst(actions, 0) == [] && ReadRole(actions) == ReadFirst(actions, KINDS)
  {
  }

  // ----- the normal form of a list -----

  function PermissionsOf(ps: seq<Permission>, k: Wire.Permission): (r: seq<Permission>)
    ensures forall i :: 0 <= i < |r| ==> Kind(r[i]) == k
  {
    if ps == [] then []
    else
      var front, last := PermissionsOf(ps[..|ps| - 1], k), ps[|ps| - 1];
      if Kind(last) == k then front + [last] else front
  }

  function NormEach(ps: seq<Permission>): (r: seq<Permission>)
    ensures |r| == |ps|
  {
    seq(|ps|, i requires 0 <= i < |ps| => Norm(ps[i]))
  }

  /** The normal form of the kept permissions of one kind. */
  function Group(ps: seq<Permission>, k: Wire.Permission): seq<Permission>
  {
    NormEach(Keep(k, PermissionsOf(ps, k)))
  }

  function Groups(ps: seq<Permission>, n: nat): seq<Permission>
    requires n <= KINDS
  {
    if n == 0 then [] else Groups(ps, n - 1) + Group(ps, READ_ORDER[n - 1])
  }

  /** Grouped by kind in reading order, stable within a kind, each permission in normal form. */
  function Normalise(ps: seq<Permission>): seq<Permission>
  {
    Groups(ps, KINDS)
  }

  // ----- reading back what was stored -----

  lemma {:induction false} StoredOfKind(ps: seq<Permission>, k: Wire.Permission)
    requires TranslateAll(ps).Some? && Rank(k) < KINDS
    ensures ReadEach(ActionsOf(TranslateAll(ps).value, k)) == NormEach(PermissionsOf(ps, k))
  {
    hide Translate, KindOf, ReadAs, Norm, Kind, Rank, Readable;
    if ps == [] {
    } else {
      var front, last := ps[..|ps| - 1], ps[|ps| - 1];
      var actions := TranslateAll(ps).value;
      StoredOfKind(front, k);
      KindIsKept(last);
      ReadTranslated(last);
      assert actions[..|actions| - 1] == TranslateAll(front).value;
      FoundReadable(actions, k);
      FoundReadable(actions[..|actions| - 1], k);
      var was, now := ActionsOf(actions[..|actions| - 1], k), ActionsOf(actions, k);
      if Kind(last) == k {
        assert ReadEach(now) == ReadEach(was) + [Norm(last)];
        assert NormEach(PermissionsOf(ps, k)) == NormEach(PermissionsOf(front, k)) + [Norm(last)];
      }
    }
  }

  lemma {:induction false} KindReadsBack(ps: seq<Permission>, k: Wire.Permission)
    requires TranslateAll(ps).Some? && Rank(k) < KINDS
    ensures ReadKind(TranslateAll(ps).value, k) == Group(ps, k)
  {
    StoredOfKind(ps, k);
    var found, kept := ActionsOf(TranslateAll(ps).value, k), PermissionsOf(ps, k);
    FoundReadable(TranslateAll(ps).value, k);
    hide TranslateAll, ActionsOf, PermissionsOf, Rank, Readable, ReadAs, Norm, KindOf, Kind;
    if kept != [] {
      assert ReadEach(found)[0] == NormEach(kept)[0];
    }
  }

  lemma {:induction false} GroupsReadBack(ps: seq<Permission>, n: nat)
    requires TranslateAll(ps).Some? && n <= KINDS
    ensures ReadFirst(TranslateAll(ps).value, n) == Groups(ps, n)
  {
    if n > 0 {
      GroupsReadBack(ps, n - 1);
      RankOfOrder(n - 1);
      KindReadsBack(ps, READ_ORDER[n - 1]);
      hide TranslateAll, Group, ReadKind, Rank;
    }
  }

  /** Reading a role gives the normal form of the permissions that were stored in it. */
  lemma {:induction false} StoredReadsBack(ps: seq<Permission>)
    requires TranslateAll(ps).Some?
    ensures ReadRole(TranslateAll(ps).value) == Normalise(ps)
  {
    GroupsReadBack(ps, KINDS);
    hide *;
    ReadRoleEnds(TranslateAll(ps).value);
    NormaliseEnds(ps);
  }

  lemma {:induction false} NormaliseEnds(ps: seq<Permission>)
    ensures Normalise(ps) == Groups(ps, KINDS)
  {
  }

  // ----- the order of the normal form -----

  lemma {:induction false} PermissionsOfAppend(a: seq<Permission>, b: seq<Permission>, k: Wire.Permission)
    ensures PermissionsOf(a + b, k) == PermissionsOf(a, k) + PermissionsOf(b, k)
    decreases |b|
  {
    hide Kind;
    if b == [] {
      assert a + b == a;
    } else {
      assert (a + b)[..|a + b| - 1] == a + b[..|b| - 1];
      PermissionsOfAppend(a, b[..|b| - 1], k);
    }
  }

  lemma {:induction false} PermissionsOfOneKind(ps: seq<Permission>, j: Wire.Permission, k: Wire.Permission)
    requires forall i :: 0 <= i < |ps| ==> Kind(ps[i]) == j
    ensures PermissionsOf(ps, k) == if j == k then ps else []
  {
    hide Kind;
    if ps != [] {
      PermissionsOfOneKind(ps[..|ps| - 1], j, k);
      assert ps == ps[..|ps| - 1] + [ps[|ps| - 1]];
    }
  }

  lemma {:induction false} GroupIsOfKind(ps: seq<Permission>, k: Wire.Permission)
    ensures forall i :: 0 <= i < |Group(ps, k)| ==> Kind(Group(ps, k)[i]) == k
  {
    var kept := Keep(k, PermissionsOf(ps, k));
    forall i | 0 <= i < |Group(ps, k)| ensures Kind(Group(ps, k)[i]) == k {
      NormFacts(kept[i]);
      hide Kind, Norm, PermissionsOf;
      assert Group(ps, k)[i] == Norm(kept[i]) && Kind(kept[i]) == k;
    }
  }

  /** The kind at position n of the reading order, and the group it adds. */
  lemma {:induction false} NextGroup(ps: seq<Permission>, n: nat, k: Wire.Permission) returns (j: Wire.Permission)
    requires n < KINDS
    ensures Groups(ps, n + 1) == Groups(ps, n) + Group(ps, j)
    ensures Rank(j) == n && (Rank(k) == n ==> j == k)
  {
    j := READ_ORDER[n];
    RankOfOrder(n);
    if Rank(k) == n {
      OrderOfRank(k);
    }
    hide Rank, Group;
  }

  lemma {:induction false} KindOfGroups(ps: seq<Permission>, n: nat, k: Wire.Permission)
    requires n <= KINDS
    ensures PermissionsOf(Groups(ps, n), k) == if Rank(k) < n then Group(ps, k) else []
  {
    hide Rank, Group, PermissionsOf, Kind, READ_ORDER;
    if n == 0 {
      assert PermissionsOf([], k) == [] by {
        PermissionsOfOneKind([], k, k);
      }
    } else {
      KindOfGroups(ps, n - 1, k);
      var j := NextGroup(ps, n - 1, k);
      hide Groups;
      GroupIsOfKind(ps, j);
      PermissionsOfAppend(Groups(ps, n - 1), Group(ps, j), k);
      PermissionsOfOneKind(Group(ps, j), j, k);
      assert [] + Group(ps, k) == Group(ps, k) && Group(ps, k) + [] == Group(ps, k);
    }
  }

  /** Within a kind the normal form keeps the order, and no kind is lost. */
  lemma {:induction false} NormaliseIsStable(ps: seq<Permission>, k: Wire.Permission)
    requires Rank(k) < KINDS
    ensures PermissionsOf(Normalise(ps), k) == NormEach(Keep(k, PermissionsOf(ps, k)))
  {
    KindOfGroups(ps, KINDS, k);
    hide Groups, PermissionsOf, Rank;
    assert Group(ps, k) == NormEach(Keep(k, PermissionsOf(ps, k)));
  }

  ghost predicate KindsBelow(ps: seq<Permission>, n: nat)
  {
    forall i :: 0 <= i < |ps| ==> Rank(Kind(ps[i])) < n
  }

  ghost predicate Grouped(ps: seq<Permission>)
  {
    forall i, j :: 0 <= i < j < |ps| ==> Rank(Kind(ps[i])) <= Rank(Kind(ps[j]))
  }

  lemma {:induction false} JoinGrouped(a: seq<Permission>, b: seq<Permission>, n: nat)
    requires KindsBelow(a, n) && Grouped(a)
    requires forall i :: 0 <= i < |b| ==> Rank(Kind(b[i])) == n
    ensures KindsBelow(a + b, n + 1) && Grouped(a + b)
  {
    hide Rank, Kind;
  }

  lemma {:induction false} GroupsAreGrouped(ps: seq<Permission>, n: nat)
    requires n <= KINDS
    ensures KindsBelow(Groups(ps, n), n) && Grouped(Groups(ps, n))
  {
    hide Rank, Group, Kind, READ_ORDER;
    if n > 0 {
      GroupsAreGrouped(ps, n - 1);
      var j := NextGroup(ps, n - 1, Wire.All);
      GroupIsOfKind(ps, j);
      JoinGrouped(Groups(ps, n - 1), Group(ps, j), n - 1);
    }
  }

  /** The kinds of the normal form follow the reading order. */
  lemma {:induction false} NormaliseIsGrouped(ps: seq<Permission>)
    ensures Grouped(Normalise(ps))
  {
    GroupsAreGrouped(ps, KINDS);
    hide *;
    NormaliseEnds(ps);
  }

  // ----- normalising again -----

  lemma {:induction false} NormEachTwice(ps: seq<Permission>)
    ensures NormEach(NormEach(ps)) == NormEach(ps)
  {
    forall i | 0 <= i < |ps| ensures Norm(Norm(ps[i])) == Norm(ps[i]) {
      NormFacts(ps[i]);
    }
  }

  lemma {:induction false} KeepTwice(k: Wire.Permission, ps: seq<Permission>)
    ensures NormEach(Keep(k, NormEach(Keep(k, ps)))) == NormEach(Keep(k, ps))
  {
    NormEachTwice(Keep(k, ps));
    hide Norm, Repeatable;
    var kept := NormEach(Keep(k, ps));
    assert |kept| == 1 ==> [kept[0]] == kept;
  }

  lemma {:induction false} SameGroups(a: seq<Permission>, b: seq<Permission>, n: nat)
    requires n <= KINDS
    requires forall k :: Rank(k) < KINDS ==> Group(a, k) == Group(b, k)
    ensures Groups(a, n) == Groups(b, n)
  {
    if n > 0 {
      SameGroups(a, b, n - 1);
      RankOfOrder(n - 1);
      hide Rank, Group;
    }
  }

  lemma {:induction false} NormaliseTwice(ps: seq<Permission>)
    ensures Normalise(Normalise(ps)) == Normalise(ps)
  {
    forall k | Rank(k) < KINDS ensures Group(Normalise(ps), k) == Group(ps, k) {
      NormaliseIsStable(ps, k);
      KeepTwice(k, PermissionsOf(ps, k));
      hide Normalise, Keep, PermissionsOf, NormEach, Rank;
    }
    SameGroups(Normalise(ps), ps, KINDS);
    hide *;
    NormaliseEnds(ps);
    NormaliseEnds(Normalise(ps));
  }

  ghost predicate AllTranslate(ps: seq<Permission>)
  {
    forall i :: 0 <= i < |ps| ==> Translate(ps[i]).Some?
  }

  lemma {:induction false} AllTranslateIff(ps: seq<Permission>)
    ensures TranslateAll(ps).Some? <==> AllTranslate(ps)
  {
    hide Translate;
    if ps != [] {
      AllTranslateIff(ps[..|ps| - 1]);
      assert ps == ps[..|ps| - 1] + [ps[|ps| - 1]];
    }
  }

  lemma {:induction false} ReadFirstTranslates(actions: seq<ClientAction>, n: nat)
    requires n <= KINDS
    ensures AllTranslate(ReadFirst(actions, n))
  {
    if n > 0 {
      ReadFirstTranslates(actions, n - 1);
      RankOfOrder(n - 1);
      KindTranslates(actions, READ_ORDER[n - 1]);
      hide Translate, ReadKind, Rank;
    }
  }

  lemma {:induction false} KindTranslates(actions: seq<ClientAction>, k: Wire.Permission)
    requires Rank(k) < KINDS
    ensures AllTranslate(ReadKind(actions, k))
  {
    FoundReadable(actions, k);
    hide ReadAs, ActionsOf, KindOf, Readable, Rank, Translate;
    var kept := Keep(k, ActionsOf(actions, k));
    forall i | 0 <= i < |kept| ensures Translate(ReadAs(kept[i])).Some? {
      ReadTranslates(kept[i]);
    }
  }

  /** Whatever a role holds, the permissions read from it can be stored again. */
  lemma {:induction false} ReadRoleTranslates(actions: seq<ClientAction>)
    ensures TranslateAll(ReadRole(actions)).Some?
  {
    ReadFirstTranslates(actions, KINDS);
    AllTranslateIff(ReadRole(actions));
    hide *;
    ReadRoleEnds(actions);
  }

  /** A normal form survives storing and reading unchanged. */
  lemma {:induction false} SecondRoundTrip(ps: seq<Permission>)
    requires TranslateAll(ps).Some?
    ensures TranslateAll(Normalise(ps)).Some?
    ensures ReadRole(TranslateAll(Normalise(ps)).value) == Normalise(ps)
  {
    hide *;
    StoredReadsBack(ps);
    ReadRoleTranslates(TranslateAll(ps).value);
    StoredReadsBack(Normalise(ps));
    NormaliseTwice(ps);
  }

  // ----- what the normal form keeps -----

  /** Each kind that is read only once occurs at most once. */
  ghost predicate AtMostOnce(ps: seq<Permission>)
  {
    forall k :: !Repeatable(k) ==> |PermissionsOf(ps, k)| <= 1
  }

  lemma {:induction false} CountInKind(ps: seq<Permission>, p: Permission, k: Wire.Permission)
    ensures multiset(PermissionsOf(ps, k))[p] == if Kind(p) == k then multiset(ps)[p] else 0
  {
    hide Kind;
    if ps != [] {
      CountInKind(ps[..|ps| - 1], p, k);
      assert ps == ps[..|ps| - 1] + [ps[|ps| - 1]];
    }
  }

  lemma {:induction false} KindOfNormEach(ps: seq<Permission>, k: Wire.Permission)
    ensures PermissionsOf(NormEach(ps), k) == NormEach(PermissionsOf(ps, k))
  {
    hide Kind, Norm;
    if ps != [] {
      var front, last := ps[..|ps| - 1], ps[|ps| - 1];
      KindOfNormEach(front, k);
      NormFacts(last);
      assert NormEach(ps)[..|ps| - 1] == NormEach(front);
      assert NormEach(ps)[|ps| - 1] == Norm(last);
      if Kind(last) == k {
        assert NormEach(PermissionsOf(ps, k)) == NormEach(PermissionsOf(front, k)) + [Norm(last)];
      }
    }
  }

  lemma {:induction false} SameKindsSameItems(a: seq<Permission>, b: seq<Permission>)
    requires forall k :: Rank(k) < KINDS ==> PermissionsOf(a, k) == PermissionsOf(b, k)
    ensures multiset(a) == multiset(b)
  {
    hide Kind, Rank, PermissionsOf;
    forall p: Permission ensures multiset(a)[p] == multiset(b)[p] {
      EveryPermissionIsRead(p);
      CountInKind(a, p, Kind(p));
      CountInKind(b, p, Kind(p));
    }
  }

  lemma {:induction false} SameItemsSameCounts(a: seq<Permission>, b: seq<Permission>, k: Wire.Permission)
    requires multiset(a) == multiset(b)
    ensures |PermissionsOf(a, k)| == |PermissionsOf(b, k)|
  {
    hide Kind, PermissionsOf;
    forall p: Permission ensures multiset(PermissionsOf(a, k))[p] == multiset(PermissionsOf(b, k))[p] {
      CountInKind(a, p, k);
      CountInKind(b, p, k);
    }
    assert multiset(PermissionsOf(a, k)) == multiset(PermissionsOf(b, k));
    assert |multiset(PermissionsOf(a, k))| == |multiset(PermissionsOf(b, k))|;
  }

  lemma {:induction false} UnreadKindsAbsent(ps: seq<Permission>, k: Wire.Permission)
    requires Rank(k) == KINDS
    ensures PermissionsOf(ps, k) == []
  {
    hide Kind, Rank;
    if ps != [] {
      EveryPermissionIsRead(ps[|ps| - 1]);
      UnreadKindsAbsent(ps[..|ps| - 1], k);
    }
  }

  /** Nothing is lost, and everything is only reordered, exactly when no such kind is given twice. */
  lemma {:induction false} NormaliseIsPermutation(ps: seq<Permission>)
    ensures multiset(Normalise(ps)) == multiset(NormEach(ps)) <==> AtMostOnce(ps)
  {
    hide Kind, Rank, PermissionsOf, NormEach, Normalise, Repeatable;
    if AtMostOnce(ps) {
      forall k | Rank(k) < KINDS ensures PermissionsOf(Normalise(ps), k) == PermissionsOf(NormEach(ps), k) {
        NormaliseIsStable(ps, k);
        KindOfNormEach(ps, k);
        KeepsAll(ps, k);
      }
      SameKindsSameItems(Normalise(ps), NormEach(ps));
    }
    if multiset(Normalise(ps)) == multiset(NormEach(ps)) {
      forall k | !Repeatable(k) ensures |PermissionsOf(ps, k)| <= 1 {
        if Rank(k) < KINDS {
          NormaliseIsStable(ps, k);
          KindOfNormEach(ps, k);
          SameItemsSameCounts(Normalise(ps), NormEach(ps), k);
        } else {
          UnreadKindsAbsent(ps, k);
        }
      }
    }
  }

  lemma {:induction false} KeepsAll(ps: seq<Permission>, k: Wire.Permission)
    requires AtMostOnce(ps)
    ensures Keep(k, PermissionsOf(ps, k)) == PermissionsOf(ps, k)
  {
    hide PermissionsOf, Repeatable;
    var all := PermissionsOf(ps, k);
    assert |all| == 1 ==> [all[0]] == all;
  }

  // ----- updating a role's actions -----

  datatype UpdateAuthorityData =
    | ReplaceAll(permissions: seq<Permission>)
    | AddActions(permissions: seq<Permission>)
    | RemoveActionsByType(permissions: seq<Permission>)
    | RemoveActionsByIndex(indices: seq<nat>)

  datatype InterfaceUpdate =
    | ReplaceAllWith(actions: seq<ClientAction>)
    | Add(actions: seq<ClientAction>)
    | RemoveTypes(types: seq<nat>)
    | RemoveIndices(indices: seq<nat>)

  function ToInterfaceData(update: UpdateAuthorityData): Option<InterfaceUpdate>
  {
    match update
    case ReplaceAll(ps) =>
      var actions := TranslateAll(ps);
      if actions.None? then None else Some(ReplaceAllWith(actions.value))
    case AddActions(ps) =>
      var actions := TranslateAll(ps);
      if actions.None? then None else Some(Add(actions.value))
    case RemoveActionsByType(ps) =>
      Some(RemoveTypes(seq(|ps|, i requires 0 <= i < |ps| => ToActionType(ps[i]))))
    case RemoveActionsByIndex(indices) => Some(RemoveIndices(indices))
  }

  /** Removing by type names exactly the kinds that adding the same permissions stores, one by one. */
  lemma {:induction false} RemovesWhatAddAdds(ps: seq<Permission>, i: nat)
    requires i < |ps| && ToInterfaceData(AddActions(ps)).Some?
    ensures var added := ToInterfaceData(AddActions(ps)).value.actions;
            var removed := ToInterfaceData(RemoveActionsByType(ps)).value.types;
            |added| == |removed| == |ps| && removed[i] == Wire.Code(KindOf(added[i]))
  {
    hide Translate, ToActionType, KindOf;
    TranslateAllAt(ps, i);
    ActionTypeIsWireCode(ps[i]);
  }

  /**
   An update stays of its kind. Replacing and adding fail only on a program scope with a window but
   no limit; what they store reads back as the normal form; indexes are passed on as they are.
   */
  lemma {:induction false} UpdateIsPassedOn(update: UpdateAuthorityData)
    ensures var r := ToInterfaceData(update);
            match update
            case ReplaceAll(ps) =>
              && (r.None? <==>
                    exists i :: 0 <= i < |ps| && ps[i].ProgramScope? && ps[i].window.Some? && ps[i].limit.None?)
              && (r.Some? ==> r.value.ReplaceAllWith? && ReadRole(r.value.actions) == Normalise(ps))
            case AddActions(ps) =>
              && (r.None? <==>
                    exists i :: 0 <= i < |ps| && ps[i].ProgramScope? && ps[i].window.Some? && ps[i].limit.None?)
              && (r.Some? ==> r.value.Add? && ReadRole(r.value.actions) == Normalise(ps))
            case RemoveActionsByType(ps) => r.Some? && r.value.RemoveTypes? && |r.value.types| == |ps|
            case RemoveActionsByIndex(indices) => r == Some(RemoveIndices(indices))
  {
    hide TranslateAll, ReadRole, Normalise, ToActionType;
    if update.ReplaceAll? || update.AddActions? {
      TranslationFails(update.permissions);
      if TranslateAll(update.permissions).Some? {
        StoredReadsBack(update.permissions);
      }
    }
  }
}
