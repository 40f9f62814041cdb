/** Questions about a role's parsed actions, and the action that new authorities must have. */
module ActionQueries {
  import opened Bytes
  import opened StructCodecs
  import opened ActionCodec
  import opened SpendControl
  import opened ActionsBuilder

  // ----- spend queries -----

  predicate CanSpendMax(actions: seq<Action>, asset: Asset)
  {
    exists i :: 0 <= i < |actions| && ControlOf(actions[i], asset).CanSpendMax()
  }

  predicate CanSpend(actions: seq<Action>, asset: Asset, wanted: Option<int>)
  {
    exists i :: 0 <= i < |actions| && ControlOf(actions[i], asset).CanSpend(wanted)
  }

  /** The least limit that no action exceeds, starting from nothing. */
  function SpendLimit(actions: seq<Action>, asset: Asset): Limit
  {
    if actions == [] then AtMost(0)
    else Join(SpendLimit(actions[..|actions| - 1], asset), LimitOf(actions[|actions| - 1], asset))
  }

  /** The controller of the first uncapped action. */
  function FirstUncapped(actions: seq<Action>, asset: Asset): (c: Option<Control>)
    ensures c.None? <==> !CanSpendMax(actions, asset)
    ensures c.Some? ==> c.value.CanSpendMax()
    decreases |actions|
  {
    if actions == [] then None
    else if ControlOf(actions[0], asset).CanSpendMax() then Some(ControlOf(actions[0], asset))
    else
      assert actions == [actions[0]] + actions[1..];
      FirstUncapped(actions[1..], asset)
  }

  /** What solSpend and tokenSpend answer: the first uncapped controller, else the first of all, else none. */
  function Spend(actions: seq<Action>, asset: Asset): Control
  {
    var uncapped := FirstUncapped(actions, asset);
    if uncapped.Some? then uncapped.value
    else if actions == [] then NO_CONTROL
    else ControlOf(actions[0], asset)
  }

  /** No action is allowed more than the first one, which is allowed at least nothing. */
  ghost predicate FirstIsLargest(actions: seq<Action>, asset: Asset)
  {
    actions != [] ==>
      && Below(AtMost(0), LimitOf(actions[0], asset))
      && forall j :: 0 <= j < |actions| ==> Below(LimitOf(actions[j], asset), LimitOf(actions[0], asset))
  }

  lemma {:induction false} NoneUncapped(actions: seq<Action>, asset: Asset)
    requires forall i :: 0 <= i < |actions| ==> LimitOf(actions[i], asset).AtMost?
    ensures SpendLimit(actions, asset).AtMost?
  {
    if actions != [] {
      NoneUncapped(actions[..|actions| - 1], asset);
    }
  }

  lemma {:induction false} LimitBoundsEach(actions: seq<Action>, asset: Asset, i: nat)
    requires i < |actions|
    ensures Below(LimitOf(actions[i], asset), SpendLimit(actions, asset))
  {
    if i < |actions| - 1 {
      LimitBoundsEach(actions[..|actions| - 1], asset, i);
    }
  }

  lemma {:induction false} LimitIsAttained(actions: seq<Action>, asset: Asset) returns (i: nat)
    ensures SpendLimit(actions, asset) == AtMost(0) ||
            (i < |actions| && SpendLimit(actions, asset) == LimitOf(actions[i], asset))
  {
    i := 0;
    if actions != [] {
      i := LimitIsAttained(actions[..|actions| - 1], asset);
      if SpendLimit(actions, asset) == LimitOf(actions[|actions| - 1], asset) {
        i := |actions| - 1;
      }
    }
  }

  lemma {:induction false} LimitAtLeastZero(actions: seq<Action>, asset: Asset)
    ensures Below(AtMost(0), SpendLimit(actions, asset))
  {
    if actions != [] {
      LimitAtLeastZero(actions[..|actions| - 1], asset);
    }
  }

  /** The two loops of solSpendLimit and tokenSpendLimit. */
  method QuerySpendLimit(actions: seq<Action>, asset: Asset) returns (limit: Limit)
    ensures limit == SpendLimit(actions, asset)
  {
    for i := 0 to |actions|
      invariant forall j :: 0 <= j < i ==> LimitOf(actions[j], asset).AtMost?
    {
      if LimitOf(actions[i], asset).Uncapped? {
        LimitBoundsEach(actions, asset, i);
        return Uncapped;
      }
    }
    NoneUncapped(actions, asset);
    var max := 0;
    for i := 0 to |actions|
      invariant SpendLimit(actions[..i], asset) == AtMost(max)
    {
      assert actions[..i + 1][..i] == actions[..i];
      if LimitOf(actions[i], asset).amount > max {
        max := LimitOf(actions[i], asset).amount;
      }
    }
    assert actions[..|actions|] == actions;
    return AtMost(max);
  }

  /** A positive amount may be spent exactly when the limit allows it. */
  lemma {:induction false} CanSpendIffWithinLimit(actions: seq<Action>, asset: Asset, amount: int)
    requires amount > 0
    ensures CanSpend(actions, asset, Some(amount)) <==> Below(AtMost(amount), SpendLimit(actions, asset))
  {
    if CanSpend(actions, asset, Some(amount)) {
      var i :| 0 <= i < |actions| && ControlOf(actions[i], asset).CanSpend(Some(amount));
      LimitBoundsEach(actions, asset, i);
    }
    if Below(AtMost(amount), SpendLimit(actions, asset)) {
      var i := LimitIsAttained(actions, asset);
      assert ControlOf(actions[i], asset).CanSpend(Some(amount));
    }
  }

  lemma {:induction false} CanSpendMaxIffUncapped(actions: seq<Action>, asset: Asset)
    ensures CanSpendMax(actions, asset) <==> SpendLimit(actions, asset) == Uncapped
  {
    if CanSpendMax(actions, asset) {
      var i :| 0 <= i < |actions| && ControlOf(actions[i], asset).CanSpendMax();
      LimitBoundsEach(actions, asset, i);
    }
    if SpendLimit(actions, asset) == Uncapped {
      var i := LimitIsAttained(actions, asset);
      assert ControlOf(actions[i], asset).CanSpendMax();
    }
  }

  /** Without an amount, or with 0, it is enough that some action controls the asset at all. */
  lemma {:induction false} CanSpendNothing(actions: seq<Action>, asset: Asset)
    ensures CanSpend(actions, asset, None) <==> CanSpend(actions, asset, Some(0))
    ensures (exists amount: int :: amount > 0 && CanSpend(actions, asset, Some(amount))) ==>
              CanSpend(actions, asset, None)
  {
    if CanSpend(actions, asset, None) {
      var i :| 0 <= i < |actions| && ControlOf(actions[i], asset).CanSpend(None);
      assert ControlOf(actions[i], asset).CanSpend(Some(0));
    }
    if CanSpend(actions, asset, Some(0)) {
      var i :| 0 <= i < |actions| && ControlOf(actions[i], asset).CanSpend(Some(0));
      assert ControlOf(actions[i], asset).CanSpend(None);
    }
    if amount: int :| amount > 0 && CanSpend(actions, asset, Some(amount)) {
      var i :| 0 <= i < |actions| && ControlOf(actions[i], asset).CanSpend(Some(amount));
      assert ControlOf(actions[i], asset).CanSpend(None);
    }
  }

  /** Lists of actions combine like their limits: the larger one, uncapped on top. */
  lemma {:induction false} LimitOfConcatenation(a: seq<Action>, b: seq<Action>, asset: Asset)
    ensures SpendLimit(a + b, asset) == Join(SpendLimit(a, asset), SpendLimit(b, asset))
    decreases |b|
  {
    if b == [] {
      assert a + b == a;
      LimitAtLeastZero(a, asset);
    } else {
      var front := b[..|b| - 1];
      LimitOfConcatenation(a, front, asset);
      assert (a + b)[..|a + b| - 1] == a + front;
      JoinAssociates(SpendLimit(a, asset), SpendLimit(front, asset), LimitOf(b[|b| - 1], asset));
    }
  }

  lemma {:induction false} JoinAssociates(x: Limit, y: Limit, z: Limit)
    ensures Join(Join(x, y), z) == Join(x, Join(y, z))
  {
  }

  /** The controller is uncapped exactly when the limit is, and never promises more than the limit. */
  lemma {:induction false} SpendNeverExceedsLimit(actions: seq<Action>, asset: Asset)
    ensures Spend(actions, asset).SpendLimit() == Uncapped <==> SpendLimit(actions, asset) == Uncapped
    ensures Below(Spend(actions, asset).SpendLimit(), SpendLimit(actions, asset))
  {
    CanSpendMaxIffUncapped(actions, asset);
    if actions != [] {
      LimitBoundsEach(actions, asset, 0);
    }
  }

  /** The controller states the limit exactly when some action is uncapped or the first limit is the largest. */
  lemma {:induction false} SpendStatesLimit(actions: seq<Action>, asset: Asset)
    ensures Spend(actions, asset).SpendLimit() == SpendLimit(actions, asset) <==>
            CanSpendMax(actions, asset) || FirstIsLargest(actions, asset)
  {
    SpendNeverExceedsLimit(actions, asset);
    CanSpendMaxIffUncapped(actions, asset);
    if actions != [] && !CanSpendMax(actions, asset) {
      LimitAtLeastZero(actions, asset);
      var k := LimitIsAttained(actions, asset);
      forall j | 0 <= j < |actions| ensures Below(LimitOf(actions[j], asset), SpendLimit(actions, asset)) {
        LimitBoundsEach(actions, asset, j);
      }
    }
  }

  lemma {:induction false} FirstUncappedAt(actions: seq<Action>, asset: Asset, i: nat)
    requires i < |actions| && ControlOf(actions[i], asset).CanSpendMax()
    requires forall j :: 0 <= j < i ==> !ControlOf(actions[j], asset).CanSpendMax()
    ensures FirstUncapped(actions, asset) == Some(ControlOf(actions[i], asset))
    decreases |actions|
  {
    if i > 0 {
      FirstUncappedAt(actions[1..], asset, i - 1);
    }
  }

  /** solSpend and tokenSpend. */
  method QuerySpend(actions: seq<Action>, asset: Asset) returns (control: Control)
    ensures control == Spend(actions, asset)
    ensures control.SpendLimit() == Uncapped <==> SpendLimit(actions, asset) == Uncapped
    ensures Below(control.SpendLimit(), SpendLimit(actions, asset))
    ensures control.SpendLimit() == SpendLimit(actions, asset) <==>
            CanSpendMax(actions, asset) || FirstIsLargest(actions, asset)
  {
    SpendNeverExceedsLimit(actions, asset);
    SpendStatesLimit(actions, asset);
    for i := 0 to |actions|
      invariant forall j :: 0 <= j < i ==> !ControlOf(actions[j], asset).CanSpendMax()
    {
      if LimitOf(actions[i], asset).Uncapped? {
        FirstUncappedAt(actions, asset, i);
        return ControlOf(actions[i], asset);
      }
    }
    assert !CanSpendMax(actions, asset);
    if actions == [] {
      return NO_CONTROL;
    }
    return ControlOf(actions[0], asset);
  }

  // ----- authorization locks -----

  function LockMax(a: Action): Option<int>
  {
    if a.payload.permission.ManageAuthorizationLocks? then Some(Number(a.payload.data, MaxDurationSlots)) else None
  }

  method AuthorizationLockMaxDurationSlots(actions: seq<Action>) returns (max: Option<int>)
    ensures max == None <==> forall i :: 0 <= i < |actions| ==> LockMax(actions[i]) == None
    ensures max.Some? ==> exists i ::
              && 0 <= i < |actions| && max == LockMax(actions[i])
              && forall j :: 0 <= j < i ==> LockMax(actions[j]) == None
  {
    for i := 0 to |actions|
      invariant forall j :: 0 <= j < i ==> LockMax(actions[j]) == None
    {
      if LockMax(actions[i]).Some? {
        return LockMax(actions[i]);
      }
    }
    return None;
  }

  // ----- programs -----

  predicate CanUseProgram(actions: seq<Action>, program: seq<Byte>)
  {
    exists i :: 0 <= i < |actions| && UsesProgram(actions[i], program)
  }

  predicate UsesProgram(a: Action, program: seq<Byte>)
  {
    || AllButManageAuthorityAccess(a)
    || a.payload.permission.ProgramAll?
    || a.payload.permission.ProgramCurated?
    || (a.payload.permission.Program? && KeyBytes(a.payload.data, ProgramId) == program)
  }

  predicate IsProgramAction(a: Action)
  {
    var p := a.header.permission;
    AllButManageAuthorityAccess(a) || p.Program? || p.ProgramAll? || p.ProgramCurated?
  }

  predicate HasProgramAction(actions: seq<Action>)
  {
    exists i :: 0 <= i < |actions| && IsProgramAction(actions[i])
  }

  predicate IsRoot(actions: seq<Action>)
  {
    exists i :: 0 <= i < |actions| && actions[i].header.permission.All?
  }

  // ----- the program action of new authorities -----

  /** ProgramAll as the builder makes it when it is the only action. */
  const PROGRAM_ALL: Action := Action(Header(ProgramAll, 0, 8), Payload(ProgramAll, map[]))

  const PROGRAM_ALL_BYTES: seq<Byte> := [13, 0, 0, 0, 8, 0, 0, 0]

  lemma {:induction false} ProgramAllHeader()
    ensures EncodeHeader(PROGRAM_ALL.header) == Some(PROGRAM_ALL_BYTES)
  {
    assert ToLE(13, 2) == [13] + ToLE(0, 1) == [13, 0];
    assert ToLE(0, 2) == [0] + ToLE(0, 1) == [0, 0];
    assert ToLE(0, 3) == [0] + ToLE(0, 2);
    assert ToLE(8, 4) == [8] + ToLE(0, 3) == [8, 0, 0, 0];
    hide ToLE;
    assert [13, 0] + [0, 0] + [8, 0, 0, 0] == PROGRAM_ALL_BYTES;
  }

  lemma {:induction false} ProgramAllBuilds()
    ensures var configs := [Config(ProgramAll, 0, Marker)];
            && AllSound(configs)
            && BuildFrom(configs, 0) == Some(PROGRAM_ALL_BYTES)
            && From(PROGRAM_ALL_BYTES, 1) == Some(Actions(PROGRAM_ALL_BYTES, [PROGRAM_ALL]))
  {
    var config := Config(ProgramAll, 0, Marker);
    var configs := [config];
    ProgramAllRecord(config);
    hide *;
    BuildNone();
    BuildFirst(configs, 0);
    BuiltActionsParse(configs);
    ExpectedFirst(configs, 0);
    assert configs[1..] == [] && Expected([], 8) == [];
    assert PROGRAM_ALL_BYTES + [] == PROGRAM_ALL_BYTES;
    assert BuildFrom(configs, 0) == Some(PROGRAM_ALL_BYTES);
    assert Expected(configs, 0) == [PROGRAM_ALL];
  }

  lemma {:induction false} ProgramAllRecord(config: Config)
    requires config == Config(ProgramAll, 0, Marker)
    ensures AllSound([config]) && LengthWithHeader(config) == 8 && PayloadOf(config) == PROGRAM_ALL.payload
    ensures RecordOf(config, 8) == Some(PROGRAM_ALL_BYTES)
  {
    ProgramAllHeader();
    hide EncodeHeader;
    assert PROGRAM_ALL_BYTES + [] == PROGRAM_ALL_BYTES;
  }

  /** What ensureProgramAction gives: nothing new for a role that has a program action. */
  function Ensured(a: Actions): Option<Actions>
  {
    if IsRoot(a.actions) || HasProgramAction(a.actions) then Some(a)
    else From(a.raw + PROGRAM_ALL_BYTES, |a.actions| + 1)
  }

  method EnsureProgramAction(a: Actions) returns (r: Option<Actions>)
    ensures r == Ensured(a)
  {
    if IsRoot(a.actions) {
      return Some(a);
    }
    if HasProgramAction(a.actions) {
      return Some(a);
    }
    assert Ensured(a) == From(a.raw + PROGRAM_ALL_BYTES, |a.actions| + 1);
    hide *;
    var programAll := BuildProgramAll();
    var combined := new Byte[|a.raw| + |programAll.raw|](i => 0);
    SetBytes(combined, a.raw, 0);
    AppendBytes(combined, programAll.raw, |a.raw|, a.raw);
    assert combined[..] == a.raw + PROGRAM_ALL_BYTES;
    r := ActionsFrom(combined[..], |a.actions| + |programAll.actions|);
  }

  /** `Actions.set().programAll().get()`. */
  method BuildProgramAll() returns (built: Actions)
    ensures built == Actions(PROGRAM_ALL_BYTES, [PROGRAM_ALL])
  {
    ProgramAllBuilds();
    ProgramAllCall();
    hide *;
    var builder := new ActionsBuilder();
    var _ := builder.Add(CallProgramAll);
    assert builder.configs == [Config(ProgramAll, 0, Marker)];
    var got := builder.Get();
    built := got.value;
  }

  lemma {:induction false} ProgramAllCall()
    ensures ConfigOf(CallProgramAll) == Some(Config(ProgramAll, 0, Marker))
  {
  }

  /** The records fill the buffer, each ending inside it. */
  ghost predicate FillsBuffer(actions: seq<Action>, length: nat)
  {
    && (forall i :: 0 <= i < |actions| ==> actions[i].header.boundary <= length)
    && (if actions == [] then length == 0 else actions[|actions| - 1].header.boundary == length)
  }

  /** A value that parses to itself and whose records fill its buffer. */
  ghost predicate WellFormed(a: Actions)
  {
    From(a.raw, |a.actions|) == Some(a) && FillsBuffer(a.actions, |a.raw|)
  }

  /** Everything that the builder makes is well formed. */
  lemma {:induction false} BuiltIsWellFormed(configs: seq<Config>)
    requires AllSound(configs) && BuildFrom(configs, 0).Some?
    ensures From(BuildFrom(configs, 0).value, |configs|).Some?
    ensures WellFormed(From(BuildFrom(configs, 0).value, |configs|).value)
  {
    hide Sound, Parse, BuildFrom, Expected;
    BuiltActionsParse(configs);
    BuildSucceeds(configs, 0);
    BoundariesIncrease(configs, 0);
    BuildNone();
  }

  lemma {:induction false} ParseAtPrefix(raw: seq<Byte>, more: seq<Byte>, cursor: nat)
    requires ParseAt(raw, cursor).Some? && ParseAt(raw, cursor).value.header.boundary <= |raw|
    ensures ParseAt(raw + more, cursor) == ParseAt(raw, cursor)
  {
    var boundary := ParseAt(raw, cursor).value.header.boundary;
    assert cursor + HEADER_LENGTH <= |raw|;
    hide DecodeHeader, DecodePayload;
    assert Slice(raw + more, cursor, cursor + HEADER_LENGTH) == Slice(raw, cursor, cursor + HEADER_LENGTH);
    assert Slice(raw + more, cursor + HEADER_LENGTH, boundary) == Slice(raw, cursor + HEADER_LENGTH, boundary);
  }

  lemma {:induction false} ProgramAllParses(raw: seq<Byte>)
    ensures ParseAt(raw + PROGRAM_ALL_BYTES, |raw|) == Some(PROGRAM_ALL)
  {
    MarkerRoundTrip(ProgramAll);
    hide EncodeHeader, DecodeHeader, DecodePayload;
    ProgramAllHeader();
    HeaderRoundTrip(PROGRAM_ALL.header, []);
    assert PROGRAM_ALL_BYTES + [] == PROGRAM_ALL_BYTES;
    var buffer := raw + PROGRAM_ALL_BYTES;
    assert Slice(buffer, |raw|, |raw| + HEADER_LENGTH) == PROGRAM_ALL_BYTES;
    assert Slice(buffer, |raw| + HEADER_LENGTH, 8) == [];
  }

  /** One record more behind records that fill the buffer. */
  lemma {:induction false} ParseOneMore(raw: seq<Byte>, cursor: nat, actions: seq<Action>)
    requires Parse(raw, cursor, |actions|) == Some(actions)
    requires forall i :: 0 <= i < |actions| ==> actions[i].header.boundary <= |raw|
    requires (if actions == [] then cursor else actions[|actions| - 1].header.boundary) == |raw|
    ensures Parse(raw + PROGRAM_ALL_BYTES, cursor, |actions| + 1) == Some(actions + [PROGRAM_ALL])
    decreases |actions|
  {
    hide ParseAt;
    var buffer := raw + PROGRAM_ALL_BYTES;
    if actions == [] {
      ProgramAllParses(raw);
      assert Parse(buffer, PROGRAM_ALL.header.boundary, 0) == Some([]);
      assert actions + [PROGRAM_ALL] == [PROGRAM_ALL] + [];
    } else {
      var rest := Parse(raw, actions[0].header.boundary, |actions| - 1).value;
      assert actions == [actions[0]] + rest;
      ParseAtPrefix(raw, PROGRAM_ALL_BYTES, cursor);
      assert forall i :: 0 <= i < |rest| ==> rest[i] == actions[i + 1];
      ParseOneMore(raw, actions[0].header.boundary, rest);
      assert actions + [PROGRAM_ALL] == [actions[0]] + (rest + [PROGRAM_ALL]);
    }
  }

  /** Unchanged, or the old list followed by ProgramAll with the old bytes as a prefix. */
  lemma {:induction false} EnsuredKeepsOldActions(a: Actions)
    requires WellFormed(a)
    ensures Ensured(a) ==
            if HasProgramAction(a.actions) then Some(a)
            else Some(Actions(a.raw + PROGRAM_ALL_BYTES, a.actions + [PROGRAM_ALL]))
  {
    hide Parse;
    if IsRoot(a.actions) {
      var i :| 0 <= i < |a.actions| && a.actions[i].header.permission.All?;
      assert IsProgramAction(a.actions[i]);
    } else if !HasProgramAction(a.actions) {
      ParseOneMore(a.raw, 0, a.actions);
    }
  }

  /** The result has a program action, so a second call changes nothing. */
  lemma {:induction false} EnsuringTwiceIsOnce(a: Actions)
    requires WellFormed(a)
    ensures Ensured(a).Some? && HasProgramAction(Ensured(a).value.actions)
    ensures Ensured(Ensured(a).value) == Ensured(a)
  {
    EnsuredKeepsOldActions(a);
    var all := a.actions + [PROGRAM_ALL];
    assert IsProgramAction(all[|a.actions|]);
  }

  /**
   The result is well formed again exactly when nothing was appended, or nothing stood before it:
   behind other records the appended header's boundary 8 is not the end of the buffer.
   */
  lemma {:induction false} EnsuredIsWellFormed(a: Actions)
    requires WellFormed(a)
    ensures Ensured(a).Some?
    ensures WellFormed(Ensured(a).value) <==> HasProgramAction(a.actions) || a.actions == []
  {
    EnsuredKeepsOldActions(a);
    if !HasProgramAction(a.actions) {
      var all := a.actions + [PROGRAM_ALL];
      assert all[|all| - 1] == PROGRAM_ALL;
      if a.actions == [] {
        ProgramAllBuilds();
        assert a.raw == [] && a.raw + PROGRAM_ALL_BYTES == PROGRAM_ALL_BYTES && all == [PROGRAM_ALL];
      } else {
        RecordsTakeBytes(a);
      }
    }
  }

  lemma {:induction false} RecordsTakeBytes(a: Actions)
    requires WellFormed(a) && a.actions != []
    ensures |a.raw| >= HEADER_LENGTH
  {
    hide DecodePayload;
    assert ParseAt(a.raw, 0).Some?;
  }

  /** The added action lets the role use every program but spend nothing more. */
  lemma {:induction false} EnsuredChangesOnlyPrograms(a: Actions, asset: Asset, program: seq<Byte>)
    requires WellFormed(a)
    ensures Ensured(a).Some?
    ensures SpendLimit(Ensured(a).value.actions, asset) == SpendLimit(a.actions, asset)
    ensures CanUseProgram(Ensured(a).value.actions, program) <==>
            !HasProgramAction(a.actions) || CanUseProgram(a.actions, program)
  {
    hide Ensured, ControlOf;
    EnsuredKeepsOldActions(a);
    if !HasProgramAction(a.actions) {
      var all := a.actions + [PROGRAM_ALL];
      assert UsesProgram(all[|a.actions|], program);
      ProgramAllSpendsNothing(asset);
      LimitAtLeastZero(a.actions, asset);
      assert all[..|all| - 1] == a.actions;
    }
  }

  lemma {:induction false} ProgramAllSpendsNothing(asset: Asset)
    ensures LimitOf(PROGRAM_ALL, asset) == AtMost(0)
  {
  }

  /** The fields that spend queries read are present, in range and of the right type. */
  lemma {:induction false} ParsedLimitsAreTyped(buffer: seq<Byte>, cursor: nat)
    requires ParseAt(buffer, cursor).Some?
    ensures var a := ParseAt(buffer, cursor).value;
            && a.payload.permission == a.header.permission
            && (IsSolLimit(a.payload.permission) || IsTokenLimit(a.payload.permission) ==>
                  Typed(PayloadLayout(a.payload.permission), a.payload.data))
  {
    var p := ParseAt(buffer, cursor).value.header.permission;
    if IsSolLimit(p) || IsTokenLimit(p) {
      LimitLayoutsDistinct(p);
      hide PayloadLayout, DistinctNames, Typed, DecodeStruct;
      var h := DecodeHeader(Slice(buffer, cursor, cursor + HEADER_LENGTH)).value;
      DecodedIsTyped(PayloadLayout(p), Slice(buffer, cursor + HEADER_LENGTH, h.boundary));
    }
  }
}
