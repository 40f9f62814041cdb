/** The same permission given to the TypeScript and to the Rust SDK is stored as the same action. */
module SdksAgree {
  import opened Bytes
  import opened StructCodecs
  import opened ActionCodec
  import opened ActionsBuilder
  import opened BuilderCalls
  import opened BuiltPayloads
  import Roles = RolePermissions

  /** A recurring limit as a caller asks for it; the state that it names is not used. */
  function Every(window: Roles.UInt64, state: Roles.RecurringConfig): Option<Roles.RecurringConfig>
  {
    Some(Roles.RecurringConfig(window, state.lastReset, state.currentAmount))
  }

  /** The Rust permission for a builder call; locks and closing have none, scopes and sub-accounts differ. */
  function RustOf(call: Call, state: Roles.RecurringConfig): Option<Roles.Permission>
    requires ConfigOf(call).Some? && Fits(call)
  {
    match call
    case CallAll => Some(Roles.All)
    case CallManageAuthority => Some(Roles.ManageAuthority)
    case CallAllButManageAuthority => Some(Roles.AllButManageAuthority)
    case CallReplaceAuthority(id) => Some(Roles.ReplaceAuthority(id))
    case CallSubAccountV2Create => Some(Roles.SubAccountV2Create)
    case CallSubAccountV2All(id) => Some(Roles.SubAccountV2All(id))
    case CallSubAccountV2Sign(id) => Some(Roles.SubAccountV2Sign(id))
    case CallSubAccountV2Withdraw(id) => Some(Roles.SubAccountV2Withdraw(id))
    case CallSubAccountV2Toggle(id) => Some(Roles.SubAccountV2Toggle(id))
    case CallProgramLimit(id) => Some(Roles.Program(id))
    case CallProgramAll => Some(Roles.ProgramAll)
    case CallProgramCurated => Some(Roles.ProgramCurated)
    case CallStakeAll => Some(Roles.StakeAll)
    case CallStakeLimit(amount) => Some(Roles.Stake(amount, None))
    case CallStakeRecurringLimit(amount, window) => Some(Roles.Stake(amount, Every(window, state)))
    case CallSolLimit(amount) => Some(Roles.Sol(amount, None))
    case CallSolRecurringLimit(amount, window) => Some(Roles.Sol(amount, Every(window, state)))
    case CallTokenLimit(mint, amount) => Some(Roles.Token(mint, amount, None))
    case CallTokenRecurringLimit(mint, amount, window) => Some(Roles.Token(mint, amount, Every(window, state)))
    case CallSolDestinationLimit(amount, destination) => Some(Roles.SolDestination(destination, amount, None))
    case CallSolRecurringDestinationLimit(amount, window, destination) =>
      Some(Roles.SolDestination(destination, amount, Every(window, state)))
    case CallTokenDestinationLimit(mint, amount, destination) =>
      Some(Roles.TokenDestination(mint, destination, amount, None))
    case CallTokenRecurringDestinationLimit(mint, amount, window, destination) =>
      Some(Roles.TokenDestination(mint, destination, amount, Every(window, state)))
    case _ => None
  }

  function RefillFields(r: Roles.Refill): Struct
  {
    map[RecurringAmount := Num(r.amount), Window := Num(r.window),
        LastReset := Num(r.lastReset), CurrentAmount := Num(r.current)]
  }

  /** The stored fields of an action by name, for the kinds whose fields both SDKs name. */
  function FieldsOf(a: Roles.ClientAction): Struct
  {
    match a
    case TokenLimit(mint, amount) => map[Mint := Raw(mint), Amount := Num(amount)]
    case TokenRecurringLimit(mint, r) => RefillFields(r)[Mint := Raw(mint)]
    case TokenDestinationLimit(mint, destination, amount) =>
      map[Mint := Raw(mint), Destination := Raw(destination), Amount := Num(amount)]
    case TokenRecurringDestinationLimit(mint, destination, r) =>
      RefillFields(r)[Mint := Raw(mint)][Destination := Raw(destination)]
    case SolLimit(amount) => map[Amount := Num(amount)]
    case SolRecurringLimit(r) => RefillFields(r)
    case SolDestinationLimit(destination, amount) => map[Destination := Raw(destination), Amount := Num(amount)]
    case SolRecurringDestinationLimit(destination, r) => RefillFields(r)[Destination := Raw(destination)]
    case StakeLimit(amount) => map[Amount := Num(amount)]
    case StakeRecurringLimit(r) => RefillFields(r)
    case ProgramAction(id) => map[ProgramId := Raw(id)]
    case ProgramCuratedAction => map[Reserved := Raw(Zeros(32))]
    case ReplaceAuthorityAction(id) => map[RoleId := Num(id)]
    case SubAccountV2AllAction(id) => map[SubAccountId := Num(id)]
    case SubAccountV2SignAction(id) => map[SubAccountId := Num(id)]
    case SubAccountV2WithdrawAction(id) => map[SubAccountId := Num(id)]
    case SubAccountV2ToggleAction(id) => map[SubAccountId := Num(id)]
    case _ => map[]
  }

  /** Both SDKs choose the same kind of action. */
  lemma {:induction false} SameKind(call: Call, state: Roles.RecurringConfig)
    requires ConfigOf(call).Some? && Fits(call) && RustOf(call, state).Some?
    ensures Roles.ToActionType(RustOf(call, state).value) == WireCode(call)
  {
  }

  lemma {:induction false} SameMarkers(call: Call, state: Roles.RecurringConfig)
    requires ConfigOf(call).Some? && Fits(call) && RustOf(call, state).Some?
    requires call.CallAll? || call.CallManageAuthority? || call.CallAllButManageAuthority?
    ensures Stores(call, state)
  {
    hide RefillFields, Fresh, Scope, IdName;
  }

  lemma {:induction false} SameOtherMarkers(call: Call, state: Roles.RecurringConfig)
    requires ConfigOf(call).Some? && Fits(call) && RustOf(call, state).Some?
    requires call.CallSubAccountV2Create? || call.CallProgramAll? || call.CallStakeAll?
    ensures Stores(call, state)
  {
    hide RefillFields, Fresh, Scope, IdName;
  }

  lemma {:induction false} SameIds(call: Call, state: Roles.RecurringConfig)
    requires ConfigOf(call).Some? && Fits(call) && RustOf(call, state).Some? && ConfigOf(call).value.body.ScopedId?
    ensures Stores(call, state)
  {
    hide RefillFields, Fresh, Scope;
  }

  lemma {:induction false} SameAmounts(call: Call, state: Roles.RecurringConfig)
    requires ConfigOf(call).Some? && Fits(call) && RustOf(call, state).Some? && ConfigOf(call).value.body.Data?
    requires RustOf(call, state).value.Program? || RustOf(call, state).value.ProgramCurated? ||
             call.CallStakeLimit? || call.CallSolLimit? || call.CallTokenLimit? || call.CallSolDestinationLimit? ||
             call.CallTokenDestinationLimit?
    ensures Stores(call, state)
  {
    hide RefillFields;
  }

  lemma {:induction false} SameRefills(call: Call, state: Roles.RecurringConfig)
    requires ConfigOf(call).Some? && Fits(call) && RustOf(call, state).Some?
    requires call.CallStakeRecurringLimit? || call.CallSolRecurringLimit?
    ensures Stores(call, state)
  {
    FreshFields(call.amount, call.window);
    hide RefillFields, Fresh;
  }

  lemma {:induction false} SameKeyedRefills(call: Call, state: Roles.RecurringConfig)
    requires ConfigOf(call).Some? && Fits(call) && RustOf(call, state).Some?
    requires call.CallTokenRecurringLimit? || call.CallSolRecurringDestinationLimit? ||
             call.CallTokenRecurringDestinationLimit?
    ensures Stores(call, state)
  {
    FreshFields(call.amount, call.window);
    hide RefillFields, Fresh;
  }

  lemma {:induction false} FreshFields(amount: Roles.UInt64, window: Roles.UInt64)
    ensures Fresh(amount, window) == RefillFields(Roles.Refill(amount, window, 0, amount))
  {
  }

  /** The Rust SDK stores what the builder writes: the kind, and every field by name. */
  predicate Stores(call: Call, state: Roles.RecurringConfig)
    requires ConfigOf(call).Some? && Fits(call) && RustOf(call, state).Some?
  {
    var a := Roles.Translate(RustOf(call, state).value);
    && a.Some?
    && Roles.KindOf(a.value) == ConfigOf(call).value.permission
    && FieldsOf(a.value) == PayloadOf(ConfigOf(call).value).data
  }

  /** Both SDKs store the same action, whatever state a Rust caller puts into the recurring config. */
  lemma {:induction false} SameAction(call: Call, state: Roles.RecurringConfig)
    requires ConfigOf(call).Some? && Fits(call) && RustOf(call, state).Some?
    ensures Stores(call, state)
  {
    hide Stores, FieldsOf;
    if call.CallAll? || call.CallManageAuthority? || call.CallAllButManageAuthority? {
      SameMarkers(call, state);
    } else if call.CallSubAccountV2Create? || call.CallProgramAll? || call.CallStakeAll? {
      SameOtherMarkers(call, state);
    } else if ConfigOf(call).value.body.ScopedId? {
      SameIds(call, state);
    } else {
      match call
      case CallProgramLimit(_) => SameAmounts(call, state);
      case CallProgramCurated => SameAmounts(call, state);
      case CallStakeLimit(_) => SameAmounts(call, state);
      case CallSolLimit(_) => SameAmounts(call, state);
      case CallTokenLimit(_, _) => SameAmounts(call, state);
      case CallSolDestinationLimit(_, _) => SameAmounts(call, state);
      case CallTokenDestinationLimit(_, _, _) => SameAmounts(call, state);
      case CallStakeRecurringLimit(_, _) => SameRefills(call, state);
      case CallSolRecurringLimit(_, _) => SameRefills(call, state);
      case CallTokenRecurringLimit(_, _, _) => SameKeyedRefills(call, state);
      case CallSolRecurringDestinationLimit(_, _, _) => SameKeyedRefills(call, state);
      case CallTokenRecurringDestinationLimit(_, _, _, _) => SameKeyedRefills(call, state);
      case _ =>
    }
  }
}
