/** The EVM actions are the Solana actions, with a padded address in the place of a public key. */
module SharedFormat {
  import opened Bytes
  import opened StructCodecs
  import opened ActionCodec
  import opened BuiltPayloads
  import Evm = EvmPermissions

  /** The Solana kind with the same meaning; native currency takes the place of SOL. */
  function SolanaKind(p: Evm.Permission): Permission
  {
    match p
    case All => All
    case ManageAuthority => ManageAuthority
    case AllButManageAuthority => AllButManageAuthority
    case ProgramAll => ProgramAll
    case Program(_) => Program
    case NativeLimit(_) => SolLimit
    case NativeRecurringLimit(_) => SolRecurringLimit
    case NativeDestinationLimit(_, _) => SolDestinationLimit
    case NativeRecurringDestinationLimit(_, _) => SolRecurringDestinationLimit
    case TokenLimit(_, _) => TokenLimit
    case TokenRecurringLimit(_, _) => TokenRecurringLimit
    case TokenDestinationLimit(_, _, _) => TokenDestinationLimit
    case TokenRecurringDestinationLimit(_, _, _) => TokenRecurringDestinationLimit
  }

  function LimitFields(l: Evm.RecurringLimit): Struct
  {
    map[RecurringAmount := Num(l.recurringAmount), Window := Num(l.window),
        LastReset := Num(l.lastReset), CurrentAmount := Num(l.currentAmount)]
  }

  function SolanaFields(p: Evm.Permission): Struct
  {
    match p
    case Program(target) => map[ProgramId := Raw(Evm.AddressWord(target))]
    case NativeLimit(amount) => map[Amount := Num(amount)]
    case NativeRecurringLimit(limit) => LimitFields(limit)
    case NativeDestinationLimit(destination, amount) =>
      map[Destination := Raw(Evm.AddressWord(destination)), Amount := Num(amount)]
    case NativeRecurringDestinationLimit(destination, limit) =>
      LimitFields(limit)[Destination := Raw(Evm.AddressWord(destination))]
    case TokenLimit(token, amount) => map[Mint := Raw(Evm.AddressWord(token)), Amount := Num(amount)]
    case TokenRecurringLimit(token, limit) => LimitFields(limit)[Mint := Raw(Evm.AddressWord(token))]
    case TokenDestinationLimit(token, destination, amount) =>
      map[Mint := Raw(Evm.AddressWord(token)), Destination := Raw(Evm.AddressWord(destination)), Amount := Num(amount)]
    case TokenRecurringDestinationLimit(token, destination, limit) =>
      LimitFields(limit)[Mint := Raw(Evm.AddressWord(token))][Destination := Raw(Evm.AddressWord(destination))]
    case _ => map[]
  }

  /** The Solana payload of the same permission. */
  function SolanaPayload(p: Evm.Permission): Option<seq<Byte>>
  {
    EncodeStruct(PayloadLayout(SolanaKind(p)), SolanaFields(p))
  }

  lemma {:induction false} SharedPlain(p: Evm.Permission)
    requires !Evm.HasAmount(p) && !Evm.HasLimit(p)
    ensures Evm.Encode(p) == Evm.WithData(Code(SolanaKind(p)), SolanaPayload(p))
  {
    if p.Program? {
      hide EncodeStruct;
      EncodeKey(ProgramId, End, SolanaFields(p), Evm.AddressWord(p.target));
    }
  }

  lemma {:induction false} SharedAmount(p: Evm.Permission)
    requires Evm.HasAmount(p) && IsUint64(p.amount)
    ensures Evm.Encode(p) == Evm.WithData(Code(SolanaKind(p)), SolanaPayload(p))
  {
    hide EncodeStruct, ToLE, AMOUNT, Evm.AddressWord;
    var s := SolanaFields(p);
    AmountWritten(s, p.amount);
    match p
    case NativeLimit(_) =>
    case NativeDestinationLimit(destination, _) => EncodeKey(Destination, AMOUNT, s, Evm.AddressWord(destination));
    case TokenLimit(token, _) => EncodeKey(Mint, AMOUNT, s, Evm.AddressWord(token));
    case TokenDestinationLimit(token, destination, _) =>
      var t, d, w := Evm.AddressWord(token), Evm.AddressWord(destination), ToLE(p.amount, 8);
      EncodeKey(Mint, Keyed(Destination, AMOUNT), s, t);
      EncodeKey(Destination, AMOUNT, s, d);
      assert t + d + w == t + (d + w);
  }

  lemma {:induction false} LimitWords(s: Struct, l: Evm.RecurringLimit)
    requires Evm.ValidLimit(l)
    requires HasWord(s, RecurringAmount, l.recurringAmount) && HasWord(s, Window, l.window)
    requires HasWord(s, LastReset, l.lastReset) && HasWord(s, CurrentAmount, l.currentAmount)
    ensures Evm.Recurring(l).Some? && Evm.Recurring(l) == EncodeStruct(RECURRING, s)
    ensures Evm.TokenRecurring(l).Some? && Evm.TokenRecurring(l) == EncodeStruct(TOKEN_RECURRING, s)
  {
    hide EncodeStruct, ToLE;
    FourWritten(s, l.recurringAmount, l.window, l.lastReset, l.currentAmount);
    var r, w, x, c := ToLE(l.recurringAmount, 8), ToLE(l.window, 8), ToLE(l.lastReset, 8), ToLE(l.currentAmount, 8);
    assert r + w + x + c == r + (w + (x + c)) && w + r + c + x == w + (r + (c + x));
  }

  lemma {:induction false} LimitHasWords(p: Evm.Permission)
    requires Evm.HasLimit(p) && Evm.ValidLimit(p.limit)
    ensures var s, l := SolanaFields(p), p.limit;
            && HasWord(s, RecurringAmount, l.recurringAmount) && HasWord(s, Window, l.window)
            && HasWord(s, LastReset, l.lastReset) && HasWord(s, CurrentAmount, l.currentAmount)
  {
    hide Evm.AddressWord;
  }

  lemma {:induction false} SharedLimit(p: Evm.Permission)
    requires Evm.HasLimit(p) && Evm.ValidLimit(p.limit)
    ensures Evm.Encode(p) == Evm.WithData(Code(SolanaKind(p)), SolanaPayload(p))
  {
    hide EncodeStruct, RECURRING, TOKEN_RECURRING, Evm.AddressWord, Evm.Recurring, Evm.TokenRecurring, LimitFields;
    hide HasWord, Evm.ValidLimit;
    var s := SolanaFields(p);
    LimitHasWords(p);
    LimitWords(s, p.limit);
    match p
    case NativeRecurringLimit(_) =>
    case NativeRecurringDestinationLimit(destination, _) =>
      EncodeKey(Destination, RECURRING, s, Evm.AddressWord(destination));
    case TokenRecurringLimit(token, _) => EncodeKey(Mint, TOKEN_RECURRING, s, Evm.AddressWord(token));
    case TokenRecurringDestinationLimit(token, destination, limit) =>
      var t, d, w := Evm.AddressWord(token), Evm.AddressWord(destination), Evm.Recurring(limit).value;
      EncodeKey(Mint, Keyed(Destination, RECURRING), s, t);
      EncodeKey(Destination, RECURRING, s, d);
      assert t + d + w == t + (d + w);
  }

  /** Every permission that can be encoded has the Solana kind's code and payload. */
  lemma {:induction false} FormatIsShared(p: Evm.Permission)
    requires Evm.Encode(p).Some?
    ensures Evm.Encode(p) == Evm.WithData(Code(SolanaKind(p)), SolanaPayload(p))
  {
    Evm.EncodesExactlyValid(p);
    hide Evm.Encode, SolanaPayload, SolanaKind;
    if Evm.HasAmount(p) {
      SharedAmount(p);
    } else if Evm.HasLimit(p) {
      SharedLimit(p);
    } else {
      SharedPlain(p);
    }
  }
}
