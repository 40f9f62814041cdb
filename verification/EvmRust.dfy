/** The Rust SDK's form of the EVM permission codec: payloads are appended to a growing vector. */
module EvmRust {
  import opened Bytes
  import opened EvmPermissions

  /** In Rust the amounts are of type u64. */
  ghost predicate Typed(p: Permission)
  {
    && (HasAmount(p) ==> IsUint64(p.amount))
    && (HasLimit(p) ==> IsUint64(p.limit.recurringAmount) && IsUint64(p.limit.window) &&
                        IsUint64(p.limit.lastReset) && IsUint64(p.limit.currentAmount))
  }

  /** `RecurringLimit::validate`. */
  predicate Validate(l: RecurringLimit)
  {
    l.window != 0 && l.currentAmount <= l.recurringAmount
  }

  method AppendRecurring(data: seq<Byte>, limit: RecurringLimit) returns (out: Option<seq<Byte>>)
    requires IsUint64(limit.recurringAmount) && IsUint64(limit.window)
    requires IsUint64(limit.lastReset) && IsUint64(limit.currentAmount)
    ensures out == After(data, Recurring(limit))
  {
    hide ToLE;
    if !Validate(limit) {
      return None;
    }
    var grown := data;
    grown := grown + ToLE(limit.recurringAmount, 8);
    grown := grown + ToLE(limit.window, 8);
    grown := grown + ToLE(limit.lastReset, 8);
    grown := grown + ToLE(limit.currentAmount, 8);
    assert grown == data + Recurring(limit).value;
    return Some(grown);
  }

  method Encode(p: Permission) returns (action: Option<Action>)
    requires Typed(p)
    ensures action == EvmPermissions.Encode(p)
  {
    hide ToLE, Recurring, AddressWord;
    var data: seq<Byte> := [];
    var kind: nat;
    match p {
      case All => kind := 7;
      case ManageAuthority => kind := 8;
      case AllButManageAuthority => kind := 15;
      case ProgramAll => kind := 13;
      case Program(target) =>
        data := data + AddressWord(target);
        assert data == AddressWord(target);
        kind := 3;
      case NativeLimit(amount) =>
        data := data + ToLE(amount, 8);
        assert data == ToLE(amount, 8);
        kind := 1;
      case NativeRecurringLimit(limit) =>
        var appended := AppendRecurring(data, limit);
        if appended.None? { return None; }
        data := appended.value;
        assert data == Recurring(limit).value;
        kind := 2;
      case NativeDestinationLimit(destination, amount) =>
        data := data + AddressWord(destination);
        data := data + ToLE(amount, 8);
        assert data == AddressWord(destination) + ToLE(amount, 8);
        kind := 16;
      case NativeRecurringDestinationLimit(destination, limit) =>
        data := data + AddressWord(destination);
        var appended := AppendRecurring(data, limit);
        if appended.None? { return None; }
        data := appended.value;
        assert data == AddressWord(destination) + Recurring(limit).value;
        kind := 17;
      case TokenLimit(token, amount) =>
        data := data + AddressWord(token);
        data := data + ToLE(amount, 8);
        assert data == AddressWord(token) + ToLE(amount, 8);
        kind := 5;
      case TokenRecurringLimit(token, limit) =>
        if !Validate(limit) { return None; }
        data := data + AddressWord(token);
        data := data + ToLE(limit.window, 8);
        data := data + ToLE(limit.recurringAmount, 8);
        data := data + ToLE(limit.currentAmount, 8);
        data := data + ToLE(limit.lastReset, 8);
        assert data == AddressWord(token) + TokenRecurring(limit).value;
        kind := 6;
      case TokenDestinationLimit(token, destination, amount) =>
        data := data + AddressWord(token);
        data := data + AddressWord(destination);
        data := data + ToLE(amount, 8);
        assert data == AddressWord(token) + AddressWord(destination) + ToLE(amount, 8);
        kind := 18;
      case TokenRecurringDestinationLimit(token, destination, limit) =>
        data := data + AddressWord(token);
        data := data + AddressWord(destination);
        var appended := AppendRecurring(data, limit);
        if appended.None? { return None; }
        data := appended.value;
        assert data == AddressWord(token) + AddressWord(destination) + Recurring(limit).value;
        kind := 19;
    }
    return Some(Action(kind, data));
  }

  // ----- decoding -----

  function Get(data: seq<Byte>, from: nat, end: nat): Option<seq<Byte>>
    requires from <= end
  {
    if end <= |data| then Some(data[from..end]) else None
  }

  function ReadAddressAt(data: seq<Byte>, offset: nat): Option<Address>
  {
    var word := Get(data, offset, offset + 32);
    if word.None? || exists i :: 0 <= i < 12 && word.value[i] != 0 then None else Some(word.value[12..])
  }

  function ReadU64(data: seq<Byte>, offset: nat): Option<nat>
  {
    var encoded := Get(data, offset, offset + 8);
    if encoded.None? then None else Some(FromLE(encoded.value))
  }

  function Validated(amount: Option<nat>, window: Option<nat>, lastReset: Option<nat>, current: Option<nat>):
    Option<RecurringLimit>
  {
    if amount.None? || window.None? || lastReset.None? || current.None? then None
    else
      var limit := RecurringLimit(amount.value, window.value, lastReset.value, current.value);
      if Validate(limit) then Some(limit) else None
  }

  function ReadRecurringAt(data: seq<Byte>, offset: nat): Option<RecurringLimit>
  {
    Validated(ReadU64(data, offset), ReadU64(data, offset + 8), ReadU64(data, offset + 16), ReadU64(data, offset + 24))
  }

  function Marker(data: seq<Byte>, p: Permission): Option<Permission>
  {
    if |data| != 0 then None else Some(p)
  }

  function Decode(a: Action): Option<Permission>
  {
    var data := a.data;
    match a.permission
    case 7 => Marker(data, All)
    case 8 => Marker(data, ManageAuthority)
    case 15 => Marker(data, AllButManageAuthority)
    case 13 => Marker(data, ProgramAll)
    case 3 =>
      var target := ReadAddressAt(data, 0);
      if |data| != 32 || target.None? then None else Some(Program(target.value))
    case 1 =>
      var amount := ReadU64(data, 0);
      if |data| != 8 || amount.None? then None else Some(NativeLimit(amount.value))
    case 2 =>
      var limit := ReadRecurringAt(data, 0);
      if |data| != 32 || limit.None? then None else Some(NativeRecurringLimit(limit.value))
    case 16 =>
      var destination, amount := ReadAddressAt(data, 0), ReadU64(data, 32);
      if |data| != 40 || destination.None? || amount.None? then None
      else Some(NativeDestinationLimit(destination.value, amount.value))
    case 17 =>
      var destination, limit := ReadAddressAt(data, 0), ReadRecurringAt(data, 32);
      if |data| != 64 || destination.None? || limit.None? then None
      else Some(NativeRecurringDestinationLimit(destination.value, limit.value))
    case 5 =>
      var token, amount := ReadAddressAt(data, 0), ReadU64(data, 32);
      if |data| != 40 || token.None? || amount.None? then None else Some(TokenLimit(token.value, amount.value))
    case 6 =>
      var limit := Validated(ReadU64(data, 40), ReadU64(data, 32), ReadU64(data, 56), ReadU64(data, 48));
      var token := ReadAddressAt(data, 0);
      if |data| != 64 || limit.None? || token.None? then None
      else Some(TokenRecurringLimit(token.value, limit.value))
    case 18 =>
      var token, destination, amount := ReadAddressAt(data, 0), ReadAddressAt(data, 32), ReadU64(data, 64);
      if |data| != 72 || token.None? || destination.None? || amount.None? then None
      else Some(TokenDestinationLimit(token.value, destination.value, amount.value))
    case 19 =>
      var token, destination, limit := ReadAddressAt(data, 0), ReadAddressAt(data, 32), ReadRecurringAt(data, 64);
      if |data| != 96 || token.None? || destination.None? || limit.None? then None
      else Some(TokenRecurringDestinationLimit(token.value, destination.value, limit.value))
    case _ => None
  }

  lemma {:induction false} AddressAtIsWord(data: seq<Byte>, offset: nat)
    requires offset + 32 <= |data|
    ensures ReadAddressAt(data, offset) == ReadAddress(data[offset..offset + 32])
  {
  }

  lemma {:induction false} U64AtIsWord(data: seq<Byte>, offset: nat)
    requires offset + 8 <= |data|
    ensures ReadU64(data, offset) == Some(FromLE(data[offset..offset + 8]))
    ensures IsUint64(FromLE(data[offset..offset + 8]))
  {
    Word64FromBytes(data[offset..offset + 8]);
  }

  lemma {:induction false} RecurringAtIsRead(data: seq<Byte>, offset: nat)
    requires offset + 32 == |data|
    ensures ReadRecurringAt(data, offset) == ReadRecurring(data[offset..])
    ensures Validated(ReadU64(data, offset + 8), ReadU64(data, offset), ReadU64(data, offset + 24),
                      ReadU64(data, offset + 16)) == ReadTokenRecurring(data[offset..])
  {
    hide ReadU64, FromLE, ReadRecurring, ReadTokenRecurring;
    U64AtIsWord(data, offset);
    U64AtIsWord(data, offset + 8);
    U64AtIsWord(data, offset + 16);
    U64AtIsWord(data, offset + 24);
    RecurringAt(data, offset);
  }

  /** Rust and Python accept the same actions and read the same permissions from them. */
  lemma {:induction false} DecodersAgree(a: Action)
    ensures Decode(a) == EvmPermissions.Decode(a)
  {
    var data := a.data;
    hide ReadU64, FromLE, ReadAddressAt, ReadAddress, ReadRecurringAt, ReadRecurring, ReadTokenRecurring, Validated;
    if |data| == 8 {
      U64AtIsWord(data, 0);
      assert data[0..8] == data;
    } else if |data| == 32 {
      AddressAtIsWord(data, 0);
      RecurringAtIsRead(data, 0);
      assert data[0..] == data && data[0..32] == data[..32];
    } else if |data| == 40 {
      AddressAtIsWord(data, 0);
      U64AtIsWord(data, 32);
      assert data[32..] == data[32..40] && data[0..32] == data[..32];
    } else if |data| == 64 {
      AddressAtIsWord(data, 0);
      RecurringAtIsRead(data, 32);
      assert data[0..32] == data[..32];
    } else if |data| == 72 {
      AddressAtIsWord(data, 0);
      AddressAtIsWord(data, 32);
      U64AtIsWord(data, 64);
      assert data[64..] == data[64..72] && data[0..32] == data[..32];
    } else if |data| == 96 {
      AddressAtIsWord(data, 0);
      AddressAtIsWord(data, 32);
      RecurringAtIsRead(data, 64);
      assert data[0..32] == data[..32];
    }
  }
}
