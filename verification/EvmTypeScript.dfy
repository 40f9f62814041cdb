/** The TypeScript SDK's form of the EVM permission codec: fields are written into a buffer at their offsets. */
module EvmTypeScript {
  import opened Bytes
  import opened EvmPermissions

  /** Writes nothing and reports failure when the value is out of range. */
  method WriteUint64(data: array<Byte>, offset: nat, value: int) returns (ok: bool)
    requires offset + 8 <= data.Length
    modifies data
    ensures ok <==> IsUint64(value)
    ensures ok ==> data[..] == old(data[..offset]) + ToLE(value, 8) + old(data[offset + 8..])
    ensures !ok ==> data[..] == old(data[..])
  {
    ok := IsUint64(value);
    if ok {
      SetBytes(data, ToLE(value, 8), offset);
    }
  }

  method ValidateRecurring(limit: RecurringLimit) returns (ok: bool)
    ensures ok <==> ValidLimit(limit)
  {
    var values := [limit.recurringAmount, limit.window, limit.lastReset, limit.currentAmount];
    for i := 0 to |values|
      invariant forall j :: 0 <= j < i ==> IsUint64(values[j])
    {
      if !IsUint64(values[i]) {
        return false;
      }
    }
    assert IsUint64(values[0]) && IsUint64(values[1]) && IsUint64(values[2]) && IsUint64(values[3]);
    return !(limit.window == 0 || limit.currentAmount > limit.recurringAmount);
  }

  /** Four integers behind each other, at the end of the buffer. */
  method WriteFour(data: array<Byte>, offset: nat, a: int, b: int, c: int, d: int) returns (ok: bool)
    requires offset + 32 == data.Length
    modifies data
    ensures ok <==> Four(a, b, c, d).Some?
    ensures ok ==> data[..] == old(data[..offset]) + Four(a, b, c, d).value
  {
    hide ToLE;
    ghost var f0 := data[..][..offset];
    assert f0 == data[..offset];
    ghost var f1 := f0 + FieldBytes(a);
    ghost var f2 := f1 + FieldBytes(b);
    ghost var f3 := f2 + FieldBytes(c);
    ok := WriteBehind(data, offset, a, f0);
    if !ok { return; }
    ok := WriteBehind(data, offset + 8, b, f1);
    if !ok { return; }
    ok := WriteBehind(data, offset + 16, c, f2);
    if !ok { return; }
    ok := WriteBehind(data, offset + 24, d, f3);
    if !ok { return; }
    assert data[..][..offset + 32] == data[..];
    assert data[..] == f0 + Four(a, b, c, d).value;
  }

  /** Writes a field right behind the bytes that are done. */
  method WriteBehind(data: array<Byte>, offset: nat, value: int, ghost done: seq<Byte>) returns (ok: bool)
    requires offset + 8 <= data.Length && data[..][..offset] == done
    modifies data
    ensures ok <==> IsUint64(value)
    ensures ok ==> data[..][..offset + 8] == done + FieldBytes(value)
  {
    ok := WriteUint64(data, offset, value);
  }

  /** The bytes of a value in range. */
  function FieldBytes(value: int): seq<Byte>
  {
    if IsUint64(value) then ToLE(value, 8) else []
  }

  method WriteRecurring(data: array<Byte>, offset: nat, limit: RecurringLimit) returns (ok: bool)
    requires offset + 32 == data.Length
    modifies data
    ensures ok <==> ValidLimit(limit)
    ensures ok ==> Recurring(limit).Some? && data[..] == old(data[..offset]) + Recurring(limit).value
  {
    ok := ValidateRecurring(limit);
    if ok {
      ok := WriteFour(data, offset, limit.recurringAmount, limit.window, limit.lastReset, limit.currentAmount);
    }
  }

  /** A buffer of 32 * n + size bytes that starts with the given address words. */
  method Words(words: seq<Address>, size: nat) returns (data: array<Byte>)
    requires 1 <= |words| <= 2
    ensures fresh(data) && data.Length == 32 * |words| + size
    ensures data[..32 * |words|] == AddressWord(words[0]) + if |words| == 2 then AddressWord(words[1]) else []
  {
    hide AddressWord;
    data := new Byte[32 * |words| + size](i => 0);
    SetBytes(data, AddressWord(words[0]), 0);
    assert data[..32] == AddressWord(words[0]);
    if |words| == 2 {
      SetBytes(data, AddressWord(words[1]), 32);
      assert data[..64] == AddressWord(words[0]) + AddressWord(words[1]);
    } else {
      assert data[..32] == AddressWord(words[0]) + [];
    }
  }

  method EncodePermission(p: Permission) returns (action: Option<Action>)
    ensures action == Encode(p)
  {
    EncodesExactlyValid(p);
    hide ToLE, Recurring, TokenRecurring, AddressWord, ValidLimit;
    var kind: nat;
    var data: array<Byte>;
    var ok: bool;
    match p {
      case All => return Some(Action(7, []));
      case ManageAuthority => return Some(Action(8, []));
      case AllButManageAuthority => return Some(Action(15, []));
      case ProgramAll => return Some(Action(13, []));
      case Program(target) => return Some(Action(3, AddressWord(target)));
      case NativeLimit(amount) =>
        kind := 1;
        data := new Byte[8](i => 0);
        ok := WriteUint64(data, 0, amount);
        assert ok ==> data[..] == ToLE(amount, 8);
      case NativeRecurringLimit(limit) =>
        kind := 2;
        data := new Byte[32](i => 0);
        ok := WriteRecurring(data, 0, limit);
        assert ok ==> data[..] == Recurring(limit).value;
      case NativeDestinationLimit(destination, amount) =>
        kind := 16;
        data := Words([destination], 8);
        ok := WriteUint64(data, 32, amount);
        assert ok ==> data[..] == AddressWord(destination) + ToLE(amount, 8);
      case NativeRecurringDestinationLimit(destination, limit) =>
        kind := 17;
        data := Words([destination], 32);
        ok := WriteRecurring(data, 32, limit);
        assert ok ==> data[..] == AddressWord(destination) + Recurring(limit).value;
      case TokenLimit(token, amount) =>
        kind := 5;
        data := Words([token], 8);
        ok := WriteUint64(data, 32, amount);
        assert ok ==> data[..] == AddressWord(token) + ToLE(amount, 8);
      case TokenRecurringLimit(token, limit) =>
        kind := 6;
        data := Words([token], 32);
        ok := ValidateRecurring(limit);
        if ok {
          ok := WriteTokenRecurring(data, limit);
          assert ok ==> data[..] == AddressWord(token) + TokenRecurring(limit).value;
        }
      case TokenDestinationLimit(token, destination, amount) =>
        kind := 18;
        data := Words([token, destination], 8);
        ok := WriteUint64(data, 64, amount);
        assert ok ==> data[..] == AddressWord(token) + AddressWord(destination) + ToLE(amount, 8);
      case TokenRecurringDestinationLimit(token, destination, limit) =>
        kind := 19;
        data := Words([token, destination], 32);
        ok := WriteRecurring(data, 64, limit);
        assert ok ==> data[..] == AddressWord(token) + AddressWord(destination) + Recurring(limit).value;
    }
    return if ok then Some(Action(kind, data[..])) else None;
  }

  method WriteTokenRecurring(data: array<Byte>, limit: RecurringLimit) returns (ok: bool)
    requires data.Length == 64 && ValidLimit(limit)
    modifies data
    ensures ok && data[..] == old(data[..32]) + TokenRecurring(limit).value
  {
    ok := WriteFour(data, 32, limit.window, limit.recurringAmount, limit.currentAmount, limit.lastReset);
  }

  // ----- decoding -----

  method ReadAddressAt(data: seq<Byte>, offset: nat) returns (address: Option<Address>)
    ensures address == ReadAddress(Slice(data, offset, offset + 32))
  {
    var word := Slice(data, offset, offset + 32);
    if |word| != 32 || exists i :: 0 <= i < 12 && word[i] != 0 {
      return None;
    }
    var read: seq<Byte> := [];
    for i := 12 to 32
      invariant read == word[12..i]
    {
      read := read + [word[i]];
    }
    assert read == word[12..];
    return Some(read);
  }

  function ReadUint64(data: seq<Byte>, offset: nat): (r: Option<nat>)
  {
    if offset + 8 > |data| then None else Some(FromLE(data[offset..offset + 8]))
  }

  method ReadRecurringAt(data: seq<Byte>, offset: nat) returns (limit: Option<RecurringLimit>)
    requires offset + 32 == |data|
    ensures limit == ReadRecurring(data[offset..])
  {
    RecurringAt(data, offset);
    hide FromLE, ReadRecurring, ReadTokenRecurring;
    var amount, window := ReadUint64(data, offset), ReadUint64(data, offset + 8);
    var lastReset, current := ReadUint64(data, offset + 16), ReadUint64(data, offset + 24);
    var l := RecurringLimit(amount.value, window.value, lastReset.value, current.value);
    var ok := ValidateRecurring(l);
    return if ok then Some(l) else None;
  }

  method ReadTokenRecurringAt(data: seq<Byte>) returns (limit: Option<RecurringLimit>)
    requires |data| == 64
    ensures limit == ReadTokenRecurring(data[32..])
  {
    RecurringAt(data, 32);
    hide FromLE, ReadRecurring, ReadTokenRecurring;
    var window, amount := ReadUint64(data, 32), ReadUint64(data, 40);
    var current, lastReset := ReadUint64(data, 48), ReadUint64(data, 56);
    var l := RecurringLimit(amount.value, window.value, lastReset.value, current.value);
    var ok := ValidateRecurring(l);
    return if ok then Some(l) else None;
  }

  method DecodePermission(a: Action) returns (p: Option<Permission>)
    ensures p == Decode(a)
  {
    hide FromLE, ReadRecurring, ReadTokenRecurring, ReadAddress;
    var kind, data := a.permission, a.data;
    if kind == 7 || kind == 8 || kind == 15 || kind == 13 {
      return if |data| != 0 then None else DecodeMarker(kind);
    } else if kind == 3 {
      if |data| != 32 { return None; }
      var target := ReadAddressAt(data, 0);
      assert Slice(data, 0, 32) == data[..32];
      return if target.None? then None else Some(Program(target.value));
    } else if kind == 1 {
      if |data| != 8 { return None; }
      assert data[0..8] == data;
      return Some(NativeLimit(ReadUint64(data, 0).value));
    } else if kind == 2 {
      if |data| != 32 { return None; }
      assert data[0..] == data;
      var limit := ReadRecurringAt(data, 0);
      return if limit.None? then None else Some(NativeRecurringLimit(limit.value));
    } else if kind == 16 {
      if |data| != 40 { return None; }
      var destination := ReadAddressAt(data, 0);
      assert Slice(data, 0, 32) == data[..32] && data[32..40] == data[32..];
      return if destination.None? then None
             else Some(NativeDestinationLimit(destination.value, ReadUint64(data, 32).value));
    } else if kind == 17 {
      if |data| != 64 { return None; }
      var destination := ReadAddressAt(data, 0);
      assert Slice(data, 0, 32) == data[..32];
      var limit := ReadRecurringAt(data, 32);
      return if destination.None? || limit.None? then None
             else Some(NativeRecurringDestinationLimit(destination.value, limit.value));
    } else if kind == 5 {
      if |data| != 40 { return None; }
      var token := ReadAddressAt(data, 0);
      assert Slice(data, 0, 32) == data[..32] && data[32..40] == data[32..];
      return if token.None? then None else Some(TokenLimit(token.value, ReadUint64(data, 32).value));
    } else if kind == 6 {
      if |data| != 64 { return None; }
      var limit := ReadTokenRecurringAt(data);
      var token := ReadAddressAt(data, 0);
      assert Slice(data, 0, 32) == data[..32];
      return if token.None? || limit.None? then None else Some(TokenRecurringLimit(token.value, limit.value));
    } else if kind == 18 {
      if |data| != 72 { return None; }
      var token := ReadAddressAt(data, 0);
      var destination := ReadAddressAt(data, 32);
      assert Slice(data, 0, 32) == data[..32] && Slice(data, 32, 64) == data[32..64] && data[64..72] == data[64..];
      return if token.None? || destination.None? then None
             else Some(TokenDestinationLimit(token.value, destination.value, ReadUint64(data, 64).value));
    } else if kind == 19 {
      if |data| != 96 { return None; }
      var token := ReadAddressAt(data, 0);
      var destination := ReadAddressAt(data, 32);
      assert Slice(data, 0, 32) == data[..32] && Slice(data, 32, 64) == data[32..64];
      var limit := ReadRecurringAt(data, 64);
      return if token.None? || destination.None? || limit.None? then None
             else Some(TokenRecurringDestinationLimit(token.value, destination.value, limit.value));
    }
    return None;
  }
}
