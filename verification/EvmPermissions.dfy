/** The EVM permissions and their wire format, as the Python SDK computes it by concatenation. */
module EvmPermissions {
  import opened Bytes

  type Address = a: seq<Byte> | |a| == 20 witness Zeros(20)

  datatype RecurringLimit = RecurringLimit(recurringAmount: int, window: int, lastReset: int, currentAmount: int)

  datatype Permission =
    | All
    | ManageAuthority
    | AllButManageAuthority
    | ProgramAll
    | Program(target: Address)
    | NativeLimit(amount: int)
    | NativeRecurringLimit(limit: RecurringLimit)
    | NativeDestinationLimit(destination: Address, amount: int)
    | NativeRecurringDestinationLimit(destination: Address, limit: RecurringLimit)
    | TokenLimit(token: Address, amount: int)
    | TokenRecurringLimit(token: Address, limit: RecurringLimit)
    | TokenDestinationLimit(token: Address, destination: Address, amount: int)
    | TokenRecurringDestinationLimit(token: Address, destination: Address, limit: RecurringLimit)

  datatype Action = Action(permission: nat, data: seq<Byte>)

  // ----- words -----

  /** Eight little-endian bytes; None stands for the range error. */
  function Word64(n: int): (r: Option<seq<Byte>>)
    ensures r.Some? ==> |r.value| == 8
  {
    if IsUint64(n) then Some(ToLE(n, 8)) else None
  }

  function AddressWord(a: Address): (w: seq<Byte>)
    ensures |w| == 32
  {
    Zeros(12) + a
  }

  function ReadAddress(w: seq<Byte>): Option<Address>
  {
    if |w| != 32 || exists i :: 0 <= i < 12 && w[i] != 0 then None else Some(w[12..])
  }

  lemma {:induction false} Word64RoundTrip(n: int)
    requires IsUint64(n)
    ensures FromLE(ToLE(n, 8)) == n
  {
    PowersOf256();
    FromToLE(n, 8);
  }

  lemma {:induction false} Word64FromBytes(bs: seq<Byte>)
    requires |bs| == 8
    ensures IsUint64(FromLE(bs)) && ToLE(FromLE(bs), 8) == bs
  {
    PowersOf256();
    ToFromLE(bs);
  }

  lemma {:induction false} AddressRoundTrip(a: Address)
    ensures ReadAddress(AddressWord(a)) == Some(a)
  {
  }

  /** Only the canonical padding is accepted. */
  lemma {:induction false} AddressIsCanonical(w: seq<Byte>)
    requires ReadAddress(w).Some?
    ensures AddressWord(ReadAddress(w).value) == w
    ensures w == Zeros(12) + ReadAddress(w).value
  {
  }

  // ----- recurring limits -----

  predicate ValidLimit(l: RecurringLimit)
  {
    && IsUint64(l.recurringAmount) && IsUint64(l.window) && IsUint64(l.lastReset) && IsUint64(l.currentAmount)
    && l.window != 0 && l.currentAmount <= l.recurringAmount
  }

  function Four(a: int, b: int, c: int, d: int): (r: Option<seq<Byte>>)
    ensures r.Some? ==> |r.value| == 32
  {
    var wa, wb, wc, wd := Word64(a), Word64(b), Word64(c), Word64(d);
    if wa.None? || wb.None? || wc.None? || wd.None? then None
    else Some(wa.value + wb.value + wc.value + wd.value)
  }

  /** The dataclass checks itself when it is made, so an invalid limit is never encoded. */
  function Recurring(l: RecurringLimit): (r: Option<seq<Byte>>)
    ensures r.Some? ==> |r.value| == 32
  {
    if ValidLimit(l) then Four(l.recurringAmount, l.window, l.lastReset, l.currentAmount) else None
  }

  /** TokenRecurringLimit alone has this field order. */
  function TokenRecurring(l: RecurringLimit): (r: Option<seq<Byte>>)
    ensures r.Some? ==> |r.value| == 32
  {
    if ValidLimit(l) then Four(l.window, l.recurringAmount, l.currentAmount, l.lastReset) else None
  }

  function CheckedLimit(l: RecurringLimit): Option<RecurringLimit>
  {
    if ValidLimit(l) then Some(l) else None
  }

  function ReadRecurring(bs: seq<Byte>): Option<RecurringLimit>
    requires |bs| == 32
  {
    CheckedLimit(RecurringLimit(FromLE(bs[..8]), FromLE(bs[8..16]), FromLE(bs[16..24]), FromLE(bs[24..])))
  }

  function ReadTokenRecurring(bs: seq<Byte>): Option<RecurringLimit>
    requires |bs| == 32
  {
    CheckedLimit(RecurringLimit(FromLE(bs[8..16]), FromLE(bs[..8]), FromLE(bs[24..]), FromLE(bs[16..24])))
  }

  lemma {:induction false} FourRoundTrip(a: int, b: int, c: int, d: int)
    requires IsUint64(a) && IsUint64(b) && IsUint64(c) && IsUint64(d)
    ensures Four(a, b, c, d).Some?
    ensures var bs := Four(a, b, c, d).value;
            FromLE(bs[..8]) == a && FromLE(bs[8..16]) == b && FromLE(bs[16..24]) == c && FromLE(bs[24..]) == d
  {
    Word64RoundTrip(a);
    Word64RoundTrip(b);
    Word64RoundTrip(c);
    Word64RoundTrip(d);
    hide ToLE, FromLE;
    var bs := Four(a, b, c, d).value;
    assert bs[..8] == ToLE(a, 8) && bs[8..16] == ToLE(b, 8) && bs[16..24] == ToLE(c, 8) && bs[24..] == ToLE(d, 8);
  }

  lemma {:induction false} FourOf(a: seq<Byte>, b: seq<Byte>, c: seq<Byte>, d: seq<Byte>)
    requires |a| == |b| == |c| == |d| == 8
    ensures Four(FromLE(a), FromLE(b), FromLE(c), FromLE(d)) == Some(a + b + c + d)
  {
    hide ToLE, FromLE, IsUint64;
    Word64FromBytes(a);
    Word64FromBytes(b);
    Word64FromBytes(c);
    Word64FromBytes(d);
  }

  lemma {:induction false} FourFromBytes(bs: seq<Byte>)
    requires |bs| == 32
    ensures Four(FromLE(bs[..8]), FromLE(bs[8..16]), FromLE(bs[16..24]), FromLE(bs[24..])) == Some(bs)
  {
    hide *;
    FourOf(bs[..8], bs[8..16], bs[16..24], bs[24..]);
    assert bs == bs[..8] + bs[8..16] + bs[16..24] + bs[24..];
  }

  lemma {:induction false} RecurringRoundTrip(l: RecurringLimit)
    requires ValidLimit(l)
    ensures Recurring(l).Some? && ReadRecurring(Recurring(l).value) == Some(l)
    ensures TokenRecurring(l).Some? && ReadTokenRecurring(TokenRecurring(l).value) == Some(l)
  {
    FourRoundTrip(l.recurringAmount, l.window, l.lastReset, l.currentAmount);
    FourRoundTrip(l.window, l.recurringAmount, l.currentAmount, l.lastReset);
    hide Four, FromLE;
  }

  lemma {:induction false} RecurringFromBytes(bs: seq<Byte>)
    requires |bs| == 32
    ensures ReadRecurring(bs).Some? ==> Recurring(ReadRecurring(bs).value) == Some(bs)
    ensures ReadTokenRecurring(bs).Some? ==> TokenRecurring(ReadTokenRecurring(bs).value) == Some(bs)
  {
    FourFromBytes(bs);
    hide Four, FromLE;
  }

  /** Reading at an offset is reading the rest of the payload. */
  lemma {:induction false} RecurringAt(data: seq<Byte>, offset: nat)
    requires offset + 32 == |data|
    ensures var first, second := FromLE(data[offset..offset + 8]), FromLE(data[offset + 8..offset + 16]);
            var third, fourth := FromLE(data[offset + 16..offset + 24]), FromLE(data[offset + 24..offset + 32]);
            && ReadRecurring(data[offset..]) == CheckedLimit(RecurringLimit(first, second, third, fourth))
            && ReadTokenRecurring(data[offset..]) == CheckedLimit(RecurringLimit(second, first, fourth, third))
  {
    hide FromLE, CheckedLimit;
    var bs := data[offset..];
    assert bs[..8] == data[offset..offset + 8] && bs[8..16] == data[offset + 8..offset + 16];
    assert bs[16..24] == data[offset + 16..offset + 24] && bs[24..] == data[offset + 24..offset + 32];
  }

  // ----- permissions -----

  function WithData(kind: nat, data: Option<seq<Byte>>): Option<Action>
  {
    if data.None? then None else Some(Action(kind, data.value))
  }

  function Encode(p: Permission): Option<Action>
  {
    match p
    case All => Some(Action(7, []))
    case ManageAuthority => Some(Action(8, []))
    case AllButManageAuthority => Some(Action(15, []))
    case ProgramAll => Some(Action(13, []))
    case Program(target) => Some(Action(3, AddressWord(target)))
    case NativeLimit(amount) => WithData(1, Word64(amount))
    case NativeRecurringLimit(limit) => WithData(2, Recurring(limit))
    case NativeDestinationLimit(destination, amount) => WithData(16, After(AddressWord(destination), Word64(amount)))
    case NativeRecurringDestinationLimit(destination, limit) =>
      WithData(17, After(AddressWord(destination), Recurring(limit)))
    case TokenLimit(token, amount) => WithData(5, After(AddressWord(token), Word64(amount)))
    case TokenRecurringLimit(token, limit) => WithData(6, After(AddressWord(token), TokenRecurring(limit)))
    case TokenDestinationLimit(token, destination, amount) =>
      WithData(18, After(AddressWord(token) + AddressWord(destination), Word64(amount)))
    case TokenRecurringDestinationLimit(token, destination, limit) =>
      WithData(19, After(AddressWord(token) + AddressWord(destination), Recurring(limit)))
  }

  /** The exact payload size of each supported kind. */
  const SIZES: map<nat, nat> :=
    map[7 := 0, 8 := 0, 13 := 0, 15 := 0, 3 := 32, 1 := 8, 2 := 32,
        16 := 40, 17 := 64, 5 := 40, 6 := 64, 18 := 72, 19 := 96]

  function DecodeMarker(kind: nat): Option<Permission>
  {
    if kind == 7 then Some(All)
    else if kind == 8 then Some(ManageAuthority)
    else if kind == 15 then Some(AllButManageAuthority)
    else if kind == 13 then Some(ProgramAll)
    else None
  }

  function Decode(a: Action): Option<Permission>
  {
    var kind, data := a.permission, a.data;
    if kind !in SIZES || |data| != SIZES[kind] then None
    else if |data| == 0 then DecodeMarker(kind)
    else if kind == 1 then Some(NativeLimit(FromLE(data)))
    else if kind == 2 then
      var limit := ReadRecurring(data);
      if limit.None? then None else Some(NativeRecurringLimit(limit.value))
    else
      var first := ReadAddress(data[..32]);
      if first.None? then None
      else if kind == 3 then Some(Program(first.value))
      else if kind == 16 then Some(NativeDestinationLimit(first.value, FromLE(data[32..])))
      else if kind == 17 then
        var limit := ReadRecurring(data[32..]);
        if limit.None? then None else Some(NativeRecurringDestinationLimit(first.value, limit.value))
      else if kind == 5 then Some(TokenLimit(first.value, FromLE(data[32..])))
      else if kind == 6 then
        var limit := ReadTokenRecurring(data[32..]);
        if limit.None? then None else Some(TokenRecurringLimit(first.value, limit.value))
      else
        var second := ReadAddress(data[32..64]);
        if second.None? then None
        else if kind == 18 then Some(TokenDestinationLimit(first.value, second.value, FromLE(data[64..])))
        else
          var limit := ReadRecurring(data[64..]);
          if limit.None? then None else Some(TokenRecurringDestinationLimit(first.value, second.value, limit.value))
  }

  // ----- the codec is a bijection -----

  predicate HasLimit(p: Permission)
  {
    || p.NativeRecurringLimit? || p.NativeRecurringDestinationLimit?
    || p.TokenRecurringLimit? || p.TokenRecurringDestinationLimit?
  }

  predicate HasAmount(p: Permission)
  {
    p.NativeLimit? || p.NativeDestinationLimit? || p.TokenLimit? || p.TokenDestinationLimit?
  }

  /** Amounts fit 64 bits and recurring limits are valid. */
  predicate Valid(p: Permission)
  {
    (HasAmount(p) ==> IsUint64(p.amount)) && (HasLimit(p) ==> ValidLimit(p.limit))
  }

  lemma {:induction false} Payload(front: seq<Byte>, tail: seq<Byte>)
    requires |front| == 32
    ensures (front + tail)[..32] == front && (front + tail)[32..] == tail
  {
  }

  lemma {:induction false} TwoAddresses(first: seq<Byte>, second: seq<Byte>, tail: seq<Byte>)
    requires |first| == |second| == 32
    ensures (first + second + tail)[..32] == first && (first + second + tail)[32..64] == second
    ensures (first + second + tail)[64..] == tail
  {
  }

  /** Exactly the valid permissions can be encoded. */
  lemma {:induction false} EncodesExactlyValid(p: Permission)
    ensures Encode(p).Some? <==> Valid(p)
  {
    if HasLimit(p) {
      RecurringIff(p.limit);
    }
    hide Recurring, TokenRecurring, ValidLimit, AddressWord, ToLE;
  }

  /** The amounts that can be encoded, and the limits: a window that is not zero, and no more left than granted. */
  lemma {:induction false} EncodesInRange(p: Permission)
    ensures HasAmount(p) ==> (Encode(p).Some? <==> 0 <= p.amount <= 0xffff_ffff_ffff_ffff)
    ensures HasLimit(p) ==>
              (Encode(p).Some? <==>
                 && 0 <= p.limit.currentAmount <= p.limit.recurringAmount <= 0xffff_ffff_ffff_ffff
                 && 1 <= p.limit.window <= 0xffff_ffff_ffff_ffff
                 && 0 <= p.limit.lastReset <= 0xffff_ffff_ffff_ffff)
    ensures !HasAmount(p) && !HasLimit(p) ==> Encode(p).Some?
  {
    EncodesExactlyValid(p);
    hide Encode;
  }

  lemma {:induction false} RecurringIff(l: RecurringLimit)
    ensures Recurring(l).Some? <==> ValidLimit(l)
    ensures TokenRecurring(l).Some? <==> ValidLimit(l)
  {
    if ValidLimit(l) {
      RecurringRoundTrip(l);
    }
  }

  lemma {:induction false} DecodeEncodedPlain(p: Permission)
    requires !HasAmount(p) && !HasLimit(p)
    ensures Encode(p).Some? && Decode(Encode(p).value) == Some(p)
  {
    hide ToLE, FromLE, Recurring, TokenRecurring, ReadRecurring, ReadTokenRecurring, ReadAddress, AddressWord;
    if p.Program? {
      AddressRoundTrip(p.target);
      assert AddressWord(p.target)[..32] == AddressWord(p.target);
    }
  }

  lemma {:induction false} DecodeEncodedAmount(p: Permission)
    requires HasAmount(p) && IsUint64(p.amount)
    ensures Encode(p).Some? && Decode(Encode(p).value) == Some(p)
  {
    hide ToLE, FromLE, Recurring, TokenRecurring, ReadRecurring, ReadTokenRecurring, ReadAddress, AddressWord;
    Word64RoundTrip(p.amount);
    var tail := ToLE(p.amount, 8);
    if p.NativeDestinationLimit? {
      AddressRoundTrip(p.destination);
      Payload(AddressWord(p.destination), tail);
    } else if p.TokenLimit? {
      AddressRoundTrip(p.token);
      Payload(AddressWord(p.token), tail);
    } else if p.TokenDestinationLimit? {
      AddressRoundTrip(p.token);
      AddressRoundTrip(p.destination);
      TwoAddresses(AddressWord(p.token), AddressWord(p.destination), tail);
    }
  }

  lemma {:induction false} DecodeEncodedLimit(p: Permission)
    requires HasLimit(p) && ValidLimit(p.limit)
    ensures Encode(p).Some? && Decode(Encode(p).value) == Some(p)
  {
    hide ToLE, FromLE, Recurring, TokenRecurring, ReadRecurring, ReadTokenRecurring, ReadAddress, AddressWord;
    hide ValidLimit;
    RecurringRoundTrip(p.limit);
    if p.NativeRecurringDestinationLimit? {
      AddressRoundTrip(p.destination);
      Payload(AddressWord(p.destination), Recurring(p.limit).value);
    } else if p.TokenRecurringLimit? {
      AddressRoundTrip(p.token);
      Payload(AddressWord(p.token), TokenRecurring(p.limit).value);
    } else if p.TokenRecurringDestinationLimit? {
      AddressRoundTrip(p.token);
      AddressRoundTrip(p.destination);
      TwoAddresses(AddressWord(p.token), AddressWord(p.destination), Recurring(p.limit).value);
    }
  }

  /** Decoding gives back every valid permission. */
  lemma {:induction false} DecodeEncoded(p: Permission)
    requires Encode(p).Some?
    ensures Decode(Encode(p).value) == Some(p)
  {
    EncodesExactlyValid(p);
    hide Encode, Decode;
    if HasAmount(p) {
      DecodeEncodedAmount(p);
    } else if HasLimit(p) {
      DecodeEncodedLimit(p);
    } else {
      DecodeEncodedPlain(p);
    }
  }

  lemma {:induction false} Rejoin(data: seq<Byte>, k: nat)
    requires k <= |data|
    ensures data[..k] + data[k..] == data
    ensures 32 <= k ==> data[..32] + data[32..k] + data[k..] == data
  {
  }

  /** Encoding gives back every accepted action byte for byte. */
  lemma {:induction false} EncodeDecoded(a: Action)
    requires Decode(a).Some?
    ensures Encode(Decode(a).value) == Some(a)
  {
    var data := a.data;
    hide ToLE, FromLE, Recurring, TokenRecurring, ReadRecurring, ReadTokenRecurring, ReadAddress, AddressWord;
    if |data| == 8 {
      Word64FromBytes(data);
    } else if |data| == 32 {
      if a.permission == 2 {
        RecurringFromBytes(data);
      } else {
        AddressIsCanonical(data[..32]);
        assert data[..32] == data;
      }
    } else if |data| == 40 || |data| == 64 {
      AddressIsCanonical(data[..32]);
      Rejoin(data, 32);
      if |data| == 40 {
        Word64FromBytes(data[32..]);
      } else {
        RecurringFromBytes(data[32..]);
      }
    } else if |data| > 64 {
      AddressIsCanonical(data[..32]);
      AddressIsCanonical(data[32..64]);
      Rejoin(data, 64);
      if |data| == 72 {
        Word64FromBytes(data[64..]);
      } else {
        RecurringFromBytes(data[64..]);
      }
    }
  }

  /** The decoder accepts exactly what the encoder makes. */
  lemma {:induction false} AcceptsExactlyEncodings(a: Action)
    ensures Decode(a).Some? <==> exists p :: Encode(p) == Some(a)
  {
    hide Encode, Decode;
    if Decode(a).Some? {
      EncodeDecoded(a);
    }
    if p :| Encode(p) == Some(a) {
      DecodeEncoded(p);
    }
  }
}
