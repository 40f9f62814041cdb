/** What the queries answer about a role as it is stored, read off its bytes: limits may be partly spent. */
module SpentLimits {
  import opened Bytes
  import opened StructCodecs
  import opened ActionCodec
  import opened SpendControl
  import opened ActionQueries
  import opened PayloadBytes

  // ----- records -----

  /** Where the record at a cursor says that it ends. */
  function EndAt(buffer: seq<Byte>, cursor: nat): nat
    requires cursor + 8 <= |buffer|
  {
    FromLE(buffer[cursor + 4..cursor + 8])
  }

  /** The bytes between the header and the end of a record. */
  function PayloadAt(buffer: seq<Byte>, cursor: nat): seq<Byte>
    requires cursor + 8 <= |buffer|
  {
    Slice(buffer, cursor + 8, EndAt(buffer, cursor))
  }

  lemma {:induction false} HeaderAt(buffer: seq<Byte>, cursor: nat)
    requires ParseAt(buffer, cursor).Some?
    ensures cursor + 8 <= |buffer|
    ensures var h := ParseAt(buffer, cursor).value.header;
            && Code(h.permission) == FromLE(buffer[cursor..cursor + 2])
            && h.length == FromLE(buffer[cursor + 2..cursor + 4])
            && h.boundary == EndAt(buffer, cursor)
  {
    hide DecodePayload, FromLE;
    var bs := Slice(buffer, cursor, cursor + HEADER_LENGTH);
    assert cursor + 8 <= |buffer| && bs == buffer[cursor..cursor + 8];
    assert bs[..2] == buffer[cursor..cursor + 2] && bs[2..4] == buffer[cursor + 2..cursor + 4];
    assert bs[4..8] == buffer[cursor + 4..cursor + 8];
  }

  /** A parsed record: its kind, and every field at its offset in the payload. */
  lemma {:induction false} RecordAt(buffer: seq<Byte>, cursor: nat)
    requires ParseAt(buffer, cursor).Some?
    ensures cursor + 8 <= |buffer|
    ensures var a, data := ParseAt(buffer, cursor).value, PayloadAt(buffer, cursor);
            && Accepted(a.header.permission, data)
            && a.payload == Payload(a.header.permission, Fields(a.header.permission, data))
  {
    HeaderAt(buffer, cursor);
    var h := ParseAt(buffer, cursor).value.header;
    FieldsAtOffsets(h.permission, PayloadAt(buffer, cursor));
    hide DecodePayload, Accepted, Fields, DecodeHeader, FromLE, Slice;
  }

  /** Exactly the records with a known code and an accepted payload can be parsed. */
  lemma {:induction false} RecordParses(buffer: seq<Byte>, cursor: nat)
    ensures ParseAt(buffer, cursor).Some? <==>
            && cursor + 8 <= |buffer|
            && exists p :: Code(p) == FromLE(buffer[cursor..cursor + 2]) && Accepted(p, PayloadAt(buffer, cursor))
  {
    if ParseAt(buffer, cursor).Some? {
      HeaderAt(buffer, cursor);
      RecordAt(buffer, cursor);
      hide ParseAt, Accepted, PayloadAt;
    } else if cursor + 8 <= |buffer| {
      forall p | Code(p) == FromLE(buffer[cursor..cursor + 2]) ensures !Accepted(p, PayloadAt(buffer, cursor)) {
        KnownCode(buffer, cursor, p);
      }
    }
  }

  lemma {:induction false} KnownCode(buffer: seq<Byte>, cursor: nat, p: Permission)
    requires cursor + 8 <= |buffer| && Code(p) == FromLE(buffer[cursor..cursor + 2])
    requires ParseAt(buffer, cursor).None?
    ensures !Accepted(p, PayloadAt(buffer, cursor))
  {
    hide FromLE, DecodePayload, Accepted;
    var bs := Slice(buffer, cursor, cursor + HEADER_LENGTH);
    assert bs == buffer[cursor..cursor + 8];
    assert bs[..2] == buffer[cursor..cursor + 2] && bs[4..8] == buffer[cursor + 4..cursor + 8];
    CodeIsInjective(p);
    FieldsAtOffsets(p, PayloadAt(buffer, cursor));
    hide Code, Fields;
  }

  /** The records of a buffer: the first at the start, each other one where the one before it says that it ends. */
  lemma {:induction false} RecordsFollow(buffer: seq<Byte>, cursor: nat, count: nat, i: nat)
    requires Parse(buffer, cursor, count).Some? && i < count
    ensures var actions := Parse(buffer, cursor, count).value;
            ParseAt(buffer, if i == 0 then cursor else actions[i - 1].header.boundary) == Some(actions[i])
    decreases i
  {
    hide ParseAt;
    if i > 0 {
      RecordsFollow(buffer, ParseAt(buffer, cursor).value.header.boundary, count - 1, i - 1);
    }
  }

  // ----- controllers -----

  function Number64(data: seq<Byte>, at: nat): nat
    requires at + 8 <= |data|
  {
    FromLE(data[at..at + 8])
  }

  /** The controller of a limit that refills, given where its four words are. */
  function Refilling(data: seq<Byte>, current: nat, window: nat, lastReset: nat, full: nat): Control
    requires current + 8 <= |data| && window + 8 <= |data| && lastReset + 8 <= |data| && full + 8 <= |data|
  {
    Control(true, AtMost(Number64(data, current)), Some(Number64(data, window)), Some(Number64(data, lastReset)),
            Some(Number64(data, full)))
  }

  /** What a payload lets its role spend: the stored amount, which for a refilling limit is what is left. */
  function Stated(p: Permission, data: seq<Byte>, asset: Asset): Control
    requires Accepted(p, data)
  {
    match p
    case All => Control(true, Uncapped)
    case AllButManageAuthority => Control(true, Uncapped)
    case SolLimit => if asset.Sol? then Control(true, AtMost(Number64(data, 0))) else Control(false, Uncapped)
    case SolDestinationLimit =>
      if asset.Sol? then Control(true, AtMost(Number64(data, 32))) else Control(false, Uncapped)
    case SolRecurringLimit => if asset.Sol? then Refilling(data, 24, 8, 16, 0) else Control(false, Uncapped)
    case SolRecurringDestinationLimit =>
      if asset.Sol? then Refilling(data, 56, 40, 48, 32) else Control(false, Uncapped)
    case TokenLimit =>
      if asset == Token(data[0..32]) then Control(true, AtMost(Number64(data, 32))) else Control(false, Uncapped)
    case TokenDestinationLimit =>
      if asset == Token(data[0..32]) then Control(true, AtMost(Number64(data, 64))) else Control(false, Uncapped)
    case TokenRecurringLimit =>
      if asset == Token(data[0..32]) then Refilling(data, 48, 32, 56, 40) else Control(false, Uncapped)
    case TokenRecurringDestinationLimit =>
      if asset == Token(data[0..32]) then Refilling(data, 88, 72, 80, 64) else Control(false, Uncapped)
    case _ => Control(false, Uncapped)
  }

  lemma {:induction false} SolControls(a: Action, data: seq<Byte>)
    requires Accepted(a.header.permission, data) && !IsTokenLimit(a.header.permission)
    requires a.payload == Payload(a.header.permission, Fields(a.header.permission, data))
    ensures ControlOf(a, Sol) == Stated(a.header.permission, data, Sol)
  {
    hide FromLE;
  }

  lemma {:induction false} TokenControls(a: Action, data: seq<Byte>, mint: seq<Byte>)
    requires Accepted(a.header.permission, data) && IsTokenLimit(a.header.permission)
    requires a.payload == Payload(a.header.permission, Fields(a.header.permission, data))
    ensures ControlOf(a, Token(mint)) == Stated(a.header.permission, data, Token(mint))
  {
    hide FromLE;
  }

  lemma {:induction false} OtherControls(a: Action, data: seq<Byte>, asset: Asset)
    requires Accepted(a.header.permission, data)
    requires asset.Sol? == IsTokenLimit(a.header.permission)
    requires a.payload == Payload(a.header.permission, Fields(a.header.permission, data))
    ensures ControlOf(a, asset) == Stated(a.header.permission, data, asset)
  {
    hide FromLE, Fields, Accepted;
  }

  /** The controller of every parsed action is the one that its bytes state. */
  lemma {:induction false} ControlIsStored(buffer: seq<Byte>, cursor: nat, asset: Asset)
    requires ParseAt(buffer, cursor).Some?
    ensures cursor + 8 <= |buffer|
    ensures var a, data := ParseAt(buffer, cursor).value, PayloadAt(buffer, cursor);
            && Accepted(a.header.permission, data)
            && ControlOf(a, asset) == Stated(a.header.permission, data, asset)
  {
    RecordAt(buffer, cursor);
    var a, data := ParseAt(buffer, cursor).value, PayloadAt(buffer, cursor);
    hide ParseAt, Fields, Accepted, ControlOf, Stated, PayloadAt;
    if asset.Sol? == IsTokenLimit(a.header.permission) {
      OtherControls(a, data, asset);
    } else if asset.Sol? {
      SolControls(a, data);
    } else {
      TokenControls(a, data, asset.mint);
    }
  }

  // ----- locks and programs -----

  /** The longest lock is the stored word of the record that allows locks. */
  lemma {:induction false} LockIsStored(buffer: seq<Byte>, cursor: nat)
    requires ParseAt(buffer, cursor).Some?
    ensures cursor + 8 <= |buffer|
    ensures var code, data := FromLE(buffer[cursor..cursor + 2]), PayloadAt(buffer, cursor);
            && (code == 27 ==> |data| == 8)
            && LockMax(ParseAt(buffer, cursor).value) == if code == 27 then Some(FromLE(data)) else None
  {
    HeaderAt(buffer, cursor);
    RecordAt(buffer, cursor);
    var a, data := ParseAt(buffer, cursor).value, PayloadAt(buffer, cursor);
    hide ParseAt, FromLE, PayloadAt;
    if a.header.permission.ManageAuthorizationLocks? {
      assert data[0..8] == data;
    }
  }

  /** A record allows a program by its code, or by the key it stores. */
  lemma {:induction false} ProgramIsStored(buffer: seq<Byte>, cursor: nat, program: seq<Byte>)
    requires ParseAt(buffer, cursor).Some?
    ensures cursor + 8 <= |buffer|
    ensures var code, data := FromLE(buffer[cursor..cursor + 2]), PayloadAt(buffer, cursor);
            && (code == 3 ==> |data| >= 32)
            && (UsesProgram(ParseAt(buffer, cursor).value, program) <==>
                  code in {7, 13, 14, 15} || (code == 3 && data[..32] == program))
  {
    HeaderAt(buffer, cursor);
    RecordAt(buffer, cursor);
    var a, data := ParseAt(buffer, cursor).value, PayloadAt(buffer, cursor);
    hide ParseAt, FromLE, PayloadAt;
    ProgramOfCode(a, data, program);
  }

  lemma {:induction false} ProgramOfCode(a: Action, data: seq<Byte>, program: seq<Byte>)
    requires Accepted(a.header.permission, data)
    requires a.payload == Payload(a.header.permission, Fields(a.header.permission, data))
    ensures var code := Code(a.header.permission);
            && (code == 3 ==> |data| >= 32)
            && (UsesProgram(a, program) <==> code in {7, 13, 14, 15} || (code == 3 && data[..32] == program))
  {
    if a.header.permission.Program? {
      assert data[0..32] == data[..32];
    } else {
      hide Fields, Accepted;
    }
  }

  // ----- a role with one partly spent limit -----

  /** The record of a recurring limit on SOL. */
  function SolRecurringRecord(full: nat, window: nat, lastReset: nat, left: nat): seq<Byte>
  {
    [2, 0, 32, 0, 40, 0, 0, 0] + ToLE(full, 8) + ToLE(window, 8) + ToLE(lastReset, 8) + ToLE(left, 8)
  }

  lemma {:induction false} SpentHeader(buffer: seq<Byte>, payload: seq<Byte>)
    requires |payload| == 32 && buffer == [2, 0, 32, 0, 40, 0, 0, 0] + payload
    ensures DecodeHeader(Slice(buffer, 0, 8)) == Some(Header(SolRecurringLimit, 32, 40))
    ensures Slice(buffer, 8, 40) == payload
  {
    var bs := Slice(buffer, 0, 8);
    assert bs == [2, 0, 32, 0, 40, 0, 0, 0] && Slice(buffer, 8, 40) == payload;
    SmallNumber(bs[..2]);
    SmallNumber(bs[2..4]);
    SmallNumber(bs[4..8]);
    hide FromLE;
  }

  lemma {:induction false} SmallNumber(bs: seq<Byte>)
    requires bs != [] && forall i :: 1 <= i < |bs| ==> bs[i] == 0
    ensures FromLE(bs) == bs[0]
  {
    if |bs| > 1 {
      SmallNumber(bs[1..]);
    }
  }

  /** The answers about such a role are about what is left, not about the full amount. */
  lemma {:induction false} PartlySpent(full: nat, window: nat, lastReset: nat, left: nat) returns (a: Action)
    requires full < U64 && window < U64 && lastReset < U64 && left < U64
    ensures Parse(SolRecurringRecord(full, window, lastReset, left), 0, 1) == Some([a])
    ensures ControlOf(a, Sol) == Control(true, AtMost(left), Some(window), Some(lastReset), Some(full))
    ensures SpendLimit([a], Sol) == AtMost(left)
    ensures forall amount: int :: amount > 0 ==> (CanSpend([a], Sol, Some(amount)) <==> amount <= left)
  {
    var buffer := SolRecurringRecord(full, window, lastReset, left);
    var payload := ToLE(full, 8) + ToLE(window, 8) + ToLE(lastReset, 8) + ToLE(left, 8);
    assert buffer == [2, 0, 32, 0, 40, 0, 0, 0] + payload;
    SpentHeader(buffer, payload);
    FieldsAtOffsets(SolRecurringLimit, payload);
    a := Action(Header(SolRecurringLimit, 32, 40), DecodePayload(SolRecurringLimit, payload).value);
    assert ParseAt(buffer, 0) == Some(a);
    OneRecord(buffer, a);
    FourWords(full, window, lastReset, left, payload);
    SolControls(a, payload);
    hide ControlOf, DecodePayload, ParseAt, Parse, FromLE, ToLE, Accepted, Fields;
    assert [a][..0] == [] && SpendLimit([a][..0], Sol) == AtMost(0);
    forall amount: int | amount > 0 ensures CanSpend([a], Sol, Some(amount)) <==> amount <= left {
      CanSpendIffWithinLimit([a], Sol, amount);
    }
  }

  lemma {:induction false} OneRecord(buffer: seq<Byte>, a: Action)
    requires ParseAt(buffer, 0) == Some(a)
    ensures Parse(buffer, 0, 1) == Some([a])
  {
    hide ParseAt;
    assert Parse(buffer, a.header.boundary, 0) == Some([]);
    assert [a] + [] == [a];
  }

  lemma {:induction false} FourWords(a: nat, b: nat, c: nat, d: nat, payload: seq<Byte>)
    requires a < U64 && b < U64 && c < U64 && d < U64
    requires payload == ToLE(a, 8) + ToLE(b, 8) + ToLE(c, 8) + ToLE(d, 8)
    ensures Number64(payload, 0) == a && Number64(payload, 8) == b
    ensures Number64(payload, 16) == c && Number64(payload, 24) == d
  {
    PowersOf256();
    FromToLE(a, 8);
    FromToLE(b, 8);
    FromToLE(c, 8);
    FromToLE(d, 8);
    hide ToLE, FromLE, Pow256;
    FourParts(ToLE(a, 8), ToLE(b, 8), ToLE(c, 8), ToLE(d, 8));
  }

  lemma {:induction false} FourParts(a: seq<Byte>, b: seq<Byte>, c: seq<Byte>, d: seq<Byte>)
    requires |a| == |b| == |c| == |d| == 8
    ensures var all := a + b + c + d; all[0..8] == a && all[8..16] == b && all[16..24] == c && all[24..32] == d
  {
  }

  /** Of 1000 per window of 100, 300 are left: 300 may be spent and 500 may not. */
  lemma {:induction false} ThreeHundredLeft() returns (a: Action)
    ensures Parse(SolRecurringRecord(1000, 100, 5000, 300), 0, 1) == Some([a])
    ensures SpendLimit([a], Sol) == AtMost(300)
    ensures CanSpend([a], Sol, Some(300)) && !CanSpend([a], Sol, Some(500))
  {
    a := PartlySpent(1000, 100, 5000, 300);
  }
}
