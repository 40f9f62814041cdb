/** ERC-4337 user operations: packing the RPC fields into the contract tuple. */
module PackedOperations {
  import opened Bytes
  import opened EvmPermissions

  // ----- two 128-bit numbers in one word -----

  /** h << bits. */
  function Shift(h: nat, bits: nat): nat
  {
    if bits == 0 then h else 2 * Shift(h, bits - 1)
  }

  function BitOr(a: nat, b: nat): nat
    decreases a + b
  {
    if a == 0 && b == 0 then 0
    else 2 * BitOr(a / 2, b / 2) + if a % 2 == 1 || b % 2 == 1 then 1 else 0
  }

  lemma {:induction false} OrWithZero(a: nat)
    ensures BitOr(a, 0) == a
  {
    if a > 0 {
      OrWithZero(a / 2);
    }
  }

  /** Numbers without a common bit are added. */
  lemma {:induction false} OrOfDisjoint(h: nat, low: nat, bits: nat)
    requires low < Shift(1, bits)
    ensures BitOr(Shift(h, bits), low) == Shift(h, bits) + low
  {
    if bits == 0 {
      OrWithZero(h);
    } else {
      OrOfDisjoint(h, low / 2, bits - 1);
    }
  }

  /** h shifted by whole bytes. */
  function ShiftBytes(h: nat, width: nat): nat
  {
    if width == 0 then h else 256 * ShiftBytes(h, width - 1)
  }

  lemma {:induction false} EightBits(h: nat, bits: nat)
    ensures Shift(h, bits + 8) == 256 * Shift(h, bits)
  {
    assert Shift(h, bits + 2) == 4 * Shift(h, bits);
    assert Shift(h, bits + 4) == 16 * Shift(h, bits);
    assert Shift(h, bits + 6) == 64 * Shift(h, bits);
  }

  lemma {:induction false} ShiftByBytes(h: nat, width: nat)
    ensures Shift(h, 8 * width) == ShiftBytes(h, width)
  {
    if width > 0 {
      ShiftByBytes(h, width - 1);
      EightBits(h, 8 * width - 8);
    }
  }

  lemma {:induction false} ShiftOne(width: nat)
    ensures ShiftBytes(1, width) == Pow256(width)
  {
    if width > 0 {
      ShiftOne(width - 1);
    }
  }

  /** The big-endian bytes of two numbers in one word are those of the numbers, one after the other. */
  lemma {:induction false} TwoWords(h: nat, low: nat, front: nat, back: nat)
    requires low < Pow256(back)
    ensures ToBE(ShiftBytes(h, back) + low, front + back) == ToBE(h, front) + ToBE(low, back)
  {
    if back == 0 {
      assert ToBE(h, front) + [] == ToBE(h, front);
    } else {
      var n := ShiftBytes(h, back) + low;
      assert n / 256 == ShiftBytes(h, back - 1) + low / 256 && n % 256 == low % 256;
      TwoWords(h, low / 256, front, back - 1);
      assert ToBE(h, front) + ToBE(low / 256, back - 1) + [low % 256] == ToBE(h, front) + ToBE(low, back);
    }
  }

  /** `uint(value, 128).to_bytes(16, "big")`. */
  function Word128(n: nat): (r: Option<seq<Byte>>)
    ensures r.Some? ==> |r.value| == 16
  {
    if n < U128 then Some(ToBE(n, 16)) else None
  }

  function Concat(a: Option<seq<Byte>>, b: Option<seq<Byte>>): Option<seq<Byte>>
  {
    if a.None? || b.None? then None else Some(a.value + b.value)
  }

  /** Rust's pack_gas. */
  function PackGas(high: nat, low: nat): (r: Option<seq<Byte>>)
    ensures r.Some? ==> |r.value| == 32
  {
    if high >= U128 || low >= U128 then None else Some(ToBE(BitOr(Shift(high, 128), low), 32))
  }

  /** Both languages make the same 32 bytes, and reject the same numbers. */
  lemma {:induction false} PackGasIsTwoWords(high: nat, low: nat)
    ensures PackGas(high, low) == Concat(Word128(high), Word128(low))
  {
    if high < U128 && low < U128 {
      PowersOf256();
      ShiftByBytes(1, 16);
      ShiftOne(16);
      ShiftByBytes(high, 16);
      hide Shift, BitOr, ShiftBytes, ToBE, Pow256;
      assert 8 * 16 == 128;
      OrOfDisjoint(high, low, 128);
      TwoWords(high, low, 16, 16);
    }
  }

  /** Both halves can be read back. */
  lemma {:induction false} PackGasIsReadable(high: nat, low: nat)
    requires high < U128 && low < U128
    ensures PackGas(high, low).Some?
    ensures FromBE(PackGas(high, low).value[..16]) == high && FromBE(PackGas(high, low).value[16..]) == low
  {
    PackGasIsTwoWords(high, low);
    PowersOf256();
    FromToBE(high, 16);
    FromToBE(low, 16);
    hide PackGas, ToBE, FromBE, Pow256;
    var word := PackGas(high, low).value;
    assert word[..16] == ToBE(high, 16) && word[16..] == ToBE(low, 16);
  }

  // ----- operations -----

  /** The unpacked RPC fields. The last two exist only in the Python dictionary. */
  datatype Operation = Operation(
    sender: Address,
    nonce: nat,
    factory: Option<Address>,
    factoryData: Option<seq<Byte>>,
    callData: seq<Byte>,
    callGasLimit: nat,
    verificationGasLimit: nat,
    preVerificationGas: nat,
    maxFeePerGas: nat,
    maxPriorityFeePerGas: nat,
    paymaster: Option<Address>,
    paymasterVerificationGasLimit: Option<nat>,
    paymasterPostOpGasLimit: Option<nat>,
    paymasterData: Option<seq<Byte>>,
    signature: seq<Byte>,
    hasEip7702Auth: bool,
    paymasterSignature: Option<seq<Byte>>)

  datatype PackedOperation = PackedOperation(
    sender: Address,
    nonce: nat,
    initCode: seq<Byte>,
    callData: seq<Byte>,
    accountGasLimits: seq<Byte>,
    preVerificationGas: nat,
    gasFees: seq<Byte>,
    paymasterAndData: seq<Byte>,
    signature: seq<Byte>)

  const ZERO_ADDRESS: Address := Zeros(20)

  const SIGNATURE_MAGIC: seq<Byte> := [0x22, 0xe3, 0x25, 0xa2, 0x97, 0x43, 0x96, 0x56]

  predicate IsUint256(n: nat)
  {
    n < Pow256(32)
  }

  function OrEmpty(bs: Option<seq<Byte>>): seq<Byte>
  {
    if bs.Some? then bs.value else []
  }

  function WordOf(n: Option<nat>): (r: Option<seq<Byte>>)
    ensures r.Some? ==> |r.value| == 16
  {
    if n.None? then None else Word128(n.value)
  }

  /** The suffix that carries a paymaster signature: the bytes, their length in two bytes, and a magic number. */
  function SignatureSuffix(signature: Option<seq<Byte>>): Option<seq<Byte>>
  {
    if signature.None? then Some([])
    else if |signature.value| >= U16 then None
    else Some(signature.value + ToBE(|signature.value|, 2) + SIGNATURE_MAGIC)
  }

  function PaymasterAndData(op: Operation): Option<seq<Byte>>
  {
    if op.paymaster.None? || op.paymaster.value == ZERO_ADDRESS then None
    else
      var limits := Concat(WordOf(op.paymasterVerificationGasLimit), WordOf(op.paymasterPostOpGasLimit));
      var suffix := SignatureSuffix(op.paymasterSignature);
      if limits.None? || suffix.None? then None
      else Some(op.paymaster.value + limits.value + OrEmpty(op.paymasterData) + suffix.value)
  }

  /** Python's pack_user_operation. */
  function Pack(op: Operation): Option<PackedOperation>
  {
    if op.factory.Some? || op.factoryData.Some? || op.hasEip7702Auth then None
    else
      var paymaster := PaymasterAndData(op);
      var gas := Concat(Word128(op.verificationGasLimit), Word128(op.callGasLimit));
      var fees := Concat(Word128(op.maxPriorityFeePerGas), Word128(op.maxFeePerGas));
      if paymaster.None? || gas.None? || fees.None? then None
      else if !IsUint256(op.nonce) || !IsUint256(op.preVerificationGas) then None
      else Some(PackedOperation(op.sender, op.nonce, [], op.callData, gas.value, op.preVerificationGas, fees.value,
                                paymaster.value, op.signature))
  }

  /** Rust's pack_user_operation, which grows the paymaster bytes in a vector. */
  method PackUserOperation(op: Operation) returns (packed: Option<PackedOperation>)
    requires op.paymasterSignature.None? && !op.hasEip7702Auth
    requires IsUint256(op.nonce) && IsUint256(op.preVerificationGas)
    ensures packed == Pack(op)
  {
    hide ToBE, Pow256, PackGas, IsUint256, ZERO_ADDRESS, Word128;
    if op.factory.Some? || op.factoryData.Some? {
      return None;
    }
    if op.paymaster.None? || op.paymaster.value == ZERO_ADDRESS {
      return None;
    }
    if op.paymasterVerificationGasLimit.None? || op.paymasterPostOpGasLimit.None? {
      return None;
    }
    var verification, postOp := op.paymasterVerificationGasLimit.value, op.paymasterPostOpGasLimit.value;
    PackGasIsTwoWords(verification, postOp);
    PackGasIsTwoWords(op.verificationGasLimit, op.callGasLimit);
    PackGasIsTwoWords(op.maxPriorityFeePerGas, op.maxFeePerGas);
    var paymasterData: seq<Byte> := op.paymaster.value;
    var limits := PackGas(verification, postOp);
    if limits.None? {
      return None;
    }
    paymasterData := paymasterData + limits.value;
    if op.paymasterData.Some? {
      paymasterData := paymasterData + op.paymasterData.value;
    }
    assert paymasterData == op.paymaster.value + limits.value + OrEmpty(op.paymasterData) + [];
    var gas := PackGas(op.verificationGasLimit, op.callGasLimit);
    var fees := PackGas(op.maxPriorityFeePerGas, op.maxFeePerGas);
    if gas.None? || fees.None? {
      return None;
    }
    return Some(PackedOperation(op.sender, op.nonce, [], op.callData, gas.value, op.preVerificationGas, fees.value,
                                paymasterData, op.signature));
  }

  /** The sponsorship check that opens validate_user_operation. */
  predicate IsSponsored(packed: PackedOperation)
  {
    packed.initCode == [] && |packed.paymasterAndData| >= 52 && packed.paymasterAndData[..20] != ZERO_ADDRESS
  }

  /** Every packed operation passes the sponsorship check, and its paymaster fields can be read back. */
  lemma {:induction false} PackedIsSponsored(op: Operation)
    requires Pack(op).Some?
    ensures IsSponsored(Pack(op).value)
    ensures var data := Pack(op).value.paymasterAndData;
            && Some(data[..20]) == op.paymaster
            && Some(FromBE(data[20..36])) == op.paymasterVerificationGasLimit
            && Some(FromBE(data[36..52])) == op.paymasterPostOpGasLimit
            && data[52..] == OrEmpty(op.paymasterData) + SignatureSuffix(op.paymasterSignature).value
  {
    var verification, postOp := op.paymasterVerificationGasLimit.value, op.paymasterPostOpGasLimit.value;
    var suffix := SignatureSuffix(op.paymasterSignature).value;
    PowersOf256();
    FromToBE(verification, 16);
    FromToBE(postOp, 16);
    FiveParts(op.paymaster.value, ToBE(verification, 16), ToBE(postOp, 16), OrEmpty(op.paymasterData), suffix);
    hide ToBE, FromBE, Pow256, SignatureSuffix, OrEmpty;
  }

  lemma {:induction false} FiveParts(a: seq<Byte>, b: seq<Byte>, c: seq<Byte>, d: seq<Byte>, e: seq<Byte>)
    requires |a| == 20 && |b| == |c| == 16
    ensures var data := a + (b + c) + d + e;
            data[..20] == a && data[20..36] == b && data[36..52] == c && data[52..] == d + e
  {
  }

  /** The four gas and fee values can be read back from the two words. */
  lemma {:induction false} PackedGasIsReadable(op: Operation)
    requires Pack(op).Some?
    ensures var p := Pack(op).value;
            && |p.accountGasLimits| == |p.gasFees| == 32
            && FromBE(p.accountGasLimits[..16]) == op.verificationGasLimit
            && FromBE(p.accountGasLimits[16..]) == op.callGasLimit
            && FromBE(p.gasFees[..16]) == op.maxPriorityFeePerGas
            && FromBE(p.gasFees[16..]) == op.maxFeePerGas
  {
    PackGasIsTwoWords(op.verificationGasLimit, op.callGasLimit);
    PackGasIsReadable(op.verificationGasLimit, op.callGasLimit);
    PackGasIsTwoWords(op.maxPriorityFeePerGas, op.maxFeePerGas);
    PackGasIsReadable(op.maxPriorityFeePerGas, op.maxFeePerGas);
    hide PackGas, FromBE, PaymasterAndData, ToBE;
  }

  /** Exactly these operations are packed: deployed, sponsored, and with all numbers in range. */
  lemma {:induction false} PackSucceeds(op: Operation)
    ensures Pack(op).Some? <==>
            && op.factory.None? && op.factoryData.None? && !op.hasEip7702Auth
            && op.paymaster.Some? && (exists i :: 0 <= i < 20 && op.paymaster.value[i] != 0)
            && op.paymasterVerificationGasLimit.Some? && op.paymasterVerificationGasLimit.value < U128
            && op.paymasterPostOpGasLimit.Some? && op.paymasterPostOpGasLimit.value < U128
            && op.verificationGasLimit < U128 && op.callGasLimit < U128
            && op.maxPriorityFeePerGas < U128 && op.maxFeePerGas < U128
            && op.nonce < U128 * U128 && op.preVerificationGas < U128 * U128
            && (op.paymasterSignature.Some? ==> |op.paymasterSignature.value| < 0x1_0000)
  {
    Uint256();
    hide ToBE, Pow256;
    if op.paymaster.Some? {
      NotZero(op.paymaster.value);
    }
    hide ZERO_ADDRESS;
  }

  lemma {:induction false} NotZero(a: Address)
    ensures a != ZERO_ADDRESS <==> exists i :: 0 <= i < 20 && a[i] != 0
  {
    if a != ZERO_ADDRESS {
      assert exists i :: 0 <= i < 20 && a[i] != ZERO_ADDRESS[i];
    }
  }

  lemma {:induction false} Uint256()
    ensures Pow256(32) == U128 * U128
  {
    PowersOf256();
    assert Pow256(18) == 256 * Pow256(17) && Pow256(17) == 256 * Pow256(16);
    assert Pow256(20) == 256 * Pow256(19) && Pow256(19) == 256 * Pow256(18);
    assert Pow256(22) == 256 * Pow256(21) && Pow256(21) == 256 * Pow256(20);
    assert Pow256(24) == 256 * Pow256(23) && Pow256(23) == 256 * Pow256(22);
    assert Pow256(26) == 256 * Pow256(25) && Pow256(25) == 256 * Pow256(24);
    assert Pow256(28) == 256 * Pow256(27) && Pow256(27) == 256 * Pow256(26);
    assert Pow256(30) == 256 * Pow256(29) && Pow256(29) == 256 * Pow256(28);
    assert Pow256(32) == 256 * Pow256(31) && Pow256(31) == 256 * Pow256(30);
  }

  /** Whatever is packed, the operation's own fields come through unchanged. */
  lemma {:induction false} PackedKeepsFields(op: Operation)
    requires Pack(op).Some?
    ensures var p := Pack(op).value;
            && p.sender == op.sender && p.nonce == op.nonce && p.callData == op.callData
            && p.preVerificationGas == op.preVerificationGas && p.signature == op.signature && p.initCode == []
  {
    hide PaymasterAndData, Word128, IsUint256;
  }

  /** A paymaster signature may also be given already encoded at the end of the paymaster data. */
  lemma {:induction false} SignatureInData(op: Operation)
    requires SignatureSuffix(op.paymasterSignature).Some?
    ensures var suffix := SignatureSuffix(op.paymasterSignature).value;
            Pack(op.(paymasterSignature := None, paymasterData := Some(OrEmpty(op.paymasterData) + suffix))) == Pack(op)
  {
    var suffix := SignatureSuffix(op.paymasterSignature).value;
    var other := op.(paymasterSignature := None, paymasterData := Some(OrEmpty(op.paymasterData) + suffix));
    assert PaymasterAndData(other) == PaymasterAndData(op) by {
      hide ToBE, Word128;
      if PaymasterAndData(op).Some? {
        var front := op.paymaster.value +
          Concat(WordOf(op.paymasterVerificationGasLimit), WordOf(op.paymasterPostOpGasLimit)).value;
        assert front + OrEmpty(op.paymasterData) + suffix == front + (OrEmpty(op.paymasterData) + suffix) + [];
      }
    }
    hide PaymasterAndData, Word128, IsUint256;
  }

  /** The suffix is read from the end: magic number, length, signature. */
  lemma {:induction false} SuffixIsReadable(front: seq<Byte>, signature: seq<Byte>)
    requires |signature| < U16
    ensures var data := front + SignatureSuffix(Some(signature)).value;
            && |data| >= 10 && data[|data| - 8..] == [0x22, 0xe3, 0x25, 0xa2, 0x97, 0x43, 0x96, 0x56]
            && var n := FromBE(data[|data| - 10..|data| - 8]);
            && n == |signature| && data[|data| - 10 - n..|data| - 10] == signature
  {
    PowersOf256();
    FromToBE(|signature|, 2);
    hide ToBE, FromBE, Pow256;
    var data := front + SignatureSuffix(Some(signature)).value;
    assert data == front + signature + ToBE(|signature|, 2) + SIGNATURE_MAGIC;
    assert data[|data| - 8..] == SIGNATURE_MAGIC;
    assert data[|data| - 10..|data| - 8] == ToBE(|signature|, 2);
    assert data[|data| - 10 - |signature|..|data| - 10] == signature;
  }
}
