/** Reservation packages: the 99 or 100 bytes that commit a program, a salt and an owner key. */
module Reservation {
  import opened Bytes

  const ED25519: nat := 1

  const SECP256K1: nat := 3

  const SECP256R1: nat := 5

  const HEADER_LENGTH: nat := 67

  /** The curve operations. None stands for an encoding that the curve library rejects. */
  datatype Curves = Curves(
    edBytes: seq<Byte> -> Option<seq<Byte>>,
    edSmallOrder: seq<Byte> -> bool,
    compressK1: seq<Byte> -> Option<seq<Byte>>,
    compressR1: seq<Byte> -> Option<seq<Byte>>)

  predicate IsCompressed(key: seq<Byte>)
  {
    |key| == 33 && (key[0] == 2 || key[0] == 3)
  }

  predicate IsSec1(key: seq<Byte>)
  {
    IsCompressed(key) || (|key| == 65 && key[0] == 4)
  }

  /** Compressing gives a compressed point, and compressing that again changes nothing (SEC 1, section 2.3). */
  ghost predicate Compresses(compress: seq<Byte> -> Option<seq<Byte>>)
  {
    forall key :: compress(key).Some? ==>
      IsCompressed(compress(key).value) && compress(compress(key).value) == compress(key)
  }

  ghost predicate Lawful(curves: Curves)
  {
    && (forall key :: curves.edBytes(key).Some? ==> |curves.edBytes(key).value| == 32)
    && Compresses(curves.compressK1)
    && Compresses(curves.compressR1)
  }

  function CanonicalPublicKey(curves: Curves, authorityType: nat, key: seq<Byte>): Option<seq<Byte>>
  {
    if authorityType != ED25519 && authorityType != SECP256K1 && authorityType != SECP256R1 then None
    else if authorityType == ED25519 then
      var canonical := curves.edBytes(key);
      if canonical.None? || curves.edSmallOrder(key) || key != canonical.value then None else canonical
    else
      var sec1 := if authorityType == SECP256K1 && |key| == 64 then [4] + key else key;
      if !IsSec1(sec1) then None
      else if authorityType == SECP256K1 then curves.compressK1(sec1)
      else curves.compressR1(sec1)
  }

  datatype AddressOptions =
    | Default
    | AccountIndex(index: int)
    | Salt(salt: seq<Byte>)
    | SaltAndIndex(both: seq<Byte>, andIndex: int)

  /** The 32 salt bytes; an index stands in the last four. */
  function EffectiveSalt(options: AddressOptions): (r: Option<seq<Byte>>)
    ensures r.Some? ==> |r.value| == 32
  {
    match options
    case Default => Some(Zeros(32))
    case AccountIndex(i) => if 0 <= i < U32 then Some(Zeros(28) + ToLE(i, 4)) else None
    case Salt(s) => if |s| == 32 then Some(s) else None
    case SaltAndIndex(_, _) => None
  }

  /** Different indexes have different salts, and index 0 has the default salt. */
  lemma {:induction false} IndexSalts(i: nat, j: nat)
    requires i < U32 && j < U32
    ensures EffectiveSalt(AccountIndex(i)) == EffectiveSalt(AccountIndex(j)) <==> i == j
    ensures EffectiveSalt(AccountIndex(0)) == EffectiveSalt(Default)
  {
    PowersOf256();
    FromToLE(i, 4);
    FromToLE(j, 4);
    assert ToLE(0, 4) == [0, 0, 0, 0] && Zeros(28) + [0, 0, 0, 0] == Zeros(32);
    hide ToLE, FromLE, Pow256;
    assert (Zeros(28) + ToLE(i, 4))[28..] == ToLE(i, 4) && (Zeros(28) + ToLE(j, 4))[28..] == ToLE(j, 4);
  }

  function Digits(a: nat, b: nat, c: nat, d: nat): nat
  {
    a + 0x100 * b + 0x1_0000 * c + 0x100_0000 * d
  }

  /** The index stands in the last four bytes, the lowest byte first. */
  lemma {:induction false} IndexInSalt(i: nat)
    requires i < U32
    ensures EffectiveSalt(AccountIndex(i)).Some?
    ensures var salt := EffectiveSalt(AccountIndex(i)).value;
            && (forall j :: 0 <= j < 28 ==> salt[j] == 0)
            && Digits(salt[28], salt[29], salt[30], salt[31]) == i
  {
    FourDigits(i);
  }

  lemma {:induction false} FourDigits(i: nat)
    requires i < U32
    ensures var bs := ToLE(i, 4);
            Digits(bs[0], bs[1], bs[2], bs[3]) == i
  {
    PowersOf256();
    FromToLE(i, 4);
    var bs := ToLE(i, 4);
    hide ToLE;
    var b, c, d := bs[1..], bs[2..], bs[3..];
    assert b[1..] == c && c[1..] == d && d[1..] == [];
    assert FromLE(bs) == bs[0] + 256 * FromLE(b) && FromLE(b) == b[0] + 256 * FromLE(c);
    assert FromLE(c) == c[0] + 256 * FromLE(d) && FromLE(d) == d[0] + 256 * FromLE(d[1..]);
  }

  /** The owner types by number: Ed25519 keys as they are, secp256k1 and secp256r1 keys compressed. */
  lemma {:induction false} OwnerTypes(curves: Curves, authorityType: nat, key: seq<Byte>)
    ensures var r := CanonicalPublicKey(curves, authorityType, key);
            && (authorityType !in {1, 3, 5} ==> r.None?)
            && (authorityType == 1 ==>
                  r == if curves.edBytes(key) == Some(key) && !curves.edSmallOrder(key) then Some(key) else None)
            && (authorityType == 3 ==>
                  r == if |key| == 64 then curves.compressK1([4] + key)
                       else if (|key| == 33 && key[0] in {2, 3}) || (|key| == 65 && key[0] == 4)
                       then curves.compressK1(key) else None)
            && (authorityType == 5 ==>
                  r == if (|key| == 33 && key[0] in {2, 3}) || (|key| == 65 && key[0] == 4)
                       then curves.compressR1(key) else None)
  {
  }

  datatype CreateArgs = CreateArgs(programId: Key, authorityType: nat, publicKey: seq<Byte>, options: AddressOptions)

  /** The bytes of a package, field by field. */
  function Layout(program: Key, salt: seq<Byte>, authorityType: nat, key: seq<Byte>): seq<Byte>
  {
    [1] + program + salt + ToLE(authorityType, 2) + key
  }

  function PackageOf(curves: Curves, args: CreateArgs): Option<seq<Byte>>
  {
    var key := CanonicalPublicKey(curves, args.authorityType, args.publicKey);
    var salt := EffectiveSalt(args.options);
    if key.None? || salt.None? then None
    else Some(Layout(args.programId, salt.value, args.authorityType, key.value))
  }

  /** The constructor's checks. */
  predicate Accepts(curves: Curves, bytes: seq<Byte>, expected: Key)
  {
    && (|bytes| == 99 || |bytes| == 100)
    && bytes[0] == 1
    && bytes[1..33] == expected
    && var authorityType := FromLE(bytes[65..67]);
    && (authorityType == ED25519 ==> |bytes| == 99)
    && (authorityType == SECP256K1 || authorityType == SECP256R1 ==> |bytes| == 100)
    && CanonicalPublicKey(curves, authorityType, bytes[HEADER_LENGTH..]) == Some(bytes[HEADER_LENGTH..])
  }

  /** Every byte of a created package, at its offset. */
  lemma {:induction false} PackageBytes(curves: Curves, args: CreateArgs)
    requires PackageOf(curves, args).Some?
    ensures EffectiveSalt(args.options).Some?
    ensures CanonicalPublicKey(curves, args.authorityType, args.publicKey).Some?
    ensures var bytes := PackageOf(curves, args).value;
            && |bytes| >= 67 && bytes[0] == 1
            && bytes[1..33] == args.programId && bytes[33..65] == EffectiveSalt(args.options).value
            && bytes[65] == args.authorityType && bytes[66] == 0
            && bytes[67..] == CanonicalPublicKey(curves, args.authorityType, args.publicKey).value
  {
    assert args.authorityType < 256;
    assert ToLE(args.authorityType, 2) == [args.authorityType] + ToLE(0, 1) && ToLE(0, 1) == [0] + ToLE(0, 0);
    var salt := EffectiveSalt(args.options).value;
    var key := CanonicalPublicKey(curves, args.authorityType, args.publicKey).value;
    hide CanonicalPublicKey, EffectiveSalt, ToLE;
    var bytes := PackageOf(curves, args).value;
    assert bytes == [1] + args.programId + salt + [args.authorityType, 0] + key;
  }

  /** An owner's local package; nobody else holds its array. */
  class ReservationV1 {
    var package: array<Byte>

    /** The package passed the constructor's checks for the program that it names. */
    ghost predicate Valid(curves: Curves)
      reads this, package
    {
      package.Length >= 33 && Accepts(curves, package[..], package[1..33])
    }

    /** `Uint8Array.from(bytes)`: a copy of its own. */
    constructor (bytes: array<Byte>)
      ensures fresh(package) && package[..] == bytes[..]
    {
      package := new Byte[bytes.Length](i requires 0 <= i < bytes.Length reads bytes => bytes[i]);
    }

    /** The constructor's checks, one after another; None stands for the error of the first that fails. */
    static method FromBytes(curves: Curves, bytes: array<Byte>, expected: Key) returns (r: Option<ReservationV1>)
      ensures r.Some? <==> Accepts(curves, bytes[..], expected)
      ensures r.Some? ==> fresh(r.value) && fresh(r.value.package) && r.value.package[..] == bytes[..]
      ensures r.Some? ==> r.value.Valid(curves)
    {
      if (bytes.Length != 99 && bytes.Length != 100) || bytes[0] != 1 {
        return None;
      }
      if bytes[1..33] != expected {
        return None;
      }
      var authorityType := FromLE(bytes[65..67]);
      if || (authorityType == ED25519 && bytes.Length != 99)
         || ((authorityType == SECP256K1 || authorityType == SECP256R1) && bytes.Length != 100)
      {
        return None;
      }
      ghost var all := bytes[..];
      assert all[1..33] == bytes[1..33] && all[65..67] == bytes[65..67];
      assert all[HEADER_LENGTH..] == bytes[HEADER_LENGTH..];
      var publicKey := bytes[HEADER_LENGTH..];
      var canonical := CanonicalPublicKey(curves, authorityType, publicKey);
      if canonical.None? || publicKey != canonical.value {
        return None;
      }
      var reservation := new ReservationV1(bytes);
      assert reservation.package[1..33] == all[1..33];
      return Some(reservation);
    }

    static method Create(curves: Curves, args: CreateArgs) returns (r: Option<ReservationV1>)
      requires Lawful(curves)
      ensures r.Some? <==> PackageOf(curves, args).Some?
      ensures r.Some? ==> fresh(r.value) && fresh(r.value.package)
      ensures r.Some? ==> r.value.package[..] == PackageOf(curves, args).value && r.value.Valid(curves)
    {
      var key := CanonicalPublicKey(curves, args.authorityType, args.publicKey);
      if key.None? {
        return None;
      }
      var salt := EffectiveSalt(args.options);
      if salt.None? {
        return None;
      }
      CreatedIsAccepted(curves, args);
      hide CanonicalPublicKey, EffectiveSalt, Accepts, ToLE, Lawful;
      var bytes := new Byte[HEADER_LENGTH + |key.value|](i => 0);
      bytes[0] := 1;
      assert bytes[..1] == [1];
      SetBytes(bytes, args.programId, 1);
      assert bytes[..33] == [1] + args.programId;
      SetBytes(bytes, salt.value, 33);
      assert bytes[..65] == [1] + args.programId + salt.value;
      SetBytes(bytes, ToLE(args.authorityType, 2), 65);
      assert bytes[..67] == [1] + args.programId + salt.value + ToLE(args.authorityType, 2);
      SetBytes(bytes, key.value, HEADER_LENGTH);
      assert bytes[..] == Layout(args.programId, salt.value, args.authorityType, key.value);
      r := FromBytes(curves, bytes, args.programId);
    }

    method ToBytes() returns (copy: array<Byte>)
      ensures fresh(copy) && copy[..] == package[..]
    {
      copy := new Byte[package.Length](i requires 0 <= i < package.Length reads this, package => package[i]);
    }

    /** `fromBytes(create(args).toBytes(), program)`: it fails only where `create` does, and keeps the bytes. */
    static method CreateAndImport(curves: Curves, args: CreateArgs) returns (r: Option<ReservationV1>)
      requires Lawful(curves)
      ensures r.Some? <==> PackageOf(curves, args).Some?
      ensures r.Some? ==> r.value.package[..] == PackageOf(curves, args).value && r.value.Valid(curves)
    {
      var created := Create(curves, args);
      if created.None? {
        return None;
      }
      var bytes := created.value.ToBytes();
      CreatedIsAccepted(curves, args);
      r := FromBytes(curves, bytes, args.programId);
    }

    /** `fromBytes(bytes).toBytes()`: the same bytes again, in an array of their own. */
    static method ImportAndExport(curves: Curves, bytes: array<Byte>, expected: Key) returns (r: Option<array<Byte>>)
      ensures r.Some? <==> Accepts(curves, bytes[..], expected)
      ensures r.Some? ==> fresh(r.value) && r.value[..] == bytes[..]
    {
      var imported := FromBytes(curves, bytes, expected);
      if imported.None? {
        return None;
      }
      var copy := imported.value.ToBytes();
      return Some(copy);
    }
  }

  lemma {:induction false} LayoutParts(program: Key, salt: seq<Byte>, authorityType: nat, key: seq<Byte>)
    requires |salt| == 32 && authorityType < U16
    ensures var bytes := Layout(program, salt, authorityType, key);
            && |bytes| == HEADER_LENGTH + |key| && bytes[0] == 1
            && bytes[1..33] == program && bytes[33..65] == salt && bytes[HEADER_LENGTH..] == key
            && FromLE(bytes[65..67]) == authorityType
  {
    PowersOf256();
    FromToLE(authorityType, 2);
    hide ToLE, FromLE, Pow256;
    var bytes := Layout(program, salt, authorityType, key);
    assert bytes[65..67] == ToLE(authorityType, 2);
  }

  /** Canonical keys have the length that the constructor asks for, and are canonical themselves. */
  lemma {:induction false} CanonicalIsStable(curves: Curves, authorityType: nat, key: seq<Byte>)
    requires Lawful(curves) && CanonicalPublicKey(curves, authorityType, key).Some?
    ensures var canonical := CanonicalPublicKey(curves, authorityType, key).value;
            && |canonical| == (if authorityType == ED25519 then 32 else 33)
            && CanonicalPublicKey(curves, authorityType, canonical) == Some(canonical)
  {
    var canonical := CanonicalPublicKey(curves, authorityType, key).value;
    if authorityType != ED25519 {
      assert IsCompressed(canonical);
    }
  }

  /** What `create` lays out passes the constructor's own checks, for the same program. */
  lemma {:induction false} CreatedIsAccepted(curves: Curves, args: CreateArgs)
    requires Lawful(curves) && PackageOf(curves, args).Some?
    ensures Accepts(curves, PackageOf(curves, args).value, args.programId)
  {
    var key := CanonicalPublicKey(curves, args.authorityType, args.publicKey).value;
    CanonicalIsStable(curves, args.authorityType, args.publicKey);
    assert args.authorityType < U16;
    LayoutParts(args.programId, EffectiveSalt(args.options).value, args.authorityType, key);
    hide Lawful, EffectiveSalt, FromLE, Layout, IsSec1;
  }

  /** An accepted package is what `create` makes from its own fields. */
  lemma {:induction false} AcceptedIsCreated(curves: Curves, bytes: seq<Byte>, expected: Key) returns (args: CreateArgs)
    requires Accepts(curves, bytes, expected)
    ensures args.programId == expected && PackageOf(curves, args) == Some(bytes)
  {
    var authorityType := FromLE(bytes[65..67]);
    args := CreateArgs(expected, authorityType, bytes[HEADER_LENGTH..], Salt(bytes[33..65]));
    ToFromLE(bytes[65..67]);
    hide FromLE, ToLE, CanonicalPublicKey;
    assert bytes == [1] + bytes[1..33] + bytes[33..65] + bytes[65..67] + bytes[HEADER_LENGTH..];
  }

  /** The constructor accepts exactly the packages that `create` makes. */
  lemma {:induction false} AcceptsExactlyCreated(curves: Curves, bytes: seq<Byte>, expected: Key)
    requires Lawful(curves)
    ensures Accepts(curves, bytes, expected) <==>
            exists args: CreateArgs :: args.programId == expected && PackageOf(curves, args) == Some(bytes)
  {
    hide Lawful, Accepts, PackageOf;
    if Accepts(curves, bytes, expected) {
      var args := AcceptedIsCreated(curves, bytes, expected);
    }
    if args: CreateArgs :| args.programId == expected && PackageOf(curves, args) == Some(bytes) {
      CreatedIsAccepted(curves, args);
    }
  }

  /** Two packages are equal exactly when program, owner type, canonical key and effective salt agree. */
  lemma {:induction false} EqualPackages(curves: Curves, a: CreateArgs, b: CreateArgs)
    requires PackageOf(curves, a).Some? && PackageOf(curves, b).Some?
    ensures PackageOf(curves, a) == PackageOf(curves, b) <==>
            && a.programId == b.programId
            && a.authorityType == b.authorityType
            && EffectiveSalt(a.options) == EffectiveSalt(b.options)
            && CanonicalPublicKey(curves, a.authorityType, a.publicKey) ==
               CanonicalPublicKey(curves, b.authorityType, b.publicKey)
  {
    var keyA := CanonicalPublicKey(curves, a.authorityType, a.publicKey).value;
    var keyB := CanonicalPublicKey(curves, b.authorityType, b.publicKey).value;
    assert a.authorityType < U16 && b.authorityType < U16;
    LayoutParts(a.programId, EffectiveSalt(a.options).value, a.authorityType, keyA);
    LayoutParts(b.programId, EffectiveSalt(b.options).value, b.authorityType, keyB);
    hide CanonicalPublicKey, EffectiveSalt, Layout, FromLE;
  }
}
