/**
 * The attestation application id: the packages of a uid and the digests of their signing
 * certificates, DER-encoded, as many of them as an estimate lets fit into 1024 bytes.
 *
 * Lengths follow section 8.1.3 of ITU-T X.690, in the definite minimal form of section 10.1.
 */
module AttestationId {
  import opened Tables

  const MAX_SIZE: nat := 1024
  const GENERAL_OVERHEAD: nat := 16
  const PKG_INFO_OVERHEAD: nat := 15
  const SIGNATURE_SIZE: nat := 34
  const DIGEST_LENGTH: nat := 32

  const TWO_47: nat := 0x8000_0000_0000

  /** A name of so many bytes, or none, and the version code as the unsigned number it is encoded as. */
  datatype Package = Package(name: Option<nat>, version: nat)

  // ---------- DER lengths ----------

  function LengthOctets(n: nat): nat {
    if n < 128 then 1 else 1 + Octets(n)
  }

  /** The least number of octets that hold a number; one for zero. */
  function Octets(n: nat): (r: nat)
    ensures r >= 1
  {
    if n < 256 then 1 else 1 + Octets(n / 256)
  }

  /** A tag, the length and the contents. */
  function Tlv(contents: nat): nat {
    1 + LengthOctets(contents) + contents
  }

  /** Two's complement needs a leading zero octet if the first bit is set: 128 is written with two. */
  function IntegerOctets(v: nat): nat {
    if v < 128 then 1 else 1 + IntegerOctets(v / 256)
  }

  function PackageLength(name: nat, version: nat): nat {
    Tlv(Tlv(name) + Tlv(IntegerOctets(version)))
  }

  function PackagesLength(ps: seq<Package>): nat
    requires forall i :: 0 <= i < |ps| ==> ps[i].name.Some?
  {
    if ps == [] then 0 else
      PackagesLength(ps[..|ps| - 1]) + PackageLength(ps[|ps| - 1].name.value, ps[|ps| - 1].version)
  }

  /** The encoded id: a sequence of the set of packages and the set of digests. */
  function DerLength(ps: seq<Package>, signatures: nat): nat
    requires forall i :: 0 <= i < |ps| ==> ps[i].name.Some?
  {
    Tlv(Tlv(PackagesLength(ps)) + Tlv(signatures * Tlv(DIGEST_LENGTH)))
  }

  // ---------- What is kept ----------

  function Estimate(ps: seq<Package>): nat
    requires forall i :: 0 <= i < |ps| ==> ps[i].name.Some?
  {
    if ps == [] then GENERAL_OVERHEAD else Estimate(ps[..|ps| - 1]) + PKG_INFO_OVERHEAD + ps[|ps| - 1].name.value
  }

  /**
   * The two loops keep as many packages as the estimate allows and, if that was all of them, as many
   * of the first package's signatures as it allows then.
   */
  ghost predicate Keeps(all: seq<Package>, signatures: nat, ps: seq<Package>, n: nat) {
    && ps <= all && (forall i :: 0 <= i < |ps| ==> ps[i].name.Some?) && Estimate(ps) <= MAX_SIZE
    && (if |ps| < |all| then
          all[|ps|].name.Some? && Estimate(ps) + PKG_INFO_OVERHEAD + all[|ps|].name.value > MAX_SIZE && n == 0
        else
          && n <= signatures && (n > 0 ==> Estimate(ps) + n * SIGNATURE_SIZE <= MAX_SIZE)
          && (n < signatures ==> Estimate(ps) + (n + 1) * SIGNATURE_SIZE > MAX_SIZE))
  }

  /** A package without a name comes before the estimate is used up. */
  ghost predicate NamelessAt(all: seq<Package>, i: int) {
    && 0 <= i < |all| && all[i].name.None? && (forall j :: 0 <= j < i ==> all[j].name.Some?)
    && Estimate(all[..i]) <= MAX_SIZE
  }

  ghost predicate Refused(all: seq<Package>) {
    all == [] || exists i :: NamelessAt(all, i)
  }

  lemma {:induction false} EstimateGrows(ps: seq<Package>, i: nat)
    requires i <= |ps| && forall j :: 0 <= j < |ps| ==> ps[j].name.Some?
    ensures Estimate(ps[..i]) <= Estimate(ps)
  {
    if i == |ps| {
      assert ps[..i] == ps;
    } else {
      EstimateGrows(ps[..|ps| - 1], i);
      assert ps[..|ps| - 1][..i] == ps[..i];
    }
  }

  /** What is kept ends before any package without a name. */
  lemma KeptIsNotRefused(all: seq<Package>, signatures: nat, ps: seq<Package>, n: nat)
    requires all != [] && Keeps(all, signatures, ps, n)
    ensures !Refused(all)
  {
    if |ps| < |all| {
      var more := ps + [all[|ps|]];
      assert more[..|ps|] == ps;
      forall i | |ps| < i <= |all| && forall j :: 0 <= j < i ==> all[j].name.Some? ensures Estimate(all[..i]) > MAX_SIZE {
        EstimateGrows(all[..i], |more|);
        assert all[..i][..|more|] == more;
      }
    }
    assert forall i :: 0 <= i < |ps| ==> ps[i] == all[i];
  }

  /** build_attestation_application_id, up to the encoding. */
  method Build(all: seq<Package>, signatures: nat) returns (r: Result<(seq<Package>, nat)>)
    ensures r.Ok? ==> all != [] && Keeps(all, signatures, r.value.0, r.value.1)
    ensures r.Err? ==> r.error == InvalidArgument
    ensures r.Err? <==> Refused(all)
  {
    if all == [] {
      return Err(InvalidArgument);
    }
    var estimated := GENERAL_OVERHEAD;
    var ps: seq<Package> := [];
    var i := 0;
    while i < |all|
      invariant 0 <= i <= |all| && ps == all[..i] && (forall j :: 0 <= j < i ==> ps[j].name.Some?)
      invariant estimated == Estimate(ps) <= MAX_SIZE
    {
      if all[i].name.None? {
        assert NamelessAt(all, i);
        return Err(InvalidArgument);
      }
      estimated := estimated + PKG_INFO_OVERHEAD + all[i].name.value;
      if estimated > MAX_SIZE {
        break;
      }
      assert all[..i + 1] == all[..i] + [all[i]];
      assert (ps + [all[i]])[..|ps|] == ps;
      ps := ps + [all[i]];
      i := i + 1;
    }
    var n := 0;
    while n < signatures
      invariant 0 <= n <= signatures && (i < |all| ==> n == 0)
      invariant estimated == (if i < |all| then Estimate(ps) + PKG_INFO_OVERHEAD + all[i].name.value else Estimate(ps) + n * SIGNATURE_SIZE)
      invariant i == |all| ==> estimated <= MAX_SIZE
    {
      estimated := estimated + SIGNATURE_SIZE;
      if estimated > MAX_SIZE {
        break;
      }
      n := n + 1;
    }
    KeptIsNotRefused(all, signatures, ps, n);
    r := Ok((ps, n));
  }

  // ---------- The bound ----------

  function Long(p: Package): nat {
    if p.name.Some? && p.name.value >= 256 then 1 else 0
  }

  function LongNames(ps: seq<Package>): nat {
    if ps == [] then 0 else LongNames(ps[..|ps| - 1]) + Long(ps[|ps| - 1])
  }

  lemma SmallInteger(v: nat)
    requires v < TWO_47
    ensures IntegerOctets(v) <= 6
  {
    assert v / 256 / 256 / 256 / 256 / 256 < 128;
    assert IntegerOctets(v / 256 / 256 / 256 / 256) <= 2;
    assert IntegerOctets(v / 256 / 256 / 256) <= 3;
    assert IntegerOctets(v / 256 / 256) <= 4;
    assert IntegerOctets(v / 256) <= 5;
  }

  lemma LengthOctetsOf(n: nat)
    requires n < 65536
    ensures LengthOctets(n) == if n < 128 then 1 else if n < 256 then 2 else 3
  {
    if n >= 256 {
      assert n / 256 < 256;
      assert Octets(n) == 2;
    }
  }

  /** The estimate for a package is right, or one short if the name is long. */
  lemma PackageFits(name: nat, version: nat)
    requires name <= MAX_SIZE && version < TWO_47
    ensures PackageLength(name, version) <= PKG_INFO_OVERHEAD + name + Long(Package(Some(name), version))
  {
    SmallInteger(version);
    LengthOctetsOf(name);
    LengthOctetsOf(IntegerOctets(version));
    LengthOctetsOf(Tlv(name) + Tlv(IntegerOctets(version)));
  }

  lemma {:induction false} PackagesFit(ps: seq<Package>)
    requires forall i :: 0 <= i < |ps| ==> ps[i].name.Some? && ps[i].version < TWO_47
    requires ps != [] ==> Estimate(ps) <= MAX_SIZE
    ensures PackagesLength(ps) + GENERAL_OVERHEAD <= Estimate(ps) + LongNames(ps)
    ensures Estimate(ps) >= GENERAL_OVERHEAD + 271 * LongNames(ps)
  {
    if ps != [] {
      PackagesFit(ps[..|ps| - 1]);
      PackageFits(ps[|ps| - 1].name.value, ps[|ps| - 1].version);
    }
  }

  /** With versions below 2^47, what is kept always fits, so that the later check never fails. */
  lemma KeptFits(all: seq<Package>, signatures: nat, ps: seq<Package>, n: nat)
    requires Keeps(all, signatures, ps, n) && VersionsBelow(all, TWO_47)
    ensures DerLength(ps, n) <= MAX_SIZE
  {
    PackagesFit(ps);
    assert LongNames(ps) <= 3;
    LengthOctetsOf(DIGEST_LENGTH);
    assert Tlv(DIGEST_LENGTH) == SIGNATURE_SIZE;
    var a, s := PackagesLength(ps), n * SIGNATURE_SIZE;
    assert a + s <= MAX_SIZE;
    LengthOctetsOf(a);
    LengthOctetsOf(s);
    LengthOctetsOf(Tlv(a) + Tlv(s));
  }

  lemma BigInteger(v: nat)
    requires v == TWO_47
    ensures IntegerOctets(v) == 7
  {
    assert v / 256 / 256 / 256 / 256 / 256 == 128;
    assert IntegerOctets(128) == 2;
    assert IntegerOctets(v / 256 / 256 / 256 / 256) == 3;
    assert IntegerOctets(v / 256 / 256 / 256) == 4;
    assert IntegerOctets(v / 256 / 256) == 5;
    assert IntegerOctets(v / 256) == 6;
  }

  const TOO_LONG := [Package(Some(264), TWO_47), Package(Some(264), TWO_47), Package(Some(265), TWO_47)]

  lemma TooLongLength()
    ensures Estimate(TOO_LONG) == 854 && PackagesLength(TOO_LONG) == 844
  {
    BigInteger(TWO_47);
    assert PackageLength(264, TWO_47) == 281 && PackageLength(265, TWO_47) == 282 by {
      LengthOctetsOf(264);
      LengthOctetsOf(265);
      LengthOctetsOf(7);
      LengthOctetsOf(277);
      LengthOctetsOf(278);
    }
    var a, b := TOO_LONG[..2], TOO_LONG[..1];
    assert a[..1] == b && b[..0] == [];
    assert Estimate(b) == 295 && PackagesLength(b) == 281;
    assert Estimate(a) == 574 && PackagesLength(a) == 562;
  }

  /** Three packages with long names, versions of 2^47 and five signatures are estimated at 1024 and encoded as 1025. */
  lemma TooLong()
    ensures Keeps(TOO_LONG, 5, TOO_LONG, 5) && DerLength(TOO_LONG, 5) == 1025
  {
    TooLongLength();
    LengthOctetsOf(DIGEST_LENGTH);
    LengthOctetsOf(844);
    LengthOctetsOf(170);
    LengthOctetsOf(1021);
  }

  predicate VersionsBelow(all: seq<Package>, bound: nat) {
    forall i :: 0 <= i < |all| ==> all[i].version < bound
  }

  ghost predicate AlwaysFits(bound: nat) {
    forall all: seq<Package>, signatures: nat, ps: seq<Package>, n: nat ::
      VersionsBelow(all, bound) && Keeps(all, signatures, ps, n) ==> DerLength(ps, n) <= MAX_SIZE
  }

  /** The estimate is safe exactly for version codes below 2^47. */
  lemma SafeBelow(bound: nat)
    ensures AlwaysFits(bound) <==> bound <= TWO_47
  {
    if bound <= TWO_47 {
      forall all: seq<Package>, signatures: nat, ps: seq<Package>, n: nat | VersionsBelow(all, bound) && Keeps(all, signatures, ps, n)
        ensures DerLength(ps, n) <= MAX_SIZE
      {
        KeptFits(all, signatures, ps, n);
      }
    } else {
      TooLong();
      assert VersionsBelow(TOO_LONG, bound);
    }
  }

  // ---------- The caller ----------

  datatype Status = Fine(size: nat) | BadValue | NoMemory

  /** aaid_keystore_attestation_id: `room` is the size of the caller's buffer. */
  method Gather(all: seq<Package>, signatures: nat, room: nat) returns (r: Status)
    ensures r.Fine? ==> room == MAX_SIZE && exists ps, n :: Keeps(all, signatures, ps, n) && DerLength(ps, n) == r.size <= MAX_SIZE
    ensures r.NoMemory? ==> exists ps, n :: Keeps(all, signatures, ps, n) && DerLength(ps, n) > MAX_SIZE
    ensures Refused(all) ==> r.BadValue?
    ensures r.BadValue? ==> Refused(all) || room != MAX_SIZE
    ensures VersionsBelow(all, TWO_47) ==> !r.NoMemory?
  {
    var built := Build(all, signatures);
    if built.Err? {
      return BadValue;
    }
    var (ps, n) := built.value;
    var size := DerLength(ps, n);
    if size > MAX_SIZE {
      if VersionsBelow(all, TWO_47) {
        KeptFits(all, signatures, ps, n);
      }
      return NoMemory;
    }
    if room != MAX_SIZE {
      return BadValue;
    }
    r := Fine(size);
  }
}
