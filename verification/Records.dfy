/** Attestation records and the packed hash that links them (attestation/types.py, attestation/hashing.py). */
module Records {
  import opened Options
  import opened Bytes

  /** Instants are whole microseconds since the epoch. */
  datatype Record = Record(
    orgIdHash: string,
    periodStart: int,
    periodEnd: int,
    metricsHash: string,
    benchmarkHash: string,
    merkleRoot: string,
    prevHash: string,
    nonce: int,
    timestamp: int)

  const TWO_40: int := 0x100_0000_0000

  /** `int(t.timestamp())`: whole seconds, truncated toward zero. */
  function Seconds(instant: int): int {
    if instant >= 0 then instant / 1_000_000 else -(-instant / 1_000_000)
  }

  /** A time as the contract's uint40: the low five of the eight packed bytes. */
  function PackTime(instant: int): Option<seq<byte>> {
    var wide :- PackU64(Seconds(instant));
    Some(wide[3..])
  }

  function Pack(r: Record): Option<seq<byte>> {
    var org :- FromHex(r.orgIdHash);
    var periodStart :- PackTime(r.periodStart);
    var periodEnd :- PackTime(r.periodEnd);
    var metrics :- FromHex(r.metricsHash);
    var benchmark :- FromHex(r.benchmarkHash);
    var merkle :- FromHex(r.merkleRoot);
    var prev :- FromHex(r.prevHash);
    var nonce :- PackU64(r.nonce);
    Some(org + periodStart + periodEnd + metrics + benchmark + merkle + prev + nonce)
  }

  /** The link to `r` that its successor must carry; `None` when packing `r` raises. */
  function ChainHash(keccak: HashFn, r: Record): Option<Digest> {
    var packed :- Pack(r);
    Some(keccak(packed))
  }

  predicate WellFormed(r: Record) {
    && IsDigest(r.orgIdHash) && IsDigest(r.metricsHash) && IsDigest(r.benchmarkHash) && IsDigest(r.merkleRoot)
    && (IsDigest(r.prevHash) || r.prevHash == "")
    && 0 <= Seconds(r.periodStart) < TWO_40
    && 0 <= Seconds(r.periodEnd) < TWO_40
    && 0 <= r.nonce < TWO_64
  }

  /** Agreement on everything the hash covers: all but `timestamp` and the sub-second part of the two times. */
  predicate SameCommitment(a: Record, b: Record) {
    && a.orgIdHash == b.orgIdHash
    && Seconds(a.periodStart) == Seconds(b.periodStart)
    && Seconds(a.periodEnd) == Seconds(b.periodEnd)
    && a.metricsHash == b.metricsHash
    && a.benchmarkHash == b.benchmarkHash
    && a.merkleRoot == b.merkleRoot
    && a.prevHash == b.prevHash
    && a.nonce == b.nonce
  }

  lemma PackTimeFits(t: int)
    requires 0 <= Seconds(t) < TWO_40
    ensures PackTime(t) == Some(BigEndian(Seconds(t), 5))
  {
    BigEndianLowBytes(Seconds(t), 8, 5);
  }

  /** A well-formed record packs, each field to its fixed width, except that an empty first link takes no room. */
  lemma PackWidths(r: Record)
    requires WellFormed(r)
    ensures Pack(r).Some?
    ensures |FromHex(r.orgIdHash).value| == |FromHex(r.metricsHash).value| == 32
    ensures |FromHex(r.benchmarkHash).value| == |FromHex(r.merkleRoot).value| == 32
    ensures |PackTime(r.periodStart).value| == |PackTime(r.periodEnd).value| == 5
    ensures |PackU64(r.nonce).value| == 8
    ensures |FromHex(r.prevHash).value| == |r.prevHash| / 2
    ensures |Pack(r).value| == 146 + |r.prevHash| / 2
  {
    FromHexDecodes(r.orgIdHash);
    FromHexDecodes(r.metricsHash);
    FromHexDecodes(r.benchmarkHash);
    FromHexDecodes(r.merkleRoot);
    FromHexDecodes(r.prevHash);
    PackTimeFits(r.periodStart);
    PackTimeFits(r.periodEnd);
  }

  /** Whole seconds, and toward the epoch. */
  lemma SecondsTruncate(t: int)
    ensures t >= 0 ==> Seconds(t) >= 0 && 1_000_000 * Seconds(t) <= t < 1_000_000 * Seconds(t) + 1_000_000
    ensures t <= 0 ==> Seconds(t) <= 0 && 1_000_000 * Seconds(t) - 1_000_000 < t <= 1_000_000 * Seconds(t)
  {
  }

  /** The layout that the contract hashes: organisation, period, the three digests, the link and the nonce, each in its
      place, an empty first link taking none. */
  lemma PackLayout(r: Record)
    requires WellFormed(r)
    ensures var p, n := Pack(r), |r.prevHash| / 2;
            && p.Some? && |p.value| == 146 + n
            && Some(p.value[..32]) == FromHex(r.orgIdHash)
            && p.value[32..37] == BigEndian(Seconds(r.periodStart), 5)
            && p.value[37..42] == BigEndian(Seconds(r.periodEnd), 5)
            && Some(p.value[42..74]) == FromHex(r.metricsHash)
            && Some(p.value[74..106]) == FromHex(r.benchmarkHash)
            && Some(p.value[106..138]) == FromHex(r.merkleRoot)
            && Some(p.value[138..138 + n]) == FromHex(r.prevHash)
            && p.value[138 + n..] == BigEndian(r.nonce, 8)
  {
    PackWidths(r);
    PackTimeFits(r.periodStart);
    PackTimeFits(r.periodEnd);
    EightParts(FromHex(r.orgIdHash).value, PackTime(r.periodStart).value, PackTime(r.periodEnd).value,
               FromHex(r.metricsHash).value, FromHex(r.benchmarkHash).value, FromHex(r.merkleRoot).value,
               FromHex(r.prevHash).value, PackU64(r.nonce).value);
  }

  lemma EightParts<T>(a: seq<T>, b: seq<T>, c: seq<T>, d: seq<T>, e: seq<T>, f: seq<T>, g: seq<T>, h: seq<T>)
    requires |a| == |d| == |e| == |f| == 32 && |b| == |c| == 5
    ensures var p := a + b + c + d + e + f + g + h;
            && p[..32] == a && p[32..37] == b && p[37..42] == c && p[42..74] == d && p[74..106] == e
            && p[106..138] == f && p[138..138 + |g|] == g && p[138 + |g|..] == h
  {
  }

  lemma SplitAtEnd<T>(a: seq<T>, b: seq<T>, c: seq<T>, d: seq<T>)
    requires a + b == c + d && |b| == |d|
    ensures a == c && b == d
  {
    assert a == (a + b)[..|a|] && b == (a + b)[|a|..];
    assert c == (c + d)[..|c|] && d == (c + d)[|c|..];
  }

  /** On well-formed records the packing determines every field it covers, the empty first link included. */
  lemma PackInjective(a: Record, b: Record)
    requires WellFormed(a) && WellFormed(b)
    ensures Pack(a) == Pack(b) <==> SameCommitment(a, b)
  {
    PackWidths(a);
    PackWidths(b);
    if Pack(a) == Pack(b) {
      SamePackingSameFields(a, b);
    }
  }

  lemma SamePackingSameFields(a: Record, b: Record)
    requires WellFormed(a) && WellFormed(b) && Pack(a) == Pack(b)
    ensures SameCommitment(a, b)
  {
    PackWidths(a);
    PackWidths(b);
    var a1, b1 := FromHex(a.orgIdHash).value, FromHex(b.orgIdHash).value;
    var a2, b2 := a1 + PackTime(a.periodStart).value, b1 + PackTime(b.periodStart).value;
    var a3, b3 := a2 + PackTime(a.periodEnd).value, b2 + PackTime(b.periodEnd).value;
    var a4, b4 := a3 + FromHex(a.metricsHash).value, b3 + FromHex(b.metricsHash).value;
    var a5, b5 := a4 + FromHex(a.benchmarkHash).value, b4 + FromHex(b.benchmarkHash).value;
    var a6, b6 := a5 + FromHex(a.merkleRoot).value, b5 + FromHex(b.merkleRoot).value;
    var a7, b7 := a6 + FromHex(a.prevHash).value, b6 + FromHex(b.prevHash).value;
    SplitAtEnd(a7, PackU64(a.nonce).value, b7, PackU64(b.nonce).value);
    SplitAtEnd(a6, FromHex(a.prevHash).value, b6, FromHex(b.prevHash).value);
    SplitAtEnd(a5, FromHex(a.merkleRoot).value, b5, FromHex(b.merkleRoot).value);
    SplitAtEnd(a4, FromHex(a.benchmarkHash).value, b4, FromHex(b.benchmarkHash).value);
    SplitAtEnd(a3, FromHex(a.metricsHash).value, b3, FromHex(b.metricsHash).value);
    SplitAtEnd(a2, PackTime(a.periodEnd).value, b2, PackTime(b.periodEnd).value);
    SplitAtEnd(a1, PackTime(a.periodStart).value, b1, PackTime(b.periodStart).value);
    DecodedFieldsSame(a, b);
  }

  lemma SamePackedTime(s: nat, r: nat)
    requires s < TWO_40 && r < TWO_40
    ensures BigEndian(s, 5) == BigEndian(r, 5) <==> s == r
  {
    PowersOf256();
    if BigEndian(s, 5) == BigEndian(r, 5) {
      BigEndianInjective(s, r, 5);
    }
  }

  lemma DecodedFieldsSame(a: Record, b: Record)
    requires WellFormed(a) && WellFormed(b)
    requires FromHex(a.orgIdHash) == FromHex(b.orgIdHash) && FromHex(a.metricsHash) == FromHex(b.metricsHash)
    requires FromHex(a.benchmarkHash) == FromHex(b.benchmarkHash) && FromHex(a.merkleRoot) == FromHex(b.merkleRoot)
    requires FromHex(a.prevHash) == FromHex(b.prevHash) && PackU64(a.nonce) == PackU64(b.nonce)
    requires PackTime(a.periodStart) == PackTime(b.periodStart) && PackTime(a.periodEnd) == PackTime(b.periodEnd)
    ensures SameCommitment(a, b)
  {
    FromHexInjective(a.orgIdHash, b.orgIdHash);
    FromHexInjective(a.metricsHash, b.metricsHash);
    FromHexInjective(a.benchmarkHash, b.benchmarkHash);
    FromHexInjective(a.merkleRoot, b.merkleRoot);
    FromHexInjective(a.prevHash, b.prevHash);
    PackTimeFits(a.periodStart);
    PackTimeFits(a.periodEnd);
    PackTimeFits(b.periodStart);
    PackTimeFits(b.periodEnd);
    SamePackedTime(Seconds(a.periodStart), Seconds(b.periodStart));
    SamePackedTime(Seconds(a.periodEnd), Seconds(b.periodEnd));
    PowersOf256();
    BigEndianInjective(a.nonce, b.nonce, 8);
  }

  /** The last microsecond of the year 9999, where Python's datetimes end. */
  const LAST_INSTANT: int := 253_402_300_799_999_999

  /** For the times a datetime can hold, packing fails exactly for those a second or more before the epoch, and is
      otherwise faithful to the second. */
  lemma TimesPackFaithfully(t: int, u: int)
    requires t <= LAST_INSTANT && u <= LAST_INSTANT
    ensures PackTime(t).Some? <==> t > -1_000_000
    ensures PackTime(t).Some? ==> (PackTime(t) == PackTime(u) <==> Seconds(t) == Seconds(u))
  {
    if t > -1_000_000 {
      PackTimeFits(t);
      if u > -1_000_000 {
        PackTimeFits(u);
        SamePackedTime(Seconds(t), Seconds(u));
      }
    }
  }

  /** The 40-bit bound of a well-formed record is not idle for a caller with wider times than a datetime holds: 2^40
      seconds later packs to the same bytes. */
  lemma TimesWrapAt40Bits(t: int)
    requires 0 <= t && Seconds(t) + TWO_40 < TWO_64
    ensures PackTime(t) == PackTime(t + TWO_40 * 1_000_000)
  {
    var s := Seconds(t);
    assert Seconds(t + TWO_40 * 1_000_000) == s + TWO_40;
    BigEndianLowBytes(s, 8, 5);
    BigEndianLowBytes(s + TWO_40, 8, 5);
    BigEndianPeriodic(s, 5);
    PowersOf256();
  }

  lemma {:induction false} BigEndianPeriodic(n: nat, width: nat)
    ensures BigEndian(n, width) == BigEndian(n + Pow256(width), width)
  {
    if width > 0 {
      var p := Pow256(width - 1);
      assert (n + 256 * p) / 256 == n / 256 + p && (n + 256 * p) % 256 == n % 256;
      BigEndianPeriodic(n / 256, width - 1);
    }
  }
}
