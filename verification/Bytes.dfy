/** Byte strings, big-endian integers and hexadecimal text, as the hashing and signing code uses them. */
module Bytes {
  import opened Options
  import Sequences

  type byte = b: int | 0 <= b < 256

  // ---------- big-endian integers (struct.pack) ----------

  function Pow256(width: nat): (r: nat)
    ensures r > 0
  {
    if width == 0 then 1 else 256 * Pow256(width - 1)
  }

  /** The low `width` bytes of `n`, most significant first. */
  function BigEndian(n: nat, width: nat): (r: seq<byte>)
    ensures |r| == width
  {
    if width == 0 then [] else BigEndian(n / 256, width - 1) + [n % 256]
  }

  /** Fixed-width encoding loses nothing as long as the number fits. */
  lemma {:induction false} BigEndianInjective(m: nat, n: nat, width: nat)
    requires m < Pow256(width) && n < Pow256(width)
    requires BigEndian(m, width) == BigEndian(n, width)
    ensures m == n
  {
    if width > 0 {
      var a, b := BigEndian(m, width), BigEndian(n, width);
      assert a[width - 1] == m % 256 && b[width - 1] == n % 256;
      assert a[..width - 1] == BigEndian(m / 256, width - 1);
      assert b[..width - 1] == BigEndian(n / 256, width - 1);
      BigEndianInjective(m / 256, n / 256, width - 1);
    }
  }

  /** Dropping leading bytes keeps exactly the low-order bytes. */
  lemma {:induction false} BigEndianLowBytes(n: nat, width: nat, keep: nat)
    requires keep <= width
    ensures BigEndian(n, width)[width - keep..] == BigEndian(n, keep)
  {
    if keep > 0 {
      BigEndianLowBytes(n / 256, width - 1, keep - 1);
      var a := BigEndian(n, width);
      assert a[width - keep..] == BigEndian(n / 256, width - 1)[width - keep..] + [n % 256];
    }
  }

  /** Byte `i` of an encoding is the digit of `n` at its place, counted from the most significant end. */
  lemma {:induction false} BigEndianDigit(n: nat, width: nat, i: nat)
    requires i < width
    ensures BigEndian(n, width)[i] == n / Pow256(width - 1 - i) % 256
  {
    if i < width - 1 {
      BigEndianDigit(n / 256, width - 1, i);
      DivideTwice(n, Pow256(width - 2 - i));
    }
  }

  lemma DivideTwice(n: nat, m: nat)
    requires m > 0
    ensures n / 256 / m == n / (256 * m)
  {
    var q, r := n / (256 * m), n % (256 * m);
    assert n == 256 * (m * q) + r;
    assert n / 256 == m * q + r / 256;
    assert r / 256 < m;
    ModUnique(n / 256, m, q, r / 256);
  }

  lemma AtLeastOnce(m: int, d: int)
    requires m > 0 && d >= 1
    ensures m * d >= m
  {
  }

  /** Quotient and remainder are unique. */
  lemma ModUnique(w: int, m: int, q: int, r: int)
    requires m > 0 && w == m * q + r && 0 <= r < m
    ensures w / m == q && w % m == r
  {
    var q', r' := w / m, w % m;
    assert m * (q - q') == m * q - m * q' == r' - r;
    assert m * (q' - q) == m * q' - m * q == r - r';
    if q - q' >= 1 {
      AtLeastOnce(m, q - q');
    } else if q' - q >= 1 {
      AtLeastOnce(m, q' - q);
    }
  }

  /** A number in two parts is encoded part by part. */
  lemma {:induction false} BigEndianParts(low: nat, high: nat, a: nat, b: nat)
    requires low < Pow256(b)
    ensures BigEndian(low + Pow256(b) * high, a + b) == BigEndian(high, a) + BigEndian(low, b)
  {
    if b == 0 {
      assert BigEndian(high, a) + [] == BigEndian(high, a);
    } else {
      var p := Pow256(b - 1);
      assert low + 256 * p * high == 256 * (low / 256 + p * high) + low % 256;
      BigEndianParts(low / 256, high, a, b - 1);
      assert BigEndian(high, a) + (BigEndian(low / 256, b - 1) + [low % 256])
          == BigEndian(high, a) + BigEndian(low / 256, b - 1) + [low % 256];
    }
  }

  lemma PowersOf256()
    ensures Pow256(5) == 0x100_0000_0000
    ensures Pow256(8) == 0x1_0000_0000_0000_0000
  {
    assert Pow256(3) == 0x100_0000;
    assert Pow256(5) == 256 * (256 * Pow256(3));
    assert Pow256(8) == 256 * (256 * (256 * Pow256(5)));
  }

  const TWO_64: int := 0x1_0000_0000_0000_0000

  /** `struct.pack(">Q", n)`, which rejects numbers outside 64 bits. */
  function PackU64(n: int): Option<seq<byte>> {
    if 0 <= n < TWO_64 then Some(BigEndian(n, 8)) else None
  }

  // ---------- hexadecimal text (bytes.fromhex) ----------

  function Nibble(c: char): (r: Option<int>)
    ensures r.Some? ==> 0 <= r.value < 16
  {
    if '0' <= c <= '9' then Some(c as int - '0' as int)
    else if 'a' <= c <= 'f' then Some(c as int - 'a' as int + 10)
    else if 'A' <= c <= 'F' then Some(c as int - 'A' as int + 10)
    else None
  }

  predicate IsSpace(c: char) { c == ' ' || c == '\t' || c == '\n' || c == '\r' || c as int == 11 || c as int == 12 }

  /** Pairs of hexadecimal digits of either case, with white space allowed between pairs; anything else is an error. */
  function FromHex(s: string): Option<seq<byte>> {
    if s == "" then Some([])
    else if IsSpace(s[0]) then FromHex(s[1..])
    else if |s| == 1 then None
    else
      var hi :- Nibble(s[0]);
      var lo :- Nibble(s[1]);
      var rest :- FromHex(s[2..]);
      Some([16 * hi + lo] + rest)
  }

  predicate IsLowerHex(s: string) {
    forall i :: 0 <= i < |s| ==> '0' <= s[i] <= '9' || 'a' <= s[i] <= 'f'
  }

  predicate IsDigest(s: string) { |s| == 64 && IsLowerHex(s) }

  function Zeros(n: nat): (r: string)
    ensures |r| == n && forall i :: 0 <= i < n ==> r[i] == '0'
  {
    if n == 0 then "" else "0" + Zeros(n - 1)
  }

  /** Sixty-four zeros: the contract's bytes32(0). */
  predicate IsZeroHash(s: string) { |s| == 64 && forall i :: 0 <= i < 64 ==> s[i] == '0' }

  function ZeroHash(): (r: string)
    ensures IsZeroHash(r)
  {
    Zeros(64)
  }

  /** What `hexdigest()` of a 256-bit hash returns. */
  type Digest = s: string | IsDigest(s) witness Zeros(64)

  lemma {:induction false} FromHexDecodes(s: string)
    requires IsLowerHex(s) && |s| % 2 == 0
    ensures FromHex(s).Some? && |FromHex(s).value| == |s| / 2
  {
    if s != "" {
      FromHexDecodes(s[2..]);
    }
  }

  lemma {:induction false} FromHexConcat(s: string, t: string)
    requires IsLowerHex(s) && |s| % 2 == 0 && FromHex(t).Some?
    ensures FromHex(s).Some? && FromHex(s + t) == Some(FromHex(s).value + FromHex(t).value)
  {
    FromHexDecodes(s);
    if s == "" {
      assert s + t == t && [] + FromHex(t).value == FromHex(t).value;
    } else {
      var pair, rest := s[..2], s[2..];
      SplitPair(s);
      FromHexConcat(rest, t);
      FromHexPair(pair, rest);
      FromHexPair(pair, rest + t);
      Sequences.Reassociate(pair, rest, t);
      Sequences.Reassociate([ByteOf(pair)], FromHex(rest).value, FromHex(t).value);
    }
  }

  lemma SplitPair(s: string)
    requires IsLowerHex(s) && |s| >= 2
    ensures s == s[..2] + s[2..] && IsLowerHex(s[2..]) && Nibble(s[0]).Some? && Nibble(s[1]).Some?
  {
  }

  function ByteOf(pair: string): byte
    requires |pair| >= 2 && Nibble(pair[0]).Some? && Nibble(pair[1]).Some?
  {
    16 * Nibble(pair[0]).value + Nibble(pair[1]).value
  }

  lemma FromHexPair(pair: string, rest: string)
    requires |pair| == 2 && Nibble(pair[0]).Some? && Nibble(pair[1]).Some? && FromHex(rest).Some?
    ensures FromHex(pair + rest) == Some([ByteOf(pair)] + FromHex(rest).value)
  {
    assert (pair + rest)[2..] == rest;
  }

  lemma NibbleInjective(c: char, d: char)
    requires '0' <= c <= '9' || 'a' <= c <= 'f'
    requires '0' <= d <= '9' || 'a' <= d <= 'f'
    requires Nibble(c) == Nibble(d)
    ensures c == d
  {
  }

  lemma {:induction false} FromHexInjective(s: string, t: string)
    requires IsLowerHex(s) && IsLowerHex(t) && |s| % 2 == 0 && |t| % 2 == 0
    requires FromHex(s) == FromHex(t)
    ensures s == t
  {
    FromHexDecodes(s);
    FromHexDecodes(t);
    if s != "" {
      FromHexHead(s);
      FromHexHead(t);
      SameHead(s, t);
      FromHexInjective(s[2..], t[2..]);
      SplitPair(s);
      SplitPair(t);
    }
  }

  lemma SameHead(s: string, t: string)
    requires IsLowerHex(s) && IsLowerHex(t) && |s| >= 2 && |t| >= 2 && Nibble(s[0]).Some? && Nibble(t[0]).Some?
    requires Nibble(s[1]).Some? && Nibble(t[1]).Some? && ByteOf(s) == ByteOf(t)
    ensures s[..2] == t[..2]
  {
    NibbleInjective(s[0], t[0]);
    NibbleInjective(s[1], t[1]);
    assert s[..2] == [s[0], s[1]] && t[..2] == [t[0], t[1]];
  }

  /** Decoding peels off one byte. */
  lemma FromHexHead(s: string)
    requires IsLowerHex(s) && |s| % 2 == 0 && s != ""
    ensures Nibble(s[0]).Some? && Nibble(s[1]).Some?
    ensures FromHex(s).Some? && FromHex(s).value != [] && FromHex(s).value[0] == ByteOf(s)
    ensures FromHex(s[2..]) == Some(FromHex(s).value[1..])
  {
    FromHexDecodes(s[2..]);
  }

  /** The sixteen digits in their order, and nothing else but the upper-case ones. */
  lemma NibblesInOrder(c: char, k: int)
    ensures Nibble(c) == Some(k) <==> 0 <= k < 16 && (c == "0123456789abcdef"[k] || c == "0123456789ABCDEF"[k])
  {
  }

  /** Byte `k` of the decoding stands in the two digits at `2 * k`, the high one first. */
  lemma {:induction false} DecodedByte(s: string, k: nat)
    requires IsLowerHex(s) && |s| % 2 == 0 && 2 * k + 1 < |s|
    ensures Nibble(s[2 * k]).Some? && Nibble(s[2 * k + 1]).Some?
    ensures FromHex(s).Some? && k < |FromHex(s).value|
    ensures FromHex(s).value[k] == 16 * Nibble(s[2 * k]).value + Nibble(s[2 * k + 1]).value
  {
    FromHexDecodes(s);
    FromHexHead(s);
    if k > 0 {
      DecodedByte(s[2..], k - 1);
    }
  }

  // ---------- hash functions ----------

  /** A 256-bit hash function, left uninterpreted. */
  type HashFn = seq<byte> -> Digest

  /**
   * No two of the given inputs collide. It is asked only of the finitely many inputs that were
   * really hashed: no function from all byte strings to 32 bytes is injective.
   */
  ghost predicate CollisionFree(h: HashFn, inputs: set<seq<byte>>) {
    forall x, y :: x in inputs && y in inputs && h(x) == h(y) ==> x == y
  }
}
