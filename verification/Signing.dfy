/** The message a payment signature covers (channels/signing.py). */
module Signing {
  import opened Options
  import opened Bytes

  /** A keyed hash: key, message, signature, the last as hexadecimal text. */
  type Mac = (string, seq<byte>) -> Digest

  const WEI: real := 1000000000000000000.0
  const TWO_256: int := TWO_64 * (TWO_64 * (TWO_64 * TWO_64))

  /** `int(x)`: toward zero. */
  function Truncate(x: real): int { if x >= 0.0 then x.Floor else -((-x).Floor) }

  function Wei(amount: real): int { Truncate(amount * WEI) }

  /** The 64-bit limb that starts at bit `64 * k`. */
  function Limb(wei: int, k: nat): (r: int)
    ensures 0 <= r < TWO_64
    decreases k
  {
    if k == 0 then wei % TWO_64 else Limb(wei / TWO_64, k - 1)
  }

  function U64(n: int): seq<byte>
    requires 0 <= n < TWO_64
  {
    BigEndian(n, 8)
  }

  function AmountBytes(wei: int): (r: seq<byte>)
    ensures |r| == 32
  {
    U64(Limb(wei, 3)) + U64(Limb(wei, 2)) + U64(Limb(wei, 1)) + U64(Limb(wei, 0))
  }

  /** Identifier, amount as four limbs, nonce; a nonce outside 64 bits cannot be packed. */
  function BuildMessage(id: seq<byte>, amount: real, nonce: int): Option<seq<byte>> {
    var last :- PackU64(nonce);
    Some(id + AmountBytes(Wei(amount)) + last)
  }

  function SignPayment(mac: Mac, id: seq<byte>, amount: real, nonce: int, key: string): Option<string> {
    var msg :- BuildMessage(id, amount, nonce);
    Some(mac(key, msg))
  }

  predicate IsAscii(s: string) { forall i :: 0 <= i < |s| ==> s[i] as int < 128 }

  /** `None` when it raises: recomputing the signature does for a nonce outside 64 bits, and `compare_digest` for text
      that is not ASCII. */
  function VerifySignature(mac: Mac, id: seq<byte>, amount: real, nonce: int, signature: string, key: string):
    Option<bool>
  {
    var expected :- SignPayment(mac, id, amount, nonce, key);
    if IsAscii(signature) then Some(expected == signature) else None
  }

  // ---------- what the message determines ----------

  lemma ModSplit(w: int, m: nat)
    requires m > 0
    ensures TWO_64 * m > 0 && w % (TWO_64 * m) == TWO_64 * (w / TWO_64 % m) + w % TWO_64
  {
    var q, r := w / TWO_64, w % TWO_64;
    var a, b := q / m, q % m;
    assert w == TWO_64 * (m * a + b) + r;
    assert w == (TWO_64 * m) * a + (TWO_64 * b + r);
    assert TWO_64 * b + r < TWO_64 * m by {
      assert TWO_64 * b <= TWO_64 * (m - 1);
    }
    ModUnique(w, TWO_64 * m, a, TWO_64 * b + r);
  }

  lemma TwoDigits(a: int, x: int, b: int, y: int)
    requires 0 <= a < TWO_64 && 0 <= b < TWO_64
    ensures a + TWO_64 * x == b + TWO_64 * y <==> a == b && x == y
  {
  }

  function Value(a: int, b: int, c: int, d: int): int { a + TWO_64 * (b + TWO_64 * (c + TWO_64 * d)) }

  lemma FourDigits(a: int, b: int, c: int, d: int, a': int, b': int, c': int, d': int)
    requires 0 <= a < TWO_64 && 0 <= b < TWO_64 && 0 <= c < TWO_64
    requires 0 <= a' < TWO_64 && 0 <= b' < TWO_64 && 0 <= c' < TWO_64
    ensures Value(a, b, c, d) == Value(a', b', c', d') <==> a == a' && b == b' && c == c' && d == d'
  {
    TwoDigits(a, b + TWO_64 * (c + TWO_64 * d), a', b' + TWO_64 * (c' + TWO_64 * d'));
    TwoDigits(b, c + TWO_64 * d, b', c' + TWO_64 * d');
    TwoDigits(c, d, c', d');
  }

  predicate SameLimbs(w: int, v: int) {
    Limb(w, 3) == Limb(v, 3) && Limb(w, 2) == Limb(v, 2) && Limb(w, 1) == Limb(v, 1) && Limb(w, 0) == Limb(v, 0)
  }

  /** The four limbs are the amount as an unsigned 256-bit integer. */
  lemma LimbsAreUint256(w: int, v: int)
    ensures SameLimbs(w, v) <==> w % TWO_256 == v % TWO_256
  {
    LimbsOf(w);
    LimbsOf(v);
    FourDigits(Limb(w, 0), Limb(w, 1), Limb(w, 2), Limb(w, 3), Limb(v, 0), Limb(v, 1), Limb(v, 2), Limb(v, 3));
  }

  lemma LimbsOf(w: int)
    ensures w % TWO_256 == Value(Limb(w, 0), Limb(w, 1), Limb(w, 2), Limb(w, 3))
  {
    var w1 := w / TWO_64;
    var w2 := w1 / TWO_64;
    var w3 := w2 / TWO_64;
    assert Limb(w, 1) == w1 % TWO_64 && Limb(w, 2) == Limb(w1, 1) == w2 % TWO_64;
    assert Limb(w, 3) == Limb(w1, 2) == Limb(w2, 1) == w3 % TWO_64;
    ModSplit(w2, TWO_64);
    ModSplit(w1, TWO_64 * TWO_64);
    ModSplit(w, TWO_64 * (TWO_64 * TWO_64));
  }

  lemma U64Injective(m: int, n: int)
    requires 0 <= m < TWO_64 && 0 <= n < TWO_64
    ensures U64(m) == U64(n) <==> m == n
  {
    PowersOf256();
    if U64(m) == U64(n) {
      BigEndianInjective(m, n, 8);
    }
  }

  lemma SplitAt<T>(a: seq<T>, b: seq<T>, c: seq<T>, d: seq<T>)
    requires |b| == |d|
    ensures a + b == c + d <==> a == c && b == d
  {
    if a + b == c + d {
      assert |a| == |c|;
      assert a == (a + b)[..|a|] && c == (c + d)[..|c|];
      assert b == (a + b)[|a|..] && d == (c + d)[|c|..];
    }
  }

  lemma AmountDetermines(w: int, v: int)
    ensures AmountBytes(w) == AmountBytes(v) <==> w % TWO_256 == v % TWO_256
  {
    LimbsAreUint256(w, v);
    U64Injective(Limb(w, 0), Limb(v, 0));
    U64Injective(Limb(w, 1), Limb(v, 1));
    U64Injective(Limb(w, 2), Limb(v, 2));
    U64Injective(Limb(w, 3), Limb(v, 3));
    FourParts(U64(Limb(w, 3)), U64(Limb(w, 2)), U64(Limb(w, 1)), U64(Limb(w, 0)),
              U64(Limb(v, 3)), U64(Limb(v, 2)), U64(Limb(v, 1)), U64(Limb(v, 0)));
  }

  /** Two payments have the same message exactly when they agree on channel and nonce and on the amount in wei, modulo
      2^256. */
  lemma MessageDetermines(id: seq<byte>, a: real, n: int, id': seq<byte>, a': real, n': int)
    requires 0 <= n < TWO_64 && 0 <= n' < TWO_64
    ensures BuildMessage(id, a, n) == BuildMessage(id', a', n') <==>
            id == id' && n == n' && Wei(a) % TWO_256 == Wei(a') % TWO_256
  {
    AmountDetermines(Wei(a), Wei(a'));
    U64Injective(n, n');
    SplitAt(id + AmountBytes(Wei(a)), U64(n), id' + AmountBytes(Wei(a')), U64(n'));
    SplitAt(id, AmountBytes(Wei(a)), id', AmountBytes(Wei(a')));
  }

  lemma FourParts(a: seq<byte>, b: seq<byte>, c: seq<byte>, d: seq<byte>,
                  a': seq<byte>, b': seq<byte>, c': seq<byte>, d': seq<byte>)
    requires |b| == |b'| && |c| == |c'| && |d| == |d'|
    ensures a + b + c + d == a' + b' + c' + d' <==> a == a' && b == b' && c == c' && d == d'
  {
    SplitAt(a + b + c, d, a' + b' + c', d');
    SplitAt(a + b, c, a' + b', c');
    SplitAt(a, b, a', b');
  }

  lemma WeiPlus(a: real, n: int)
    requires 0.0 <= a && 0 <= n
    ensures Wei(a + n as real / WEI) == Wei(a) + n
  {
  }

  lemma ModPlus(w: int, m: int)
    requires m > 0
    ensures (w + m) % m == w % m
  {
    assert w + m == m * (w / m + 1) + w % m;
    ModUnique(w + m, m, w / m + 1, w % m);
  }

  /** Larger ones are not: adding 2^256 wei leaves the message as it was. */
  lemma LargeAmountsWrap(id: seq<byte>, a: real, n: int)
    requires 0.0 <= a
    ensures BuildMessage(id, a + TWO_256 as real / WEI, n) == BuildMessage(id, a, n)
  {
    WeiPlus(a, TWO_256);
    ModPlus(Wei(a), TWO_256);
    AmountDetermines(Wei(a) + TWO_256, Wei(a));
  }

  // ---------- the layout of the message ----------

  /** Four digits of the same width are encoded one after the other. */
  lemma FourDigitsInRow(w: nat, a: nat, b: nat, c: nat, d: nat, two: nat, three: nat, four: nat)
    requires a < Pow256(w) && b < Pow256(w) && c < Pow256(w)
    requires two == c + Pow256(w) * d && three == b + Pow256(w) * two && four == a + Pow256(w) * three
    ensures BigEndian(four, w + w + w + w)
         == BigEndian(d, w) + BigEndian(c, w) + BigEndian(b, w) + BigEndian(a, w)
  {
    BigEndianParts(c, d, w, w);
    BigEndianParts(b, two, w + w, w);
    BigEndianParts(a, three, w + w + w, w);
  }

  lemma LimbsInRow(w: nat, a: nat, b: nat, c: nat, d: nat)
    requires Pow256(w) == TWO_64 && a < TWO_64 && b < TWO_64 && c < TWO_64 && d < TWO_64
    ensures Value(a, b, c, d) >= 0
    ensures BigEndian(Value(a, b, c, d), w + w + w + w)
         == BigEndian(d, w) + BigEndian(c, w) + BigEndian(b, w) + BigEndian(a, w)
  {
    var two := c + TWO_64 * d;
    var three := b + TWO_64 * two;
    FourDigitsInRow(w, a, b, c, d, two, three, a + TWO_64 * three);
  }

  /** The four limbs in a row are the amount as one 32-byte number. */
  lemma AmountIsBigEndian(wei: int)
    ensures AmountBytes(wei) == BigEndian(wei % TWO_256, 32)
  {
    LimbsOf(wei);
    PowersOf256();
    LimbsInRow(8, Limb(wei, 0), Limb(wei, 1), Limb(wei, 2), Limb(wei, 3));
  }

  /** What is signed: the channel, the amount in wei as 32 bytes, the nonce as eight. */
  lemma MessageLayout(id: seq<byte>, amount: real, nonce: int)
    ensures BuildMessage(id, amount, nonce).Some? <==> 0 <= nonce < TWO_64
    ensures BuildMessage(id, amount, nonce).Some? ==>
              BuildMessage(id, amount, nonce).value
              == id + BigEndian(Wei(amount) % TWO_256, 32) + BigEndian(nonce, 8)
  {
    AmountIsBigEndian(Wei(amount));
  }

  /** Amounts are cut off, toward zero, after eighteen decimal places. */
  lemma WeiTruncates(amount: real)
    ensures amount >= 0.0 ==>
              Wei(amount) >= 0 && Wei(amount) as real <= amount * 1000000000000000000.0 < Wei(amount) as real + 1.0
    ensures amount <= 0.0 ==>
              Wei(amount) <= 0 && Wei(amount) as real - 1.0 < amount * 1000000000000000000.0 <= Wei(amount) as real
  {
  }
}
