/**
 The public key format of Android: a modulus with the two numbers that Montgomery multiplication
 needs, as little-endian words.
 */
module Keygen {
  import opened Bytes

  const R32: nat := 0x1_0000_0000
  const MODULUS_SIZE_WORDS: u32 := 64

  function Pow2(n: nat): (p: nat)
    ensures p >= 1
  {
    if n == 0 then 1 else 2 * Pow2(n - 1)
  }

  lemma {:induction false} Pow2Add(a: nat, b: nat)
    ensures Pow2(a + b) == Pow2(a) * Pow2(b)
  {
    if a == 0 {
    } else {
      Pow2Add(a - 1, b);
      assert Pow2(a) * Pow2(b) == 2 * (Pow2(a - 1) * Pow2(b));
    }
  }

  /** What `rsa._modinv` gives: the inverse modulo 2^32 of a number that has one. */
  predicate IsInverse(x: nat, a: nat) {
    0 < x < R32 && (a * x) % R32 == 1
  }

  /** `n0inv`, from the inverse of the lowest word of the modulus. */
  function N0Inv(inverse: nat): nat
    requires 0 < inverse < R32
  {
    R32 - inverse
  }

  /** `d` divides `a`, with a quotient to show for it. */
  ghost predicate Divides(d: int, a: int) {
    exists q: int :: a == d * q
  }

  lemma DividesMod(d: int, a: int)
    requires d > 0
    ensures Divides(d, a) <==> a % d == 0
  {
    if a % d == 0 {
      assert a == d * (a / d);
    } else if Divides(d, a) {
      var q: int :| a == d * q;
      NoRemainder(d, q);
    }
  }

  lemma NoRemainder(d: int, q: int)
    requires d > 0
    ensures (d * q) % d == 0
  {
    var a := d * q;
    var r, k := a % d, a / d;
    assert a == d * k + r;
    assert r == d * (q - k);
    AtLeastOnce(d, q - k);
  }

  lemma AtLeastOnce(d: int, k: int)
    requires d > 0
    ensures k >= 1 ==> d * k >= d
    ensures k <= -1 ==> d * k <= -d
  {
  }

  /** n0inv is minus the inverse of the modulus: 2^32 divides n * n0inv + 1. */
  lemma N0InvWorks(n: nat, inverse: nat)
    requires IsInverse(inverse, n % R32)
    ensures N0Inv(inverse) < R32
    ensures (n * N0Inv(inverse) + 1) % R32 == 0
  {
    var n0, a := n % R32, n / R32;
    var b := n0 * inverse / R32;
    assert n == R32 * a + n0;
    assert n0 * inverse == R32 * b + 1;
    calc {
      n * N0Inv(inverse) + 1;
      n * R32 - n * inverse + 1;
      n * R32 - (R32 * a + n0) * inverse + 1;
      n * R32 - R32 * (a * inverse) - n0 * inverse + 1;
      R32 * (n - a * inverse - b);
    }
    NoRemainder(R32, n - a * inverse - b);
  }

  // ---- Montgomery reduction, which is what the numbers are for

  /** The multiple of the modulus that clears the lowest word of `t`. */
  function Clearing(t: nat, n0inv: nat): nat {
    t * n0inv % R32
  }

  /** Adding it makes the lowest word zero, for every number. */
  lemma LowestWordCleared(t: nat, n: nat, inverse: nat)
    requires IsInverse(inverse, n % R32)
    ensures (t + Clearing(t, N0Inv(inverse)) * n) % R32 == 0
  {
    var n0inv := N0Inv(inverse);
    N0InvWorks(n, inverse);
    var c, k := t * n0inv / R32, (n * n0inv + 1) / R32;
    assert t * n0inv == R32 * c + Clearing(t, n0inv);
    assert n * n0inv + 1 == R32 * k;
    calc {
      t + Clearing(t, n0inv) * n;
      t + (t * n0inv - R32 * c) * n;
      t + t * n0inv * n - R32 * (c * n);
      { assert t * n0inv * n == t * (n * n0inv); }
      t + t * (n * n0inv) - R32 * (c * n);
      t * (n * n0inv + 1) - R32 * (c * n);
      t * (R32 * k) - R32 * (c * n);
      R32 * (t * k - c * n);
    }
    NoRemainder(R32, t * k - c * n);
  }

  /** One round: clear the lowest word and shift it out. */
  function Round(t: nat, n: nat, n0inv: nat): nat {
    (t + Clearing(t, n0inv) * n) / R32
  }

  function Reduce(t: nat, n: nat, n0inv: nat, rounds: nat): nat {
    if rounds == 0 then t else Round(Reduce(t, n, n0inv, rounds - 1), n, n0inv)
  }

  lemma RoundDivides(t: nat, n: nat, inverse: nat, p: nat)
    requires IsInverse(inverse, n % R32)
    ensures var n0inv := N0Inv(inverse);
            Round(t, n, n0inv) * (R32 * p) == t * p + n * (Clearing(t, n0inv) * p)
  {
    LowestWordCleared(t, n, inverse);
    var r, m := Round(t, n, N0Inv(inverse)), Clearing(t, N0Inv(inverse));
    assert r * R32 == t + m * n;
    assert r * (R32 * p) == (r * R32) * p;
    assert (t + m * n) * p == t * p + n * (m * p);
  }

  /** After k rounds a number has been divided by 2^(32k), modulo n. */
  lemma {:induction false} ReduceDivides(t: nat, n: nat, inverse: nat, rounds: nat)
    requires IsInverse(inverse, n % R32)
    ensures Divides(n, Reduce(t, n, N0Inv(inverse), rounds) * Pow2(32 * rounds) - t)
  {
    var n0inv := N0Inv(inverse);
    if rounds == 0 {
      DividesMore(n, 0, 0);
    } else {
      ReduceDivides(t, n, inverse, rounds - 1);
      var s, p := Reduce(t, n, n0inv, rounds - 1), Pow2(32 * (rounds - 1));
      RoundDivides(s, n, inverse, p);
      WordMore(rounds - 1);
      DividesMore(n, s * p - t, Clearing(s, n0inv) * p);
    }
  }

  lemma DividesMore(n: int, a: int, m: int)
    ensures Divides(n, 0)
    ensures Divides(n, a) ==> Divides(n, a + n * m)
  {
    assert 0 == n * 0;
    if Divides(n, a) {
      var q: int :| a == n * q;
      assert a + n * m == n * (q + m);
    }
  }

  lemma WordMore(words: nat)
    ensures Pow2(32 * (words + 1)) == R32 * Pow2(32 * words)
  {
    Pow2Of32();
    Pow2Add(32, 32 * words);
    assert 32 + 32 * words == 32 * (words + 1);
  }

  lemma Pow2Of32()
    ensures Pow2(32) == R32
  {
    assert Pow2(8) == 256;
    Pow2Add(8, 8);
    Pow2Add(16, 16);
  }

  /** An odd number that divides a number times a power of two divides the number. */
  lemma {:induction false} OddDivides(n: nat, d: int, k: nat)
    requires n % 2 == 1 && Divides(n, d * Pow2(k))
    ensures Divides(n, d)
    decreases k
  {
    if k == 0 {
      assert d * Pow2(k) == d;
    } else {
      var q: int :| d * Pow2(k) == n * q;
      var e := d * Pow2(k - 1);
      assert d * Pow2(k) == 2 * e;
      EvenQuotient(n, q, e);
      assert e == n * (q / 2);
      OddDivides(n, d, k - 1);
    }
  }

  lemma EvenQuotient(n: nat, q: int, e: int)
    requires n % 2 == 1 && 2 * e == n * q
    ensures e == n * (q / 2)
  {
    var a, b, c := n / 2, q / 2, q % 2;
    assert n == 2 * a + 1 && q == 2 * b + c;
    assert n * q == 2 * (n * b) + n * c;
    assert c == 1 ==> n * c == 2 * a + 1;
  }

  /** `rr` for a modulus of `size` bits. */
  function RR(n: nat, bits: nat): nat
    requires n > 0
  {
    Pow2(bits) * Pow2(bits) % n
  }

  lemma RRIs(n: nat, bits: nat)
    requires n > 0
    ensures RR(n, bits) == Pow2(2 * bits) % n < n
  {
    Pow2Add(bits, bits);
  }

  lemma IntoForm(x: int, y: int, r: int, rr: int, n: int, q: int, z: int)
    requires y * r - x * rr == n * q && r * r == n * z + rr
    ensures (y - x * r) * r == n * (q - x * z)
  {
    calc {
      (y - x * r) * r;
      y * r - (x * r) * r;
      { assert (x * r) * r == x * (r * r); }
      n * q + x * rr - x * (n * z + rr);
      { assert x * (n * z + rr) == n * (x * z) + x * rr; }
      n * q - n * (x * z);
      n * (q - x * z);
    }
  }

  /**
   Why the format has these two numbers: for every odd modulus, multiplying by rr and reducing brings
   any number into Montgomery form.
   */
  lemma IntoMontgomeryForm(x: nat, n: nat, inverse: nat, words: nat)
    requires n % 2 == 1 && IsInverse(inverse, n % R32)
    ensures (Reduce(x * RR(n, 32 * words), n, N0Inv(inverse), words) - x * Pow2(32 * words)) % n == 0
  {
    var r, rr := Pow2(32 * words), RR(n, 32 * words);
    var y := Reduce(x * rr, n, N0Inv(inverse), words);
    ReduceDivides(x * rr, n, inverse, words);
    var q: int :| y * r - x * rr == n * q;
    assert r * r == n * (r * r / n) + rr;
    IntoForm(x, y, r, rr, n, q, r * r / n);
    OddDivides(n, y - x * r, 32 * words);
    DividesMod(n, y - x * r);
  }

  // ---- The struct

  datatype PublicKey = PublicKey(words: u32, n0inv: u32, modulus: nat, rr: nat, exponent: u32)

  /** struct.pack of a key whose numbers have `size` bytes; None where a number does not fit its field. */
  function PackKey(words: u32, n0inv: nat, modulus: nat, rr: nat, exponent: nat, size: nat): (r: Option<bytes>)
    ensures r.Some? ==> |r.value| == 12 + 2 * size
  {
    if n0inv < R32 && exponent < R32 && modulus < Pow256(size) && rr < Pow256(size) then
      Some(Word(words) + Word(n0inv) + ToLE(modulus, size) + ToLE(rr, size) + Word(exponent))
    else None
  }

  /** struct.unpack */
  function UnpackKey(s: bytes, size: nat): Option<PublicKey> {
    if |s| != 12 + 2 * size then None
    else
      Some(PublicKey(UnWord(s[..4]), UnWord(s[4..8]),
                     FromLE(s[8..8 + size]), FromLE(s[8 + size..8 + 2 * size]),
                     UnWord(s[8 + 2 * size..])))
  }

  lemma KeyRoundTrip(k: PublicKey, size: nat)
    requires k.modulus < Pow256(size) && k.rr < Pow256(size)
    ensures var s := PackKey(k.words, k.n0inv, k.modulus, k.rr, k.exponent, size);
            s.Some? && UnpackKey(s.value, size) == Some(k)
  {
    var a, b, m, rr, e := Word(k.words), Word(k.n0inv), ToLE(k.modulus, size), ToLE(k.rr, size), Word(k.exponent);
    var s := a + b + m + rr + e;
    assert s[..4] == a && s[4..8] == b && s[8..8 + size] == m;
    assert s[8 + size..8 + 2 * size] == rr && s[8 + 2 * size..] == e;
    WordRoundTrip(k.words);
    WordRoundTrip(k.n0inv);
    WordRoundTrip(k.exponent);
    FromToLE(k.modulus, size);
    FromToLE(k.rr, size);
  }

  /** `encode_pubkey`, given the inverse; `size` is the size of the modulus in bytes. */
  function EncodePubkey(n: nat, e: nat, inverse: nat, size: nat): (r: Option<bytes>)
    requires n > 0 && 0 < inverse < R32
  {
    PackKey(MODULUS_SIZE_WORDS, N0Inv(inverse), n, RR(n, 8 * size), e, size)
  }

  /**
   Byte by byte, all numbers with the least significant byte first: the number of words, n0inv, the modulus, rr
   and the exponent.
   */
  lemma PubkeyBytes(n: nat, e: nat, inverse: nat, size: nat)
    requires n > 0 && 0 < inverse < R32 && EncodePubkey(n, e, inverse, size).Some?
    ensures var s := EncodePubkey(n, e, inverse, size).value;
            && |s| == 12 + 2 * size && s[..4] == [64, 0, 0, 0] && s[4..8] == Word(R32 - inverse)
            && FromLE(s[8..8 + size]) == n
            && FromLE(s[8 + size..8 + 2 * size]) == Pow2(2 * (8 * size)) % n
            && e < R32 && s[8 + 2 * size..] == Word(e)
  {
    RRIs(n, 8 * size);
    FromToLE(n, size);
    FromToLE(RR(n, 8 * size), size);
    UnWordRoundTrip([64, 0, 0, 0]);
    var a, b, m, rr, last := Word(MODULUS_SIZE_WORDS), Word(N0Inv(inverse)), ToLE(n, size),
                             ToLE(RR(n, 8 * size), size), Word(e);
    var s := a + b + m + rr + last;
    assert s[..4] == a && s[4..8] == b && s[8..8 + size] == m;
    assert s[8 + size..8 + 2 * size] == rr && s[8 + 2 * size..] == last;
  }

  /**
   Every odd modulus that fits, with any exponent that does, is encoded, and decoded to the same numbers;
   one that does not fit is refused.
   */
  lemma PubkeyRoundTrip(n: nat, e: nat, inverse: nat, size: nat)
    requires n > 0 && IsInverse(inverse, n % R32)
    ensures EncodePubkey(n, e, inverse, size).Some? <==> n < Pow256(size) && e < R32
    ensures EncodePubkey(n, e, inverse, size).Some? ==>
              UnpackKey(EncodePubkey(n, e, inverse, size).value, size) ==
              Some(PublicKey(MODULUS_SIZE_WORDS, N0Inv(inverse), n, Pow2(2 * (8 * size)) % n, e))
  {
    RRIs(n, 8 * size);
    if n < Pow256(size) && e < R32 {
      KeyRoundTrip(PublicKey(MODULUS_SIZE_WORDS, N0Inv(inverse), n, RR(n, 8 * size), e), size);
    }
  }
}
