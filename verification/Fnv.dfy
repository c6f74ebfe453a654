/** 64-bit FNV-1a over bytes, on natural numbers below 2^64. */
module Fnv {

  const MODULUS: nat := 0x1_0000_0000_0000_0000
  const OFFSET: nat := 14695981039346656037
  const PRIME: nat := 1099511628211
  // PRIME * INVERSE == 1 + 887285111055 * MODULUS
  const INVERSE: nat := 14886173955864302971

  type Hash = h: nat | h < 0x1_0000_0000_0000_0000

  /** The byte a character of a std::string stands for. */
  function Octet(c: char): (b: nat)
    ensures b < 256
  {
    c as int % 256
  }

  /** Bitwise exclusive or. */
  function Xor(a: nat, b: nat): nat
    decreases a
  {
    if a == 0 then b
    else if b == 0 then a
    else 2 * Xor(a / 2, b / 2) + (a % 2 + b % 2) % 2
  }

  function Pow2(k: nat): (p: nat)
    ensures p > 0
  {
    if k == 0 then 1 else 2 * Pow2(k - 1)
  }

  lemma {:induction false} XorBound(a: nat, b: nat, k: nat)
    requires a < Pow2(k) && b < Pow2(k)
    ensures Xor(a, b) < Pow2(k)
  {
    if a != 0 && b != 0 {
      XorBound(a / 2, b / 2, k - 1);
    }
  }

  lemma {:induction false} XorBits(a: nat, b: nat)
    ensures Xor(a, b) / 2 == Xor(a / 2, b / 2)
    ensures Xor(a, b) % 2 == (a % 2 + b % 2) % 2
  {
  }

  /** Exclusive or with the same byte twice restores the value. */
  lemma {:induction false} XorInvolution(a: nat, b: nat)
    ensures Xor(Xor(a, b), b) == a
    decreases a + b
  {
    if a != 0 || b != 0 {
      XorInvolution(a / 2, b / 2);
      XorBits(a, b);
      XorBits(Xor(a, b), b);
    }
  }

  lemma {:induction false} XorSymmetric(a: nat, b: nat)
    ensures Xor(a, b) == Xor(b, a)
    decreases a + b
  {
    if a != 0 && b != 0 {
      XorSymmetric(a / 2, b / 2);
    }
  }

  lemma Doubled(x: int, y: int)
    ensures 2 * (x * y) == (2 * x) * y
  {
  }

  lemma {:induction false} Pow2Add(a: nat, b: nat)
    ensures Pow2(a + b) == Pow2(a) * Pow2(b)
  {
    if a > 0 {
      Pow2Add(a - 1, b);
      Doubled(Pow2(a - 1), Pow2(b));
    }
  }

  lemma Pow2Of64()
    ensures Pow2(64) == MODULUS
  {
    assert Pow2(4) == 16;
    Pow2Add(4, 4);
    assert Pow2(8) == 0x100;
    Pow2Add(8, 8);
    assert Pow2(16) == 0x1_0000;
    Pow2Add(16, 16);
    assert Pow2(32) == 0x1_0000_0000;
    Pow2Add(32, 32);
  }

  lemma XorByte(h: Hash, b: nat)
    requires b < 256
    ensures Xor(h, b) < MODULUS
  {
    Pow2Of64();
    XorBound(h, b, 64);
  }

  /** One round: hash ^= c; hash *= prime, in 64-bit arithmetic. */
  function Round(h: Hash, c: char): Hash {
    Xor(h, Octet(c)) * PRIME % MODULUS
  }

  function Unround(h: Hash, c: char): Hash {
    XorByte(h * INVERSE % MODULUS, Octet(c));
    Xor(h * INVERSE % MODULUS, Octet(c))
  }

  lemma MultipleApart(m: int, e: int)
    requires m > 0 && e != 0
    ensures m * e >= m || m * e <= -m
  {
    if e > 0 {
      assert m * e == m + m * (e - 1) && m * (e - 1) >= 0;
    } else {
      assert m * e == -m - m * (-e - 1) && m * (-e - 1) >= 0;
    }
  }

  lemma RemainderUnique(x: int, m: int, t: int, d: int, r: int)
    requires 0 <= x < m && 0 <= r < m && x + m * t == m * d + r
    ensures r == x
  {
    assert m * (d - t) == x - r;
    if d != t { MultipleApart(m, d - t); }
  }

  lemma MultiplesVanish(x: nat, m: nat, t: int)
    requires x < m
    ensures (x + m * t) % m == x
  {
    var y := x + m * t;
    RemainderUnique(x, m, t, y / m, y % m);
  }

  lemma Regrouped(x: int, p: int, i: int, k: int, m: int, q: int, r: int)
    requires p * i == 1 + k * m && r == x * p - m * q
    ensures r * i == x + m * (k * x - q * i)
  {
    assert r * i == (x * p) * i - (m * q) * i;
    assert (x * p) * i == x * (p * i);
    assert x * (1 + k * m) == x + m * (k * x);
    assert (m * q) * i == m * (q * i);
  }

  /** Multiplying by p and then by an inverse of p modulo m is the identity. */
  lemma InverseUndoes(x: nat, p: nat, i: nat, k: nat, m: nat)
    requires x < m && p * i == 1 + k * m
    ensures (x * p % m) * i % m == x
  {
    var q, r := x * p / m, x * p % m;
    Regrouped(x, p, i, k, m, q, r);
    MultiplesVanish(x, m, k * x - q * i);
  }

  lemma MultiplyInvertible(x: Hash)
    ensures (x * PRIME % MODULUS) * INVERSE % MODULUS == x
    ensures (x * INVERSE % MODULUS) * PRIME % MODULUS == x
  {
    InverseUndoes(x, PRIME, INVERSE, 887285111055, MODULUS);
    InverseUndoes(x, INVERSE, PRIME, 887285111055, MODULUS);
  }

  /** A round is a bijection of the 64-bit state for every byte. */
  lemma RoundInvertible(h: Hash, c: char)
    ensures Unround(Round(h, c), c) == h
    ensures Round(Unround(h, c), c) == h
  {
    XorByte(h, Octet(c));
    MultiplyInvertible(Xor(h, Octet(c)));
    XorInvolution(h, Octet(c));
    XorInvolution(h * INVERSE % MODULUS, Octet(c));
    MultiplyInvertible(h);
  }

  /** The hash of a string from a seed. */
  function Hashed(s: string, seed: Hash): Hash {
    if s == [] then seed else Hashed(s[1..], Round(seed, s[0]))
  }

  function Unhashed(s: string, h: Hash): Hash {
    if s == [] then h else Unround(Unhashed(s[1..], h), s[0])
  }

  method Fnv1a(s: string, seed: Hash) returns (hash: Hash)
    ensures hash == Hashed(s, seed)
  {
    hash := seed;
    for i := 0 to |s|
      invariant Hashed(s[i..], hash) == Hashed(s, seed)
    {
      XorByte(hash, Octet(s[i]));
      hash := Xor(hash, Octet(s[i]));
      hash := hash * PRIME % MODULUS;
      assert s[i..][1..] == s[i + 1..];
    }
  }

  /** A first byte: exclusive or with the byte, then times 1099511628211, in 64 bits. */
  lemma OneByte(c: char, rest: string, seed: Hash)
    ensures Xor(seed, c as int % 256) < 0x1_0000_0000_0000_0000
    ensures Hashed([c] + rest, seed) ==
            Hashed(rest, Xor(seed, c as int % 256) * 1099511628211 % 0x1_0000_0000_0000_0000)
  {
    XorByte(seed, Octet(c));
    assert ([c] + rest)[1..] == rest;
  }

  lemma XorOfA()
    ensures Xor(OFFSET, 97) == 14695981039346656068
  {
    assert Xor(229624703739791500, 1) == 229624703739791501;
    assert Xor(459249407479583001, 3) == 459249407479583002;
    assert Xor(918498814959166002, 6) == 918498814959166004;
    assert Xor(1836997629918332004, 12) == 1836997629918332008;
    assert Xor(3673995259836664009, 24) == 3673995259836664017;
    assert Xor(7347990519673328018, 48) == 7347990519673328034;
  }

  lemma HashOfOne(c: char, seed: Hash, mixed: nat, q: nat, h: Hash)
    requires Xor(seed, Octet(c)) == mixed && mixed * PRIME == q * MODULUS + h
    ensures Hashed([c], seed) == h
  {
    assert [c][1..] == [];
    MultiplesVanish(h, MODULUS, q);
    assert Round(seed, c) == h;
  }

  lemma HashOfA(seed: Hash)
    requires Xor(seed, 97) == 14695981039346656068
    ensures Hashed("a", seed) == 0xaf63dc4c8601ec8c
  {
    HashOfOne('a', seed, 14695981039346656068, 875948729822, 0xaf63dc4c8601ec8c);
  }

  /** The published hashes of "" and "a". */
  lemma KnownHashes()
    ensures Hashed("", OFFSET) == 0xcbf29ce484222325
    ensures Hashed("a", OFFSET) == 0xaf63dc4c8601ec8c
  {
    XorOfA();
    HashOfA(OFFSET);
  }

  /** For every string the hash is a bijection of the seed. */
  lemma {:induction false} HashedBijective(s: string, h: Hash)
    ensures Unhashed(s, Hashed(s, h)) == h
    ensures Hashed(s, Unhashed(s, h)) == h
  {
    if s != [] {
      HashedBijective(s[1..], Round(h, s[0]));
      HashedBijective(s[1..], h);
      RoundInvertible(h, s[0]);
      RoundInvertible(Unhashed(s[1..], h), s[0]);
    }
  }

  /** Hashing a concatenation is hashing the second part from the first part's hash. */
  lemma {:induction false} HashedConcat(a: string, b: string, h: Hash)
    ensures Hashed(a + b, h) == Hashed(b, Hashed(a, h))
  {
    if a == [] {
      assert a + b == b;
    } else {
      assert (a + b)[1..] == a[1..] + b;
      HashedConcat(a[1..], b, Round(h, a[0]));
    }
  }

  /** Two strings that differ in exactly one byte never collide, whatever the seed. */
  lemma OneByteNeverTies(front: string, x: char, y: char, back: string, seed: Hash)
    requires Octet(x) != Octet(y)
    ensures Hashed(front + [x] + back, seed) != Hashed(front + [y] + back, seed)
  {
    var h := Hashed(front, seed);
    forall c ensures Hashed(front + [c] + back, seed) == Hashed(back, Round(h, c)) {
      HashedConcat(front + [c], back, seed);
      HashedConcat(front, [c], seed);
      assert Hashed([c], h) == Round(h, c);
    }
    HashedBijective(back, Round(h, x));
    HashedBijective(back, Round(h, y));
    XorByte(h, Octet(x));
    XorByte(h, Octet(y));
    MultiplyInvertible(Xor(h, Octet(x)));
    MultiplyInvertible(Xor(h, Octet(y)));
    XorSymmetric(h, Octet(x));
    XorSymmetric(h, Octet(y));
    XorInvolution(Octet(x), h);
    XorInvolution(Octet(y), h);
  }
}
