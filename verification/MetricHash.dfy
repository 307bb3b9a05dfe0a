/** The 32-bit FNV-1a hash of metric names. */
module MetricHash {

  const MODULUS := 0x1_0000_0000
  const OFFSET_BASIS: Word := 2166136261
  const PRIME := 16777619
  const PRIME_INVERSE := 899433627

  type Word = n: nat | n < 0x1_0000_0000
  type Char = n: nat | n < 0x100

  /** A char widened to 32 bits: where char is signed, values from 0x80 up are sign-extended. */
  function Widen(c: Char, signedChar: bool): Word {
    if signedChar && c >= 0x80 then c + 0xFFFF_FF00 else c
  }

  /** Exclusive or of the lowest bits. */
  function XorBits(a: nat, b: nat, bits: nat): nat {
    if bits == 0 then 0 else (a + b) % 2 + 2 * XorBits(a / 2, b / 2, bits - 1)
  }

  function PowerOfTwo(bits: nat): (r: nat)
    ensures r > 0
  {
    if bits == 0 then 1 else 2 * PowerOfTwo(bits - 1)
  }

  lemma {:induction false} XorFits(a: nat, b: nat, bits: nat)
    ensures XorBits(a, b, bits) < PowerOfTwo(bits)
  {
    if bits == 0 {
    } else {
      XorFits(a / 2, b / 2, bits - 1);
    }
  }

  lemma XorDigits(a: nat, b: nat, bits: nat)
    requires bits > 0
    ensures XorBits(a, b, bits) % 2 == (a + b) % 2 && XorBits(a, b, bits) / 2 == XorBits(a / 2, b / 2, bits - 1)
  {
    Digits((a + b) % 2, XorBits(a / 2, b / 2, bits - 1));
  }

  lemma {:induction false} XorUndone(a: nat, b: nat, bits: nat)
    requires a < PowerOfTwo(bits)
    ensures XorBits(XorBits(a, b, bits), b, bits) == a
  {
    if bits == 0 {
    } else {
      XorUndone(a / 2, b / 2, bits - 1);
      XorDigits(a, b, bits);
      LowestBit(a, b, XorBits(a, b, bits));
    }
  }

  lemma Digits(bit: nat, rest: nat)
    requires bit < 2
    ensures (bit + 2 * rest) % 2 == bit && (bit + 2 * rest) / 2 == rest
  {
  }

  lemma LowestBit(a: nat, b: nat, x: nat)
    requires x % 2 == (a + b) % 2
    ensures (x + b) % 2 == a % 2
  {
  }

  lemma {:induction false} XorCommutes(a: nat, b: nat, bits: nat)
    ensures XorBits(a, b, bits) == XorBits(b, a, bits)
  {
    if bits == 0 {
    } else {
      XorCommutes(a / 2, b / 2, bits - 1);
    }
  }

  lemma WordBits()
    ensures PowerOfTwo(32) == MODULUS
  {
    assert PowerOfTwo(8) == 0x100;
    assert PowerOfTwo(16) == 0x100 * PowerOfTwo(8);
    assert PowerOfTwo(24) == 0x100 * PowerOfTwo(16);
  }

  function Xor(a: Word, b: Word): Word {
    XorFits(a, b, 32);
    WordBits();
    XorBits(a, b, 32)
  }

  function Multiply(a: Word): Word {
    a * PRIME % MODULUS
  }

  function Step(h: Word, c: Char, signedChar: bool): Word {
    Multiply(Xor(h, Widen(c, signedChar)))
  }

  function HashFrom(h: Word, name: seq<Char>, signedChar: bool): Word {
    if name == [] then h else Step(HashFrom(h, name[..|name| - 1], signedChar), name[|name| - 1], signedChar)
  }

  function Hash(name: seq<Char>, signedChar: bool): Word {
    HashFrom(OFFSET_BASIS, name, signedChar)
  }

  method HashMetricName(name: seq<Char>, signedChar: bool) returns (hash: Word)
    ensures hash == Hash(name, signedChar)
  {
    hash := OFFSET_BASIS;
    for i := 0 to |name|
      invariant hash == HashFrom(OFFSET_BASIS, name[..i], signedChar)
    {
      hash := Xor(hash, Widen(name[i], signedChar));
      hash := Multiply(hash);
      assert name[..i + 1][..i] == name[..i];
    }
    assert name[..|name|] == name;
  }

  // ---------- each step is a bijection ----------

  lemma MultiplyUndone(a: Word)
    ensures Multiply(a) * PRIME_INVERSE % MODULUS == a
  {
    var q := a * PRIME / MODULUS;
    assert Multiply(a) == a * PRIME - q * MODULUS;
    assert PRIME * PRIME_INVERSE == 1 + 3513497 * MODULUS;
    ModUnique(Multiply(a) * PRIME_INVERSE, 3513497 * a - q * PRIME_INVERSE, a);
  }

  lemma ModUnique(x: int, k: int, r: Word)
    requires x == k * MODULUS + r
    ensures x % MODULUS == r
  {
  }

  lemma XorInjective(g: Word, h: Word, v: Word, w: Word)
    ensures Xor(g, w) == Xor(h, w) <==> g == h
    ensures Xor(h, v) == Xor(h, w) <==> v == w
  {
    WordBits();
    XorUndone(g, w, 32);
    XorUndone(h, w, 32);
    XorCommutes(h, v, 32);
    XorCommutes(h, w, 32);
    XorUndone(v, h, 32);
    XorUndone(w, h, 32);
  }

  /** A step is injective in the hash so far, and in the character. */
  lemma StepInjective(g: Word, h: Word, c: Char, d: Char, signedChar: bool)
    ensures Step(g, c, signedChar) == Step(h, c, signedChar) <==> g == h
    ensures Step(h, c, signedChar) == Step(h, d, signedChar) <==> c == d
  {
    var v, w := Widen(c, signedChar), Widen(d, signedChar);
    MultiplyUndone(Xor(g, v));
    MultiplyUndone(Xor(h, v));
    MultiplyUndone(Xor(h, w));
    XorInjective(g, h, w, v);
    XorInjective(h, h, v, w);
  }

  lemma UndoneMultiplies(t: Word)
    ensures Multiply(t * PRIME_INVERSE % MODULUS) == t
  {
    var a := t * PRIME_INVERSE % MODULUS;
    var q := t * PRIME_INVERSE / MODULUS;
    assert a == t * PRIME_INVERSE - q * MODULUS;
    assert PRIME * PRIME_INVERSE == 1 + 3513497 * MODULUS;
    ModUnique(a * PRIME, 3513497 * t - q * PRIME, t);
  }

  /** A step takes some hash to any given one: with StepInjective, it is a bijection of 32-bit words. */
  lemma StepOnto(t: Word, c: Char, signedChar: bool) returns (h: Word)
    ensures Step(h, c, signedChar) == t
    ensures forall g: Word :: Step(g, c, signedChar) == t ==> g == h
  {
    var w := Widen(c, signedChar);
    var a := t * PRIME_INVERSE % MODULUS;
    UndoneMultiplies(t);
    WordBits();
    XorUndone(a, w, 32);
    h := Xor(a, w);
    forall g: Word | Step(g, c, signedChar) == t ensures g == h {
      StepInjective(g, h, c, c, signedChar);
    }
  }

  lemma {:induction false} HashFromConcat(h: Word, a: seq<Char>, b: seq<Char>, signedChar: bool)
    ensures HashFrom(h, a + b, signedChar) == HashFrom(HashFrom(h, a, signedChar), b, signedChar)
  {
    if b == [] {
      assert a + b == a;
    } else {
      var n := |b| - 1;
      assert (a + b)[..|a + b| - 1] == a + b[..n];
      HashFromConcat(h, a, b[..n], signedChar);
    }
  }

  lemma {:induction false} HashFromInjective(g: Word, h: Word, name: seq<Char>, signedChar: bool)
    ensures HashFrom(g, name, signedChar) == HashFrom(h, name, signedChar) <==> g == h
  {
    if name == [] {
    } else {
      var n := |name| - 1;
      HashFromInjective(g, h, name[..n], signedChar);
      StepInjective(HashFrom(g, name[..n], signedChar), HashFrom(h, name[..n], signedChar),
                    name[n], name[n], signedChar);
    }
  }

  /** A common suffix neither creates nor removes a collision. */
  lemma SuffixKeepsCollisions(a: seq<Char>, b: seq<Char>, suffix: seq<Char>, signedChar: bool)
    ensures Hash(a + suffix, signedChar) == Hash(b + suffix, signedChar) <==> Hash(a, signedChar) == Hash(b, signedChar)
  {
    HashFromConcat(OFFSET_BASIS, a, suffix, signedChar);
    HashFromConcat(OFFSET_BASIS, b, suffix, signedChar);
    HashFromInjective(Hash(a, signedChar), Hash(b, signedChar), suffix, signedChar);
  }

  lemma HashLast(prefix: seq<Char>, c: Char, signedChar: bool)
    ensures Hash(prefix + [c], signedChar) == Step(Hash(prefix, signedChar), c, signedChar)
  {
    assert (prefix + [c])[..|prefix|] == prefix;
  }

  /** Names that differ in exactly one character never share a hash. */
  lemma OneCharacterSeparates(prefix: seq<Char>, c: Char, d: Char, suffix: seq<Char>, signedChar: bool)
    ensures Hash(prefix + [c] + suffix, signedChar) == Hash(prefix + [d] + suffix, signedChar) <==> c == d
  {
    SuffixKeepsCollisions(prefix + [c], prefix + [d], suffix, signedChar);
    HashLast(prefix, c, signedChar);
    HashLast(prefix, d, signedChar);
    StepInjective(Hash(prefix, signedChar), Hash(prefix, signedChar), c, d, signedChar);
  }

  // ---------- the platform's char ----------

  lemma {:induction false} AsciiAgrees(h: Word, name: seq<Char>)
    requires forall i :: 0 <= i < |name| ==> name[i] < 0x80
    ensures HashFrom(h, name, true) == HashFrom(h, name, false)
  {
    if name == [] {
    } else {
      AsciiAgrees(h, name[..|name| - 1]);
    }
  }

  /** A name with one character from 0x80 up hashes differently where char is signed and where it is not. */
  lemma SignednessShows(prefix: seq<Char>, c: Char, suffix: seq<Char>)
    requires forall i :: 0 <= i < |prefix| ==> prefix[i] < 0x80
    requires forall i :: 0 <= i < |suffix| ==> suffix[i] < 0x80
    ensures Hash(prefix + [c] + suffix, true) == Hash(prefix + [c] + suffix, false) <==> c < 0x80
  {
    AsciiAgrees(OFFSET_BASIS, prefix);
    HashFromConcat(OFFSET_BASIS, prefix + [c], suffix, true);
    HashFromConcat(OFFSET_BASIS, prefix + [c], suffix, false);
    HashLast(prefix, c, true);
    HashLast(prefix, c, false);
    AsciiAgrees(Hash(prefix + [c], false), suffix);
    HashFromInjective(Hash(prefix + [c], true), Hash(prefix + [c], false), suffix, true);
    StepSignedness(Hash(prefix, true), c);
  }

  lemma StepSignedness(h: Word, c: Char)
    ensures Step(h, c, true) == Step(h, c, false) <==> c < 0x80
  {
    MultiplyUndone(Xor(h, Widen(c, true)));
    MultiplyUndone(Xor(h, Widen(c, false)));
    XorInjective(h, h, Widen(c, true), Widen(c, false));
  }

  // ---------- the hash itself ----------

  lemma {:induction false} XorZero(a: nat, bits: nat)
    requires a < PowerOfTwo(bits)
    ensures XorBits(a, 0, bits) == a
  {
    if bits == 0 {
    } else {
      XorZero(a / 2, bits - 1);
    }
  }

  lemma HighBits()
    ensures PowerOfTwo(24) == 0x100_0000
  {
    assert PowerOfTwo(8) == 0x100;
    assert PowerOfTwo(16) == 0x100 * PowerOfTwo(8);
  }

  /** One more low bit. */
  lemma NextBit(a: nat, b: nat, bits: nat, rest: nat)
    requires bits > 0 && XorBits(a / 2, b / 2, bits - 1) == rest
    ensures XorBits(a, b, bits) == (a + b) % 2 + 2 * rest
  {
  }

  lemma StartHigh()
    ensures XorBits(0x811C9D, 0, 24) == 0x811C9D
  {
    HighBits();
    XorZero(0x811C9D, 24);
  }

  lemma StartMiddle()
    ensures XorBits(0x811C9DC, 0x6, 28) == 0x811C9DA
  {
    StartHigh();
    NextBit(0x102393B, 0x0, 25, 0x811C9D);
    NextBit(0x2047277, 0x1, 26, 0x102393B);
    NextBit(0x408E4EE, 0x3, 27, 0x2047276);
    NextBit(0x811C9DC, 0x6, 28, 0x408E4ED);
  }

  /** The start value combined with 'a': the high bits stay, the low ones follow one by one. */
  lemma StartWithA()
    ensures XorBits(0x811C9DC5, 0x61, 32) == 0x811C9DA4
  {
    StartMiddle();
    NextBit(0x102393B8, 0xC, 29, 0x811C9DA);
    NextBit(0x20472771, 0x18, 30, 0x102393B4);
    NextBit(0x408E4EE2, 0x30, 31, 0x20472769);
    NextBit(0x811C9DC5, 0x61, 32, 0x408E4ED2);
  }

  lemma ProductWithA()
    ensures 0x811C9DA4 * PRIME % MODULUS == 0xE40C292C
  {
    assert 0x811C9DA4 * PRIME == 8461672 * MODULUS + 0xE40C292C;
    ModUnique(0x811C9DA4 * PRIME, 8461672, 0xE40C292C);
  }

  /** The published FNV-1a values of the empty string and of "a": combining comes before multiplying. */
  lemma KnownHashes(signedChar: bool)
    ensures Hash([], signedChar) == 0x811C9DC5 && Hash([0x61], signedChar) == 0xE40C292C
  {
    StartWithA();
    ProductWithA();
    HashLast([], 0x61, signedChar);
    assert [] + [0x61] == [0x61];
  }
}
