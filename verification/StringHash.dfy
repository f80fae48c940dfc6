/** `StringHash`: the 32-bit hash that page dispatch compares. */
module StringHash {

  const RANGE: int := 0x1_0000_0000
  const PRIME: int := 31

  predicate IsByte(c: char) {
    c as int < 256
  }

  /** The value a `char` of the text contributes: `char` is a signed byte. */
  function CharValue(c: char): (v: int)
    ensures -128 <= v < 128 && (v - c as int) % 256 == 0
  {
    (c as int + 128) % 256 - 128
  }

  /** The base-31 polynomial of the text, in unbounded integers. */
  function Polynomial(s: string): int {
    if s == "" then 0 else Polynomial(s[..|s|-1]) * PRIME + CharValue(s[|s|-1])
  }

  /** x * 31^n */
  function Shift(x: int, n: nat): int {
    if n == 0 then x else Shift(x, n - 1) * PRIME
  }

  /** The polynomial modulo 2^32. */
  function Hash(s: string): int {
    Polynomial(s) % RANGE
  }

  // ---------------------------------------------------------------- congruence modulo 2^32

  lemma ModAdd(q: int, r: int)
    ensures (q * RANGE + r) % RANGE == r % RANGE
  {
  }

  lemma Congruent(a: int, b: int) returns (q: int)
    requires a % RANGE == b % RANGE
    ensures a == b + q * RANGE
  {
    q := a / RANGE - b / RANGE;
  }

  lemma ModStep(a: int, b: int, c: int)
    requires a % RANGE == b % RANGE
    ensures (a * PRIME + c) % RANGE == (b * PRIME + c) % RANGE
  {
    var q := Congruent(a, b);
    ModAdd(q * PRIME, b * PRIME + c);
  }

  lemma {:induction false} ModShift(a: int, b: int, n: nat)
    requires a % RANGE == b % RANGE
    ensures Shift(a, n) % RANGE == Shift(b, n) % RANGE
  {
    if n > 0 {
      ModShift(a, b, n - 1);
      ModStep(Shift(a, n - 1), Shift(b, n - 1), 0);
    }
  }

  lemma ModSum(a: int, b: int, c: int, d: int)
    requires a % RANGE == b % RANGE && c % RANGE == d % RANGE
    ensures (a + c) % RANGE == (b + d) % RANGE
  {
    var q := Congruent(a, b);
    var r := Congruent(c, d);
    ModAdd(q + r, b + d);
  }

  lemma ModIdempotent(x: int)
    ensures (x % RANGE) % RANGE == x % RANGE
  {
  }

  lemma {:induction false} Reduced(x: int, p: int, q: int, n: nat, hp: int, hq: int)
    requires x == Shift(p, n) + q && hp == p % RANGE && hq == q % RANGE
    ensures x % RANGE == (Shift(hp, n) + hq) % RANGE
  {
    ModIdempotent(p);
    ModIdempotent(q);
    ModShift(p, p % RANGE, n);
    ModSum(Shift(p, n), Shift(p % RANGE, n), q, q % RANGE);
  }

  /** The loop, with `uint32_t` wrap-around at every step. */
  method StringHash(str: string) returns (hash: int)
    ensures hash == Hash(str)
  {
    hash := 0;
    for i := 0 to |str|
      invariant hash == Hash(str[..i])
    {
      PolynomialSnoc(str[..i], str[i]);
      assert str[..i + 1] == str[..i] + [str[i]];
      ModStep(hash, Polynomial(str[..i]), CharValue(str[i]));
      hash := (hash * PRIME + CharValue(str[i])) % RANGE;
    }
    assert str[..|str|] == str;
  }

  // ---------------------------------------------------------------- algebra

  lemma PolynomialSnoc(s: string, c: char)
    ensures Polynomial(s + [c]) == Polynomial(s) * PRIME + CharValue(c)
  {
    assert (s + [c])[..|s|] == s;
  }

  lemma {:induction false} PolynomialConcat(a: string, b: string)
    ensures Polynomial(a + b) == Shift(Polynomial(a), |b|) + Polynomial(b)
  {
    if b == "" {
      assert a + b == a;
    } else {
      var rest, c := b[..|b|-1], b[|b|-1];
      PolynomialConcat(a, rest);
      assert a + b == (a + rest) + [c];
      PolynomialSnoc(a + rest, c);
    }
  }

  lemma HashOf(s: string, p: int)
    requires p == Polynomial(s)
    ensures Hash(s) == p % RANGE
  {
  }

  /** hash(a + b) = hash(a) * 31^|b| + hash(b), modulo 2^32. */
  lemma {:induction false} HashConcat(a: string, b: string)
    ensures Hash(a + b) == (Shift(Hash(a), |b|) + Hash(b)) % RANGE
  {
    var x, p, q, n := Polynomial(a + b), Polynomial(a), Polynomial(b), |b|;
    var h, hp, hq := Hash(a + b), Hash(a), Hash(b);
    assert h == x % RANGE && hp == p % RANGE && hq == q % RANGE by {
      HashOf(a + b, x);
      HashOf(a, p);
      HashOf(b, q);
    }
    assert x == Shift(p, n) + q by {
      PolynomialConcat(a, b);
    }
    Reduced(x, p, q, n, hp, hq);
  }

  /** 31 is invertible modulo 2^32, so multiplying by it loses nothing. */
  const INVERSE: int := 3186588639

  lemma CancelPrime(x: int)
    requires (x * PRIME) % RANGE == 0
    ensures x % RANGE == 0
  {
    var q := (x * PRIME) / RANGE;
    assert x * PRIME == q * RANGE;
    assert x == (q * INVERSE - 23 * x) * RANGE;
    ModAdd(q * INVERSE - 23 * x, 0);
  }

  lemma {:induction false} CancelShift(x: int, n: nat)
    requires Shift(x, n) % RANGE == 0
    ensures x % RANGE == 0
  {
    if n > 0 {
      CancelPrime(Shift(x, n - 1));
      CancelShift(x, n - 1);
    }
  }

  lemma {:induction false} ShiftDifference(x: int, y: int, n: nat)
    ensures Shift(x, n) - Shift(y, n) == Shift(x - y, n)
  {
    if n > 0 {
      ShiftDifference(x, y, n - 1);
    }
  }

  lemma {:induction false} ShiftZero(n: nat)
    ensures Shift(0, n) == 0
  {
    if n > 0 {
      ShiftZero(n - 1);
    }
  }

  /** Equal remainders before a common tail mean equal remainders, and the other way round. */
  lemma CancelTail(x: int, y: int, n: nat, tail: int)
    ensures (Shift(x, n) + tail) % RANGE == (Shift(y, n) + tail) % RANGE <==> (x - y) % RANGE == 0
  {
    ShiftDifference(x, y, n);
    if (Shift(x, n) + tail) % RANGE == (Shift(y, n) + tail) % RANGE {
      var q := Congruent(Shift(x, n) + tail, Shift(y, n) + tail);
      ModAdd(q, 0);
      CancelShift(x - y, n);
    }
    if (x - y) % RANGE == 0 {
      ShiftZero(n);
      ModShift(x - y, 0, n);
      var q := Congruent(Shift(x - y, n), 0);
      ModAdd(q, Shift(y, n) + tail);
    }
  }

  lemma WindowPolynomial(before: string, u: string, after: string)
    ensures Polynomial(before + u + after)
         == Shift(Shift(Polynomial(before), |u|) + Polynomial(u), |after|) + Polynomial(after)
  {
    var p := Polynomial(before + u);
    assert Polynomial(before + u + after) == Shift(p, |after|) + Polynomial(after) by {
      PolynomialConcat(before + u, after);
    }
    assert p == Shift(Polynomial(before), |u|) + Polynomial(u) by {
      PolynomialConcat(before, u);
    }
  }

  /** Exchanging a part for one of the same length keeps the hash iff it keeps the part's polynomial modulo 2^32. */
  lemma {:induction false} WindowKeepsHash(before: string, u: string, v: string, after: string)
    requires |u| == |v|
    ensures Hash(before + u + after) == Hash(before + v + after) <==> (Polynomial(u) - Polynomial(v)) % RANGE == 0
  {
    var p := Shift(Polynomial(before), |u|);
    WindowPolynomial(before, u, after);
    WindowPolynomial(before, v, after);
    CancelTail(p + Polynomial(u), p + Polynomial(v), |after|, Polynomial(after));
  }

  /** The largest difference of the polynomials of texts of this length. */
  function Reach(n: nat): int {
    if n == 0 then 0 else Reach(n - 1) * PRIME + 255
  }

  lemma {:induction false} PolynomialReach(u: string, v: string)
    requires |u| == |v|
    ensures -Reach(|u|) <= Polynomial(u) - Polynomial(v) <= Reach(|u|)
  {
    if u != "" {
      PolynomialReach(u[..|u|-1], v[..|v|-1]);
    }
  }

  lemma ShortReach(n: nat)
    requires n <= 5
    ensures Reach(n) <= 243347775
  {
    assert Reach(0) == 0 && Reach(1) == 255;
    assert Reach(2) == 8160;
    assert Reach(3) == 253215;
    assert Reach(4) == 7849920;
    assert Reach(5) == 243347775;
  }

  lemma SmallMultiple(d: int)
    requires -RANGE < d < RANGE
    ensures d % RANGE == 0 <==> d == 0
  {
  }

  /**
    Exactly when two texts that differ only inside a window of five characters share a hash: when the
    polynomials of the windows are equal, as integers.
   */
  lemma {:induction false} ShortWindowKeepsHash(before: string, u: string, v: string, after: string)
    requires |u| == |v| <= 5
    ensures Hash(before + u + after) == Hash(before + v + after) <==> Polynomial(u) == Polynomial(v)
  {
    WindowKeepsHash(before, u, v, after);
    PolynomialReach(u, v);
    ShortReach(|u|);
    SmallMultiple(Polynomial(u) - Polynomial(v));
  }

  lemma OneCharacter(a: char)
    ensures Polynomial([a]) == CharValue(a)
  {
    PolynomialSnoc("", a);
    assert "" + [a] == [a];
  }

  lemma TwoCharacters(a: char, b: char)
    ensures Polynomial([a, b]) == CharValue(a) * PRIME + CharValue(b)
  {
    OneCharacter(a);
    PolynomialSnoc([a], b);
    assert [a] + [b] == [a, b];
  }

  /** Two texts that differ in exactly one character never share a hash. */
  lemma {:induction false} OneSubstitutionSeparates(before: string, x: char, y: char, after: string)
    requires IsByte(x) && IsByte(y) && x != y
    ensures Hash(before + [x] + after) != Hash(before + [y] + after)
  {
    ShortWindowKeepsHash(before, [x], [y], after);
    OneCharacter(x);
    OneCharacter(y);
  }

  /** Two adjacent characters can be exchanged exactly when what the first gains the second makes up for. */
  lemma {:induction false} TwoSubstitutions(before: string, a: char, b: char, c: char, d: char, after: string)
    ensures Hash(before + [a, b] + after) == Hash(before + [c, d] + after)
      <==> PRIME * (CharValue(a) - CharValue(c)) == CharValue(d) - CharValue(b)
  {
    ShortWindowKeepsHash(before, [a, b], [c, d], after);
    TwoCharacters(a, b);
    TwoCharacters(c, d);
  }

  /** So the hash is not injective: for every beginning and ending there are texts with the same hash. */
  lemma {:induction false} Collision(before: string, after: string)
    ensures Hash(before + "cl" + after) == Hash(before + "dM" + after)
  {
    TwoSubstitutions(before, 'c', 'l', 'd', 'M', after);
    assert ['c', 'l'] == "cl" && ['d', 'M'] == "dM";
  }
}
