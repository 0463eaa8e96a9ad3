/**
 Hashed bag-of-words vectors and their cosine (internal/store/embeddings.go), over the reals. The
 square root is a parameter; `IsSqrt` is all that is used of it. Lower-casing and the class of
 letters and digits are parameters too.
 */
module Embeddings {
  import opened Common

  const DIMS := 64
  const EPS: real := 0.000000000001

  type Vector = seq<real>

  ghost predicate IsSqrt(sqrt: real -> real) {
    forall x: real :: x >= 0.0 ==> sqrt(x) >= 0.0 && Times(sqrt(x), sqrt(x)) == x
  }

  /** A product under a name, so that proofs about sums of products can treat it as one term. */
  function Times(x: real, y: real): real {
    x * y
  }

  // ---------- dot products ----------

  function Dot(a: Vector, b: Vector, n: nat): real
    requires n <= |a| && n <= |b|
  {
    if n == 0 then 0.0 else Dot(a, b, n - 1) + Times(a[n - 1], b[n - 1])
  }

  function SumSquares(a: Vector): real {
    Dot(a, a, |a|)
  }

  lemma {:induction false} DotSymmetric(a: Vector, b: Vector, n: nat)
    requires n <= |a| && n <= |b|
    ensures Dot(a, b, n) == Dot(b, a, n)
  {
    if n > 0 {
      DotSymmetric(a, b, n - 1);
      Commute(a[n - 1], b[n - 1]);
    }
  }

  lemma Commute(x: real, y: real)
    ensures Times(x, y) == Times(y, x)
  {
  }

  lemma {:induction false} SquaresNonNegative(a: Vector, n: nat)
    requires n <= |a|
    ensures Dot(a, a, n) >= 0.0
    ensures Dot(a, a, n) == 0.0 ==> forall i :: 0 <= i < n ==> a[i] == 0.0
  {
    if n > 0 {
      SquaresNonNegative(a, n - 1);
      SquareSign(a[n - 1]);
    }
  }

  lemma SquareSign(x: real)
    ensures Times(x, x) >= 0.0
    ensures x != 0.0 ==> Times(x, x) > 0.0
  {
    if x > 0.0 {
      Positive(x, x);
    } else if x < 0.0 {
      var y := -x;
      Positive(y, y);
      assert y * y == x * x;
    }
  }

  lemma Positive(x: real, y: real)
    requires x > 0.0 && y > 0.0
    ensures Times(x, y) > 0.0
  {
  }

  /** The squared length of a - t b in terms of the dot products of a and b. */
  function Residual(aa: real, ab: real, bb: real, t: real): real {
    aa - 2.0 * t * ab + t * t * bb
  }

  lemma {:induction false} ResidualSquares(a: Vector, b: Vector, n: nat, t: real)
    requires n <= |a| && n <= |b|
    ensures Residual(Dot(a, a, n), Dot(a, b, n), Dot(b, b, n), t) >= 0.0
  {
    if n > 0 {
      ResidualSquares(a, b, n - 1, t);
      ResidualStep(Dot(a, a, n - 1), Dot(a, b, n - 1), Dot(b, b, n - 1), a[n - 1], b[n - 1], t);
    }
  }

  lemma ResidualStep(aa: real, ab: real, bb: real, x: real, y: real, t: real)
    requires Residual(aa, ab, bb, t) >= 0.0
    ensures Residual(aa + Times(x, x), ab + Times(x, y), bb + Times(y, y), t) >= 0.0
  {
    var u := x - t * y;
    SquareSign(u);
    assert u * u == x * x - 2.0 * t * (x * y) + t * t * (y * y);
    assert 2.0 * t * (ab + x * y) == 2.0 * t * ab + 2.0 * t * (x * y);
    assert t * t * (bb + y * y) == t * t * bb + t * t * (y * y);
  }

  lemma {:induction false} ZeroDot(a: Vector, b: Vector, n: nat)
    requires n <= |a| && n <= |b| && forall i :: 0 <= i < n ==> b[i] == 0.0
    ensures Dot(a, b, n) == 0.0
  {
    if n > 0 { ZeroDot(a, b, n - 1); }
  }

  /** (a . b)^2 <= (a . a)(b . b) */
  lemma CauchySchwarz(a: Vector, b: Vector, n: nat)
    requires n <= |a| && n <= |b|
    ensures Times(Dot(a, b, n), Dot(a, b, n)) <= Times(Dot(a, a, n), Dot(b, b, n))
  {
    var d, na, nb := Dot(a, b, n), Dot(a, a, n), Dot(b, b, n);
    SquaresNonNegative(b, n);
    if nb == 0.0 {
      ZeroDot(a, b, n);
    } else {
      ResidualSquares(a, b, n, d / nb);
      BestResidual(d, na, nb);
    }
  }

  lemma BestResidual(d: real, na: real, nb: real)
    requires nb > 0.0 && Residual(na, d, nb, d / nb) >= 0.0
    ensures Times(d, d) <= Times(na, nb)
  {
    var t := d / nb;
    assert t * nb == d;
    assert t * t * nb == t * (t * nb) == t * d;
    assert na - t * d >= 0.0;
    assert (na - t * d) * nb >= 0.0;
    assert t * d * nb == (t * nb) * d == d * d;
    assert (na - t * d) * nb == na * nb - d * d;
  }

  // ---------- cosine ----------

  function Cosine(a: Vector, b: Vector, sqrt: real -> real): real {
    var n := Min(|a|, |b|);
    var den := Times(sqrt(Dot(a, a, n)), sqrt(Dot(b, b, n)));
    if n == 0 || den < EPS then 0.0 else Dot(a, b, n) / den
  }

  /** `r` times the product of the lengths is the dot product, on the common prefix; 0 if that product is tiny. */
  ghost predicate IsCosine(a: Vector, b: Vector, sqrt: real -> real, r: real) {
    var n := if |a| <= |b| then |a| else |b|;
    var den := Times(sqrt(Dot(a, a, n)), sqrt(Dot(b, b, n)));
    if n == 0 || den < 0.000000000001 then r == 0.0 else Times(r, den) == Dot(a, b, n)
  }

  lemma CosineMeans(a: Vector, b: Vector, sqrt: real -> real)
    ensures IsCosine(a, b, sqrt, Cosine(a, b, sqrt))
  {
    var n := Min(|a|, |b|);
    var den := Times(sqrt(Dot(a, a, n)), sqrt(Dot(b, b, n)));
    if den >= EPS {
      Undivide(Dot(a, b, n), den);
    }
  }

  method ComputeCosine(a: Vector, b: Vector, sqrt: real -> real) returns (r: real)
    ensures r == Cosine(a, b, sqrt) && IsCosine(a, b, sqrt, r)
  {
    CosineMeans(a, b, sqrt);
    var n := |a|;
    if |b| < n { n := |b|; }
    if n == 0 { return 0.0; }
    var dot, na, nb := 0.0, 0.0, 0.0;
    for i := 0 to n
      invariant dot == Dot(a, b, i) && na == Dot(a, a, i) && nb == Dot(b, b, i)
    {
      dot := dot + Times(a[i], b[i]);
      na := na + Times(a[i], a[i]);
      nb := nb + Times(b[i], b[i]);
    }
    var den := Times(sqrt(na), sqrt(nb));
    if den < EPS { return 0.0; }
    return dot / den;
  }

  /** For vectors of any lengths the cosine is symmetric and lies between -1 and 1. */
  lemma CosineBounds(a: Vector, b: Vector, sqrt: real -> real)
    requires IsSqrt(sqrt)
    ensures Cosine(a, b, sqrt) == Cosine(b, a, sqrt)
    ensures -1.0 <= Cosine(a, b, sqrt) <= 1.0
  {
    var n := Min(|a|, |b|);
    DotSymmetric(a, b, n);
    CauchySchwarz(a, b, n);
    SquaresNonNegative(a, n);
    SquaresNonNegative(b, n);
    var sa, sb := sqrt(Dot(a, a, n)), sqrt(Dot(b, b, n));
    Commute(sa, sb);
    if Times(sa, sb) >= EPS {
      Normalised(Dot(a, b, n), Dot(a, a, n), Dot(b, b, n), sa, sb);
    }
  }

  lemma Normalised(d: real, na: real, nb: real, sa: real, sb: real)
    requires Times(d, d) <= Times(na, nb) && Times(sa, sa) == na && Times(sb, sb) == nb && Times(sa, sb) > 0.0
    ensures -1.0 <= d / Times(sa, sb) <= 1.0
  {
    var den := Times(sa, sb);
    assert den * den == (sa * sa) * (sb * sb);
    Ratio(d, den);
  }

  lemma Ratio(d: real, den: real)
    requires den > 0.0 && Times(d, d) <= Times(den, den)
    ensures -1.0 <= d / den <= 1.0
  {
    NoLarger(d, den);
    Negated(d);
    NoLarger(-d, den);
    QuotientBound(d, den);
  }

  lemma NoLarger(x: real, y: real)
    requires y > 0.0 && Times(x, x) <= Times(y, y)
    ensures x <= y
  {
    if x > y {
      LargerSquare(x, y);
    }
  }

  lemma QuotientBound(d: real, den: real)
    requires den > 0.0 && -den <= d <= den
    ensures -1.0 <= d / den <= 1.0
  {
  }

  lemma LargerSquare(x: real, y: real)
    requires x > y > 0.0
    ensures Times(x, x) > Times(y, y)
  {
    var p, q := x - y, x + y;
    assert p * q == x * x - y * y;
    Positive(p, q);
  }

  lemma Negated(x: real)
    ensures Times(-x, -x) == Times(x, x)
  {
  }

  // ---------- what dot product and cosine measure ----------

  /** Against a unit vector the dot product reads off a coordinate. */
  lemma {:induction false} DotUnit(a: Vector, e: Vector, n: nat, k: nat)
    requires n <= |a| && n <= |e| && forall i :: 0 <= i < n ==> e[i] == if i == k then 1.0 else 0.0
    ensures Dot(a, e, n) == if k < n then a[k] else 0.0
  {
    if n > 0 { DotUnit(a, e, n - 1, k); }
  }

  /** The dot product is linear. */
  lemma {:induction false} DotLinear(a: Vector, b: Vector, b': Vector, c: Vector, t: real, n: nat)
    requires n <= |a| && n <= |b| && n <= |b'| && n <= |c|
    requires forall i :: 0 <= i < n ==> c[i] == b[i] + Times(t, b'[i])
    ensures Dot(a, c, n) == Dot(a, b, n) + Times(t, Dot(a, b', n))
  {
    if n > 0 {
      DotLinear(a, b, b', c, t, n - 1);
      LinearTerm(a[n - 1], b[n - 1], b'[n - 1], t, Dot(a, b', n - 1));
    }
  }

  lemma LinearTerm(x: real, y: real, z: real, t: real, d: real)
    ensures Times(x, y + Times(t, z)) == Times(x, y) + (Times(t, d + Times(x, z)) - Times(t, d))
  {
    assert x * (y + t * z) == x * y + x * (t * z);
    assert t * (d + x * z) == t * d + t * (x * z);
    assert x * (t * z) == t * (x * z);
  }

  /** Orthogonal vectors have cosine zero. */
  lemma OrthogonalCosine(a: Vector, b: Vector, sqrt: real -> real)
    requires Dot(a, b, Min(|a|, |b|)) == 0.0
    ensures Cosine(a, b, sqrt) == 0.0
  {
  }

  function Scaled(b: Vector, t: real): (v: Vector)
    ensures |v| == |b|
  {
    seq(|b|, i requires 0 <= i < |b| => Times(t, b[i]))
  }

  lemma {:induction false} ScaledDots(a: Vector, b: Vector, t: real, n: nat)
    requires n <= |a| && n <= |b|
    ensures Dot(a, Scaled(b, t), n) == Times(t, Dot(a, b, n))
    ensures Dot(Scaled(b, t), Scaled(b, t), n) == Times(Times(t, t), Dot(b, b, n))
  {
    if n > 0 {
      ScaledDots(a, b, t, n - 1);
      ScaledTerms(a[n - 1], b[n - 1], t, Dot(a, b, n - 1), Dot(b, b, n - 1));
    }
  }

  lemma ScaledTerms(x: real, y: real, t: real, ab: real, bb: real)
    ensures Times(t, ab) + Times(x, Times(t, y)) == Times(t, ab + Times(x, y))
    ensures Times(Times(t, t), bb) + Times(Times(t, y), Times(t, y)) == Times(Times(t, t), bb + Times(y, y))
  {
    assert x * (t * y) == t * (x * y);
    assert t * (ab + x * y) == t * ab + t * (x * y);
    var q := t * t;
    assert (t * y) * (t * y) == q * (y * y);
    assert q * (bb + y * y) == q * bb + q * (y * y);
  }

  /** Negating one vector negates the cosine. */
  lemma NegatedCosine(a: Vector, b: Vector, sqrt: real -> real)
    ensures Cosine(a, Scaled(b, -1.0), sqrt) == -Cosine(a, b, sqrt)
  {
    var n := Min(|a|, |b|);
    ScaledDots(a, b, -1.0, n);
    assert Times(-1.0, Dot(a, b, n)) == -Dot(a, b, n);
    assert Times(Times(-1.0, -1.0), Dot(b, b, n)) == Dot(b, b, n);
    var den := Times(sqrt(Dot(a, a, n)), sqrt(Dot(b, b, n)));
    if den >= EPS {
      NegatedQuotient(Dot(a, b, n), den);
    }
  }

  lemma NegatedQuotient(d: real, den: real)
    requires den > 0.0
    ensures (-d) / den == -(d / den)
  {
  }

  /** Lengthening or shortening one vector leaves the cosine alone, as long as neither product of lengths is tiny. */
  lemma ScaledCosine(a: Vector, b: Vector, t: real, sqrt: real -> real)
    requires IsSqrt(sqrt) && t > 0.0
    requires var n := Min(|a|, |b|);
             && Times(sqrt(Dot(a, a, n)), sqrt(Dot(b, b, n))) >= 0.000000000001
             && Times(sqrt(Dot(a, a, n)), sqrt(Dot(Scaled(b, t), Scaled(b, t), n))) >= 0.000000000001
    ensures Cosine(a, Scaled(b, t), sqrt) == Cosine(a, b, sqrt)
  {
    var n := Min(|a|, |b|);
    ScaledDots(a, b, t, n);
    SquaresNonNegative(a, n);
    SquaresNonNegative(b, n);
    var sa, sb := sqrt(Dot(a, a, n)), sqrt(Dot(b, b, n));
    ScaledRoot(Dot(b, b, n), t, sqrt);
    ScaledQuotient(Dot(a, b, n), sa, sb, t);
  }

  lemma ScaledRoot(x: real, t: real, sqrt: real -> real)
    requires IsSqrt(sqrt) && x >= 0.0 && t > 0.0
    ensures sqrt(Times(Times(t, t), x)) == Times(t, sqrt(x))
  {
    var r := sqrt(x);
    var y := Times(Times(t, t), x);
    assert r >= 0.0 && Times(r, r) == x;
    assert (t * t) * (r * r) == (t * r) * (t * r);
    NonNegative(t, r);
    NonNegative(Times(t, t), x);
    assert sqrt(y) >= 0.0 && Times(sqrt(y), sqrt(y)) == y;
    SameSquare(sqrt(y), Times(t, r));
  }

  lemma NonNegative(x: real, y: real)
    requires x >= 0.0 && y >= 0.0
    ensures Times(x, y) >= 0.0
  {
    if x > 0.0 && y > 0.0 { Positive(x, y); }
  }

  lemma SameSquare(x: real, y: real)
    requires x >= 0.0 && y >= 0.0 && Times(x, x) == Times(y, y)
    ensures x == y
  {
    if y > 0.0 { NoLarger(x, y); }
    if x > 0.0 { NoLarger(y, x); }
    if x == 0.0 || y == 0.0 { SquareSign(x); SquareSign(y); }
  }

  lemma ScaledQuotient(d: real, sa: real, sb: real, t: real)
    requires t > 0.0 && Times(sa, sb) > 0.0 && Times(sa, Times(t, sb)) > 0.0
    ensures Times(t, d) / Times(sa, Times(t, sb)) == d / Times(sa, sb)
  {
    var den := Times(sa, sb);
    var q := d / den;
    Undivide(d, den);
    assert sa * (t * sb) == t * den;
    assert t * d == q * (t * den) by { assert t * (q * den) == q * (t * den); }
    QuotientOf(t * d, t * den, q);
  }

  lemma QuotientOf(x: real, y: real, q: real)
    requires y != 0.0 && x == q * y
    ensures x / y == q
  {
  }

  // ---------- hashing tokens ----------

  /** UTF-8 of one character. */
  function Utf8(c: char): (bytes: seq<int>)
    ensures 1 <= |bytes| <= 4 && forall i :: 0 <= i < |bytes| ==> 0 <= bytes[i] < 256
  {
    var n := c as int;
    if n < 0x80 then [n]
    else if n < 0x800 then [0xC0 + n / 64, 0x80 + n % 64]
    else if n < 0x1_0000 then [0xE0 + n / 4096, 0x80 + n / 64 % 64, 0x80 + n % 64]
    else [0xF0 + n / 262144, 0x80 + n / 4096 % 64, 0x80 + n / 64 % 64, 0x80 + n % 64]
  }

  /** The lead tells the number of bytes, and the lower bits put together are the character (section 3 of RFC 3629). */
  lemma Utf8Decodes(c: char)
    ensures var b, n := Utf8(c), c as int;
            && (|b| == 1 <==> n < 0x80) && (|b| <= 2 <==> n < 0x800) && (|b| <= 3 <==> n < 0x1_0000)
            && (forall i :: 1 <= i < |b| ==> 0x80 <= b[i] < 0xC0)
            && (|b| == 1 ==> n == b[0])
            && (|b| == 2 ==> 0xC0 <= b[0] < 0xE0 && n == (b[0] - 0xC0) * 64 + (b[1] - 0x80))
            && (|b| == 3 ==> 0xE0 <= b[0] < 0xF0 && n == ((b[0] - 0xE0) * 64 + (b[1] - 0x80)) * 64 + (b[2] - 0x80))
            && (|b| == 4 ==> 0xF0 <= b[0] < 0xF8
                             && n == (((b[0] - 0xF0) * 64 + (b[1] - 0x80)) * 64 + (b[2] - 0x80)) * 64 + (b[3] - 0x80))
  {
    SixBits(c as int);
  }

  /** A character number below 2^21 in groups of six bits. */
  lemma SixBits(n: nat)
    ensures n / 4096 == n / 64 / 64 && n / 262144 == n / 64 / 64 / 64 && n / 4096 % 64 == n / 64 / 64 % 64
    ensures n == n / 64 * 64 + n % 64 && n / 64 == n / 64 / 64 * 64 + n / 64 % 64
    ensures n / 64 / 64 == n / 64 / 64 / 64 * 64 + n / 64 / 64 % 64
  {
  }

  /** Bytes, each in a 32-bit word. */
  function Words32(bytes: seq<int>): (w: seq<bv32>)
    requires forall i :: 0 <= i < |bytes| ==> 0 <= bytes[i] < 256
    ensures |w| == |bytes|
  {
    seq(|bytes|, i requires 0 <= i < |bytes| => bytes[i] as bv32)
  }

  function Encode(s: string): seq<bv32> {
    if s == "" then [] else Encode(s[..|s| - 1]) + Words32(Utf8(s[|s| - 1]))
  }

  function Fold<A, T>(s: seq<T>, init: A, f: (A, T) -> A): A {
    if s == [] then init else f(Fold(s[..|s| - 1], init, f), s[|s| - 1])
  }

  lemma FoldSnoc<A, T>(s: seq<T>, i: nat, init: A, f: (A, T) -> A)
    requires i < |s|
    ensures Fold(s[..i + 1], init, f) == f(Fold(s[..i], init, f), s[i])
  {
    assert s[..i + 1][..i] == s[..i];
  }

  function FnvStep(h: bv32, b: bv32): bv32 {
    (h ^ b) * 16777619
  }

  /** FNV-1a over bytes, modulo 2^32. */
  function Fnv32(bytes: seq<bv32>): bv32 {
    Fold(bytes, 2166136261, FnvStep)
  }

  method HashBytes(bytes: seq<bv32>) returns (h: bv32)
    ensures h == Fnv32(bytes)
  {
    var step := FnvStep;
    h := 2166136261;
    for i := 0 to |bytes|
      invariant h == Fold(bytes[..i], 2166136261, step)
    {
      FoldSnoc(bytes, i, 2166136261, step);
      h := step(h, bytes[i]);
    }
    assert bytes[..|bytes|] == bytes;
  }

  lemma FnvExtends(bytes: seq<bv32>, b: bv32)
    ensures Fnv32(bytes + [b]) == FnvStep(Fnv32(bytes), b)
  {
    var step, all := FnvStep, bytes + [b];
    assert all[..|bytes|] == bytes && all[..|bytes| + 1] == all;
    FoldSnoc(all, |bytes|, 2166136261, step);
  }

  /** A text is encoded character by character, in order. */
  lemma {:induction false} EncodeConcat(s: string, t: string)
    ensures Encode(s + t) == Encode(s) + Encode(t)
  {
    if t == "" {
      assert s + t == s;
    } else {
      assert (s + t)[..|s + t| - 1] == s + t[..|t| - 1];
      EncodeConcat(s, t[..|t| - 1]);
    }
  }

  lemma EncodeOne(c: char)
    ensures |Encode([c])| == |Utf8(c)| && forall i :: 0 <= i < |Utf8(c)| ==> Encode([c])[i] == Utf8(c)[i] as bv32
  {
    assert [c][..0] == "";
    assert Encode([c]) == [] + Words32(Utf8(c));
  }

  /** The published check value of 32-bit FNV-1a for "a". */
  lemma FnvCheckValue()
    ensures Fnv32(Encode("a")) == 0xE40C292C
  {
    assert Utf8('a') == [0x61];
    assert Words32([0x61]) == [0x61 as bv32];
    assert Encode("a") == [0x61 as bv32];
    assert Fnv32([]) == 2166136261;
  }

  function Slot(token: string): (h: nat)
    ensures h < DIMS
  {
    Fnv32(Encode(token)) as int % DIMS
  }

  function Sign(token: string): (s: int)
    ensures s == 1 || s == -1
  {
    if Fnv32(Encode(token + "!")) as int % 2 == 0 then -1 else 1
  }

  // ---------- tokens ----------

  /** A scan of `s`: the tokens finished so far, and the run of word characters still open. */
  datatype Scan = Scan(done: seq<string>, open: string)

  /** A run counts as a token if it takes at least two bytes. */
  function Flush(c: Scan): seq<string> {
    if |Encode(c.open)| >= 2 then c.done + [c.open] else c.done
  }

  function ScanOf(s: string, word: char -> bool): Scan {
    if s == "" then Scan([], "")
    else
      var c := ScanOf(s[..|s| - 1], word);
      if word(s[|s| - 1]) then c.(open := c.open + [s[|s| - 1]]) else Scan(Flush(c), "")
  }

  function Tokens(s: string, word: char -> bool): seq<string> {
    Flush(ScanOf(s, word))
  }

  function Lower(s: string, lower: char -> char): string {
    seq(|s|, i requires 0 <= i < |s| => lower(s[i]))
  }

  method Tokenize(s: string, lower: char -> char, word: char -> bool) returns (out: seq<string>)
    ensures out == TextTokens(s, lower, word)
  {
    var t := Lower(s, lower);
    var open := "";
    out := [];
    for i := 0 to |t|
      invariant Scan(out, open) == ScanOf(t[..i], word)
    {
      assert t[..i + 1][..i] == t[..i];
      if word(t[i]) {
        open := open + [t[i]];
      } else {
        if |Encode(open)| >= 2 { out := out + [open]; }
        open := "";
      }
    }
    assert t[..|t|] == t;
    if |Encode(open)| >= 2 { out := out + [open]; }
  }

  lemma {:induction false} ScanSplit(a: string, sep: char, b: string, word: char -> bool)
    requires !word(sep)
    ensures ScanOf(a + [sep] + b, word) == Scan(Tokens(a, word) + ScanOf(b, word).done, ScanOf(b, word).open)
  {
    var s := a + [sep] + b;
    if b == "" {
      assert s[..|s| - 1] == a;
    } else {
      assert s[..|s| - 1] == a + [sep] + b[..|b| - 1];
      ScanSplit(a, sep, b[..|b| - 1], word);
      ScanSnoc(s, word);
      ScanSnoc(b, word);
    }
  }

  lemma ScanSnoc(s: string, word: char -> bool)
    requires s != ""
    ensures var c, last := ScanOf(s[..|s| - 1], word), s[|s| - 1];
            ScanOf(s, word) == if word(last) then Scan(c.done, c.open + [last]) else Scan(Flush(c), "")
  {
  }

  /** A separator splits a text into independent parts. */
  lemma TokensSplit(a: string, sep: char, b: string, word: char -> bool)
    requires !word(sep)
    ensures Tokens(a + [sep] + b, word) == Tokens(a, word) + Tokens(b, word)
  {
    ScanSplit(a, sep, b, word);
    FlushBehind(Tokens(a, word), ScanOf(b, word));
  }

  lemma FlushBehind(ts: seq<string>, c: Scan)
    ensures Flush(Scan(ts + c.done, c.open)) == ts + Flush(c)
  {
    assert ts + c.done + [c.open] == ts + (c.done + [c.open]);
  }

  /** An unbroken run of word characters is one token, or none if it is a single byte or empty. */
  lemma {:induction false} TokensOfRun(s: string, word: char -> bool)
    requires forall c :: c in s ==> word(c)
    ensures ScanOf(s, word) == Scan([], s)
    ensures Tokens(s, word) == if |Encode(s)| >= 2 then [s] else []
  {
    if s != "" {
      assert s[..|s| - 1] + [s[|s| - 1]] == s;
      TokensOfRun(s[..|s| - 1], word);
    }
  }

  // ---------- the vector of a bag of words ----------

  /** What a token contributes to coordinate `i`. */
  function Part(i: nat): string -> int {
    t => if Slot(t) == i then Sign(t) else 0
  }

  /** Coordinate `i`: the signed number of tokens hashed to it. */
  function Coord(tokens: seq<string>, i: nat): int {
    Sum(tokens, Part(i))
  }

  function Counts(tokens: seq<string>): (v: seq<int>)
    ensures |v| == DIMS && forall i :: 0 <= i < DIMS ==> v[i] == Coord(tokens, i)
  {
    seq(DIMS, i requires 0 <= i < DIMS => Coord(tokens, i))
  }

  function Raw(tokens: seq<string>): (v: Vector)
    ensures |v| == DIMS && forall i :: 0 <= i < DIMS ==> v[i] == Coord(tokens, i) as real
  {
    seq(DIMS, i requires 0 <= i < DIMS => Coord(tokens, i) as real)
  }

  function Embedding(tokens: seq<string>, sqrt: real -> real): (v: Vector)
    ensures |v| == DIMS
  {
    var norm := sqrt(SumSquares(Raw(tokens)));
    if norm < EPS then Raw(tokens)
    else seq(DIMS, i requires 0 <= i < DIMS => Raw(tokens)[i] / norm)
  }

  /** `v` is the vector of signed token counts divided by its length, or that vector itself if it is next to nothing. */
  ghost predicate IsEmbedding(v: Vector, tokens: seq<string>, sqrt: real -> real) {
    var norm := sqrt(Dot(Raw(tokens), Raw(tokens), 64));
    && |v| == 64
    && forall i :: 0 <= i < 64 ==>
         if norm < 0.000000000001 then v[i] == Coord(tokens, i) as real
         else Times(v[i], norm) == Coord(tokens, i) as real
  }

  lemma EmbeddingMeans(tokens: seq<string>, sqrt: real -> real)
    ensures IsEmbedding(Embedding(tokens, sqrt), tokens, sqrt)
  {
    var v := Embedding(tokens, sqrt);
    var norm := sqrt(SumSquares(Raw(tokens)));
    if norm >= EPS {
      forall i | 0 <= i < 64 ensures Times(v[i], norm) == Coord(tokens, i) as real {
        Undivide(Raw(tokens)[i], norm);
      }
    }
  }

  function TextTokens(text: string, lower: char -> char, word: char -> bool): seq<string> {
    Tokens(Lower(text, lower), word)
  }

  function Tokenizer(lower: char -> char, word: char -> bool): string -> seq<string> {
    text => TextTokens(text, lower, word)
  }

  function AllTokens(texts: seq<string>, lower: char -> char, word: char -> bool): seq<string> {
    FlatMap(texts, Tokenizer(lower, word))
  }

  method HashEmbed(texts: seq<string>, lower: char -> char, word: char -> bool, sqrt: real -> real)
    returns (vec: array<real>)
    ensures fresh(vec) && vec[..] == Embedding(AllTokens(texts, lower, word), sqrt)
    ensures IsEmbedding(vec[..], AllTokens(texts, lower, word), sqrt)
  {
    vec := new real[DIMS](_ => 0.0);
    ghost var seen: seq<string> := [];
    for k := 0 to |texts|
      invariant seen == AllTokens(texts[..k], lower, word)
      invariant vec[..] == Raw(seen)
    {
      assert texts[..k + 1][..k] == texts[..k];
      var tokens := Tokenize(texts[k], lower, word);
      AddTokens(vec, tokens, seen);
      seen := seen + tokens;
    }
    assert texts[..|texts|] == texts;
    Normalise(vec, sqrt, seen);
    EmbeddingMeans(seen, sqrt);
  }

  /** The second half of HashEmbed: scales to unit length, unless the length is next to nothing. */
  method Normalise(vec: array<real>, sqrt: real -> real, ghost tokens: seq<string>)
    requires vec.Length == DIMS && vec[..] == Raw(tokens)
    modifies vec
    ensures vec[..] == Embedding(tokens, sqrt)
  {
    var sum := 0.0;
    for i := 0 to DIMS
      invariant sum == Dot(vec[..], vec[..], i)
    {
      sum := sum + Times(vec[i], vec[i]);
    }
    var norm := sqrt(sum);
    if norm < EPS { return; }
    Divide(vec, norm);
  }

  method Divide(vec: array<real>, norm: real)
    requires norm != 0.0
    modifies vec
    ensures forall j :: 0 <= j < vec.Length ==> vec[j] == old(vec[j]) / norm
  {
    for i := 0 to vec.Length
      invariant forall j :: 0 <= j < i ==> vec[j] == old(vec[j]) / norm
      invariant forall j :: i <= j < vec.Length ==> vec[j] == old(vec[j])
    {
      vec[i] := vec[i] / norm;
    }
  }

  /** One, with the sign of the parity of a second hash, at the coordinate the hash names. */
  function HashPart(token: string, i: nat): real {
    if Fnv32(Encode(token)) as int % 64 != i then 0.0
    else if Fnv32(Encode(token + "!")) as int % 2 == 1 then 1.0 else -1.0
  }

  /** `vec[h] += sign` for each token. */
  method AddTokens(vec: array<real>, tokens: seq<string>, ghost seen: seq<string>)
    requires vec.Length == DIMS && vec[..] == Raw(seen)
    modifies vec
    ensures vec[..] == Raw(seen + tokens)
  {
    assert seen + tokens[..0] == seen;
    for k := 0 to |tokens|
      invariant vec[..] == Raw(seen + tokens[..k])
    {
      AddToken(vec, tokens[k], seen + tokens[..k]);
      assert seen + tokens[..k + 1] == seen + tokens[..k] + [tokens[k]];
    }
    assert tokens[..|tokens|] == tokens;
  }

  method AddToken(vec: array<real>, token: string, ghost seen: seq<string>)
    requires vec.Length == DIMS && vec[..] == Raw(seen)
    modifies vec
    ensures vec[..] == Raw(seen + [token])
    ensures forall i :: 0 <= i < 64 ==> vec[i] == old(vec[i]) + HashPart(token, i)
  {
    var hash := HashBytes(Encode(token));
    var parity := HashBytes(Encode(token + "!"));
    var h := hash as int % DIMS;
    var sign := if parity as int % 2 == 0 then -1 else 1;
    Bump(vec, h, sign, Counts(seen));
    forall i | 0 <= i < DIMS ensures vec[..][i] == Raw(seen + [token])[i] {
      CoordSnoc(seen, token, i);
    }
  }

  method Bump(vec: array<real>, h: nat, d: int, ghost before: seq<int>)
    requires h < vec.Length == |before| && forall i :: 0 <= i < vec.Length ==> vec[i] == before[i] as real
    modifies vec
    ensures forall i :: 0 <= i < vec.Length ==> vec[i] == (before[i] + if i == h then d else 0) as real
  {
    vec[h] := vec[h] + d as real;
  }

  lemma CoordSnoc(seen: seq<string>, token: string, i: nat)
    ensures Coord(seen + [token], i) == Coord(seen, i) + if Slot(token) == i then Sign(token) else 0
  {
    SumSnoc(seen, token, Part(i));
  }

  /** Joining two texts by a separator adds their unnormalised vectors. */
  lemma TextsAdd(a: string, sep: char, b: string, lower: char -> char, word: char -> bool, i: nat)
    requires !word(lower(sep))
    ensures Coord(TextTokens(a + [sep] + b, lower, word), i) ==
            Coord(TextTokens(a, lower, word), i) + Coord(TextTokens(b, lower, word), i)
  {
    assert Lower(a + [sep] + b, lower) == Lower(a, lower) + [lower(sep)] + Lower(b, lower);
    TokensSplit(Lower(a, lower), lower(sep), Lower(b, lower), word);
    SumConcat(TextTokens(a, lower, word), TextTokens(b, lower, word), Part(i));
  }

  /** Joining two lists of texts adds their unnormalised vectors. */
  lemma ListsAdd(a: seq<string>, b: seq<string>, lower: char -> char, word: char -> bool, i: nat)
    ensures Coord(AllTokens(a + b, lower, word), i) ==
              Coord(AllTokens(a, lower, word), i) + Coord(AllTokens(b, lower, word), i)
  {
    FlatMapConcat(a, b, Tokenizer(lower, word));
    SumConcat(AllTokens(a, lower, word), AllTokens(b, lower, word), Part(i));
  }

  /** The embedding depends only on how often each token occurs. */
  lemma EmbeddingBag(a: seq<string>, b: seq<string>, sqrt: real -> real)
    requires multiset(a) == multiset(b)
    ensures Embedding(a, sqrt) == Embedding(b, sqrt)
  {
    forall i | 0 <= i < DIMS ensures Raw(a)[i] == Raw(b)[i] {
      SumPermuted(a, b, Part(i));
    }
    assert Raw(a) == Raw(b);
  }

  /** Squared lengths of vectors of whole numbers are whole numbers. */
  lemma {:induction false} SquaresWhole(v: Vector, counts: seq<int>, n: nat) returns (whole: int)
    requires n <= |v| == |counts| && forall i :: 0 <= i < |v| ==> v[i] == counts[i] as real
    ensures Dot(v, v, n) == whole as real
  {
    if n == 0 {
      whole := 0;
    } else {
      whole := SquaresWhole(v, counts, n - 1);
      SquareWhole(counts[n - 1]);
      whole := whole + counts[n - 1] * counts[n - 1];
    }
  }

  lemma SquareWhole(c: int)
    ensures Times(c as real, c as real) == (c * c) as real
  {
  }

  lemma {:induction false} ScaledSquares(a: Vector, b: Vector, n: nat, c: real)
    requires n <= |a| && n <= |b| && forall i :: 0 <= i < n ==> a[i] == Times(b[i], c)
    ensures Dot(a, a, n) == Times(Dot(b, b, n), Times(c, c))
  {
    if n > 0 {
      ScaledSquares(a, b, n - 1, c);
      ScaledTerm(Dot(b, b, n - 1), b[n - 1], c);
    }
  }

  lemma ScaledTerm(d: real, x: real, c: real)
    ensures Times(d, Times(c, c)) + Times(Times(x, c), Times(x, c)) == Times(d + Times(x, x), Times(c, c))
  {
    assert (x * c) * (x * c) == (x * x) * (c * c);
    var q := c * c;
    assert (d + x * x) * q == d * q + (x * x) * q;
  }

  /** An embedding is the zero vector or has squared length exactly one. */
  lemma UnitOrZero(tokens: seq<string>, sqrt: real -> real)
    requires IsSqrt(sqrt)
    ensures var v := Embedding(tokens, sqrt);
            && |v| == 64
            && (Dot(v, v, 64) == 1.0 || forall i :: 0 <= i < 64 ==> v[i] == 0.0)
  {
    var raw, v := Raw(tokens), Embedding(tokens, sqrt);
    var sum := SumSquares(raw);
    SquaresNonNegative(raw, DIMS);
    var norm := sqrt(sum);
    assert norm >= 0.0 && Times(norm, norm) == sum;
    if norm < EPS {
      Tiny(norm);
      var whole := SquaresWhole(raw, Counts(tokens), DIMS);
      assert 0.0 <= whole as real < 1.0;
    } else {
      Positive(norm, norm);
      forall i | 0 <= i < DIMS ensures raw[i] == Times(v[i], norm) {
        Undivide(raw[i], norm);
      }
      ScaledSquares(raw, v, DIMS, norm);
      OneIfScaled(SumSquares(v), sum);
    }
  }

  lemma Undivide(x: real, y: real)
    requires y != 0.0
    ensures Times(x / y, y) == x
  {
  }

  lemma Tiny(x: real)
    requires 0.0 <= x < EPS
    ensures Times(x, x) < 1.0
  {
    var y := 1.0 - x;
    if x > 0.0 {
      Positive(x, y);
      assert x * y == x - x * x;
    }
  }

  lemma OneIfScaled(x: real, y: real)
    requires y == Times(x, y) && y > 0.0
    ensures x == 1.0
  {
    assert (x - 1.0) * y == 0.0;
  }

  /** The cosine of a vector with itself is one, or zero if the vector is next to nothing. */
  lemma SelfSimilarity(a: Vector, sqrt: real -> real)
    requires IsSqrt(sqrt)
    ensures Cosine(a, a, sqrt) == if SumSquares(a) < EPS then 0.0 else 1.0
  {
    SquaresNonNegative(a, |a|);
    var d := Dot(a, a, |a|);
    assert Times(sqrt(d), sqrt(d)) == d;
    if d > 0.0 {
      Undivide(d, d);
      OneIfScaled(d / d, d);
    }
  }
}
