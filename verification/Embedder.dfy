/** Vectors in exact arithmetic. */
module Vectors {
  function Dot(a: seq<real>, b: seq<real>): real
    requires |a| == |b|
  {
    if a == [] then 0.0
    else
      var n := |a| - 1;
      Dot(a[..n], b[..n]) + a[n] * b[n]
  }

  /** The squared distance of two vectors. */
  function Distance(a: seq<real>, b: seq<real>): real
    requires |a| == |b|
  {
    if a == [] then 0.0
    else
      var n := |a| - 1;
      Distance(a[..n], b[..n]) + (a[n] - b[n]) * (a[n] - b[n])
  }

  lemma PositiveProduct(x: real, y: real, p: real)
    requires x > 0.0 && y > 0.0 && p == x * y
    ensures p > 0.0
  {}

  lemma NoZeroDivisors(x: real, y: real, p: real)
    requires p == x * y && p == 0.0 && y > 0.0
    ensures x == 0.0
  {
    if x > 0.0 {
      PositiveProduct(x, y, p);
    } else if x < 0.0 {
      PositiveProduct(-x, y, -p);
    }
  }

  lemma SquareNonnegative(x: real, p: real)
    requires p == x * x
    ensures p >= 0.0 && (p == 0.0 ==> x == 0.0)
  {
    if x > 0.0 {
      PositiveProduct(x, x, p);
    } else if x < 0.0 {
      assert (-x) * (-x) == p;
      PositiveProduct(-x, -x, p);
    } else {
      assert p == 0.0;
    }
  }

  lemma {:induction false} DistanceSeparates(a: seq<real>, b: seq<real>)
    requires |a| == |b|
    ensures Distance(a, b) >= 0.0 && (Distance(a, b) == 0.0 ==> a == b)
  {
    if a != [] {
      var n := |a| - 1;
      DistanceSeparates(a[..n], b[..n]);
      var p := (a[n] - b[n]) * (a[n] - b[n]);
      SquareNonnegative(a[n] - b[n], p);
      assert Distance(a, b) == Distance(a[..n], b[..n]) + p;
      assert a == a[..n] + [a[n]] && b == b[..n] + [b[n]];
    }
  }

  lemma SquareOfDifference(x: real, y: real)
    ensures (x - y) * (x - y) == x * x - 2.0 * (x * y) + y * y
  {}

  lemma {:induction false} DistanceExpands(a: seq<real>, b: seq<real>)
    requires |a| == |b|
    ensures Distance(a, b) == Dot(a, a) - 2.0 * Dot(a, b) + Dot(b, b)
  {
    if a != [] {
      var n := |a| - 1;
      DistanceExpands(a[..n], b[..n]);
      SquareOfDifference(a[n], b[n]);
    }
  }

  /** The Cauchy-Schwarz maximum: within the unit ball the dot product is at most one, and one only for equal
      unit vectors. */
  lemma UnitMaximum(a: seq<real>, b: seq<real>)
    requires |a| == |b| && Dot(a, a) <= 1.0 && Dot(b, b) <= 1.0
    ensures Dot(a, b) <= 1.0
    ensures Dot(a, b) == 1.0 <==> a == b && Dot(a, a) == 1.0
  {
    DistanceSeparates(a, b);
    DistanceExpands(a, b);
  }

  /** Division by a positive norm. */
  function Unit(c: seq<real>, norm: real): (u: seq<real>)
    ensures |u| == |c|
    ensures norm > 0.0 ==> forall i :: 0 <= i < |c| ==> u[i] == c[i] / norm
  {
    if norm > 0.0 then seq(|c|, i requires 0 <= i < |c| => c[i] / norm) else c
  }

  /** norm is what an exact square root would return. */
  predicate IsNorm(c: seq<real>, norm: real) {
    norm >= 0.0 && norm * norm == Dot(c, c)
  }

  lemma ScaleOne(u: real, c: real, n: real, n2: real)
    requires u * n == c && n2 == n * n
    ensures (u * u) * n2 == c * c
  {
    assert (u * u) * n2 == (u * n) * (u * n);
  }

  lemma Distributes(x: real, y: real, k: real)
    ensures (x + y) * k == x * k + y * k
  {}

  lemma {:induction false} DotScales(u: seq<real>, c: seq<real>, n: real, n2: real)
    requires |u| == |c| && n2 == n * n && forall i :: 0 <= i < |c| ==> u[i] * n == c[i]
    ensures Dot(u, u) * n2 == Dot(c, c)
  {
    if c != [] {
      var m := |c| - 1;
      DotScales(u[..m], c[..m], n, n2);
      ScaleOne(u[m], c[m], n, n2);
      Distributes(Dot(u[..m], u[..m]), u[m] * u[m], n2);
    }
  }

  lemma UnitTimesNorm(c: seq<real>, norm: real, i: nat)
    requires i < |c| && norm > 0.0
    ensures Unit(c, norm)[i] * norm == c[i]
  {}

  lemma CancelFactor(x: real, y: real)
    requires y > 0.0 && x * y == y
    ensures x == 1.0
  {
    NoZeroDivisors(x - 1.0, y, (x - 1.0) * y);
  }

  /** Normalising gives length one, or leaves the zero vector. */
  lemma UnitLength(c: seq<real>, norm: real)
    requires IsNorm(c, norm)
    ensures Dot(Unit(c, norm), Unit(c, norm)) == if norm > 0.0 then 1.0 else 0.0
  {
    var square := norm * norm;
    if norm > 0.0 {
      var u := Unit(c, norm);
      forall i: nat | i < |c|
        ensures u[i] * norm == c[i]
      {
        UnitTimesNorm(c, norm, i);
      }
      DotScales(u, c, norm, square);
      PositiveProduct(norm, norm, square);
      CancelFactor(Dot(u, u), square);
    } else {
      assert square == 0.0;
    }
  }

  lemma NormUnique(c: seq<real>, n1: real, n2: real)
    requires IsNorm(c, n1) && IsNorm(c, n2)
    ensures n1 == n2
  {
    assert (n1 - n2) * (n1 + n2) == n1 * n1 - n2 * n2;
    if n1 + n2 > 0.0 {
      NoZeroDivisors(n1 - n2, n1 + n2, (n1 - n2) * (n1 + n2));
    }
  }
}

/** The hashing-trick embedder. */
module Embedder {
  import opened Tokenizer
  import opened Vectors

  const FNV_OFFSET := 14695981039346656037
  const FNV_PRIME := 1099511628211
  const TWO_64 := 0x1_0000_0000_0000_0000
  const TWO_32 := 0x1_0000_0000

  function Xor(a: nat, b: nat): nat
    decreases a + b
  {
    if a == 0 then b
    else if b == 0 then a
    else (if a % 2 == b % 2 then 0 else 1) + 2 * Xor(a / 2, b / 2)
  }

  /** One step of the hash, by one byte. */
  function Mix(h: nat, byte: nat): nat {
    (Xor(h, byte) * FNV_PRIME) % TWO_64
  }

  /** FNV-1a, 64 bits, on the bytes of an ASCII token. */
  function Fnv(tok: string): nat {
    if tok == "" then FNV_OFFSET
    else
      var n := |tok| - 1;
      Mix(Fnv(tok[..n]), tok[n] as int)
  }

  /** The bucket of a hash, and its sign bit: positive when clear. */
  function Place(v: nat, dim: nat): (r: (nat, bool))
    requires dim >= 1
    ensures r.0 < dim
  {
    (v % dim, (v / TWO_32) % 2 == 0)
  }

  function HashToken(tok: string, dim: nat): (r: (nat, bool))
    requires dim >= 1
    ensures r.0 < dim
  {
    Place(Fnv(tok), dim)
  }

  // ---------------------------------------------------------------- the hash

  lemma XorBits(a: nat, b: nat)
    ensures Xor(a, b) == (if a % 2 == b % 2 then 0 else 1) + 2 * Xor(a / 2, b / 2)
  {}

  lemma {:induction false} XorTwice(a: nat, b: nat)
    ensures Xor(Xor(a, b), b) == a
    decreases a + b
  {
    if a > 0 || b > 0 {
      XorTwice(a / 2, b / 2);
      XorBits(a, b);
      XorBits(Xor(a, b), b);
      assert Xor(a, b) / 2 == Xor(a / 2, b / 2);
    }
  }

  function Pow2(k: nat): nat {
    if k == 0 then 1 else 2 * Pow2(k - 1)
  }

  lemma {:induction false} XorBelow(a: nat, b: nat, k: nat)
    requires a < Pow2(k) && b < Pow2(k)
    ensures Xor(a, b) < Pow2(k)
  {
    if k > 0 {
      XorBelow(a / 2, b / 2, k - 1);
      XorBits(a, b);
    }
  }

  lemma {:induction false} XorSwaps(a: nat, b: nat)
    ensures Xor(a, b) == Xor(b, a)
    decreases a + b
  {
    if a > 0 && b > 0 {
      XorSwaps(a / 2, b / 2);
    }
  }

  /** The inverse of the prime modulo 2 to the 64. */
  const FNV_INVERSE := 14886173955864302971
  const INVERSE_ROUNDS := 887285111055

  lemma Regroup(d: int, p: int, i: int, q: int, m: int, t: int)
    requires d * p == q * m && p * i == 1 + t * m
    ensures d == m * (q * i - d * t)
  {
    assert d * p * i == d * (p * i) == d * 1 + d * (t * m);
    assert d * p * i == q * m * i == m * (q * i);
    assert d * (t * m) == m * (d * t);
    assert m * (q * i - d * t) == m * (q * i) - m * (d * t);
  }

  lemma SmallMultiple(d: int, m: int, k: int)
    requires m > 0 && -m < d < m && d == m * k
    ensures d == 0
  {
    assert k >= 1 ==> m * k >= m;
    assert k <= -1 ==> m * k <= m * -1;
  }

  /** Multiplication by the prime loses nothing modulo 2 to the 64. */
  lemma TimesPrimeInjective(x: nat, y: nat)
    requires x < TWO_64 && y < TWO_64 && (x * FNV_PRIME) % TWO_64 == (y * FNV_PRIME) % TWO_64
    ensures x == y
  {
    var q := x * FNV_PRIME / TWO_64 - y * FNV_PRIME / TWO_64;
    assert FNV_PRIME * FNV_INVERSE == 1 + INVERSE_ROUNDS * TWO_64;
    assert (x - y) * FNV_PRIME == q * TWO_64;
    Regroup(x - y, FNV_PRIME, FNV_INVERSE, q, TWO_64, INVERSE_ROUNDS);
    SmallMultiple(x - y, TWO_64, q * FNV_INVERSE - (x - y) * INVERSE_ROUNDS);
  }

  lemma FourMore(k: nat)
    ensures Pow2(k + 4) == 16 * Pow2(k)
  {
    assert Pow2(k + 2) == 2 * Pow2(k + 1);
    assert Pow2(k + 4) == 2 * Pow2(k + 3);
  }

  lemma SixtyFourBits()
    ensures Pow2(64) == TWO_64
  {
    FourMore(0);
    FourMore(4);
    FourMore(8);
    FourMore(12);
    FourMore(16);
    FourMore(20);
    FourMore(24);
    FourMore(28);
    FourMore(32);
    FourMore(36);
    FourMore(40);
    FourMore(44);
    FourMore(48);
    FourMore(52);
    FourMore(56);
    FourMore(60);
  }

  /** A step tells different bytes apart, and different hashes. */
  lemma MixInjective(g: nat, x: nat, h: nat, y: nat)
    requires g < TWO_64 && h < TWO_64 && x < 256 && y < 256
    requires (g == h) != (x == y)
    ensures Mix(g, x) != Mix(h, y)
  {
    SixtyFourBits();
    XorBelow(g, x, 64);
    XorBelow(h, y, 64);
    XorTwice(g, x);
    XorTwice(h, y);
    XorSwaps(g, x);
    XorSwaps(h, y);
    XorTwice(x, g);
    XorTwice(y, h);
    if Mix(g, x) == Mix(h, y) {
      TimesPrimeInjective(Xor(g, x), Xor(h, y));
    }
  }

  /** ASCII, as tokens are. */
  ghost predicate Ascii(tok: string) {
    forall i :: 0 <= i < |tok| ==> tok[i] as int < 128
  }

  lemma FnvNext(tok: string, c: char)
    ensures Fnv(tok + [c]) == Mix(Fnv(tok), c as int) && Fnv(tok) < TWO_64
  {
    assert (tok + [c])[..|tok|] == tok;
  }

  lemma SameNext(a: string, b: string, c: char)
    requires c as int < 128 && Fnv(a) != Fnv(b)
    ensures Fnv(a + [c]) != Fnv(b + [c])
  {
    FnvNext(a, c);
    FnvNext(b, c);
    MixInjective(Fnv(a), c as int, Fnv(b), c as int);
  }

  lemma {:induction false} SameTail(a: string, b: string, tail: string)
    requires Ascii(tail) && Fnv(a) != Fnv(b)
    ensures Fnv(a + tail) != Fnv(b + tail)
  {
    if tail == "" {
      assert a + tail == a && b + tail == b;
    } else {
      var n := |tail| - 1;
      SameTail(a, b, tail[..n]);
      SameNext(a + tail[..n], b + tail[..n], tail[n]);
      assert a + tail == a + tail[..n] + [tail[n]] && b + tail == b + tail[..n] + [tail[n]];
    }
  }

  /** Tokens that differ in one character never share their 64-bit hash. */
  lemma OneCharacterApart(head: string, x: char, y: char, tail: string)
    requires Ascii([x] + [y] + tail) && x != y
    ensures Fnv(head + [x] + tail) != Fnv(head + [y] + tail)
  {
    var all := [x] + [y] + tail;
    assert all[0] == x && all[1] == y && forall i :: 0 <= i < |tail| ==> all[i + 2] == tail[i];
    FnvNext(head, x);
    FnvNext(head, y);
    MixInjective(Fnv(head), x as int, Fnv(head), y as int);
    SameTail(head + [x], head + [y], tail);
  }

  lemma FirstXor()
    ensures Xor(FNV_OFFSET, 97) == 14695981039346656068
  {
    XorBits(229624703739791500, 1);
    assert Xor(229624703739791500, 1) == 229624703739791501;
    XorBits(459249407479583001, 3);
    assert Xor(459249407479583001, 3) == 459249407479583002;
    XorBits(918498814959166002, 6);
    assert Xor(918498814959166002, 6) == 918498814959166004;
    XorBits(1836997629918332004, 12);
    assert Xor(1836997629918332004, 12) == 1836997629918332008;
    XorBits(3673995259836664009, 24);
    assert Xor(3673995259836664009, 24) == 3673995259836664017;
    XorBits(7347990519673328018, 48);
    assert Xor(7347990519673328018, 48) == 7347990519673328034;
    XorBits(14695981039346656037, 97);
    assert Xor(14695981039346656037, 97) == 14695981039346656068;
  }

  lemma MixOfA()
    ensures Mix(FNV_OFFSET, 97) == 0xAF63DC4C8601EC8C
  {
    FirstXor();
    assert 14695981039346656068 * FNV_PRIME == 875948729822 * TWO_64 + 0xAF63DC4C8601EC8C;
  }

  lemma FnvOfA()
    ensures Fnv("a") == 0xAF63DC4C8601EC8C
  {
    FnvNext("", 'a');
    MixOfA();
    assert "" + ['a'] == "a" && 'a' as int == 97;
  }

  lemma PlaceOfA()
    ensures Place(0xAF63DC4C8601EC8C, 384) == (268, true)
  {}

  /** The published value for one letter, and where it lands in the default dimension. */
  lemma HashOfA()
    ensures Fnv("a") == 0xAF63DC4C8601EC8C && HashToken("a", 384) == (268, true)
  {
    FnvOfA();
    PlaceOfA();
  }

  // ---------------------------------------------------------------- weights

  /** What one token adds to component i. */
  function Contribution(tok: string, i: nat, dim: nat): int
    requires dim >= 1
  {
    var (bucket, sign) := HashToken(tok, dim);
    if bucket != i then 0 else if sign then 1 else -1
  }

  /** Component i of the unnormalised embedding. */
  function Weight(toks: seq<string>, i: nat, dim: nat): int
    requires dim >= 1
  {
    if toks == [] then 0
    else Weight(toks[..|toks| - 1], i, dim) + Contribution(toks[|toks| - 1], i, dim)
  }

  function Counts(toks: seq<string>, dim: nat): (c: seq<real>)
    requires dim >= 1
    ensures |c| == dim && forall i :: 0 <= i < dim ==> c[i] == Weight(toks, i, dim) as real
  {
    seq(dim, i requires 0 <= i < dim => Weight(toks, i, dim) as real)
  }

  /** The unnormalised embedding is additive. */
  lemma {:induction false} WeightAdds(a: seq<string>, b: seq<string>, i: nat, dim: nat)
    requires dim >= 1
    ensures Weight(a + b, i, dim) == Weight(a, i, dim) + Weight(b, i, dim)
    decreases |b|
  {
    if b == [] {
      assert a + b == a;
    } else {
      var n := |b| - 1;
      WeightAdds(a, b[..n], i, dim);
      assert (a + b)[..|a| + n] == a + b[..n];
    }
  }

  /** The vector of that one-letter prompt before normalising: a single 1. */
  lemma WeightOfA(i: nat)
    requires i < 384
    ensures Counts(["a"], 384)[i] == if i == 268 then 1.0 else 0.0
  {
    HashOfA();
    assert ["a"][..0] == [];
    assert Weight(["a"], i, 384) == Weight([], i, 384) + Contribution("a", i, 384);
  }

  lemma RemoveAt(b: seq<string>, k: nat)
    requires k < |b|
    ensures multiset(b[..k] + b[k + 1..]) == multiset(b) - multiset{b[k]}
  {
    assert b == b[..k] + [b[k]] + b[k + 1..];
  }

  lemma WeightWithout(b: seq<string>, k: nat, i: nat, dim: nat)
    requires dim >= 1 && k < |b|
    ensures Weight(b, i, dim) == Weight(b[..k] + b[k + 1..], i, dim) + Contribution(b[k], i, dim)
  {
    assert b == b[..k] + ([b[k]] + b[k + 1..]);
    WeightAdds(b[..k], [b[k]] + b[k + 1..], i, dim);
    WeightAdds([b[k]], b[k + 1..], i, dim);
    WeightAdds(b[..k], b[k + 1..], i, dim);
    assert [b[k]][..0] == [];
    assert Weight([b[k]], i, dim) == Weight([], i, dim) + Contribution(b[k], i, dim);
  }

  /** It depends on the multiset of tokens only. */
  lemma {:induction false} WeightOfBag(a: seq<string>, b: seq<string>, i: nat, dim: nat)
    requires dim >= 1 && multiset(a) == multiset(b)
    ensures Weight(a, i, dim) == Weight(b, i, dim)
    decreases |a|
  {
    assert |multiset(a)| == |a| && |multiset(b)| == |b|;
    if a != [] {
      var n := |a| - 1;
      assert a[n] in multiset(a);
      var k :| 0 <= k < |b| && b[k] == a[n];
      RemoveAt(a, n);
      assert a[..n] + a[n + 1..] == a[..n];
      RemoveAt(b, k);
      WeightWithout(b, k, i, dim);
      WeightOfBag(a[..n], b[..k] + b[k + 1..], i, dim);
    }
  }

  lemma CountsOfBag(a: seq<string>, b: seq<string>, dim: nat)
    requires dim >= 1 && multiset(a) == multiset(b)
    ensures Counts(a, dim) == Counts(b, dim)
  {
    forall i: nat | i < dim
      ensures Weight(a, i, dim) == Weight(b, i, dim)
    {
      WeightOfBag(a, b, i, dim);
    }
  }

  const DEFAULT_DIM := 384

  class HashingEmbedder {
    const dim: nat

    constructor (dim: int)
      ensures this.dim == if dim > 0 then dim else 384
    {
      this.dim := if dim <= 0 then DEFAULT_DIM else dim;
    }

    method Accumulate(toks: seq<string>) returns (v: array<real>)
      requires dim >= 1
      ensures fresh(v) && v[..] == Counts(toks, dim)
    {
      v := new real[dim](_ => 0.0);
      for k := 0 to |toks|
        invariant forall i: nat :: i < dim ==> v[i] == Weight(toks[..k], i, dim) as real
      {
        assert toks[..k + 1][..k] == toks[..k];
        var (bucket, sign) := HashToken(toks[k], dim);
        if sign {
          v[bucket] := v[bucket] + 1.0;
        } else {
          v[bucket] := v[bucket] - 1.0;
        }
      }
      assert toks[..|toks|] == toks;
    }

    method SumOfSquares(v: array<real>) returns (sum: real)
      ensures sum == Dot(v[..], v[..])
    {
      sum := 0.0;
      for i := 0 to v.Length
        invariant sum == Dot(v[..i], v[..i])
      {
        assert v[..i + 1][..i] == v[..i];
        sum := sum + v[i] * v[i];
      }
      assert v[..v.Length] == v[..];
    }

    method Divide(v: array<real>, norm: real)
      requires norm > 0.0
      modifies v
      ensures v[..] == Unit(old(v[..]), norm)
    {
      for i := 0 to v.Length
        invariant forall j :: 0 <= j < i ==> v[j] == old(v[j]) / norm
        invariant forall j :: i <= j < v.Length ==> v[j] == old(v[j])
      {
        v[i] := v[i] / norm;
      }
    }

    /** `norm` stands for the square root of the sum of squares. */
    method Embed(text: string, norm: real) returns (u: seq<real>)
      requires dim >= 1 && IsNorm(Counts(Tokens(text), dim), norm)
      ensures u == Unit(Counts(Tokens(text), dim), norm)
    {
      var toks := Tokenize(text);
      var v := Accumulate(toks);
      var sum := SumOfSquares(v);
      assert norm * norm == sum;
      if norm > 0.0 {
        Divide(v, norm);
      }
      u := v[..];
    }
  }
}
