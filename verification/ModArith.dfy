// Arithmetic modulo the transform's prime-like modulus 7340033 = 7 * 2^20 + 1:
// powers, polynomial evaluation and geometric sums over the integers, and how
// they behave under congruence.
module ModArith {

  const MOD := 7340033

  function Multiple(k: int): int { MOD * k }

  // Congruence modulo MOD.
  ghost predicate Eq(x: int, y: int) { exists k :: x == y + Multiple(k) }

  lemma EqByFactor(x: int, y: int, k: int)
    requires x == y + MOD * k
    ensures Eq(x, y)
  {
    assert x == y + Multiple(k);
  }

  lemma EqRefl(x: int)
    ensures Eq(x, x)
  {
    EqByFactor(x, x, 0);
  }

  lemma EqSym(x: int, y: int)
    requires Eq(x, y)
    ensures Eq(y, x)
  {
    var k :| x == y + Multiple(k);
    EqByFactor(y, x, -k);
  }

  lemma EqTrans(x: int, y: int, z: int)
    requires Eq(x, y) && Eq(y, z)
    ensures Eq(x, z)
  {
    var k :| x == y + Multiple(k);
    var l :| y == z + Multiple(l);
    EqByFactor(x, z, k + l);
  }

  lemma ResidueEq(x: int)
    ensures Eq(x % MOD, x)
  {
    EqByFactor(x % MOD, x, -(x / MOD));
  }

  // Congruent numbers are exactly those with the same canonical residue.
  lemma EqResidue(x: int, y: int)
    ensures Eq(x, y) <==> x % MOD == y % MOD
  {
    if Eq(x, y) {
      var k :| x == y + Multiple(k);
      assert x == y + MOD * k;
    }
    if x % MOD == y % MOD {
      EqByFactor(x, y, x / MOD - y / MOD);
    }
  }

  lemma EqMul(x: int, x': int, y: int, y': int)
    requires Eq(x, x') && Eq(y, y')
    ensures Eq(x * y, x' * y')
  {
    var a :| x == x' + Multiple(a);
    var b :| y == y' + Multiple(b);
    Distribute(y, x', MOD * a);
    Distribute(x', y', MOD * b);
    PullFactor(MOD, a, y);
    PullFactor(MOD, b, x');
    EqByFactor(x * y, x' * y', a * y + b * x');
  }

  lemma EqAdd(x: int, x': int, y: int, y': int)
    requires Eq(x, x') && Eq(y, y')
    ensures Eq(x + y, x' + y') && Eq(x - y, x' - y')
  {
    var a :| x == x' + Multiple(a);
    var b :| y == y' + Multiple(b);
    EqByFactor(x + y, x' + y', a + b);
    EqByFactor(x - y, x' - y', a - b);
  }

  lemma Distribute(c: int, a: int, b: int)
    ensures c * (a + b) == c * a + c * b && (a + b) * c == a * c + b * c
  {
  }

  lemma PullFactor(c: int, a: int, b: int)
    ensures (c * a) * b == c * (a * b)
  {
  }

  lemma Interchange(a: int, b: int, p: int, q: int)
    ensures (a * b) * (p * q) == (a * p) * (b * q)
  {
    PullFactor(a, b, p * q);
    PullFactor(b, p, q);
    PullFactor(p, b, q);
    PullFactor(a, p, b * q);
    assert b * p == p * b;
  }

  function Pow(b: int, e: nat): int { if e == 0 then 1 else b * Pow(b, e - 1) }

  function Pow2(e: nat): (r: nat)
    ensures r >= 1
  {
    if e == 0 then 1 else 2 * Pow2(e - 1)
  }

  lemma {:induction false} PowAdd(b: int, e: nat, f: nat)
    ensures Pow(b, e + f) == Pow(b, e) * Pow(b, f)
  {
    if e == 0 {
    } else {
      PowAdd(b, e - 1, f);
      assert b * (Pow(b, e - 1) * Pow(b, f)) == b * Pow(b, e - 1) * Pow(b, f);
    }
  }

  lemma {:induction false} PowPow(b: int, e: nat, f: nat)
    ensures Pow(Pow(b, e), f) == Pow(b, e * f)
  {
    if f == 0 {
    } else {
      PowPow(b, e, f - 1);
      assert e * f == e + e * (f - 1);
      PowAdd(b, e, e * (f - 1));
    }
  }

  lemma {:induction false} PowMul(a: int, b: int, e: nat)
    ensures Pow(a * b, e) == Pow(a, e) * Pow(b, e)
  {
    if e == 0 {
    } else {
      PowMul(a, b, e - 1);
      Interchange(a, b, Pow(a, e - 1), Pow(b, e - 1));
    }
  }

  lemma {:induction false} PowOne(e: nat)
    ensures Pow(1, e) == 1
  {
    if e > 0 { PowOne(e - 1); }
  }

  lemma {:induction false} EqPow(b: int, b': int, e: nat)
    requires Eq(b, b')
    ensures Eq(Pow(b, e), Pow(b', e))
  {
    if e > 0 {
      EqPow(b, b', e - 1);
      EqMul(b, b', Pow(b, e - 1), Pow(b', e - 1));
    } else {
      EqRefl(1);
    }
  }

  function Sign(e: nat): int { if e % 2 == 0 then 1 else -1 }

  // (-1)^e, as a congruence for any b with b == -1.
  lemma {:induction false} PowMinusOne(b: int, e: nat)
    requires Eq(b, -1)
    ensures Eq(Pow(b, e), Sign(e))
  {
    if e > 0 {
      PowMinusOne(b, e - 1);
      EqMul(b, -1, Pow(b, e - 1), Sign(e - 1));
      assert -1 * Sign(e - 1) == Sign(e);
    } else {
      EqRefl(1);
    }
  }

  // The polynomial with coefficients s, at x.
  function Eval(s: seq<int>, x: int): int
  {
    if s == [] then 0 else s[0] + x * Eval(s[1..], x)
  }

  lemma {:induction false} EqEval(s: seq<int>, x: int, x': int)
    requires Eq(x, x')
    ensures Eq(Eval(s, x), Eval(s, x'))
  {
    if s != [] {
      EqEval(s[1..], x, x');
      EqMul(x, x', Eval(s[1..], x), Eval(s[1..], x'));
      EqRefl(s[0]);
      EqAdd(s[0], s[0], x * Eval(s[1..], x), x' * Eval(s[1..], x'));
    } else {
      EqRefl(0);
    }
  }

  ghost predicate EqSeq(s: seq<int>, t: seq<int>)
  {
    |s| == |t| && forall i :: 0 <= i < |s| ==> Eq(s[i], t[i])
  }

  function Evens(s: seq<int>, h: nat): (r: seq<int>)
    requires |s| == 2 * h
    ensures |r| == h
  {
    seq(h, i requires 0 <= i < h => s[2 * i])
  }

  function Odds(s: seq<int>, h: nat): (r: seq<int>)
    requires |s| == 2 * h
    ensures |r| == h
  {
    seq(h, i requires 0 <= i < h => s[2 * i + 1])
  }

  // The split the transform rests on: p(x) = even(x^2) + x * odd(x^2).
  lemma {:induction false} EvalSplit(s: seq<int>, h: nat, x: int)
    requires |s| == 2 * h
    ensures Eval(s, x) == Eval(Evens(s, h), x * x) + x * Eval(Odds(s, h), x * x)
  {
    if h > 0 {
      var t := s[2..];
      EvalSplit(t, h - 1, x);
      var e, o := Eval(Evens(t, h - 1), x * x), Eval(Odds(t, h - 1), x * x);
      assert s[1..][1..] == t && s[1..][0] == s[1];
      assert Evens(s, h)[1..] == Evens(t, h - 1) && Odds(s, h)[1..] == Odds(t, h - 1);
      var a, b, y := s[0], s[1], x * x;
      assert Eval(s, x) == a + x * (b + x * (e + x * o));
      Distribute(x, e, x * o);
      PullFactor(x, x, o);
      Distribute(x, b, x * e + y * o);
      Distribute(x, x * e, y * o);
      PullFactor(x, x, e);
      Distribute(x, b, y * o);
      assert Eval(Evens(s, h), y) == a + y * e;
      assert Eval(Odds(s, h), y) == b + y * o;
    }
  }

  // 1 + x + ... + x^(n-1)
  function Geo(n: nat, x: int): int { if n == 0 then 0 else Geo(n - 1, x) + Pow(x, n - 1) }

  lemma {:induction false} GeoSplit(n: nat, m: nat, x: int)
    ensures Geo(n + m, x) == Geo(n, x) + Pow(x, n) * Geo(m, x)
  {
    if m == 0 {
    } else {
      GeoSplit(n, m - 1, x);
      PowAdd(x, n, m - 1);
      var p, g, q := Pow(x, n), Geo(m - 1, x), Pow(x, m - 1);
      assert p * (g + q) == p * g + p * q;
    }
  }

  lemma {:induction false} EqGeo(n: nat, x: int, x': int)
    requires Eq(x, x')
    ensures Eq(Geo(n, x), Geo(n, x'))
  {
    if n > 0 {
      EqGeo(n - 1, x, x');
      EqPow(x, x', n - 1);
      EqAdd(Geo(n - 1, x), Geo(n - 1, x'), Pow(x, n - 1), Pow(x', n - 1));
    } else {
      EqRefl(0);
    }
  }

  lemma {:induction false} GeoOne(n: nat)
    ensures Geo(n, 1) == n
  {
    if n > 0 {
      GeoOne(n - 1);
      PowOne(n - 1);
    }
  }

  // The powers of a primitive 2^m-th root sum to zero (no use of primality:
  // the sum factors into terms 1 + w^(2^t), one of which vanishes).
  lemma {:induction false} GeoZero(m: nat, w: int, d: nat)
    requires m >= 1 && Eq(Pow(w, Pow2(m - 1)), -1)
    requires 0 < d < Pow2(m)
    ensures Eq(Geo(Pow2(m), Pow(w, d)), 0)
    decreases m
  {
    var h, x := Pow2(m - 1), Pow(w, d);
    var g := Geo(h, x);
    GeoSplit(h, h, x);
    PowPow(w, d, h);
    PowPow(w, h, d);
    assert d * h == h * d;
    PowMinusOne(Pow(w, h), d);
    EqRefl(g);
    if d % 2 == 1 {
      EqMul(Pow(x, h), -1, g, g);
      EqAdd(g, g, Pow(x, h) * g, -1 * g);
    } else {
      SquareRoot(m, w);
      PowMul(w, w, d / 2);
      PowAdd(w, d / 2, d / 2);
      GeoZero(m - 1, w * w, d / 2);
      EqRefl(Pow(x, h));
      EqMul(Pow(x, h), Pow(x, h), g, 0);
      EqAdd(g, 0, Pow(x, h) * g, 0);
    }
  }

  lemma SquareRoot(m: nat, w: int)
    requires m >= 2 && Eq(Pow(w, Pow2(m - 1)), -1)
    ensures Eq(Pow(w * w, Pow2(m - 2)), -1)
  {
    var q := Pow2(m - 2);
    PowMul(w, w, q);
    PowAdd(w, q, q);
    assert Pow2(m - 1) == q + q;
  }
}
