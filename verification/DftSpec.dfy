// The in-place number-theoretic transform of examples/dft/example.c.
//
// The specification is the defining sum; the bit-reversal permutation and the
// butterfly stages are proved to compute it, in 64-bit arithmetic that never
// overflows, and the inverse flag is proved to undo it.
module DftSpec {
  import opened ModArith

  type int64 = x: int | -0x8000_0000_0000_0000 <= x <= 0x7fff_ffff_ffff_ffff

  const ROOT := 5
  const ROOT_1 := 4404020
  const LOG_ROOT_PW := 20

  // Inputs this far from the ends of the 64-bit range cannot overflow the first stage.
  const INPUT_LIMIT := 0x8000_0000_0000_0000 - MOD

  // C's remainder, which truncates toward zero.
  function Rem(x: int, y: int): (r: int)
    requires y > 0
    ensures -y < r < y
  {
    if x >= 0 then x % y else -((-x) % y)
  }

  lemma RemResidue(x: int)
    ensures Eq(Rem(x, MOD), x)
  {
    EqResidue(Rem(x, MOD), x);
  }

  ghost predicate Within(s: seq<int>, bound: int)
  {
    forall i :: 0 <= i < |s| ==> -bound <= s[i] <= bound
  }

  // ---------------------------------------------------------------- specification

  // 5^(2^20/n), or its inverse, for n = 2^m: the root whose powers the sum uses.
  ghost function PrincipalRoot(inv: bool, m: nat): int
    requires m <= LOG_ROOT_PW
  {
    Pow(if inv then ROOT_1 else ROOT, Pow2(LOG_ROOT_PW - m))
  }

  // The sum over j < n of s[j] * w^(j*k).
  ghost function DftSum(s: seq<int>, w: int, k: nat, n: nat): int
    requires n <= |s|
  {
    if n == 0 then 0 else DftSum(s, w, k, n - 1) + s[n - 1] * Pow(w, (n - 1) * k)
  }

  // The forward transform: canonical residues of the defining sums.
  ghost function Forward(s: seq<int>, m: nat): (r: seq<int>)
    requires m <= LOG_ROOT_PW
    ensures |r| == |s|
  {
    seq(|s|, k requires 0 <= k < |s| => DftSum(s, PrincipalRoot(false, m), k, |s|) % MOD)
  }

  // t is the inverse transform of s: n * t[k] is the sum over the inverse root.
  ghost predicate IsInverse(s: seq<int>, t: seq<int>, m: nat)
    requires m <= LOG_ROOT_PW
  {
    |t| == |s| &&
    forall k :: 0 <= k < |t| ==>
      0 <= t[k] < MOD && Eq(|s| * t[k], DftSum(s, PrincipalRoot(true, m), k, |s|))
  }

  // ---------------------------------------------------------------- roots of unity

  function Square(w: int): int { w * w % MOD }

  function Squared(w: int, c: nat): int { if c == 0 then w else Square(Squared(w, c - 1)) }

  // The root the program computes for blocks of 2^m elements.
  function UnityRoot(inv: bool, m: nat): int
    requires m <= LOG_ROOT_PW
  {
    Squared(if inv then ROOT_1 else ROOT, LOG_ROOT_PW - m)
  }

  lemma {:induction false} SquaredIsPow(w: int, c: nat)
    ensures Eq(Squared(w, c), Pow(w, Pow2(c)))
  {
    if c == 0 {
      assert Pow(w, 1) == w * Pow(w, 0);
      EqRefl(w);
    } else {
      SquaredIsPow(w, c - 1);
      SquareStep(Squared(w, c - 1), Pow(w, Pow2(c - 1)));
      PowAdd(w, Pow2(c - 1), Pow2(c - 1));
    }
  }

  lemma SquareStep(x: int, y: int)
    requires Eq(x, y)
    ensures Eq(Square(x), y * y)
  {
    EqMul(x, y, x, y);
    ResidueEq(x * x);
    EqTrans(Square(x), x * x, y * y);
  }

  lemma UnityRootIsPrincipal(inv: bool, m: nat)
    requires m <= LOG_ROOT_PW
    ensures Eq(UnityRoot(inv, m), PrincipalRoot(inv, m))
    ensures PrincipalRoot(inv, m) == if inv then Pow(4404020, Pow2(20 - m)) else Pow(5, Pow2(20 - m))
  {
    SquaredIsPow(if inv then ROOT_1 else ROOT, LOG_ROOT_PW - m);
  }

  // Nineteen squarings of either root give -1, so the roots have order 2^20.
  lemma RootHalfOrder()
    ensures Squared(ROOT, 19) == MOD - 1
  {
    assert Squared(ROOT, 1) == 25;
    assert Squared(ROOT, 2) == 625;
    assert Squared(ROOT, 3) == 390625;
    assert Squared(ROOT, 4) == 3284621;
    assert Squared(ROOT, 5) == 2288657;
    assert Squared(ROOT, 6) == 554387;
    assert Squared(ROOT, 7) == 3083993;
    assert Squared(ROOT, 8) == 3583573;
    assert Squared(ROOT, 9) == 5830123;
    assert Squared(ROOT, 10) == 6618267;
    assert Squared(ROOT, 11) == 1996647;
    assert Squared(ROOT, 12) == 7119319;
    assert Squared(ROOT, 13) == 6210808;
    assert Squared(ROOT, 14) == 1867700;
    assert Squared(ROOT, 15) == 3986981;
    assert Squared(ROOT, 16) == 1627581;
    assert Squared(ROOT, 17) == 2001861;
    assert Squared(ROOT, 18) == 2306278;
    assert Squared(ROOT, 19) == 7340032;
  }

  lemma InverseRootHalfOrder()
    ensures Squared(ROOT_1, 19) == MOD - 1
  {
    assert Squared(ROOT_1, 1) == 880804;
    assert Squared(ROOT_1, 2) == 3558448;
    assert Squared(ROOT_1, 3) == 4339249;
    assert Squared(ROOT_1, 4) == 3510487;
    assert Squared(ROOT_1, 5) == 7271984;
    assert Squared(ROOT_1, 6) == 6445611;
    assert Squared(ROOT_1, 7) == 517414;
    assert Squared(ROOT_1, 8) == 4223787;
    assert Squared(ROOT_1, 9) == 692955;
    assert Squared(ROOT_1, 10) == 1673165;
    assert Squared(ROOT_1, 11) == 7211091;
    assert Squared(ROOT_1, 12) == 864619;
    assert Squared(ROOT_1, 13) == 5674210;
    assert Squared(ROOT_1, 14) == 731382;
    assert Squared(ROOT_1, 15) == 44983;
    assert Squared(ROOT_1, 16) == 4961214;
    assert Squared(ROOT_1, 17) == 3413510;
    assert Squared(ROOT_1, 18) == 5033755;
    assert Squared(ROOT_1, 19) == 7340032;
  }

  // 2^(MOD-1) == 1, since MOD - 1 == 7 * 2^20.
  lemma TwoOrder()
    ensures Eq(Pow(2, MOD - 1), 1)
  {
    assert Pow(2, 1) == 2 && Pow(2, 3) == 8;
    PowAdd(2, 3, 3);
    PowAdd(2, 6, 1);
    var y := 128;
    assert Pow(2, 7) == y;
    assert Squared(y, 1) == 16384;
    assert Squared(y, 2) == 4194268;
    assert Squared(y, 3) == 4944625;
    assert Squared(y, 4) == 4109143;
    assert Squared(y, 5) == 241051;
    assert Squared(y, 6) == 1883373;
    assert Squared(y, 7) == 889780;
    assert Squared(y, 8) == 5148987;
    assert Squared(y, 9) == 50763;
    assert Squared(y, 10) == 530586;
    assert Squared(y, 11) == 1877714;
    assert Squared(y, 12) == 2994147;
    assert Squared(y, 13) == 5472333;
    assert Squared(y, 14) == 3986981;
    assert Squared(y, 15) == 1627581;
    assert Squared(y, 16) == 2001861;
    assert Squared(y, 17) == 2306278;
    assert Squared(y, 18) == 7340032;
    assert Squared(y, 19) == 1;
    assert Squared(y, 20) == 1;
    SquaredIsPow(y, 20);
    EqSym(1, Pow(y, Pow2(20)));
    Pow2Twenty();
    PowPow(2, 7, Pow2(20));
  }

  lemma Pow2Twenty()
    ensures Pow2(20) == 1048576
  {
    assert Pow2(5) == 32;
    assert Pow2(10) == 1024;
    assert Pow2(15) == 32768;
  }

  lemma {:induction false} Pow2Add(e: nat, f: nat)
    ensures Pow2(e + f) == Pow2(e) * Pow2(f)
  {
    if e == 0 {
    } else {
      Pow2Add(e - 1, f);
      PullFactor(2, Pow2(e - 1), Pow2(f));
    }
  }

  // Half a turn of the principal root is -1.
  lemma PrincipalHalfTurn(inv: bool, m: nat)
    requires 1 <= m <= LOG_ROOT_PW
    ensures Eq(Pow(PrincipalRoot(inv, m), Pow2(m - 1)), -1)
  {
    var root := if inv then ROOT_1 else ROOT;
    PowPow(root, Pow2(LOG_ROOT_PW - m), Pow2(m - 1));
    Pow2Add(LOG_ROOT_PW - m, m - 1);
    RootHalfOrder();
    InverseRootHalfOrder();
    SquaredIsPow(root, 19);
    EqSym(Squared(root, 19), Pow(root, Pow2(19)));
    EqByFactor(MOD - 1, -1, 1);
    EqTrans(Pow(root, Pow2(19)), MOD - 1, -1);
  }

  // The two principal roots are inverses of each other.
  lemma PrincipalInverse(m: nat)
    requires m <= LOG_ROOT_PW
    ensures Eq(PrincipalRoot(false, m) * PrincipalRoot(true, m), 1)
  {
    var e := Pow2(LOG_ROOT_PW - m);
    PowMul(ROOT, ROOT_1, e);
    EqByFactor(ROOT * ROOT_1, 1, 3);
    EqPow(ROOT * ROOT_1, 1, e);
    PowOne(e);
  }

  // ---------------------------------------------------------------- the recursive transform

  // One butterfly over the transforms e and o of the even and odd halves.
  function Butterfly(e: seq<int>, o: seq<int>, w: int): (r: seq<int>)
    requires |e| == |o|
    ensures |r| == 2 * |e|
  {
    var h := |e|;
    seq(2 * h, k requires 0 <= k < 2 * h =>
      if k < h then e[k] + o[k] * Pow(w, k) else e[k - h] - o[k - h] * Pow(w, k - h))
  }

  ghost function Fft(s: seq<int>, inv: bool, m: nat): (r: seq<int>)
    requires |s| == Pow2(m) && m <= LOG_ROOT_PW
    ensures |r| == |s|
    decreases m
  {
    if m == 0 then s
    else Butterfly(Fft(Evens(s, Pow2(m - 1)), inv, m - 1), Fft(Odds(s, Pow2(m - 1)), inv, m - 1), UnityRoot(inv, m))
  }

  // The recursive transform evaluates the polynomial s at the powers of the root.
  // One butterfly, from what its halves e and o evaluate to.
  lemma ButterflyEvaluates(s: seq<int>, inv: bool, m: nat, e: seq<int>, o: seq<int>, k: nat, i: nat)
    requires |s| == Pow2(m) && 1 <= m <= LOG_ROOT_PW && k < |s| && |e| == |o| == Pow2(m - 1)
    requires i == (if k < Pow2(m - 1) then k else k - Pow2(m - 1)) && i < Pow2(m - 1)
    requires Eq(e[i], Eval(Evens(s, Pow2(m - 1)), Pow(UnityRoot(inv, m - 1), i)))
    requires Eq(o[i], Eval(Odds(s, Pow2(m - 1)), Pow(UnityRoot(inv, m - 1), i)))
    ensures Eq(Butterfly(e, o, UnityRoot(inv, m))[k], Eval(s, Pow(UnityRoot(inv, m), k)))
  {
    HalfRootPower(inv, m, i);
    PowerAboutHalf(inv, m, k);
    FftCombine(s, Pow2(m - 1), e, o, UnityRoot(inv, m), Pow(UnityRoot(inv, m - 1), i), k, i);
  }

  lemma {:induction false} FftEvaluates(s: seq<int>, inv: bool, m: nat, k: nat)
    requires |s| == Pow2(m) && m <= LOG_ROOT_PW && k < |s|
    ensures Eq(Fft(s, inv, m)[k], Eval(s, Pow(UnityRoot(inv, m), k)))
    decreases m
  {
    if m == 0 {
      FftOfOne(s, inv, k);
    } else {
      var n, h := m - 1, Pow2(m - 1);
      var e, o, i := Evens(s, h), Odds(s, h), if k < h then k else k - h;
      FftEvaluates(e, inv, n, i);
      FftEvaluates(o, inv, n, i);
      ButterflyEvaluates(s, inv, m, Fft(e, inv, n), Fft(o, inv, n), k, i);
      FftUnfolds(s, inv, m, n, h);
    }
  }

  lemma FftUnfolds(s: seq<int>, inv: bool, m: nat, n: nat, h: nat)
    requires |s| == Pow2(m) && m == n + 1 <= LOG_ROOT_PW && h == Pow2(n)
    ensures Fft(s, inv, m) == Butterfly(Fft(Evens(s, h), inv, n), Fft(Odds(s, h), inv, n), UnityRoot(inv, m))
  {
  }

  lemma FftOfOne(s: seq<int>, inv: bool, k: nat)
    requires |s| == 1 && k == 0
    ensures Eq(Fft(s, inv, 0)[k], Eval(s, Pow(UnityRoot(inv, 0), k)))
  {
    EvalConstant(s, Pow(UnityRoot(inv, 0), k));
    EqRefl(s[0]);
  }

  lemma EvalConstant(s: seq<int>, x: int)
    requires |s| == 1
    ensures Eval(s, x) == s[0]
  {
    assert s[1..] == [] && x * 0 == 0;
  }

  lemma FftCombine(s: seq<int>, h: nat, e: seq<int>, o: seq<int>, w: int, z: int, k: nat, i: nat)
    requires |s| == 2 * h && |e| == |o| == h && k < 2 * h
    requires i == if k < h then k else k - h
    requires Eq(e[i], Eval(Evens(s, h), z)) && Eq(o[i], Eval(Odds(s, h), z))
    requires Eq(z, Pow(w, i) * Pow(w, i)) && Eq(Pow(w, k), Signed(k < h, Pow(w, i)))
    ensures Eq(Butterfly(e, o, w)[k], Eval(s, Pow(w, k)))
  {
    EvalButterfly(s, h, Pow(w, k), Pow(w, i), z, k < h, e[i], o[i]);
    ButterflyAt(e, o, w, k, i);
  }

  lemma ButterflyAt(e: seq<int>, o: seq<int>, w: int, k: nat, i: nat)
    requires |e| == |o| && k < 2 * |e|
    requires i == if k < |e| then k else k - |e|
    ensures Butterfly(e, o, w)[k] == Signed(k < |e|, o[i] * Pow(w, i)) + e[i]
  {
  }

  function Signed(positive: bool, x: int): int { if positive then x else -x }

  lemma PowerAboutHalf(inv: bool, m: nat, k: nat)
    requires 1 <= m <= LOG_ROOT_PW
    ensures var h, w := Pow2(m - 1), UnityRoot(inv, m);
            Eq(Pow(w, k), Signed(k < h, Pow(w, if k < h then k else k - h)))
  {
    var h, w := Pow2(m - 1), UnityRoot(inv, m);
    if k < h {
      EqRefl(Pow(w, k));
    } else {
      UnityHalfTurn(inv, m);
      PowAdd(w, h, k - h);
      EqRefl(Pow(w, k - h));
      EqMul(Pow(w, h), -1, Pow(w, k - h), Pow(w, k - h));
    }
  }

  lemma UnityHalfTurn(inv: bool, m: nat)
    requires 1 <= m <= LOG_ROOT_PW
    ensures Eq(Pow(UnityRoot(inv, m), Pow2(m - 1)), -1)
  {
    UnityRootIsPrincipal(inv, m);
    EqPow(UnityRoot(inv, m), PrincipalRoot(inv, m), Pow2(m - 1));
    PrincipalHalfTurn(inv, m);
    EqTrans(Pow(UnityRoot(inv, m), Pow2(m - 1)), Pow(PrincipalRoot(inv, m), Pow2(m - 1)), -1);
  }

  // Powers of the half-size root are squares of powers of the full-size root.
  lemma HalfRootPower(inv: bool, m: nat, i: nat)
    requires 1 <= m <= LOG_ROOT_PW
    ensures Eq(Pow(UnityRoot(inv, m - 1), i), Pow(UnityRoot(inv, m), i) * Pow(UnityRoot(inv, m), i))
  {
    var w := UnityRoot(inv, m);
    assert UnityRoot(inv, m - 1) == Square(w);
    ResidueEq(w * w);
    EqPow(Square(w), w * w, i);
    PowMul(w, w, i);
  }

  // Combining the half transforms, taken at z == x^2, at y == x or y == -x.
  lemma EvalButterfly(s: seq<int>, h: nat, y: int, x: int, z: int, positive: bool, e: int, o: int)
    requires |s| == 2 * h
    requires Eq(y, Signed(positive, x)) && Eq(z, x * x)
    requires Eq(e, Eval(Evens(s, h), z)) && Eq(o, Eval(Odds(s, h), z))
    ensures Eq(Signed(positive, o * x) + e, Eval(s, y))
  {
    var even, odd := Eval(Evens(s, h), x * x), Eval(Odds(s, h), x * x);
    EqEval(Evens(s, h), z, x * x);
    EqEval(Odds(s, h), z, x * x);
    EqTrans(e, Eval(Evens(s, h), z), even);
    EqTrans(o, Eval(Odds(s, h), z), odd);
    EqRefl(x);
    EqMul(o, odd, x, x);
    EqRefl(0);
    EqAdd(0, 0, o * x, odd * x);
    EqAdd(Signed(positive, o * x), Signed(positive, odd * x), e, even);
    EvalSplitSigned(s, h, x, positive);
    EqEval(s, y, Signed(positive, x));
    EqSym(Eval(s, y), Eval(s, Signed(positive, x)));
    EqTrans(Signed(positive, o * x) + e, Eval(s, Signed(positive, x)), Eval(s, y));
  }

  lemma SignedProducts(positive: bool, x: int, c: int)
    ensures Signed(positive, x) * Signed(positive, x) == x * x
    ensures Signed(positive, x) * c == Signed(positive, c * x)
  {
    if !positive { assert (-x) * c == -(x * c); }
  }

  lemma EvalSplitSigned(s: seq<int>, h: nat, x: int, positive: bool)
    requires |s| == 2 * h
    ensures Eval(s, Signed(positive, x)) == Eval(Evens(s, h), x * x) + Signed(positive, Eval(Odds(s, h), x * x) * x)
  {
    var z := Signed(positive, x);
    EvalSplit(s, h, z);
    SignedProducts(positive, x, Eval(Odds(s, h), x * x));
  }

  // ---------------------------------------------------------------- the sum is the polynomial

  lemma {:induction false} EvalSnoc(s: seq<int>, c: int, x: int)
    ensures Eval(s + [c], x) == Eval(s, x) + c * Pow(x, |s|)
  {
    if s == [] {
      assert ([] + [c])[1..] == [];
      assert Eval([c][1..], x) == 0;
    } else {
      EvalSnoc(s[1..], c, x);
      assert (s + [c])[1..] == s[1..] + [c];
      Distribute(x, Eval(s[1..], x), c * Pow(x, |s| - 1));
      PullFactor(c, x, Pow(x, |s| - 1));
      PullFactor(x, c, Pow(x, |s| - 1));
      assert c * x == x * c;
    }
  }

  lemma {:induction false} SumIsEval(s: seq<int>, w: int, k: nat, n: nat)
    requires n <= |s|
    ensures DftSum(s, w, k, n) == Eval(s[..n], Pow(w, k))
  {
    if n > 0 {
      SumIsEval(s, w, k, n - 1);
      assert s[..n] == s[..n - 1] + [s[n - 1]];
      EvalSnoc(s[..n - 1], s[n - 1], Pow(w, k));
      PowPow(w, k, n - 1);
      assert k * (n - 1) == (n - 1) * k;
    }
  }

  lemma SumAtRoot(s: seq<int>, w: int, v: int, k: nat)
    requires Eq(w, v)
    ensures Eq(Eval(s, Pow(w, k)), DftSum(s, v, k, |s|))
  {
    EqPow(w, v, k);
    EqEval(s, Pow(w, k), Pow(v, k));
    SumIsEval(s, v, k, |s|);
    assert s[..|s|] == s;
  }

  // Hence the recursive transform computes the defining sums.
  lemma FftIsSum(s: seq<int>, inv: bool, m: nat, k: nat)
    requires |s| == Pow2(m) && m <= LOG_ROOT_PW && k < |s|
    ensures Eq(Fft(s, inv, m)[k], DftSum(s, PrincipalRoot(inv, m), k, |s|))
  {
    FftEvaluates(s, inv, m, k);
    UnityRootIsPrincipal(inv, m);
    SumAtRoot(s, UnityRoot(inv, m), PrincipalRoot(inv, m), k);
    EqTrans(Fft(s, inv, m)[k], Eval(s, Pow(UnityRoot(inv, m), k)), DftSum(s, PrincipalRoot(inv, m), k, |s|));
  }
}
