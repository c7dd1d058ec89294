// The inverse transform undoes the forward one: for every input, and any t that
// is the inverse transform of its forward transform, t holds the residues of
// the input.
module DftInverse {
  import opened ModArith
  import opened DftSpec
  import opened Dft

  // The double sum over j < n and i < |s| of s[i] * (w^i * y)^j, summed by j ...
  ghost function ByFrequency(s: seq<int>, w: int, y: int, n: nat): int
  {
    if n == 0 then 0 else ByFrequency(s, w, y, n - 1) + Eval(s, Pow(w, n - 1)) * Pow(y, n - 1)
  }

  // ... and by i.
  ghost function ByPosition(s: seq<int>, w: int, y: int, n: nat): int
  {
    if s == [] then 0 else s[0] * Geo(n, y) + ByPosition(s[1..], w, w * y, n)
  }

  lemma {:induction false} ByFrequencyOfNone(w: int, y: int, n: nat)
    ensures ByFrequency([], w, y, n) == 0
  {
    if n > 0 { ByFrequencyOfNone(w, y, n - 1); }
  }

  lemma {:induction false} PeelPosition(s: seq<int>, w: int, y: int, n: nat)
    requires s != []
    ensures ByFrequency(s, w, y, n) == s[0] * Geo(n, y) + ByFrequency(s[1..], w, w * y, n)
  {
    if n > 0 {
      PeelPosition(s, w, y, n - 1);
      var x, p, e := Pow(w, n - 1), Pow(y, n - 1), Eval(s[1..], Pow(w, n - 1));
      PowMul(w, y, n - 1);
      Distribute(p, s[0], x * e);
      Distribute(s[0], Geo(n - 1, y), p);
      PullFactor(x, e, p);
      PullFactor(e, x, p);
      PullFactor(x, p, e);
      assert (x * e) * p == e * (x * p);
    }
  }

  lemma {:induction false} ExchangeSums(s: seq<int>, w: int, y: int, n: nat)
    ensures ByFrequency(s, w, y, n) == ByPosition(s, w, y, n)
  {
    if s == [] {
      ByFrequencyOfNone(w, y, n);
    } else {
      PeelPosition(s, w, y, n);
      ExchangeSums(s[1..], w, w * y, n);
    }
  }

  // With v the inverse of w: the node w^i * v^k is a power of w or of v, or 1.
  lemma NodePower(w: int, v: int, i: nat, k: nat)
    requires Eq(w * v, 1)
    ensures Eq(Pow(w, i) * Pow(v, k), if i < k then Pow(v, k - i) else Pow(w, i - k))
  {
    var c := if i < k then i else k;
    PowMul(w, v, c);
    EqPow(w * v, 1, c);
    PowOne(c);
    PowAdd(w, c, i - c);
    PowAdd(v, c, k - c);
    var p, q := Pow(w, i - c), Pow(v, k - c);
    Interchange(Pow(w, c), p, Pow(v, c), q);
    EqRefl(p * q);
    EqMul(Pow(w, c) * Pow(v, c), 1, p * q, p * q);
    assert p == 1 || q == 1;
  }

  // Orthogonality: the powers of the node w^i * v^k sum to n when i == k, else to 0.
  lemma Orthogonality(m: nat, w: int, v: int, i: nat, k: nat, y: int)
    requires Eq(w * v, 1) && i < Pow2(m) && k < Pow2(m)
    requires m >= 1 ==> Eq(Pow(w, Pow2(m - 1)), -1) && Eq(Pow(v, Pow2(m - 1)), -1)
    requires Eq(y, Pow(w, i) * Pow(v, k))
    ensures Eq(Geo(Pow2(m), y), if i == k then Pow2(m) else 0)
  {
    var n, x := Pow2(m), if i < k then Pow(v, k - i) else Pow(w, i - k);
    NodePower(w, v, i, k);
    EqTrans(y, Pow(w, i) * Pow(v, k), x);
    EqGeo(n, y, x);
    if i < k {
      GeoZero(m, v, k - i);
      EqTrans(Geo(n, y), Geo(n, x), 0);
    } else if i > k {
      GeoZero(m, w, i - k);
      EqTrans(Geo(n, y), Geo(n, x), 0);
    } else {
      GeoOne(n);
    }
  }

  lemma NextNode(w: int, v: int, i: nat, k: nat, y: int)
    requires Eq(y, Pow(w, i) * Pow(v, k))
    ensures Eq(w * y, Pow(w, i + 1) * Pow(v, k))
  {
    EqRefl(w);
    EqMul(w, w, y, Pow(w, i) * Pow(v, k));
    PullFactor(w, Pow(w, i), Pow(v, k));
  }

  // Summed by position, only the k-th coefficient survives, n times.
  lemma {:induction false} OnlyOneSurvives(s: seq<int>, m: nat, w: int, v: int, i: nat, k: nat, y: int)
    requires Eq(w * v, 1) && i + |s| == Pow2(m) && k < Pow2(m)
    requires m >= 1 ==> Eq(Pow(w, Pow2(m - 1)), -1) && Eq(Pow(v, Pow2(m - 1)), -1)
    requires Eq(y, Pow(w, i) * Pow(v, k))
    ensures Eq(ByPosition(s, w, y, Pow2(m)), if i <= k then Pow2(m) * s[k - i] else 0)
    decreases |s|
  {
    var n := Pow2(m);
    if s == [] {
      EqRefl(0);
    } else {
      NextNode(w, v, i, k, y);
      OnlyOneSurvives(s[1..], m, w, v, i + 1, k, w * y);
      Orthogonality(m, w, v, i, k, y);
      var rest := ByPosition(s[1..], w, w * y, n);
      if i == k {
        AddTerm(s[0], Geo(n, y), n, rest, 0);
      } else {
        AddTerm(s[0], Geo(n, y), 0, rest, if i < k then n * s[k - i] else 0);
      }
    }
  }

  lemma AddTerm(c: int, g: int, g': int, r: int, r': int)
    requires Eq(g, g') && Eq(r, r')
    ensures Eq(c * g + r, g' * c + r')
  {
    EqRefl(c);
    EqMul(c, c, g, g');
    EqAdd(c * g, c * g', r, r');
  }

  // The inverse sum over the forward transform is the sum by frequency.
  lemma {:induction false} SumOverForward(s: seq<int>, f: seq<int>, w: int, v: int, k: nat, n: nat)
    requires n <= |f| && forall j :: 0 <= j < n ==> Eq(f[j], Eval(s, Pow(w, j)))
    ensures Eq(DftSum(f, v, k, n), ByFrequency(s, w, Pow(v, k), n))
  {
    if n == 0 {
      EqRefl(0);
    } else {
      SumOverForward(s, f, w, v, k, n - 1);
      PowPow(v, k, n - 1);
      assert k * (n - 1) == (n - 1) * k;
      var p := Pow(v, (n - 1) * k);
      EqRefl(p);
      EqMul(f[n - 1], Eval(s, Pow(w, n - 1)), p, p);
      EqAdd(DftSum(f, v, k, n - 1), ByFrequency(s, w, Pow(v, k), n - 1), f[n - 1] * p, Eval(s, Pow(w, n - 1)) * p);
    }
  }

  lemma ForwardIsEval(s: seq<int>, m: nat, j: nat)
    requires m <= LOG_ROOT_PW && j < |s|
    ensures Eq(Forward(s, m)[j], Eval(s, Pow(PrincipalRoot(false, m), j)))
  {
    var w := PrincipalRoot(false, m);
    SumIsEval(s, w, j, |s|);
    assert s[..|s|] == s;
    ResidueEq(DftSum(s, w, j, |s|));
  }

  lemma InverseSum(s: seq<int>, m: nat, k: nat)
    requires m <= LOG_ROOT_PW && |s| == Pow2(m) && k < |s|
    ensures Eq(DftSum(Forward(s, m), PrincipalRoot(true, m), k, |s|), |s| * s[k])
  {
    var w, v, n, f := PrincipalRoot(false, m), PrincipalRoot(true, m), |s|, Forward(s, m);
    forall j | 0 <= j < n ensures Eq(f[j], Eval(s, Pow(w, j))) { ForwardIsEval(s, m, j); }
    SumOverForward(s, f, w, v, k, n);
    ExchangeSums(s, w, Pow(v, k), n);
    PrincipalInverse(m);
    if m >= 1 {
      PrincipalHalfTurn(false, m);
      PrincipalHalfTurn(true, m);
    }
    assert Pow(w, 0) * Pow(v, k) == Pow(v, k);
    EqRefl(Pow(v, k));
    OnlyOneSurvives(s, m, w, v, 0, k, Pow(v, k));
    EqTrans(DftSum(f, v, k, n), ByPosition(s, w, Pow(v, k), n), n * s[k]);
  }

  lemma CancelLength(n: nat, m: nat, x: int, y: int)
    requires n == Pow2(m) && Eq(n * x, n * y)
    ensures Eq(x, y)
  {
    var r := Pow(n, MOD - 2);
    LengthPower(n, m);
    CancelFactor(n, r, x);
    CancelFactor(n, r, y);
    EqRefl(r);
    EqMul(r, r, n * x, n * y);
    EqSym(r * (n * x), x);
    EqTrans(x, r * (n * x), r * (n * y));
    EqTrans(x, r * (n * y), y);
  }

  lemma CancelFactor(n: int, r: int, x: int)
    requires Eq(n * r, 1)
    ensures Eq(r * (n * x), x)
  {
    EqRefl(x);
    EqMul(n * r, 1, x, x);
    PullFactor(r, n, x);
    assert (r * n) * x == (n * r) * x;
  }

  // dft(a, n, 1) after dft(a, n, 0) restores the residues of the input.
  lemma RestoredAt(s: seq<int>, t: seq<int>, m: nat, k: nat)
    requires m <= LOG_ROOT_PW && |s| == Pow2(m) && IsInverse(Forward(s, m), t, m) && k < |s|
    ensures t[k] == s[k] % MOD
  {
    InverseSum(s, m, k);
    EqTrans(|s| * t[k], DftSum(Forward(s, m), PrincipalRoot(true, m), k, |s|), |s| * s[k]);
    CancelLength(|s|, m, t[k], s[k]);
    EqResidue(t[k], s[k]);
  }

  lemma InverseRestores(s: seq<int>, t: seq<int>, m: nat)
    requires m <= LOG_ROOT_PW && |s| == Pow2(m) && IsInverse(Forward(s, m), t, m)
    ensures forall k :: 0 <= k < |s| ==> t[k] == s[k] % MOD
  {
    forall k | 0 <= k < |s| ensures t[k] == s[k] % MOD {
      RestoredAt(s, t, m, k);
    }
  }

  method RoundTrip(a: array<int64>, n: int, ghost m: nat)
    requires m <= LOG_ROOT_PW && n == a.Length == Pow2(m)
    requires Within(a[..], INPUT_LIMIT)
    modifies a
    ensures forall k :: 0 <= k < n ==> a[k] == old(a[k]) % MOD
  {
    ghost var s := a[..];
    Transform(a, n, false, m);
    Transform(a, n, true, m);
    InverseRestores(s, a[..], m);
  }
}
