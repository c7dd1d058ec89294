// The loops of examples/dft/example.c, proved against the recursive transform
// of DftSpec: the bit-reversal permutation, the butterfly stages over the
// array, and the final scaling.
module Dft {
  import opened ModArith
  import opened DftSpec

  // ---------------------------------------------------------------- bit reversal

  // x with its m low bits reversed.
  function Rev(m: nat, x: nat): (r: nat)
    requires x < Pow2(m)
    ensures r < Pow2(m)
  {
    if m == 0 then 0
    else if x < Pow2(m - 1) then 2 * Rev(m - 1, x)
    else 2 * Rev(m - 1, x - Pow2(m - 1)) + 1
  }

  lemma {:induction false} RevLowBit(m: nat, y: nat, b: nat)
    requires y < Pow2(m) && b < 2
    ensures Rev(m + 1, 2 * y + b) == b * Pow2(m) + Rev(m, y)
  {
    if m == 0 {
      assert Rev(0, 0) == 0;
    } else if y < Pow2(m - 1) {
      RevLowBit(m - 1, y, b);
    } else {
      RevLowBit(m - 1, y - Pow2(m - 1), b);
    }
  }

  lemma {:induction false} RevInvolution(m: nat, x: nat)
    requires x < Pow2(m)
    ensures Rev(m, Rev(m, x)) == x
  {
    if m == 0 {
    } else if x < Pow2(m - 1) {
      RevInvolution(m - 1, x);
      RevLowBit(m - 1, Rev(m - 1, x), 0);
    } else {
      RevInvolution(m - 1, x - Pow2(m - 1));
      RevLowBit(m - 1, Rev(m - 1, x - Pow2(m - 1)), 1);
    }
  }

  // Adding one from the top bit down: the loop's carry step on reversed numbers.
  function Carry(j: nat, m: nat): nat
    requires j < 2 * Pow2(m) - 1
  {
    if j >= Pow2(m) then Carry(j - Pow2(m), m - 1) else j + Pow2(m)
  }

  lemma {:induction false} CarryReverses(m: nat, x: nat)
    requires x + 1 < Pow2(m + 1)
    ensures Rev(m + 1, x) < 2 * Pow2(m) - 1
    ensures Carry(Rev(m + 1, x), m) == Rev(m + 1, x + 1)
  {
    var y := x / 2;
    assert Pow2(1) == 2;
    if x == 2 * y {
      CarryEven(m, y);
    } else {
      CarryReverses(m - 1, y);
      CarryOdd(m, y);
    }
  }

  lemma CarryEven(m: nat, y: nat)
    requires 2 * y + 1 < Pow2(m + 1)
    ensures Rev(m + 1, 2 * y) < 2 * Pow2(m) - 1
    ensures Carry(Rev(m + 1, 2 * y), m) == Rev(m + 1, 2 * y + 1)
  {
    RevLowBit(m, y, 0);
    RevLowBit(m, y, 1);
  }

  lemma CarryOdd(m: nat, y: nat)
    requires m > 0 && 2 * y + 2 < Pow2(m + 1)
    requires Rev(m, y) < 2 * Pow2(m - 1) - 1
    requires Carry(Rev(m, y), m - 1) == Rev(m, y + 1)
    ensures Rev(m + 1, 2 * y + 1) < 2 * Pow2(m) - 1
    ensures Carry(Rev(m + 1, 2 * y + 1), m) == Rev(m + 1, 2 * y + 2)
  {
    RevLowBit(m, y, 1);
    RevLowBit(m, y + 1, 0);
  }

  // The order in which the recursive transform consumes its input.
  ghost function BitReversed(s: seq<int>, m: nat): (r: seq<int>)
    requires |s| == Pow2(m)
    ensures |r| == |s|
    decreases m
  {
    if m == 0 then s else BitReversed(Evens(s, Pow2(m - 1)), m - 1) + BitReversed(Odds(s, Pow2(m - 1)), m - 1)
  }

  lemma {:induction false} BitReversedAt(s: seq<int>, m: nat, x: nat)
    requires |s| == Pow2(m) && x < |s|
    ensures BitReversed(s, m)[x] == s[Rev(m, x)]
    decreases m
  {
    if m == 0 {
    } else {
      var n, h := m - 1, Pow2(m - 1);
      ReversedHalves(s, m);
      if x < h {
        BitReversedAt(Evens(s, h), n, x);
      } else {
        BitReversedAt(Odds(s, h), n, x - h);
      }
    }
  }

  method NextReversed(n: int, j0: nat, ghost m: nat) returns (j: nat)
    requires n == 2 * Pow2(m) && j0 < 2 * Pow2(m) - 1
    ensures j == Carry(j0, m)
  {
    j := j0;
    var bit := n / 2;
    ghost var t := m;
    while j >= bit
      invariant bit == Pow2(t) && j < 2 * bit - 1
      invariant Carry(j, t) == Carry(j0, m)
      decreases t
    {
      j := j - bit;
      bit := bit / 2;
      t := t - 1;
    }
    j := j + bit;
  }

  // Position x has received the element of its reversal once either index is below i.
  ghost predicate PartlyReversed(s: seq<int>, t: seq<int>, m: nat, i: nat)
    requires |s| == Pow2(m)
  {
    |t| == |s| &&
    forall x :: 0 <= x < |s| ==>
      t[x] == if x < i || Rev(m, x) < i then s[Rev(m, x)] else s[x]
  }

  lemma PartlyReversedStep(s: seq<int>, t: seq<int>, m: nat, i: nat, j: nat, next: nat)
    requires |s| == Pow2(m) && i < |s| && j == Rev(m, i) && next == i + 1
    requires PartlyReversed(s, t, m, i)
    ensures PartlyReversed(s, Exchanged(t, i, j), m, next)
  {
    var u := Exchanged(t, i, j);
    RevInvolution(m, i);
    forall x | 0 <= x < |s|
      ensures u[x] == if x < next || Rev(m, x) < next then s[Rev(m, x)] else s[x]
    {
      RevInvolution(m, x);
    }
  }

  method BitReversal(a: array<int64>, n: int, ghost m: nat)
    requires n == a.Length == Pow2(m)
    modifies a
    ensures a[..] == BitReversed(old(a[..]), m)
  {
    ghost var s, prev := a[..], 0;
    RevZero(s, m);
    var i, j := 1, 0;
    while i < n
      invariant 1 <= i <= n && i == prev + 1
      invariant j == Rev(m, prev)
      invariant PartlyReversed(s, a[..], m, i)
    {
      NextRev(m, prev, i);
      j := NextReversed(n, j, m - 1);
      PartlyReversedStep(s, a[..], m, i, j, i + 1);
      Exchange(a, i, j);
      prev := i;
      i := i + 1;
    }
    FullyReversed(s, a[..], m);
  }

  function Exchanged(t: seq<int>, i: nat, j: nat): (r: seq<int>)
    requires i < |t| && j < |t|
    ensures |r| == |t|
  {
    if i < j then t[i := t[j]][j := t[i]] else t
  }

  method Exchange(a: array<int64>, i: nat, j: nat)
    requires i < a.Length && j < a.Length
    modifies a
    ensures a[..] == Exchanged(old(a[..]), i, j)
  {
    if i < j {
      var tmp := a[j];
      a[j] := a[i];
      a[i] := tmp;
    }
  }

  lemma NextRev(m: nat, prev: nat, i: nat)
    requires i == prev + 1 < Pow2(m)
    ensures m > 0 && Pow2(m) == 2 * Pow2(m - 1) && Rev(m, prev) < 2 * Pow2(m - 1) - 1
    ensures Carry(Rev(m, prev), m - 1) == Rev(m, i)
  {
    CarryReverses(m - 1, prev);
  }

  lemma FullyReversed(s: seq<int>, t: seq<int>, m: nat)
    requires |s| == Pow2(m) && PartlyReversed(s, t, m, |s|)
    ensures t == BitReversed(s, m)
  {
    forall x | 0 <= x < |s| ensures t[x] == BitReversed(s, m)[x] {
      BitReversedAt(s, m, x);
    }
  }

  lemma RevZero(s: seq<int>, m: nat)
    requires |s| == Pow2(m)
    ensures Rev(m, 0) == 0 && PartlyReversed(s, s, m, 1)
  {
    RevOfZero(m);
    forall x | 0 <= x < |s| && Rev(m, x) == 0 ensures x == 0 {
      RevInvolution(m, x);
    }
  }

  lemma {:induction false} RevOfZero(m: nat)
    ensures Rev(m, 0) == 0
  {
    if m > 0 { RevOfZero(m - 1); }
  }

  // ---------------------------------------------------------------- butterfly stages

  // The array after the stages up to blocks of 2^l: the recursive transform of
  // every strided part of size 2^l, in bit-reversed order of the parts.
  ghost function Partial(s: seq<int>, inv: bool, m: nat, l: nat): (r: seq<int>)
    requires |s| == Pow2(m) && l <= m <= LOG_ROOT_PW
    ensures |r| == |s|
    decreases m
  {
    if l == m then Fft(s, inv, m)
    else Partial(Evens(s, Pow2(m - 1)), inv, m - 1, l) + Partial(Odds(s, Pow2(m - 1)), inv, m - 1, l)
  }

  lemma {:induction false} PartialZero(s: seq<int>, inv: bool, m: nat)
    requires |s| == Pow2(m) && m <= LOG_ROOT_PW
    ensures Partial(s, inv, m, 0) == BitReversed(s, m)
    decreases m
  {
    if m == 0 {
      assert Partial(s, inv, 0, 0) == Fft(s, inv, 0) == s;
    } else {
      PartialZero(Evens(s, Pow2(m - 1)), inv, m - 1);
      PartialZero(Odds(s, Pow2(m - 1)), inv, m - 1);
      PartialHalves(s, inv, m, 0);
      ReversedHalves(s, m);
    }
  }

  lemma PartialHalves(s: seq<int>, inv: bool, m: nat, l: nat)
    requires |s| == Pow2(m) && l < m <= LOG_ROOT_PW
    ensures Partial(s, inv, m, l) == Partial(Evens(s, Pow2(m - 1)), inv, m - 1, l) + Partial(Odds(s, Pow2(m - 1)), inv, m - 1, l)
  {
  }

  lemma ReversedHalves(s: seq<int>, m: nat)
    requires |s| == Pow2(m) && m > 0
    ensures BitReversed(s, m) == BitReversed(Evens(s, Pow2(m - 1)), m - 1) + BitReversed(Odds(s, Pow2(m - 1)), m - 1)
  {
  }

  // One stage: a butterfly on each consecutive block of 2h elements.
  ghost function Pass(c: seq<int>, w: int, h: nat): (r: seq<int>)
    requires h > 0
    ensures |r| == |c|
  {
    if |c| < 2 * h then c else Butterfly(c[..h], c[h..2 * h], w) + Pass(c[2 * h..], w, h)
  }

  lemma {:induction false} PassConcat(c: seq<int>, d: seq<int>, w: int, h: nat, blocks: nat)
    requires h > 0 && |c| == blocks * (2 * h)
    ensures Pass(c + d, w, h) == Pass(c, w, h) + Pass(d, w, h)
  {
    if blocks == 0 {
      assert c + d == d;
    } else {
      var rest := blocks - 1;
      assert |c| == rest * (2 * h) + 2 * h;
      PassConcat(c[2 * h..], d, w, h, rest);
      assert (c + d)[..h] == c[..h] && (c + d)[h..2 * h] == c[h..2 * h];
      assert (c + d)[2 * h..] == c[2 * h..] + d;
    }
  }

  lemma PassOneBlock(e: seq<int>, o: seq<int>, w: int, h: nat)
    requires h > 0 && |e| == |o| == h
    ensures Pass(e + o, w, h) == Butterfly(e, o, w)
  {
    assert (e + o)[..h] == e && (e + o)[h..2 * h] == o && (e + o)[2 * h..] == [];
  }

  lemma PassHalves(e: seq<int>, o: seq<int>, w: int, m: nat, l: nat)
    requires l + 1 < m && |e| == Pow2(m - 1)
    ensures Pass(e + o, w, Pow2(l)) == Pass(e, w, Pow2(l)) + Pass(o, w, Pow2(l))
  {
    Pow2Add(m - 2 - l, l + 1);
    PassConcat(e, o, w, Pow2(l), Pow2(m - 2 - l));
  }

  lemma {:induction false} StageStep(s: seq<int>, inv: bool, m: nat, l: nat)
    requires |s| == Pow2(m) && l < m <= LOG_ROOT_PW
    ensures Pass(Partial(s, inv, m, l), UnityRoot(inv, l + 1), Pow2(l)) == Partial(s, inv, m, l + 1)
    decreases m
  {
    var es, os := Evens(s, Pow2(m - 1)), Odds(s, Pow2(m - 1));
    var e, o := Partial(es, inv, m - 1, l), Partial(os, inv, m - 1, l);
    if l == m - 1 {
      PassOneBlock(e, o, UnityRoot(inv, m), Pow2(l));
    } else {
      StageStep(es, inv, m - 1, l);
      StageStep(os, inv, m - 1, l);
      PassHalves(e, o, UnityRoot(inv, l + 1), m, l);
    }
  }

  lemma ProductInRange(x: int, w: int)
    requires -MOD < x < MOD && 0 <= w < MOD
    ensures -0x4000_0000_0000 < x * w < 0x4000_0000_0000
    ensures x >= 0 ==> x * w >= 0
  {
    ProductMonotone(if x >= 0 then x else -x, MOD, w);
    assert (-x) * w == -(x * w);
  }

  lemma ProductMonotone(x: nat, y: nat, w: nat)
    requires x <= y
    ensures 0 <= x * w <= y * w
  {
    Distribute(w, x, y - x);
  }

  // wlen squared from the full root down to the block size 2^l.
  method StageRoot(inv: bool, len: int, ghost l: nat) returns (wlen: int64)
    requires l <= LOG_ROOT_PW && len == Pow2(l)
    ensures wlen == UnityRoot(inv, l) && 0 <= wlen < MOD
  {
    wlen := if inv then ROOT_1 else ROOT;
    var i := len;
    ghost var t := l;
    Pow2Twenty();
    while i < 1048576
      invariant t <= LOG_ROOT_PW && i == Pow2(t)
      invariant wlen == Squared(if inv then ROOT_1 else ROOT, t - l) && l <= t
      invariant 0 <= wlen < MOD
      decreases LOG_ROOT_PW - t
    {
      Pow2Monotone(t, LOG_ROOT_PW);
      ProductInRange(wlen, wlen);
      var square: int64 := wlen * wlen;
      wlen := Rem(square, MOD);
      assert wlen == Square(Squared(if inv then ROOT_1 else ROOT, t - l));
      i := 2 * i;
      t := t + 1;
    }
    Pow2Monotone(t, LOG_ROOT_PW);
  }

  lemma {:induction false} Pow2Monotone(t: nat, u: nat)
    requires t <= u
    ensures Pow2(t) <= Pow2(u)
    ensures t < u ==> 2 * Pow2(t) <= Pow2(u)
  {
    if t < u { Pow2Monotone(t, u - 1); }
  }

  lemma EqButterfly(e: seq<int>, e': seq<int>, o: seq<int>, o': seq<int>, w: int)
    requires EqSeq(e, e') && EqSeq(o, o') && |e| == |o|
    ensures EqSeq(Butterfly(e, o, w), Butterfly(e', o', w))
  {
    var b, b', h := Butterfly(e, o, w), Butterfly(e', o', w), |e|;
    forall k | 0 <= k < 2 * h ensures Eq(b[k], b'[k]) {
      var i := if k < h then k else k - h;
      ButterflyAt(e, o, w, k, i);
      ButterflyAt(e', o', w, k, i);
      EqRefl(Pow(w, i));
      EqMul(o[i], o'[i], Pow(w, i), Pow(w, i));
      EqAdd(e[i], e'[i], o[i] * Pow(w, i), o'[i] * Pow(w, i));
    }
  }

  lemma {:induction false} EqPass(c: seq<int>, d: seq<int>, w: int, h: nat)
    requires h > 0 && EqSeq(c, d)
    ensures EqSeq(Pass(c, w, h), Pass(d, w, h))
  {
    if |c| >= 2 * h {
      EqButterfly(c[..h], d[..h], c[h..2 * h], d[h..2 * h], w);
      EqPass(c[2 * h..], d[2 * h..], w, h);
    }
  }

  // The element pair one butterfly writes is congruent to the mathematical one.
  lemma ElementStep(u: int, x: int, w: int, p: int)
    requires Eq(w, p)
    ensures var v := Rem(x * w, MOD);
            Eq(Rem(u + v, MOD), u + x * p) && Eq(Rem(u - v, MOD), u - x * p)
  {
    EqRefl(x);
    EqMul(x, x, w, p);
    SumStep(u, x * w, x * p);
  }

  lemma SumStep(u: int, y: int, z: int)
    requires Eq(y, z)
    ensures Eq(Rem(u + Rem(y, MOD), MOD), u + z) && Eq(Rem(u - Rem(y, MOD), MOD), u - z)
  {
    var v := Rem(y, MOD);
    RemResidue(y);
    EqTrans(v, y, z);
    EqRefl(u);
    EqAdd(u, u, v, z);
    RemEq(u + v, u + z);
    RemEq(u - v, u - z);
  }

  lemma RemEq(x: int, y: int)
    requires Eq(x, y)
    ensures Eq(Rem(x, MOD), y)
  {
    RemResidue(x);
    EqTrans(Rem(x, MOD), x, y);
  }

  // The same pair, with the range checks of 64-bit arithmetic.
  method ButterflyPair(u: int64, x: int64, w: int64, ghost p: int, ghost bound: nat) returns (sum: int64, diff: int64)
    requires bound <= INPUT_LIMIT && Within([u, x], bound)
    requires 0 <= w < MOD && (w == 1 || bound < MOD)
    requires Eq(w, p)
    ensures Eq(sum, u + x * p) && -MOD < sum < MOD
    ensures Eq(diff, u - x * p) && -MOD < diff < MOD
  {
    assert [u, x][0] == u && [u, x][1] == x;
    if w == 1 { assert x * 1 == x; } else { ProductInRange(x, w); }
    ElementStep(u, x, w, p);
    var product: int64 := x * w;
    var v: int64 := Rem(product, MOD);
    var s: int64 := u + v;
    var d: int64 := u - v;
    sum, diff := Rem(s, MOD), Rem(d, MOD);
  }

  method NextPower(w: int64, wlen: int64, ghost j: nat) returns (w': int64)
    requires 0 <= w < MOD && 0 <= wlen < MOD && Eq(w, Pow(wlen, j))
    ensures 0 <= w' < MOD && Eq(w', Pow(wlen, j + 1))
  {
    ProductInRange(w, wlen);
    var product: int64 := w * wlen;
    w' := Rem(product, MOD);
    RemResidue(product);
    EqRefl(wlen);
    EqMul(w, Pow(wlen, j), wlen, wlen);
    EqTrans(w', w * wlen, Pow(wlen, j) * wlen);
  }

  // u is t with the block of 2h elements at i replaced by its butterfly.
  ghost predicate BlockReplaced(t: seq<int>, u: seq<int>, i: nat, h: nat, w: int)
  {
    |t| == |u| && i + 2 * h <= |t| &&
    u[..i] == t[..i] && u[i + 2 * h..] == t[i + 2 * h..] &&
    EqSeq(u[i..i + 2 * h], Butterfly(t[i..i + h], t[i + h..i + 2 * h], w)) &&
    Within(u[i..i + 2 * h], MOD - 1)
  }

  ghost predicate BlockReady(t: seq<int>, i: nat, h: nat, bound: nat)
  {
    1 <= h && i + 2 * h <= |t| && bound <= INPUT_LIMIT && (h == 1 || bound < MOD) &&
    forall k :: i <= k < i + 2 * h ==> -(bound as int) <= t[k] <= bound
  }

  // One pair of the block, in place.
  method ButterflyStep(a: array<int64>, i: nat, h: nat, j: nat, ghost next: nat, w: int64, wlen: int64, ghost s: seq<int>, ghost b: seq<int>,
                       ghost bound: nat)
    requires j < h && next == j + 1 && 0 <= w < MOD && Eq(w, Pow(wlen, j)) && (j == 0 ==> w == 1) && 0 <= wlen < MOD
    requires BlockReady(s, i, h, bound) && b == Butterfly(s[i..i + h], s[i + h..i + 2 * h], wlen) && BlockPartlyDone(s, a[..], b, i, h, j)
    modifies a
    ensures BlockPartlyDone(s, a[..], b, i, h, next)
  {
    ghost var t := a[..];
    PairUntouched(s, t, b, i, h, j, wlen, bound);
    var sum, diff := ButterflyPair(a[i + j], a[i + j + h], w, Pow(wlen, j), bound);
    a[i + j] := sum;
    a[i + j + h] := diff;
    BlockStep(s, t, a[..], b, i, h, j, next, sum, diff);
  }

  method ButterflyBlock(a: array<int64>, i: nat, h: nat, wlen: int64, ghost bound: nat)
    requires 0 <= wlen < MOD && BlockReady(a[..], i, h, bound)
    modifies a
    ensures BlockReplaced(old(a[..]), a[..], i, h, wlen)
  {
    ghost var s := a[..];
    ghost var b := Butterfly(s[i..i + h], s[i + h..i + 2 * h], wlen);
    var j, w: int64 := 0, 1;
    EqRefl(1);
    while j < h
      invariant 0 <= j <= h
      invariant 0 <= w < MOD && Eq(w, Pow(wlen, j)) && (j == 0 ==> w == 1)
      invariant BlockPartlyDone(s, a[..], b, i, h, j)
    {
      ButterflyStep(a, i, h, j, j + 1, w, wlen, s, b, bound);
      w := NextPower(w, wlen, j);
      j := j + 1;
    }
    BlockDone(s, a[..], b, i, h, wlen);
  }

  // The first j pairs of the block of 2h elements at i have been replaced by the butterfly b.
  ghost predicate BlockPartlyDone(s: seq<int>, t: seq<int>, b: seq<int>, i: nat, h: nat, j: nat)
  {
    |s| == |t| && |b| == 2 * h && i + 2 * h <= |s| && j <= h &&
    forall k :: 0 <= k < |s| ==>
      if i <= k < i + j || i + h <= k < i + h + j then Eq(t[k], b[k - i]) && -MOD < t[k] < MOD else t[k] == s[k]
  }

  lemma PairUntouched(s: seq<int>, t: seq<int>, b: seq<int>, i: nat, h: nat, j: nat, w: int, bound: nat)
    requires BlockPartlyDone(s, t, b, i, h, j) && j < h
    requires BlockReady(s, i, h, bound)
    requires b == Butterfly(s[i..i + h], s[i + h..i + 2 * h], w)
    ensures var u, v := t[i + j], t[i + j + h];
            Within([u, v], bound) &&
            b[j] == u + v * Pow(w, j) && b[j + h] == u - v * Pow(w, j)
  {
    var e, o := s[i..i + h], s[i + h..i + 2 * h];
    assert t[i + j] == e[j] && t[i + j + h] == o[j];
    ButterflyPairAt(e, o, w, h, j);
  }

  lemma ButterflyPairAt(e: seq<int>, o: seq<int>, w: int, h: nat, j: nat)
    requires |e| == |o| == h && j < h
    ensures Butterfly(e, o, w)[j] == e[j] + o[j] * Pow(w, j)
    ensures Butterfly(e, o, w)[j + h] == e[j] - o[j] * Pow(w, j)
  {
    ButterflyAt(e, o, w, j, j);
    ButterflyAt(e, o, w, j + h, j);
  }

  lemma BlockStep(s: seq<int>, t: seq<int>, u: seq<int>, b: seq<int>, i: nat, h: nat, j: nat, next: nat, sum: int, diff: int)
    requires j < h && next == j + 1 && BlockPartlyDone(s, t, b, i, h, j)
    requires u == t[i + j := sum][i + j + h := diff]
    requires Eq(sum, b[j]) && -MOD < sum < MOD
    requires Eq(diff, b[j + h]) && -MOD < diff < MOD
    ensures BlockPartlyDone(s, u, b, i, h, next)
  {
  }

  lemma BlockDone(s: seq<int>, t: seq<int>, b: seq<int>, i: nat, h: nat, w: int)
    requires BlockPartlyDone(s, t, b, i, h, h)
    requires b == Butterfly(s[i..i + h], s[i + h..i + 2 * h], w)
    ensures BlockReplaced(s, t, i, h, w)
  {
  }

  method Stage(a: array<int64>, n: int, len: int, wlen: int64, ghost bound: nat)
    requires n == a.Length && len == 2 * (len / 2) && len > 0 && WholeBlocks(n, len) && 0 <= wlen < MOD
    requires Within(a[..], bound) && bound <= INPUT_LIMIT && (len == 2 || bound < MOD)
    modifies a
    ensures EqSeq(a[..], Pass(old(a[..]), wlen, len / 2))
    ensures Within(a[..], MOD - 1)
  {
    ghost var s, rest := a[..], n;
    var half := len / 2;
    var i := 0;
    StageStart(s, half, wlen);
    while i < n
      invariant 0 <= i <= n && rest == n - i && WholeBlocks(rest, len)
      invariant StagePartlyDone(s, a[..], i, half, wlen)
    {
      ghost var t, done := a[..], i;
      StageRest(s, t, i, half, wlen, bound);
      ButterflyBlock(a, i, half, wlen, bound);
      i := i + len;
      StagePartlyDoneStep(s, t, a[..], done, i, half, wlen);
      rest := rest - len;
    }
    StageEnd(s, a[..], half, wlen);
  }

  // Blocks before position i are transformed, the rest are as before.
  ghost predicate StagePartlyDone(s: seq<int>, t: seq<int>, i: nat, h: nat, w: int)
  {
    h > 0 && |s| == |t| && i <= |s| && t[i..] == s[i..] && Within(t[..i], MOD - 1) &&
    EqSeq(t[..i] + Pass(t[i..], w, h), Pass(s, w, h))
  }

  lemma StageStart(s: seq<int>, h: nat, w: int)
    requires h > 0
    ensures StagePartlyDone(s, s, 0, h, w)
  {
    assert s[0..] == s && s[..0] + Pass(s, w, h) == Pass(s, w, h);
    EqSeqRefl(Pass(s, w, h));
  }

  lemma StageRest(s: seq<int>, t: seq<int>, i: nat, h: nat, w: int, bound: nat)
    requires StagePartlyDone(s, t, i, h, w) && i + 2 * h <= |t|
    requires Within(s, bound) && bound <= INPUT_LIMIT && (h == 1 || bound < MOD)
    ensures BlockReady(t, i, h, bound)
  {
    forall k | i <= k < |t| ensures t[k] == s[k] {
      assert t[i..][k - i] == s[i..][k - i];
    }
  }

  lemma StageEnd(s: seq<int>, t: seq<int>, h: nat, w: int)
    requires StagePartlyDone(s, t, |t|, h, w)
    ensures EqSeq(t, Pass(s, w, h)) && Within(t, MOD - 1)
  {
    assert t[..|t|] == t && t + Pass(t[|t|..], w, h) == t;
  }

  lemma StagePartlyDoneStep(s: seq<int>, t: seq<int>, u: seq<int>, i: nat, next: nat, h: nat, w: int)
    requires StagePartlyDone(s, t, i, h, w) && next == i + 2 * h <= |t| == |u|
    requires BlockReplaced(t, u, i, h, w)
    ensures StagePartlyDone(s, u, next, h, w)
  {
    var b, rest := Butterfly(t[i..i + h], t[i + h..next], w), Pass(u[next..], w, h);
    assert u[..next] == t[..i] + u[i..next];
    assert u[next..] == t[i..][2 * h..] == s[i..][2 * h..];
    assert t[i..][..h] == t[i..i + h] && t[i..][h..2 * h] == t[i + h..next];
    assert t[..i] + Pass(t[i..], w, h) == t[..i] + b + rest;
    EqSeqMiddle(t[..i], u[i..next], b, rest);
    EqSeqTrans(u[..next] + rest, t[..i] + b + rest, Pass(s, w, h));
  }

  lemma EqSeqRefl(s: seq<int>)
    ensures EqSeq(s, s)
  {
    forall i | 0 <= i < |s| ensures Eq(s[i], s[i]) { EqRefl(s[i]); }
  }

  lemma EqSeqTrans(s: seq<int>, t: seq<int>, u: seq<int>)
    requires EqSeq(s, t) && EqSeq(t, u)
    ensures EqSeq(s, u)
  {
    forall i | 0 <= i < |s| ensures Eq(s[i], u[i]) { EqTrans(s[i], t[i], u[i]); }
  }

  lemma EqSeqMiddle(c: seq<int>, s: seq<int>, t: seq<int>, d: seq<int>)
    requires EqSeq(s, t)
    ensures EqSeq(c + s + d, c + t + d)
  {
    EqSeqRefl(c);
    EqSeqRefl(d);
  }

  ghost predicate WholeBlocks(n: nat, len: nat)
  {
    n == 0 || (0 < len <= n && WholeBlocks(n - len, len))
  }

  lemma WholePowers(m: nat, l: nat, n: nat, len: nat)
    requires l <= m && n == Pow2(m) && len == Pow2(l)
    ensures WholeBlocks(n, len)
  {
    Pow2Add(m - l, l);
    WholeMultiple(Pow2(m - l), len, n);
  }

  lemma {:induction false} WholeMultiple(blocks: nat, len: nat, n: nat)
    requires len > 0 && n == blocks * len
    ensures WholeBlocks(n, len)
  {
    if blocks > 0 {
      Distribute(len, blocks - 1, 1);
      WholeMultiple(blocks - 1, len, n - len);
    }
  }

  // ---------------------------------------------------------------- scaling and the whole transform

  lemma PowStep(t: int, p: nat)
    requires p > 0
    ensures Pow(t, p) == (if p % 2 == 1 then t else 1) * Pow(t * t, p / 2)
  {
    var h := p / 2;
    PowMul(t, t, h);
    PowAdd(t, h, h);
    assert h + h == if p % 2 == 1 then p - 1 else p;
  }

  // Binary powering keeps nrev * t^p constant modulo MOD.
  lemma PoweringStep(nrev: int, t: int, p: nat, nrev': int, t': int)
    requires p > 0
    requires Eq(nrev', nrev * (if p % 2 == 1 then t else 1)) && Eq(t', t * t)
    ensures Eq(nrev' * Pow(t', p / 2), nrev * Pow(t, p))
  {
    var f := if p % 2 == 1 then t else 1;
    EqPow(t', t * t, p / 2);
    EqMul(nrev', nrev * f, Pow(t', p / 2), Pow(t * t, p / 2));
    PowStep(t, p);
    PullFactor(nrev, f, Pow(t * t, p / 2));
  }

  lemma LengthPower(n: nat, m: nat)
    requires n == Pow2(m)
    ensures Eq(n * Pow(n, MOD - 2), 1)
  {
    Pow2IsPow(m);
    PowPow(2, m, MOD - 1);
    PowPow(2, MOD - 1, m);
    assert m * (MOD - 1) == (MOD - 1) * m;
    TwoOrder();
    EqPow(Pow(2, MOD - 1), 1, m);
    PowOne(m);
  }

  lemma {:induction false} Pow2IsPow(m: nat)
    ensures Pow2(m) == Pow(2, m)
  {
    if m > 0 { Pow2IsPow(m - 1); }
  }

  method TimesModulo(x: int64, y: int64) returns (r: int64)
    requires 0 <= x < MOD && 0 <= y < MOD
    ensures 0 <= r < MOD && Eq(r, x * y)
  {
    ProductInRange(x, y);
    var product: int64 := x * y;
    r := Rem(product, MOD);
    RemResidue(product);
  }

  method InverseOfLength(n: int, ghost m: nat) returns (nrev: int64)
    requires n == Pow2(m) && m <= LOG_ROOT_PW
    ensures 0 <= nrev < MOD && Eq(n * nrev, 1)
    ensures n == 1 ==> nrev == 1
  {
    Pow2Monotone(m, LOG_ROOT_PW);
    Pow2Twenty();
    var t: int64, p := n, MOD - 2;
    nrev := 1;
    EqRefl(1 * Pow(t, p));
    while p != 0
      invariant 0 <= nrev < MOD && 0 <= t < MOD && 0 <= p
      invariant Eq(nrev * Pow(t, p), 1 * Pow(n, MOD - 2))
    {
      ghost var nrev0, t0 := nrev, t;
      if p % 2 == 1 {
        nrev := TimesModulo(nrev, t);
      } else {
        EqRefl(nrev);
      }
      t := TimesModulo(t, t);
      PoweringStep(nrev0, t0, p, nrev, t);
      EqTrans(nrev * Pow(t, p / 2), nrev0 * Pow(t0, p), 1 * Pow(n, MOD - 2));
      p := p / 2;
    }
    LengthPower(n, m);
    EqRefl(n);
    EqMul(n, n, nrev * Pow(t, 0), 1 * Pow(n, MOD - 2));
    EqTrans(n * nrev, n * Pow(n, MOD - 2), 1);
    if n == 1 { EqResidue(1 * nrev, 1); }
  }

  // ((x % mod) + mod) % mod in C is the canonical residue.
  method Canonical(x: int64) returns (r: int64)
    ensures r == x % MOD
  {
    var y: int64 := Rem(x, MOD);
    var z: int64 := y + MOD;
    r := Rem(z, MOD);
    RemResidue(x);
    EqResidue(y, x);
    EqByFactor(z, y, 1);
    EqResidue(z, y);
  }

  // t holds the canonical residues of nrev * s.
  ghost predicate Scaled(s: seq<int>, t: seq<int>, nrev: int)
  {
    |t| == |s| && forall k :: 0 <= k < |t| ==> t[k] == s[k] * nrev % MOD
  }

  method Scale(a: array<int64>, nrev: int64, ghost bound: nat)
    requires 0 <= nrev < MOD && Within(a[..], bound) && (nrev == 1 || bound < MOD)
    modifies a
    ensures Scaled(old(a[..]), a[..], nrev)
  {
    ghost var s := a[..];
    for i := 0 to a.Length
      invariant Scaled(s[..i], a[..i], nrev) && a[i..] == s[i..]
    {
      assert a[i] == s[i];
      if nrev == 1 { assert a[i] * 1 == a[i]; } else { ProductInRange(a[i], nrev); }
      var product: int64 := a[i] * nrev;
      a[i] := Canonical(product);
    }
    assert a[..] == a[..a.Length] && s == s[..a.Length];
  }

  method Normalize(a: array<int64>)
    modifies a
    ensures Scaled(old(a[..]), a[..], 1)
  {
    ghost var s := a[..];
    for i := 0 to a.Length
      invariant Scaled(s[..i], a[..i], 1) && a[i..] == s[i..]
    {
      assert a[i] == s[i];
      a[i] := Canonical(a[i]);
    }
    assert a[..] == a[..a.Length] && s == s[..a.Length];
  }

  // How large elements may be before the stage on blocks of 2 * 2^l.
  ghost function StageBound(l: nat): (r: nat)
    ensures r <= INPUT_LIMIT
  {
    if l == 0 then INPUT_LIMIT else MOD - 1
  }

  // The array has gone through the stages up to blocks of 2^l elements.
  ghost predicate StagesDone(s: seq<int>, t: seq<int>, inv: bool, m: nat, l: nat)
  {
    l <= m <= LOG_ROOT_PW && |s| == |t| == Pow2(m) &&
    EqSeq(t, Partial(s, inv, m, l)) && Within(t, StageBound(l))
  }

  lemma StagesStart(s: seq<int>, inv: bool, m: nat)
    requires |s| == Pow2(m) && m <= LOG_ROOT_PW && Within(s, INPUT_LIMIT)
    ensures StagesDone(s, BitReversed(s, m), inv, m, 0)
  {
    PartialZero(s, inv, m);
    EqSeqRefl(BitReversed(s, m));
    forall x | 0 <= x < |s| ensures -INPUT_LIMIT <= BitReversed(s, m)[x] <= INPUT_LIMIT {
      BitReversedAt(s, m, x);
    }
  }

  lemma StagesStep(s: seq<int>, t: seq<int>, u: seq<int>, inv: bool, m: nat, l: nat, next: nat, w: int, h: nat)
    requires StagesDone(s, t, inv, m, l) && next == l + 1 <= m
    requires w == UnityRoot(inv, next) && h == Pow2(l)
    requires EqSeq(u, Pass(t, w, h)) && Within(u, MOD - 1)
    ensures StagesDone(s, u, inv, m, next)
  {
    EqPass(t, Partial(s, inv, m, l), w, h);
    StageStep(s, inv, m, l);
    EqSeqTrans(u, Pass(t, w, h), Partial(s, inv, m, next));
  }

  method Stages(a: array<int64>, n: int, inv: bool, ghost s: seq<int>, ghost m: nat)
    requires n == a.Length && StagesDone(s, a[..], inv, m, 0)
    modifies a
    ensures StagesDone(s, a[..], inv, m, m)
  {
    var len := 2;
    ghost var l := 0;
    assert Pow2(0) == 1;
    while len <= n
      invariant len == 2 * Pow2(l) && StagesDone(s, a[..], inv, m, l)
      decreases m - l
    {
      ghost var t, prev := a[..], l;
      l := l + 1;
      MoreStages(n, len, m, prev, l);
      var wlen := StageRoot(inv, len, l);
      Stage(a, n, len, wlen, StageBound(prev));
      StagesStep(s, t, a[..], inv, m, prev, l, wlen, len / 2);
      len := 2 * len;
    }
    if l < m { Pow2Monotone(l, m); }
  }

  lemma StageLength(n: nat, len: nat, m: nat, l: nat, next: nat)
    requires l <= m && next == l + 1 && n == Pow2(m) && len == 2 * Pow2(l) && len <= n
    ensures next <= m && len == Pow2(next) && len / 2 == Pow2(l) && (len != 2 ==> l > 0)
  {
    assert l != m;
  }

  lemma MoreStages(n: nat, len: nat, m: nat, l: nat, next: nat)
    requires l <= m && next == l + 1 && n == Pow2(m) && len == 2 * Pow2(l) && len <= n
    ensures next <= m && len == Pow2(next) && len == 2 * (len / 2) && len / 2 == Pow2(l)
    ensures WholeBlocks(n, len) && (len != 2 ==> l > 0)
  {
    StageLength(n, len, m, l, next);
    WholePowers(m, next, n, len);
  }

  lemma ForwardResult(s: seq<int>, t: seq<int>, u: seq<int>, m: nat)
    requires StagesDone(s, t, false, m, m)
    requires Scaled(t, u, 1)
    ensures u == Forward(s, m)
  {
    forall k | 0 <= k < |s| ensures u[k] == Forward(s, m)[k] {
      var sum := DftSum(s, PrincipalRoot(false, m), k, |s|);
      FftIsSum(s, false, m, k);
      EqTrans(t[k], Fft(s, false, m)[k], sum);
      EqResidue(t[k], sum);
    }
  }

  lemma InverseResult(s: seq<int>, t: seq<int>, u: seq<int>, m: nat, nrev: int)
    requires StagesDone(s, t, true, m, m) && Eq(|s| * nrev, 1)
    requires Scaled(t, u, nrev)
    ensures IsInverse(s, u, m)
  {
    forall k | 0 <= k < |s| ensures 0 <= u[k] < MOD && Eq(|s| * u[k], DftSum(s, PrincipalRoot(true, m), k, |s|)) {
      FftIsSum(s, true, m, k);
      EqTrans(t[k], Fft(s, true, m)[k], DftSum(s, PrincipalRoot(true, m), k, |s|));
      ScaledBack(|s|, nrev, t[k], u[k]);
      EqTrans(|s| * u[k], t[k], DftSum(s, PrincipalRoot(true, m), k, |s|));
    }
  }

  lemma ScaledBack(n: int, nrev: int, x: int, y: int)
    requires Eq(n * nrev, 1) && y == x * nrev % MOD
    ensures Eq(n * y, x)
  {
    ResidueEq(x * nrev);
    EqRefl(n);
    EqMul(n, n, y, x * nrev);
    EqRefl(x);
    EqMul(n * nrev, 1, x, x);
    PullFactor(n, nrev, x);
    EqTrans(n * y, n * (x * nrev), x);
  }

  method Rescale(a: array<int64>, n: int, ghost s: seq<int>, ghost m: nat)
    requires n == a.Length && StagesDone(s, a[..], true, m, m)
    modifies a
    ensures IsInverse(s, a[..], m)
  {
    ghost var t := a[..];
    var nrev := InverseOfLength(n, m);
    ghost var bound := StageBound(m);
    assert Within(t, bound) && (nrev == 1 || bound < MOD);
    Scale(a, nrev, bound);
    InverseResult(s, t, a[..], m, nrev);
  }

  // The whole function: for n = 2^m up to 2^20 it leaves the canonical residues
  // of the defining sums, or with `inv` the inverse transform.
  method Transform(a: array<int64>, n: int, inv: bool, ghost m: nat)
    requires m <= LOG_ROOT_PW && n == a.Length == Pow2(m)
    requires Within(a[..], INPUT_LIMIT)
    modifies a
    ensures !inv ==> a[..] == Forward(old(a[..]), m)
    ensures inv ==> IsInverse(old(a[..]), a[..], m)
  {
    ghost var s := a[..];
    StagesStart(s, inv, m);
    BitReversal(a, n, m);
    Stages(a, n, inv, s, m);
    if inv {
      Rescale(a, n, s, m);
    } else {
      ghost var t := a[..];
      Normalize(a);
      ForwardResult(s, t, a[..], m);
    }
  }
}
