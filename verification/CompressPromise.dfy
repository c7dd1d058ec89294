// The pass that turns promises which do not leave their worker into plain variables.
module CompressPromise {
  import opened Wrappers
  import opened Ir
  import opened GraphSurgery
  import opened ControlFlow
  import opened WorkerContent
  import opened Promises
  import opened PromiseRuns

  // ---------------------------------------------------------------- the pass as a whole

  // The check succeeds for the OP_NEW_PROMISE n on x.
  predicate Passes(code: map<Id, Block>, n: Id, x: Var)
  {
    n in code && Makes(code[n].instr, x) && Private(code, n, x)
  }

  // An operation that leaves a promise in x where it is: a query of it or a push to it, a
  // free, or one that does not mention it. Neither is a query into x nor a push of x.
  predicate LeavesInside(i: Instr, x: Var)
  {
    match i
    case Free(_) => true
    case Jump => true
    case Compute(QueryPromise, dest, _) => dest != Some(x)
    case Compute(PushPromise, _, args) => |args| < 2 || args[1] != x
    case Compute(_, dest, args) => dest != Some(x) && x !in args
    case Branch(_, cond) => cond != x
    case Load(dst, _) => dst != x
    case Store(src, _) => src != x
  }

  // A promise is kept in its variable exactly if every other operation leaves it there.
  lemma PassesExactly(code: map<Id, Block>, n: Id, x: Var)
    ensures Passes(code, n, x) <==>
              n in code && code[n].instr == Instr.Compute(NewPromise, Some(x), []) &&
              forall m :: m in code && m != n ==> LeavesInside(code[m].instr, x)
  {
    forall m | m in code ensures LeavesInside(code[m].instr, x) <==> !Escapes(code[m].instr, x) {
      InsideExactly(code[m].instr, x);
    }
  }

  lemma InsideExactly(i: Instr, x: Var)
    ensures LeavesInside(i, x) <==> !Escapes(i, x)
  {
  }

  ghost predicate MakesAny(g: Graph, n: Id)
  {
    n in g.code && g.code[n].instr.Compute? && g.code[n].instr.tag.NewPromise?
  }

  // No operations OP_NEW_PROMISE run in a circle by themselves.
  ghost predicate Ordered(g: Graph, rank: Id -> nat)
  {
    forall n :: MakesAny(g, n) ==> RankFalls(g, n, rank)
  }

  ghost predicate RankFalls(g: Graph, n: Id, rank: Id -> nat)
    requires n in g.code
  {
    |g.code[n].next| > 0 && (MakesAny(g, g.code[n].next[0]) ==> rank(g.code[n].next[0]) < rank(n))
  }

  // From every start in which the variables xs hold no promises.
  ghost predicate RefinesWithout(g: Graph, g': Graph, xs: set<Var>)
    requires g.Valid() && g'.Valid()
  {
    forall w :: Fresh(w) && HoldsNone(w, xs) ==> Refines(g, g', xs, w)
  }

  ghost predicate HoldsNone(w: Worker, xs: set<Var>)
  {
    forall x :: x in xs ==> !HoldsPromise(w, x)
  }

  lemma PassesPromotable(g: Graph, c: Id, x: Var, rank: Id -> nat)
    requires WellLinked(g) && Ordered(g, rank) && Passes(g.code, c, x)
    ensures Promotable(g, c, x)
  {
    assert g.BlockOk(c) && MakesAny(g, c) && RankFalls(g, c, rank);
  }

  lemma PromotedOrdered(g: Graph, c: Id, x: Var, rank: Id -> nat)
    requires Promotable(g, c, x) && Ordered(g, rank)
    ensures Ordered(Promoted(g, c, x), rank)
  {
    var g' := Promoted(g, c, x);
    assert MakesAny(g, c) && RankFalls(g, c, rank);
    forall n | MakesAny(g', n) ensures RankFalls(g', n, rank) {
      assert MakesAny(g, n) && RankFalls(g, n, rank);
      assert g'.code[n].next[0] == Skip(g, c, g.code[n].next[0]);
    }
  }

  lemma RetagEscapes(i: Instr, x: Var, y: Var)
    requires x != y
    ensures Escapes(Retag(i, x), y) <==> Escapes(i, y)
  {
  }

  // Promoting one promise changes the check of no other.
  lemma PassesStays(g: Graph, c: Id, x: Var, n: Id, y: Var)
    requires Promotable(g, c, x)
    ensures Passes(Promoted(g, c, x).code, n, y) <==> Passes(g.code, n, y) && n != c
  {
    if n in g.code && n != c && Makes(g.code[n].instr, y) {
      assert y in WrittenVars(g.code[n].instr);
      assert y in UsedVars(g.code[n].instr);
      assert Escapes(g.code[n].instr, y) && x != y;
      assert UsedVars(g.code[c].instr) == [x];
      forall m | m in g.code ensures Escapes(Retag(g.code[m].instr, x), y) <==> Escapes(g.code[m].instr, y) {
        RetagEscapes(g.code[m].instr, x, y);
      }
      assert !Escapes(g.code[c].instr, y);
      PrivateStays(g, c, x, n, y);
    }
  }

  lemma PrivateStays(g: Graph, c: Id, x: Var, n: Id, y: Var)
    requires Promotable(g, c, x) && !Escapes(g.code[c].instr, y)
    requires forall m :: m in g.code ==> (Escapes(Retag(g.code[m].instr, x), y) <==> Escapes(g.code[m].instr, y))
    ensures Private(Promoted(g, c, x).code, n, y) <==> Private(g.code, n, y)
  {
    var code := Promoted(g, c, x).code;
    if Private(code, n, y) {
      forall m | m in g.code && m != n ensures !Escapes(g.code[m].instr, y) {
        assert m != c ==> m in code;
      }
    }
  }

  lemma PassRefines(g: Graph, g1: Graph, c: Id, x: Var, xs: set<Var>)
    requires g.Valid() && Promotable(g1, c, x) && RefinesWithout(g, g1, xs)
    ensures WellLinked(Promoted(g1, c, x)) && RefinesWithout(g, Promoted(g1, c, x), xs + {x})
  {
    PromotedLinked(g1, c, x);
    forall w | Fresh(w) && HoldsNone(w, xs + {x}) ensures Refines(g, Promoted(g1, c, x), xs + {x}, w) {
      assert forall y :: y in xs ==> y in xs + {x};
      assert HoldsNone(w, xs) && x in xs + {x};
      PromotionRefines(g1, c, x, w);
      RefinesTwice(g, g1, Promoted(g1, c, x), xs, x, w);
    }
  }

  // ---------------------------------------------------------------- the loops

  // The check of one promise against all operations.
  method HasEscape(w: Content, c: Id, x: Var) returns (found: bool)
    requires Lists(w.order, w.code)
    ensures found <==> !Private(w.code, c, x)
  {
    found := false;
    var j := 0;
    while j < |w.order| && !found
      invariant 0 <= j <= |w.order|
      invariant found ==> !Private(w.code, c, x)
      invariant !found ==> forall k :: 0 <= k < j && w.order[k] != c ==> !Escapes(w.code[w.order[k]].instr, x)
      decreases |w.order| - j, !found
    {
      var op2 := w.order[j];
      if op2 != c {
        var i := w.code[op2].instr;
        if !i.Free? {
          if i.Compute? && i.tag.QueryPromise? {
            found := i.dest == Some(x);
          } else if i.Compute? && i.tag.PushPromise? {
            found := |i.args| > 1 && i.args[1] == x;
          } else {
            found := x in UsedVars(i);
          }
        }
      }
      j := j + 1;
    }
    if !found {
      forall n | n in w.code && n != c ensures !Escapes(w.code[n].instr, x) {
        assert n in w.order;
      }
    }
  }

  function SetInstr(g: Graph, n: Id, i: Instr): Graph
    requires n in g.code
  {
    Graph(g.entry, g.code[n := g.code[n].(instr := i)])
  }

  lemma RetagOne(g: Graph, x: Var, done: set<Id>, n: Id)
    requires n in g.code
    ensures SetInstr(RetagIn(g, x, done), n, Retag(RetagIn(g, x, done).code[n].instr, x)) == RetagIn(g, x, done + {n})
  {
  }

  lemma RetagNone(g: Graph, x: Var)
    ensures RetagIn(g, x, {}) == g
  {
    forall n | n in g.code ensures RetagIn(g, x, {}).code[n] == g.code[n] {
    }
    assert RetagIn(g, x, {}).code == g.code;
  }

  lemma RemovedCommutes(g: Graph, c: Id, n: Id, i: Instr)
    requires c in g.code && |g.code[c].next| > 0 && n in g.code && n != c
    ensures Removed(SetInstr(g, n, i), c) == SetInstr(Removed(g, c), n, i)
  {
  }

  lemma RetagMaking(g: Graph, x: Var, done: set<Id>, c: Id)
    requires c in g.code && Makes(g.code[c].instr, x)
    ensures RetagIn(g, x, done + {c}) == RetagIn(g, x, done)
  {
  }

  // The worker with the operations in `done` handled.
  function HalfPromoted(g: Graph, c: Id, x: Var, done: set<Id>): Graph
    requires c in g.code && |g.code[c].next| > 0
  {
    if c in done then Removed(RetagIn(g, x, done), c) else RetagIn(g, x, done)
  }

  lemma HalfPromotedStep(g: Graph, c: Id, x: Var, done: set<Id>, n: Id)
    requires c in g.code && |g.code[c].next| > 0 && n in g.code && n != c
    ensures var h := HalfPromoted(g, c, x, done);
            SetInstr(h, n, Retag(h.code[n].instr, x)) == HalfPromoted(g, c, x, done + {n})
  {
    RetagOne(g, x, done, n);
    RemovedCommutes(RetagIn(g, x, done), c, n, Retag(RetagIn(g, x, done).code[n].instr, x));
  }

  lemma AllRetagged(g: Graph, c: Id, x: Var, done: set<Id>)
    requires c in g.code && |g.code[c].next| > 0 && forall n :: n in g.code ==> n in done
    ensures HalfPromoted(g, c, x, done) == Promoted(g, c, x)
  {
  }

  method RetagInPlace(w: Content, n: Id, x: Var)
    requires n in w.code
    modifies w
    ensures w.View() == SetInstr(old(w.View()), n, Retag(old(w.code)[n].instr, x)) && w.order == old(w.order)
  {
    var op := w.code[n].instr;
    if op.Compute? && op.tag.QueryPromise? && op.args == [x] {
      w.code := w.code[n := w.code[n].(instr := Instr.Compute(Mov, op.dest, op.args))];
    }
    if op.Compute? && op.tag.PushPromise? && |op.args| == 2 && op.args[0] == x && op.dest.None? {
      w.code := w.code[n := w.code[n].(instr := Instr.Compute(Mov, Some(x), op.args[1..]))];
    }
    assert w.View().code == SetInstr(old(w.View()), n, Retag(old(w.code)[n].instr, x)).code;
  }

  // The rewriting of one promise; the index of the outer loop moves back with the
  // operation that goes.
  method Promote(w: Content, i0: int, c: Id, x: Var) returns (i: int)
    requires Promotable(w.View(), c, x) && Lists(w.order, w.code)
    requires 0 <= i0 < |w.order| && w.order[i0] == c
    modifies w
    ensures w.View() == Promoted(old(w.View()), c, x) && Lists(w.order, w.code)
    ensures w.order == Without(old(w.order), c) && i == i0 - 1
  {
    i := i0;
    ghost var g, order0, done := w.View(), w.order, {};
    RetagNone(g, x);
    var j := 0;
    while j < |w.order|
      invariant 0 <= j <= |w.order| && Lists(w.order, w.code)
      invariant w.View() == HalfPromoted(g, c, x, done)
      invariant HandledTo(g, c, done, order0, i0, w.order, i, j)
      decreases |w.order| - j
    {
      var op2 := w.order[j];
      if Makes(w.code[op2].instr, x) {
        OnlyMaking(g, c, x, done, op2);
        RemovalHandled(g, c, x, done, order0, i0, j);
        w.RemoveOp(c);
        if i >= j { i := i - 1; }
        done := done + {c};
      } else {
        NotMaking(g, c, x, done, op2);
        HalfPromotedStep(g, c, x, done, op2);
        RetagHandled(g, c, done, order0, i0, w.order, i, j, j + 1);
        RetagInPlace(w, op2, x);
        done := done + {op2};
        j := j + 1;
      }
    }
    AllHandled(g, c, x, done, order0, i0, w.order, i, j);
  }

  // Everything before position j of the code vector is in `done`.
  ghost predicate HandledTo(g: Graph, c: Id, done: set<Id>, order0: seq<Id>, i0: int, order: seq<Id>, i: int, j: nat)
    requires j <= |order|
  {
    (forall n :: n in g.code ==> n in done || n in order[j..]) &&
    if c in done then order == Without(order0, c) && i == i0 - 1
    else order == order0 && i == i0 && c !in order[..j] && j <= i0
  }

  lemma RetagHandled(g: Graph, c: Id, done: set<Id>, order0: seq<Id>, i0: int, order: seq<Id>, i: int, j: nat, j1: nat)
    requires j < |order| && j1 == j + 1 && HandledTo(g, c, done, order0, i0, order, i, j) && order[j] != c
    requires 0 <= i0 < |order0| && order0[i0] == c
    ensures HandledTo(g, c, done + {order[j]}, order0, i0, order, i, j1)
  {
  }

  lemma RemovalHandled(g: Graph, c: Id, x: Var, done: set<Id>, order: seq<Id>, i0: int, j: nat)
    requires Promotable(g, c, x) && c !in done && 0 <= i0 < |order| && order[i0] == c && j < |order| && order[j] == c
    requires HandledTo(g, c, done, order, i0, order, i0, j)
    ensures j <= i0 && j <= |Without(order, c)| && |Without(order, c)| < |order|
    ensures HandledTo(g, c, done + {c}, order, i0, Without(order, c), i0 - 1, j)
    ensures Removable(HalfPromoted(g, c, x, done), c)
    ensures Removed(HalfPromoted(g, c, x, done), c) == HalfPromoted(g, c, x, done + {c})
  {
    RetagLinked(g, x, done);
    RetagMaking(g, x, done, c);
    RestAfter(order, j, c);
    WithoutShorter(order, c);
  }

  lemma AllHandled(g: Graph, c: Id, x: Var, done: set<Id>, order0: seq<Id>, i0: int, order: seq<Id>, i: int, j: nat)
    requires Promotable(g, c, x) && j == |order| && HandledTo(g, c, done, order0, i0, order, i, j)
    ensures HalfPromoted(g, c, x, done) == Promoted(g, c, x) && order == Without(order0, c) && i == i0 - 1
  {
    forall n | n in g.code ensures n in done {
      assert n !in order[j..];
    }
    AllRetagged(g, c, x, done);
  }

  lemma {:induction false} WithoutShorter(order: seq<Id>, c: Id)
    ensures |Without(order, c)| <= |order|
    ensures c in order ==> |Without(order, c)| < |order|
  {
    if order != [] { WithoutShorter(order[1..], c); }
  }

  lemma RestAfter(order: seq<Id>, j: nat, c: Id)
    requires j < |order| && order[j] == c && c !in order[..j]
    ensures j <= |Without(order, c)|
    ensures forall n :: n in order[j..] && n != c ==> n in Without(order, c)[j..]
  {
    WithoutAfter(order[..j], order[j..], c);
    WithoutMembers(order[j..], c);
    assert order == order[..j] + order[j..];
    assert Without(order, c)[j..] == Without(order[j..], c);
  }

  lemma OnlyMaking(g: Graph, c: Id, x: Var, done: set<Id>, n: Id)
    requires Promotable(g, c, x)
    requires var h := HalfPromoted(g, c, x, done); n in h.code && Makes(h.code[n].instr, x)
    ensures n == c && c !in done
  {
  }

  lemma NotMaking(g: Graph, c: Id, x: Var, done: set<Id>, n: Id)
    requires Promotable(g, c, x)
    requires var h := HalfPromoted(g, c, x, done); n in h.code && !Makes(h.code[n].instr, x)
    ensures n in g.code && n != c
  {
  }

  // ApplyFn: `compressed` are the promises it reports.
  method ApplyFn(w: Content, ghost rank: Id -> nat) returns (compressed: set<Var>)
    requires WellLinked(w.View()) && Lists(w.order, w.code) && Ordered(w.View(), rank)
    modifies w
    ensures WellLinked(w.View()) && Lists(w.order, w.code)
    ensures forall x :: x in compressed <==> exists n :: Passes(old(w.code), n, x)
    ensures forall n, x :: !Passes(w.code, n, x)
    ensures old(WellLinked(w.View())) && RefinesWithout(old(w.View()), w.View(), compressed)
  {
    ghost var g := w.View();
    compressed := {};
    NothingYet(g);
    var i := 0;
    while i < |w.order|
      invariant 0 <= i <= |w.order| && Lists(w.order, w.code)
      invariant PassedTo(g, w.View(), w.order, rank, compressed, i)
      decreases |w.order| - i
    {
      var op := w.order[i];
      var instr := w.code[op].instr;
      if instr.Compute? && instr.tag.NewPromise? && instr.dest.Some? && instr.args == [] {
        var found := HasEscape(w, op, instr.dest.value);
        if !found {
          PassedPromotion(g, w.View(), w.order, rank, compressed, i, op, instr.dest.value);
          i := Promote(w, i, op, instr.dest.value);
          compressed := compressed + {instr.dest.value};
        } else {
          PassedOver(g, w.View(), w.order, rank, compressed, i);
        }
      } else {
        PassedOver(g, w.View(), w.order, rank, compressed, i);
      }
      i := i + 1;
    }
    assert w.order[..i] == w.order;
  }

  // The pass with the first i operations of the code vector behind it.
  ghost predicate PassedTo(g: Graph, g1: Graph, order: seq<Id>, rank: Id -> nat, xs: set<Var>, i: nat)
    requires g.Valid() && i <= |order|
  {
    WellLinked(g1) && Ordered(g1, rank) && RefinesWithout(g, g1, xs) && Found(g.code, g1.code, xs) &&
    forall n, x :: n in order[..i] ==> !Passes(g1.code, n, x)
  }

  lemma PassedOver(g: Graph, g1: Graph, order: seq<Id>, rank: Id -> nat, xs: set<Var>, i: nat)
    requires g.Valid() && i < |order| && PassedTo(g, g1, order, rank, xs, i)
    requires forall x :: !Passes(g1.code, order[i], x)
    ensures PassedTo(g, g1, order, rank, xs, i + 1)
  {
  }

  lemma PassedPromotion(g: Graph, g1: Graph, order: seq<Id>, rank: Id -> nat, xs: set<Var>, i: nat, c: Id, x: Var)
    requires g.Valid() && i < |order| && PassedTo(g, g1, order, rank, xs, i) && order[i] == c && Passes(g1.code, c, x)
    ensures Promotable(g1, c, x) && i <= |Without(order, c)| < |order|
    ensures PassedTo(g, Promoted(g1, c, x), Without(order, c), rank, xs + {x}, i)
  {
    PassesPromotable(g1, c, x, rank);
    PromotedOrdered(g1, c, x, rank);
    PassRefines(g, g1, c, x, xs);
    FoundOne(g, g1, c, x, xs, xs + {x});
    KeptBefore(g1, c, x, order, i);
    WithoutShorter(order, c);
  }

  // What the pass has found so far, of the promises that pass at the start.
  ghost predicate Found(code0: map<Id, Block>, code: map<Id, Block>, xs: set<Var>)
  {
    (forall n, x :: Passes(code, n, x) ==> Passes(code0, n, x)) &&
    (forall n, x :: Passes(code0, n, x) ==> x in xs || Passes(code, n, x)) &&
    (forall x :: x in xs ==> exists n :: Passes(code0, n, x))
  }

  lemma NothingYet(g: Graph)
    requires g.Valid()
    ensures RefinesWithout(g, g, {}) && Found(g.code, g.code, {})
  {
    forall w ensures Refines(g, g, {}, w) {
      RefinesItself(g, w);
    }
  }

  lemma FoundOne(g: Graph, g1: Graph, c: Id, x: Var, xs: set<Var>, xs': set<Var>)
    requires Promotable(g1, c, x) && Found(g.code, g1.code, xs) && xs' == xs + {x}
    ensures Found(g.code, Promoted(g1, c, x).code, xs')
  {
    var code := Promoted(g1, c, x).code;
    forall n, y ensures Passes(code, n, y) <==> Passes(g1.code, n, y) && n != c {
      PassesStays(g1, c, x, n, y);
    }
    assert Passes(g1.code, c, x);
  }

  lemma KeptBefore(g1: Graph, c: Id, x: Var, order: seq<Id>, i: nat)
    requires Promotable(g1, c, x) && i < |order| && order[i] == c
    requires forall n, y :: n in order[..i] ==> !Passes(g1.code, n, y)
    ensures i <= |Without(order, c)|
    ensures forall n, y :: n in Without(order, c)[..i] ==> !Passes(Promoted(g1, c, x).code, n, y)
  {
    assert Passes(g1.code, c, x);
    WithoutAfter(order[..i], order[i..], c);
    assert order == order[..i] + order[i..];
    assert Without(order, c)[..i] == order[..i];
    forall n, y | n in order[..i] ensures !Passes(Promoted(g1, c, x).code, n, y) {
      PassesStays(g1, c, x, n, y);
    }
  }
}
