// The worker's operation graph as it is built and edited in place.
module WorkerContent {
  import opened Wrappers
  import opened Ir
  import opened LinearCode
  import opened GraphSurgery
  import opened ControlFlow

  // ---------------------------------------------------------------- jumps lead forward

  // So no chain of jumps runs in a circle.
  ghost predicate JumpsForward(g: Graph)
  {
    forall n :: n in g.code && g.code[n].instr.Jump? ==> JumpForward(g, n)
  }

  ghost predicate JumpForward(g: Graph, n: Id)
    requires n in g.code
  {
    |g.code[n].next| == 1 && (g.code[n].next[0] == NULL || g.code[n].next[0] > n)
  }

  ghost predicate OffsetsForward(code: seq<Operation>)
  {
    forall i :: 0 <= i < |code| && code[i].instr.Jump? ==> code[i].offset > 0
  }

  lemma GraphOfForward(code: seq<Operation>)
    requires OffsetsForward(code)
    ensures JumpsForward(GraphOf(code))
  {
  }

  lemma ForwardRemovable(g: Graph, c: Id)
    requires WellLinked(g) && JumpsForward(g) && c in g.code && g.code[c].instr.Jump?
    ensures Removable(g, c)
  {
  }

  lemma RemovedForward(g: Graph, c: Id)
    requires WellLinked(g) && JumpsForward(g) && c in g.code && g.code[c].instr.Jump?
    ensures JumpsForward(Removed(g, c))
  {
  }

  lemma SameRunsTwice(g0: Graph, g1: Graph, g2: Graph)
    requires g0.Valid() && g1.Valid() && g2.Valid() && SameRuns(g0, g1) && SameRuns(g1, g2)
    ensures SameRuns(g0, g2)
  {
  }

  // ---------------------------------------------------------------- the content

  // The block n with the jump c, which leads to t, half taken out: the links of the
  // operations in `done` are redirected already.
  ghost predicate HalfRemoved(before: map<Id, Block>, after: map<Id, Block>, c: Id, t: Id, done: set<Id>, n: Id)
    requires n in before
  {
    n in after &&
    after[n] == Block(before[n].instr, if n in done then Redirected(before[n].next, c, t) else before[n].next,
                      if n == t then before[n].prev + done else before[n].prev)
  }

  lemma FullyRemoved(g: Graph, c: Id, code: map<Id, Block>, after: map<Id, Block>)
    requires Removable(g, c) && code.Keys == g.code.Keys
    requires forall n :: n in g.code ==> HalfRemoved(g.code, code, c, g.code[c].next[0], g.code[c].prev, n)
    requires var t := g.code[c].next[0];
             after == (if t == NULL then code else code[t := code[t].(prev := code[t].prev - {c})]) - {c}
    ensures Removed(g, c).code == after
  {
    assert g.BlockOk(c);
    forall n ensures n in after <==> n in Removed(g, c).code {
    }
    forall n | n in after ensures Removed(g, c).code[n] == after[n] {
      BlockRemoved(g, c, code, n);
    }
  }

  lemma BlockRemoved(g: Graph, c: Id, code: map<Id, Block>, n: Id)
    requires Removable(g, c) && n in g.code && n != c
    requires HalfRemoved(g.code, code, c, g.code[c].next[0], g.code[c].prev, n)
    ensures Removed(g, c).code[n] == if n == g.code[c].next[0] then code[n].(prev := code[n].prev - {c}) else code[n]
  {
  }

  class Content {
    var entry: Id
    var code: map<Id, Block>
    var order: seq<Id>

    function View(): Graph
      reads this
    {
      Graph(entry, code)
    }

    // OpsToBlocks and what buildWorkerContent does with its result.
    constructor (ops: seq<Operation>)
      requires JumpsInside(ops) && |ops| > 0
      ensures View() == GraphOf(ops) && Lists(order, code)
    {
      var blocks := OpsToBlocks(ops);
      var positions: seq<Id> := [];
      for i := 0 to |ops|
        invariant forall n :: n in positions <==> 0 <= n < i
      {
        positions := positions + [i];
      }
      entry, code, order := 0, blocks, positions;
    }

    // removeOp
    method RemoveOp(c: Id)
      requires Removable(View(), c) && Lists(order, code)
      modifies this
      ensures View() == Removed(old(View()), c) && Lists(order, code) && order == Without(old(order), c)
    {
      var t := code[c].next[0];
      assert View().BlockOk(c);
      var todo := code[c].prev;
      ghost var code0 := code;
      ghost var prev := todo;
      while todo != {}
        invariant todo <= prev && code.Keys == code0.Keys && entry == old(entry) && order == old(order)
        invariant forall n :: n in code0 ==> HalfRemoved(code0, code, c, t, prev - todo, n)
        decreases todo
      {
        var p := AnyOf(todo);
        ghost var last, done := code, prev - todo;
        todo := todo - {p};
        var next, _ := RedirectLinks(code[p].next, c, t);
        code := code[p := code[p].(next := next)];
        if t != NULL {
          code := code[t := code[t].(prev := code[t].prev + {p})];
        }
        HalfRemovedStep(code0, last, code, c, t, done, p);
        assert prev - todo == done + {p};
      }
      Drop(c, t, old(View()));
    }

    // Nothing leads to the operation any more: off with it.
    method Drop(c: Id, t: Id, ghost g: Graph)
      requires Removable(g, c) && t == g.code[c].next[0] && code.Keys == g.code.Keys && Lists(order, code) && entry == g.entry
      requires forall n :: n in g.code ==> HalfRemoved(g.code, code, c, t, g.code[c].prev, n)
      modifies this
      ensures View() == Removed(g, c) && Lists(order, code) && order == Without(old(order), c)
    {
      assert g.BlockOk(c);
      ghost var code1 := code;
      if t != NULL {
        code := code[t := code[t].(prev := code[t].prev - {c})];
      }
      if entry == c { entry := t; }
      WithoutMembers(order, c);
      order := Erase(order, c);
      code := code - {c};
      FullyRemoved(g, c, code1, code);
    }

    // The OP_JMP loop of buildWorkerContent, in any order.
    method RemoveJumps()
      requires WellLinked(View()) && JumpsForward(View()) && Lists(order, code)
      modifies this
      ensures WellLinked(View()) && Lists(order, code) && old(WellLinked(View())) && SameRuns(old(View()), View())
      ensures forall n :: n in code ==> n in old(code) && code[n].instr == old(code)[n].instr && !code[n].instr.Jump?
      ensures Targeted(old(View())) ==> Targeted(View())
    {
      var todo := code.Keys;
      while todo != {}
        invariant WellLinked(View()) && JumpsForward(View()) && Lists(order, code) && todo <= code.Keys
        invariant SameRuns(old(View()), View())
        invariant forall n :: n in code ==> n in old(code) && code[n].instr == old(code)[n].instr
        invariant forall n :: n in code && n !in todo ==> !code[n].instr.Jump?
        invariant Targeted(old(View())) ==> Targeted(View())
        decreases todo
      {
        var k := AnyOf(todo);
        todo := todo - {k};
        if code[k].instr.Jump? {
          ghost var g := View();
          ForwardRemovable(g, k);
          RemovedForward(g, k);
          RemovedLinked(g, k);
          RemovalKeepsRuns(g, k);
          if Targeted(g) { RemovedTargeted(g, k); }
          SameRunsTwice(old(View()), g, Removed(g, k));
          RemoveOp(k);
        }
      }
    }
  }

  lemma HalfRemovedStep(before: map<Id, Block>, last: map<Id, Block>, after: map<Id, Block>, c: Id, t: Id, done: set<Id>, p: Id)
    requires last.Keys == before.Keys && p in before && p !in done && (t == NULL || t in before) && NULL !in before
    requires forall n :: n in before ==> HalfRemoved(before, last, c, t, done, n)
    requires var code := last[p := last[p].(next := Redirected(last[p].next, c, t))];
             after == if t == NULL then code else code[t := code[t].(prev := code[t].prev + {p})]
    ensures forall n :: n in before ==> HalfRemoved(before, after, c, t, done + {p}, n)
  {
  }

  function Without(order: seq<Id>, c: Id): seq<Id>
  {
    if order == [] then [] else (if order[0] == c then [] else [order[0]]) + Without(order[1..], c)
  }

  lemma {:induction false} WithoutMembers(order: seq<Id>, c: Id)
    ensures forall n :: n in Without(order, c) <==> n in order && n != c
  {
    if order != [] { WithoutMembers(order[1..], c); }
  }

  lemma {:induction false} WithoutAfter(a: seq<Id>, b: seq<Id>, c: Id)
    requires c !in a
    ensures Without(a + b, c) == a + Without(b, c)
  {
    if a == [] {
      assert a + b == b;
    } else {
      WithoutAfter(a[1..], b, c);
      assert (a + b)[1..] == a[1..] + b;
    }
  }

  // The loop of removeOp that erases the operation from the code vector.
  method Erase(order: seq<Id>, c: Id) returns (r: seq<Id>)
    ensures r == Without(order, c)
  {
    r := order;
    var i := 0;
    while i < |r|
      invariant 0 <= i <= |r| && Without(order, c) == r[..i] + Without(r[i..], c)
      decreases |r| - i
    {
      if r[i] == c {
        ghost var s := r;
        r := r[..i] + r[i + 1..];
        assert r[..i] == s[..i] && r[i..] == s[i..][1..];
      } else {
        assert r[i..][1..] == r[i + 1..] && r[..i + 1] == r[..i] + [r[i]];
        i := i + 1;
      }
    }
    assert r[..i] == r;
  }
}
