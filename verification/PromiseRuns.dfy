// Every run of a worker that does not wait for ever is a run of the worker with its
// private promises turned into variables.
module PromiseRuns {
  import opened Wrappers
  import opened Ir
  import opened GraphSurgery
  import opened ControlFlow
  import opened Promises

  // ---------------------------------------------------------------- one promise

  // The promoted worker in step with the original one; at c it is ahead already.
  ghost predicate Follows(g: Graph, c: Id, x: Var, s: At, s': At)
    requires c in g.code && |g.code[c].next| > 0
  {
    s'.pc == Skip(g, c, s.pc) && Stands(s.worker, s'.worker, x)
  }

  ghost predicate BothThere(g: Graph, c: Id, x: Var, r: Option<At>, r': Option<At>)
    requires c in g.code && |g.code[c].next| > 0
  {
    r.Some? ==> r'.Some? && Follows(g, c, x, r.value, r'.value)
  }

  lemma StepOutside(g: Graph, c: Id, x: Var, s: At, s': At, fills: map<Ref, Value>)
    requires Promotable(g, c, x) && Follows(g, c, x, s, s')
    ensures WellLinked(Promoted(g, c, x))
    ensures BothThere(g, c, x, Step(g, s, Outside(fills)), Step(Promoted(g, c, x), s', Outside(fills)))
  {
    PromotedLinked(g, c, x);
    if Step(g, s, Outside(fills)).Some? { FillStands(s.worker, s'.worker, x, fills); }
  }

  lemma StepAtMaking(g: Graph, c: Id, x: Var, s: At, s': At, answer: Value)
    requires Promotable(g, c, x) && Follows(g, c, x, s, s') && s.pc == c
    ensures Step(g, s, Work(answer)).Some? && Follows(g, c, x, Step(g, s, Work(answer)).value, s')
  {
    assert g.BlockOk(c);
    MakeStands(s.worker, s'.worker, x);
  }

  lemma StepElsewhere(g: Graph, c: Id, x: Var, s: At, s': At, answer: Value)
    requires Promotable(g, c, x) && Follows(g, c, x, s, s') && s.pc != c
    ensures WellLinked(Promoted(g, c, x))
    ensures BothThere(g, c, x, Step(g, s, Work(answer)), Step(Promoted(g, c, x), s', Work(answer)))
  {
    PromotedLinked(g, c, x);
    if s.pc in g.code {
      assert g.BlockOk(s.pc);
      DoStands(g.code[s.pc].instr, s.worker, s'.worker, x, answer);
    }
  }

  // The labels without the steps at c.
  function Kept(g: Graph, c: Id, s: At, ls: seq<Label>): seq<Label>
    requires g.Valid()
  {
    if ls == [] then []
    else
      var l, r := ls[|ls| - 1], Run(g, s, ls[..|ls| - 1]);
      Kept(g, c, s, ls[..|ls| - 1]) + if r.Some? && r.value.pc == c && l.Work? then [] else [l]
  }

  function Pushes(ls: seq<Label>): seq<Label>
  {
    if ls == [] then []
    else Pushes(ls[..|ls| - 1]) + if ls[|ls| - 1].Outside? then [ls[|ls| - 1]] else []
  }

  lemma {:induction false} RunFollows(g: Graph, c: Id, x: Var, s: At, s': At, ls: seq<Label>)
    requires Promotable(g, c, x) && Follows(g, c, x, s, s')
    ensures WellLinked(Promoted(g, c, x)) && Pushes(Kept(g, c, s, ls)) == Pushes(ls)
    ensures BothThere(g, c, x, Run(g, s, ls), Run(Promoted(g, c, x), s', Kept(g, c, s, ls)))
  {
    PromotedLinked(g, c, x);
    if ls != [] {
      var before, l := ls[..|ls| - 1], ls[|ls| - 1];
      RunFollows(g, c, x, s, s', before);
      var r, kept := Run(g, s, before), Kept(g, c, s, before);
      var all := Kept(g, c, s, ls);
      assert all != kept ==> all[..|all| - 1] == kept;
      if r.Some? {
        var u, u' := r.value, Run(Promoted(g, c, x), s', kept).value;
        if l.Outside? {
          StepOutside(g, c, x, u, u', l.fills);
        } else if u.pc == c {
          StepAtMaking(g, c, x, u, u', l.answer);
        } else {
          StepElsewhere(g, c, x, u, u', l.answer);
        }
      }
    }
  }

  // ---------------------------------------------------------------- refinement

  // g' comes to the same as g with these labels, but for the variables xs and the
  // promises made there: the same exchanges with the outside, which pushes the same.
  ghost predicate Matched(g: Graph, g': Graph, xs: set<Var>, w: Worker, ls: seq<Label>)
    requires g.Valid() && g'.Valid()
  {
    var r := Run(g, At(g.entry, w), ls);
    r.Some? ==> exists ls' :: MatchedBy(g', xs, w, ls, r.value, ls')
  }

  ghost predicate MatchedBy(g': Graph, xs: set<Var>, w: Worker, ls: seq<Label>, u: At, ls': seq<Label>)
    requires g'.Valid()
  {
    var r' := Run(g', At(g'.entry, w), ls');
    Pushes(ls') == Pushes(ls) && r'.Some? && Agree(u.worker, r'.value.worker, xs) &&
    (u.pc == NULL ==> r'.value.pc == NULL)
  }

  ghost predicate Refines(g: Graph, g': Graph, xs: set<Var>, w: Worker)
    requires g.Valid() && g'.Valid()
  {
    forall ls :: Matched(g, g', xs, w, ls)
  }

  // No promise has been made yet.
  ghost predicate Fresh(w: Worker)
  {
    w.made == map[] &&
    (forall y :: y in w.env ==> IsGiven(w.env[y])) && (forall p :: p in w.mem ==> IsGiven(w.mem[p])) &&
    (forall r :: r in w.ready ==> r.Given? && IsGiven(w.ready[r])) && (forall r :: r in w.shown ==> r.Given?)
  }

  predicate IsGiven(v: Value) { v.Promise? ==> v.ref.Given? }

  predicate HoldsPromise(w: Worker, x: Var) { x in w.env && w.env[x].Promise? }

  lemma FreshStands(w: Worker, x: Var)
    requires Fresh(w) && !HoldsPromise(w, x)
    ensures Stands(w, w, x)
  {
  }

  lemma PromotionRefines(g: Graph, c: Id, x: Var, w: Worker)
    requires Promotable(g, c, x) && Fresh(w) && !HoldsPromise(w, x)
    ensures WellLinked(Promoted(g, c, x)) && Refines(g, Promoted(g, c, x), {x}, w)
  {
    var g' := Promoted(g, c, x);
    PromotedLinked(g, c, x);
    FreshStands(w, x);
    forall ls ensures Matched(g, g', {x}, w, ls) {
      var r := Run(g, At(g.entry, w), ls);
      RunFollows(g, c, x, At(g.entry, w), At(g'.entry, w), ls);
      if r.Some? {
        assert MatchedBy(g', {x}, w, ls, r.value, Kept(g, c, At(g.entry, w), ls));
      }
    }
  }

  lemma AgreeTwice(a: Worker, b: Worker, c: Worker, xs: set<Var>, x: Var)
    requires Agree(a, b, xs) && Agree(b, c, {x})
    ensures Agree(a, c, xs + {x})
  {
  }

  lemma RefinesTwice(g: Graph, g1: Graph, g2: Graph, xs: set<Var>, x: Var, w: Worker)
    requires g.Valid() && g1.Valid() && g2.Valid() && Refines(g, g1, xs, w) && Refines(g1, g2, {x}, w)
    ensures Refines(g, g2, xs + {x}, w)
  {
    forall ls ensures Matched(g, g2, xs + {x}, w, ls) {
      assert Matched(g, g1, xs, w, ls);
      var r := Run(g, At(g.entry, w), ls);
      if r.Some? {
        var ls1 :| MatchedBy(g1, xs, w, ls, r.value, ls1);
        assert Matched(g1, g2, {x}, w, ls1);
        var r1 := Run(g1, At(g1.entry, w), ls1);
        var ls2 :| MatchedBy(g2, {x}, w, ls1, r1.value, ls2);
        AgreeTwice(r.value.worker, r1.value.worker, Run(g2, At(g2.entry, w), ls2).value.worker, xs, x);
        assert MatchedBy(g2, xs + {x}, w, ls, r.value, ls2);
      }
    }
  }

  lemma RefinesItself(g: Graph, w: Worker)
    requires g.Valid()
    ensures Refines(g, g, {}, w)
  {
    forall ls ensures Matched(g, g, {}, w, ls) {
      var r := Run(g, At(g.entry, w), ls);
      if r.Some? {
        assert Agree(r.value.worker, r.value.worker, {});
        assert MatchedBy(g, {}, w, ls, r.value, ls);
      }
    }
  }

  // ---------------------------------------------------------------- exactly when

  // A worker that pushes to x before it makes a promise of its own there.
  function EarlyPush(x: Var, k: int): Graph
  {
    Graph(0, map[0 := Block(Instr.Compute(NewInt(k), Some(x + 1), []), [1], {}),
                 1 := Block(Instr.Compute(PushPromise, None, [x, x + 1]), [2], {0}),
                 2 := Block(Instr.Compute(NewPromise, Some(x), []), [NULL], {1})])
  }

  lemma EarlyPushPromotable(x: Var, k: int)
    ensures Promotable(EarlyPush(x, k), 2, x)
  {
  }

  lemma EarlyPushFills(x: Var, k: int, w: Worker)
    requires HoldsPromise(w, x)
    ensures EarlyPush(x, k).Valid()
    ensures var r := Run(EarlyPush(x, k), At(0, w), [Work(Num(k)), Work(Num(k))]);
            r.Some? && w.env[x].ref in r.value.worker.ready && r.value.worker.ready[w.env[x].ref] == Num(k)
  {
    EarlyPushPromotable(x, k);
    var g, l := EarlyPush(x, k), Work(Num(k));
    var u := Step(g, At(0, w), l);
    assert u.Some? && u.value.pc == 1 && u.value.worker.env == w.env[x + 1 := Num(k)];
    assert Run(g, At(0, w), []) == Some(At(0, w));
    assert [l][..0] == [] && [l, l][..1] == [l];
    assert Run(g, At(0, w), [l]) == u;
    var v := Step(g, u.value, l);
    assert v.Some? && v.value.worker.ready == u.value.worker.ready[w.env[x].ref := Num(k)];
  }

  lemma DoKeepsReady(i: Instr, w: Worker, answer: Value)
    requires i.Compute? ==> !i.tag.PushPromise?
    ensures Do(i, w, answer).Done? ==> Do(i, w, answer).worker.ready == w.ready
  {
  }

  // A worker without OP_PUSH_PROMISE leaves what is ready alone.
  lemma {:induction false} ReadyStays(g: Graph, s: At, ls: seq<Label>)
    requires g.Valid() && Run(g, s, ls).Some? && Pushes(ls) == []
    requires forall n :: n in g.code && g.code[n].instr.Compute? ==> !g.code[n].instr.tag.PushPromise?
    ensures Run(g, s, ls).value.worker.ready == s.worker.ready
  {
    if ls != [] {
      ReadyStays(g, s, ls[..|ls| - 1]);
      var u, l := Run(g, s, ls[..|ls| - 1]).value, ls[|ls| - 1];
      assert l.Work?;
      DoKeepsReady(g.code[u.pc].instr, u.worker, l.answer);
    }
  }

  lemma {:induction false} NoPushes(ls: seq<Label>)
    requires forall k :: 0 <= k < |ls| ==> ls[k].Work?
    ensures Pushes(ls) == []
  {
    if ls != [] { NoPushes(ls[..|ls| - 1]); }
  }

  lemma NeverFilled(g: Graph, xs: set<Var>, w: Worker, ls: seq<Label>, u: At, ref: Ref, k: int, ls': seq<Label>)
    requires g.Valid() && Pushes(ls) == []
    requires forall n :: n in g.code && g.code[n].instr.Compute? ==> !g.code[n].instr.tag.PushPromise?
    requires ref.Given? && ref in u.worker.ready && u.worker.ready[ref] == Num(k)
    requires ref in w.ready ==> w.ready[ref] != Num(k)
    ensures !MatchedBy(g, xs, w, ls, u, ls')
  {
    if Pushes(ls') == [] && Run(g, At(g.entry, w), ls').Some? {
      ReadyStays(g, At(g.entry, w), ls');
      assert !SameReady(u.worker.ready, Run(g, At(g.entry, w), ls').value.worker.ready, ref);
    }
  }

  lemma EarlyPushLost(x: Var, k: int, w: Worker)
    requires Fresh(w) && HoldsPromise(w, x)
    requires w.env[x].ref in w.ready ==> w.ready[w.env[x].ref] != Num(k)
    ensures Promotable(EarlyPush(x, k), 2, x) && WellLinked(Promoted(EarlyPush(x, k), 2, x))
    ensures !Refines(EarlyPush(x, k), Promoted(EarlyPush(x, k), 2, x), {x}, w)
  {
    var g, ls := EarlyPush(x, k), [Work(Num(k)), Work(Num(k))];
    EarlyPushPromotable(x, k);
    PromotedLinked(g, 2, x);
    EarlyPushFills(x, k, w);
    NoPushes(ls);
    var g', r := Promoted(g, 2, x), Run(g, At(0, w), ls).value;
    forall ls' ensures !MatchedBy(g', {x}, w, ls, r, ls') {
      NeverFilled(g', {x}, w, ls, r, w.env[x].ref, k, ls');
    }
    assert !Matched(g, g', {x}, w, ls);
  }

  // The rewriting is right for every worker that passes the check exactly when x does
  // not hold a promise from outside at the start.
  lemma PromotionRightExactly(x: Var, w: Worker)
    requires Fresh(w)
    ensures (forall g, c | Promotable(g, c, x) ::
               Promoted(g, c, x).Valid() && Refines(g, Promoted(g, c, x), {x}, w)) <==> !HoldsPromise(w, x)
  {
    if HoldsPromise(w, x) {
      var ref := w.env[x].ref;
      var k := if ref in w.ready && w.ready[ref].Num? then w.ready[ref].number + 1 else 0;
      EarlyPushLost(x, k, w);
    } else {
      forall g, c | Promotable(g, c, x) ensures Promoted(g, c, x).Valid() && Refines(g, Promoted(g, c, x), {x}, w) {
        PromotionRefines(g, c, x, w);
      }
    }
  }
}
