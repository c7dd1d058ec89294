// The allocate-and-split loop on the worker's own code: insert operations in
// place, split variables one by one, try to colour again.
module SpreadRegisters {
  import opened Wrappers
  import opened Ir
  import opened RegisterMachine
  import opened RegisterColoring
  import opened GraphSurgery
  import opened Spill
  import opened SpillRun
  import opened Allocator
  import opened Pressure
  import opened Growth

  ghost predicate IdsBelow(g: Graph, nextId: Id)
  {
    0 <= nextId && forall n :: n in g.code ==> n < nextId
  }

  // ---------------------------------------------------------------- a half split program

  // What SplitVariable has done when it has looked at the first i operations.
  ghost predicate Partly(g0: Graph, g: Graph, order0: seq<Id>, order: seq<Id>, x: Var, lo: Var, hi: Var,
                         parts: map<Id, Parts>, i: nat)
  {
    g0.Valid() && WellLinked(g) && Lists(order, g.code) && Lists(order0, g0.code) && order0 <= order &&
    x < lo <= hi && Shape(g0, g, x, lo, parts) && OpsKnown(g0, g, x, lo, hi, parts) && parts.Keys <= g0.code.Keys &&
    (parts == map[] ==> g == g0) && LookedAt(g0, order, x, parts, i)
  }

  ghost predicate LookedAt(g0: Graph, order: seq<Id>, x: Var, parts: map<Id, Parts>, i: nat)
  {
    i <= |order| && forall j :: 0 <= j < i ==> Handled(g0, x, parts, order[j])
  }

  ghost predicate Handled(g0: Graph, x: Var, parts: map<Id, Parts>, n: Id)
  {
    n in g0.code && UsesVar(g0.code[n].instr, x) ==> n in parts
  }

  lemma PartlyStart(g: Graph, order: seq<Id>, x: Var, lo: Var)
    requires WellLinked(g) && Lists(order, g.code) && x < lo
    ensures Partly(g, g, order, order, x, lo, lo, map[], 0)
  {
  }

  // An operation that uses x has not been split yet.
  lemma UserIsWhole(g0: Graph, g: Graph, order0: seq<Id>, order: seq<Id>, x: Var, lo: Var, hi: Var,
                    parts: map<Id, Parts>, i: nat, n: Id)
    requires Partly(g0, g, order0, order, x, lo, hi, parts, i) && n in g.code && UsesVar(g.code[n].instr, x)
    ensures n in g0.code && n !in parts && UsesVar(g0.code[n].instr, x)
  {
    KnownVars(g0, g, x, lo, hi, parts, n, x);
    assert OpKnown(g0, g, x, lo, hi, parts, n);
  }

  lemma OneMoreSplit(g0: Graph, g: Graph, g': Graph, order0: seq<Id>, order: seq<Id>, order': seq<Id>, x: Var, lo: Var, hi: Var,
                     parts: map<Id, Parts>, i: nat, k: Parts)
    requires Partly(g0, g, order0, order, x, lo, hi, parts, i) && i < |order| && order[i] in g0.code && order[i] !in parts
    requires UsesVar(g0.code[order[i]].instr, x) && PartsNew(g, k) && k.temp == hi && order[i] in g.code
    requires g' == SplitOp(g, order[i], x, k) && order <= order' && Lists(order', g'.code)
    ensures Partly(g0, g', order0, order', x, lo, hi + 1, parts[order[i] := k], i + 1)
  {
    var n := order[i];
    PartIsOk(g0, g, x, lo, n, k);
    ShapeStep(g0, g, x, lo, parts, n, k);
    SplitOpKnown(g0, g, x, lo, hi, parts, n, k);
    SplitOpLinked(g, n, x, k);
    LookedAtStep(g0, order, order', x, parts, i, k);
  }

  lemma LookedAtStep(g0: Graph, order: seq<Id>, order': seq<Id>, x: Var, parts: map<Id, Parts>, i: nat, k: Parts)
    requires LookedAt(g0, order, x, parts, i) && i < |order| && order <= order'
    ensures LookedAt(g0, order', x, parts[order[i] := k], i + 1)
  {
  }

  lemma PartIsOk(g0: Graph, g: Graph, x: Var, lo: Var, n: Id, k: Parts)
    requires n in g0.code && UsesVar(g0.code[n].instr, x) && k.temp >= lo && PartsNew(g, k) && g0.code.Keys <= g.code.Keys
    ensures PartOk(g0, x, lo, n, k)
  {
  }

  lemma OneMorePassed(g0: Graph, g: Graph, order0: seq<Id>, order: seq<Id>, x: Var, lo: Var, hi: Var,
                      parts: map<Id, Parts>, i: nat)
    requires Partly(g0, g, order0, order, x, lo, hi, parts, i) && i < |order|
    requires order[i] in g.code && !UsesVar(g.code[order[i]].instr, x)
    ensures Partly(g0, g, order0, order, x, lo, hi, parts, i + 1)
  {
    var n := order[i];
    assert OpKnown(g0, g, x, lo, hi, parts, n);
    assert Handled(g0, x, parts, n);
  }

  // What splitting x does, once every operation has been looked at.
  lemma SplitDone(g0: Graph, g: Graph, order0: seq<Id>, order: seq<Id>, x: Var, lo: Var, hi: Var, parts: map<Id, Parts>)
    requires Partly(g0, g, order0, order, x, lo, hi, parts, |order|) && Tidy(g0, lo)
    ensures Tidy(g, hi) && !InUse(g, x) && Implements(g0, g)
    ensures forall v :: InUse(g, v) ==> lo <= v < hi || InUse(g0, v)
    ensures forall v :: InUse(g0, v) && v != x ==> InUse(g, v)
  {
    forall v | InUse(g0, v) && v != x ensures InUse(g, v) {
      OthersStay(g0, g, x, lo, hi, parts, v);
    }
    forall n | n in g0.code && UsesVar(g0.code[n].instr, x) ensures n in parts {
      assert n in order0;
      var j :| 0 <= j < |order0| && order0[j] == n;
      assert order[j] == n;
      assert Handled(g0, x, parts, n);
    }
    FullySplitTidy(g0, g, x, lo, hi, parts);
    if InUse(g0, x) {
      TidySplittable(g0, lo, x);
      SplitImplements(g0, g, x, lo, parts);
    } else {
      forall n ensures n in parts ==> InUse(g0, x) {
        assert n in parts ==> PartOk(g0, x, lo, n, parts[n]);
      }
      assert parts == map[];
      ImplementsItself(g);
    }
  }

  lemma BuiltBefore(g: Graph, c: Id, f: Id, instr: Instr, code: map<Id, Block>, preds: set<Id>)
    requires c in g.code && f !in g.code && g.code[c].prev <= g.code.Keys && code.Keys == g.code.Keys
    requires forall n :: n in g.code ==>
      code[n] == if n in g.code[c].prev then g.code[n].(next := Redirected(g.code[n].next, c, f)) else g.code[n]
    requires forall p :: p in preds <==> p in g.code[c].prev && c in g.code[p].next
    ensures InsertBefore(g, c, f, instr).code == code[c := code[c].(prev := {f})][f := Block(instr, [c], preds)]
  {
    var preds1 := set p | p in g.code[c].prev && c in g.code[p].next;
    forall p ensures p in preds <==> p in preds1 {
    }
    assert preds == preds1;
    var code1 := map n | n in g.code ::
      if n in g.code[c].prev then g.code[n].(next := Redirected(g.code[n].next, c, f)) else g.code[n];
    forall n ensures n in code <==> n in code1 {
    }
    forall n | n in code1 ensures code1[n] == code[n] {
    }
    assert code1 == code;
  }

  // The round asks for no more variables than there are, unless there is none.
  lemma NoMoreThanThere(live: set<Var>, temps: set<Var>, bvars: set<Var>, count: int, registers: nat)
    requires bvars == live - temps && count == Max(1, |bvars| / 4 - registers)
    ensures count >= 1 && (count <= |bvars| <==> bvars != {}) && (bvars == {} <==> live <= temps)
  {
    if bvars == {} { assert live <= temps + bvars; }
  }

  // All of these variables but the ones left have been split.
  ghost predicate AllBut(unsplit0: set<Var>, unsplit: set<Var>, all: set<Var>, left: set<Var>)
  {
    left <= all && unsplit == unsplit0 - (all - left)
  }

  lemma OneSplit(unsplit0: set<Var>, before: set<Var>, after: set<Var>, all: set<Var>, left: set<Var>, v: Var)
    requires AllBut(unsplit0, before, all, left) && after == before - {v} && v in left
    ensures AllBut(unsplit0, after, all, left - {v}) && |left - {v}| == |left| - 1
  {
    assert all - (left - {v}) == (all - left) + {v};
  }

  lemma HowMany(all: set<Var>, left: set<Var>, count: int, cnt: int)
    requires left <= all && 0 <= cnt <= count && count - cnt == |all| - |left| && (left == {} || cnt == 0)
    ensures |all - left| == (if count <= |all| then count else |all|) && cnt == count - |all - left|
  {
    assert all == (all - left) + left;
  }

  // What is made by splitting is not among what was live before.
  lemma SameCandidates(live: set<Var>, temps0: set<Var>, bound0: Var, temps: set<Var>, bound: Var)
    requires MadeBetween(temps0, bound0, temps, bound) && forall v :: v in live ==> v < bound0
    ensures live - temps == live - temps0
  {
    forall v ensures v in live - temps <==> v in live - temps0 {
    }
  }

  // Splitting the rest of them too.
  lemma AllOfThem(unsplit0: set<Var>, before: set<Var>, after: set<Var>, some: set<Var>, all: set<Var>)
    requires before == unsplit0 - some && after == before - all && some <= all
    ensures after == unsplit0 - all
  {
  }

  // What a failed round splits: as many of the candidates as a quarter of them exceeds the
  // registers by, one at least; after fifty rounds all of them. It stops if there is none.
  ghost predicate Round(candidates: set<Var>, iter: nat, registers: nat, stop: bool, split: set<Var>)
  {
    (stop <==> candidates == {}) && split <= candidates &&
    (stop || if iter > 50 then split == candidates
             else |split| == if |candidates| / 4 <= registers then 1 else |candidates| / 4 - registers)
  }

  lemma RoundIs(candidates: set<Var>, iter: nat, registers: nat, split: set<Var>)
    requires split <= candidates
    requires var count := Max(1, |candidates| / 4 - registers); |split| == if count <= |candidates| then count else |candidates|
    ensures Round(candidates, iter, registers, candidates == {}, if iter > 50 then candidates else split)
    ensures candidates == {} ==> split == {}
    ensures candidates != {} ==> split != {}
  {
    if candidates == {} { assert split == {}; }
  }

  // What is live and no temporary is unsplit.
  lemma SplittableIsUnsplit(g: Graph, temps: set<Var>, bound: Var, live: set<Var>)
    requires Tidy(g, bound) && forall v :: v in live <==> SomewhereLive(g, g.code.Keys, v)
    ensures live - temps <= AllVars(g) - temps && forall v :: v in live ==> v < bound
  {
    AllLiveKnown(g, bound, live);
  }

  // What the edits of an operation find at every step.
  lemma EditSteps(g: Graph, op: Id, x: Var, k: Parts)
    requires WellLinked(g) && op in g.code && PartsNew(g, k)
    ensures var g1 := WithLoad(g, op, x, k);
            WellLinked(g1) && op in g1.code && New(g1, k.free0) && New(g1, k.free1) &&
            var g2 := WithFrees(g1, op, k);
            g2.Valid() && op in g2.code && |g2.code[op].next| > 0 && New(g2, k.store) &&
            SplitOp(g, op, x, k) ==
              Rewrite(if WritesVar(g.code[op].instr, x) then InsertAfter(g2, op, k.store, Store(k.temp, x), 0) else g2,
                      op, Rename(g.code[op].instr, map[x := k.temp]))
  {
    WithLoadLinked(g, op, x, k);
    WithFreesAt(WithLoad(g, op, x, k), op, k, op);
    WithFreesLinked(WithLoad(g, op, x, k), op, k);
  }

  // Four fresh identities are all that splitting an operation needs.
  lemma SplitIdsBelow(g: Graph, op: Id, x: Var, k: Parts, nextId: Id, end: Id)
    requires WellLinked(g) && IdsBelow(g, nextId) && op in g.code && end == nextId + 4
    requires k.load == nextId && k.store == nextId + 1 && k.free0 == nextId + 2 && k.free1 == nextId + 3
    ensures PartsNew(g, k) && WellLinked(SplitOp(g, op, x, k)) && IdsBelow(SplitOp(g, op, x, k), end)
  {
    SplitOpLinked(g, op, x, k);
    SplitOpKeys(g, op, x, k);
  }

  lemma LiveIsKnown(g: Graph, bound: Var, v: Var)
    requires Tidy(g, bound) && SomewhereLive(g, g.code.Keys, v)
    ensures v in AllVars(g) && v < bound
  {
    LiveInUse(g, v);
    AllVarsInUse(g, v);
    var n :| n in g.code && UsesVar(g.code[n].instr, v);
    assert OpTidy(g, bound, n);
  }

  lemma AllLiveKnown(g: Graph, bound: Var, live: set<Var>)
    requires Tidy(g, bound) && forall v :: v in live <==> SomewhereLive(g, g.code.Keys, v)
    ensures live <= AllVars(g) && forall v :: v in live ==> v < bound
  {
    forall v | v in live ensures v in AllVars(g) && v < bound {
      LiveIsKnown(g, bound, v);
    }
  }

  lemma RegistersAlwaysMatch(g0: Graph, g: Graph, res: map<Var, int>)
    requires g0.Valid() && g.Valid() && Implements(g0, g)
    requires forall mem, world, n: nat :: SameRun(g, res, mem, world, n)
    ensures forall mem, world, n: nat :: RegistersMatch(g0, g, res, mem, world, n)
  {
    forall mem, world, n: nat ensures RegistersMatch(g0, g, res, mem, world, n) {
      RegistersImplement(g0, g, res, mem, world, n);
    }
  }

  lemma OneFewer(keys: set<Id>, parts: map<Id, Parts>, op: Id, k: Parts)
    requires op in keys && op !in parts
    ensures keys - parts[op := k].Keys < keys - parts.Keys
  {
    assert op in keys - parts.Keys && op !in keys - parts[op := k].Keys;
  }

  // One more operation that uses x is split, with a temporary of its own.
  lemma UserIsSplit(g0: Graph, g: Graph, g': Graph, order0: seq<Id>, order: seq<Id>, order': seq<Id>, x: Var, lo: Var,
                    hi: Var, hi': Var, parts: map<Id, Parts>, parts': map<Id, Parts>, i: nat, k: Parts,
                    temps: set<Var>, temps': set<Var>)
    requires Partly(g0, g, order0, order, x, lo, hi, parts, i) && i < |order| && order[i] in g0.code && order[i] !in parts
    requires UsesVar(g0.code[order[i]].instr, x) && PartsNew(g, k) && k.temp == hi && order[i] in g.code
    requires UsesVar(g.code[order[i]].instr, x) && Confined(g, temps, hi) && x !in temps
    requires g' == SplitOp(g, order[i], x, k) && order <= order' && Lists(order', g'.code)
    requires hi' == hi + 1 && temps' == temps + {hi} && parts' == parts[order[i] := k]
    ensures Partly(g0, g', order0, order', x, lo, hi', parts', i + 1) && Confined(g', temps', hi')
    ensures StaysSmall(g, temps, g', temps')
    ensures g0.code.Keys - parts'.Keys < g0.code.Keys - parts.Keys
  {
    SplitConfined(g, temps, hi, order[i], x, k);
    SplitStaysSmall(g, temps, order[i], x, k);
    OneMoreSplit(g0, g, g', order0, order, order', x, lo, hi, parts, i, k);
    OneFewer(g0.code.Keys, parts, order[i], k);
  }

  // Since some moment exactly the temporaries from the bound of then to that of now were made.
  ghost predicate MadeBetween(temps0: set<Var>, bound0: Var, temps: set<Var>, bound: Var)
  {
    bound0 <= bound && forall v :: v in temps <==> v in temps0 || bound0 <= v < bound
  }

  lemma OneMade(temps0: set<Var>, bound0: Var, temps: set<Var>, bound: Var)
    requires bound == bound0 + 1 && temps == temps0 + {bound0}
    ensures MadeBetween(temps0, bound0, temps, bound)
  {
  }

  lemma MadeTwice(temps0: set<Var>, bound0: Var, temps1: set<Var>, bound1: Var, temps2: set<Var>, bound2: Var)
    requires MadeBetween(temps0, bound0, temps1, bound1) && MadeBetween(temps1, bound1, temps2, bound2)
    ensures MadeBetween(temps0, bound0, temps2, bound2)
  {
  }

  // One operation of a loop over a growing code vector: less to split, or nothing new.
  ghost predicate GoesOn(g0: Graph, parts: map<Id, Parts>, order: seq<Id>, parts': map<Id, Parts>, order': seq<Id>)
  {
    (parts' == parts && order' == order) || g0.code.Keys - parts'.Keys < g0.code.Keys - parts.Keys
  }

  lemma UnsplitShrinks(g0: Graph, g: Graph, x: Var, lo: Var, hi: Var, temps0: set<Var>, temps: set<Var>)
    requires !InUse(g, x) && forall v :: InUse(g, v) ==> lo <= v < hi || InUse(g0, v)
    requires forall v :: InUse(g0, v) && v != x ==> InUse(g, v)
    requires MadeBetween(temps0, lo, temps, hi) && Tidy(g0, lo)
    ensures AllVars(g) - temps == AllVars(g0) - temps0 - {x}
  {
    forall v ensures v in AllVars(g) - temps <==> v in AllVars(g0) - temps0 - {x} {
      AllVarsInUse(g, v);
      AllVarsInUse(g0, v);
      if InUse(g0, v) { InUseIsBelow(g0, lo, v); }
    }
  }

  lemma InUseIsBelow(g: Graph, bound: Var, v: Var)
    requires Tidy(g, bound) && InUse(g, v)
    ensures v < bound
  {
    var n :| n in g.code && UsesVar(g.code[n].instr, v);
    assert OpTidy(g, bound, n);
  }

  // What any number of splits does to a program and its temporaries.
  ghost predicate Since(g0: Graph, temps0: set<Var>, bound0: Var, g: Graph, temps: set<Var>, bound: Var)
  {
    g0.Valid() && g.Valid() && Implements(g0, g) && StaysSmall(g0, temps0, g, temps) &&
    MadeBetween(temps0, bound0, temps, bound)
  }

  lemma SinceItself(g: Graph, temps: set<Var>, bound: Var)
    requires g.Valid()
    ensures Since(g, temps, bound, g, temps, bound)
  {
    ImplementsItself(g);
  }

  lemma SinceTwice(g0: Graph, temps0: set<Var>, bound0: Var, g1: Graph, temps1: set<Var>, bound1: Var,
                   g2: Graph, temps2: set<Var>, bound2: Var)
    requires Since(g0, temps0, bound0, g1, temps1, bound1) && Since(g1, temps1, bound1, g2, temps2, bound2)
    ensures Since(g0, temps0, bound0, g2, temps2, bound2)
  {
    ImplementsTransitive(g0, g1, g2);
    SmallTwice(g0, temps0, g1, temps1, g2, temps2);
  }

  // ---------------------------------------------------------------- the worker's code and the allocator

  class RegisterSpreader {
    var entry: Id
    var code: map<Id, Block>
    var order: seq<Id>
    var nextTempId: Var
    var nextId: Id
    var generatedTemps: set<Var>

    function View(): Graph
      reads this
    {
      Graph(entry, code)
    }

    constructor (entry: Id, code: map<Id, Block>, order: seq<Id>, nextTempId: Var, nextId: Id)
      ensures View() == Graph(entry, code) && this.order == order && this.nextTempId == nextTempId && this.nextId == nextId
    {
      this.entry, this.code, this.order, this.nextTempId, this.nextId := entry, code, order, nextTempId, nextId;
      generatedTemps := {};
    }

    ghost predicate Valid()
      reads this
    {
      WellLinked(View()) && IdsBelow(View(), nextId) && Lists(order, code) && Tidy(View(), nextTempId)
    }

    // With every temporary confined to the operations made for one.
    ghost predicate Tame()
      reads this
    {
      Valid() && Confined(View(), generatedTemps, nextTempId)
    }

    // Variables in use that have never been split.
    ghost function Unsplit(): set<Var>
      reads this
    {
      AllVars(View()) - generatedTemps
    }

    // connectOp for k = 0, connectOpSecond for k = 1.
    method ConnectOp(c: Id, f: Id, instr: Instr, k: nat)
      requires c in code && k < |code[c].next| && f !in code
      modifies `code, `order
      ensures View() == InsertAfter(old(View()), c, f, instr, k) && order == old(order) + [f]
    {
      order := order + [f];
      var t := code[c].next[k];
      code := code[f := Block(instr, [t], {c})];
      if t in code {
        code := code[t := code[t].(prev := code[t].prev - {c} + {f})];
      }
      code := code[c := code[c].(next := code[c].next[k := f])];
    }

    method ConnectBeforeOp(c: Id, f: Id, instr: Instr)
      requires c in code && f !in code && code[c].prev <= code.Keys
      modifies `entry, `code, `order
      ensures View() == InsertBefore(old(View()), c, f, instr) && order == old(order) + [f]
    {
      order := order + [f];
      if entry == c { entry := f; }
      ghost var code0 := code;
      var todo, preds := code[c].prev, {};
      while todo != {}
        invariant todo <= code0[c].prev && code.Keys == code0.Keys
        invariant forall n :: n in code0 ==>
          code[n] == if n in code0[c].prev - todo then code0[n].(next := Redirected(code0[n].next, c, f)) else code0[n]
        invariant forall p :: p in preds <==> p in code0[c].prev - todo && c in code0[p].next
        invariant order == old(order) + [f] && entry == if old(entry) == c then f else old(entry)
        decreases todo
      {
        var p := AnyOf(todo);
        todo := todo - {p};
        var next, found := RedirectLinks(code[p].next, c, f);
        code := code[p := code[p].(next := next)];
        if found { preds := preds + {p}; }
      }
      BuiltBefore(Graph(old(entry), code0), c, f, instr, code, preds);
      code := code[c := code[c].(prev := {f})][f := Block(instr, [c], preds)];
    }

    // Between two operations of SplitVariable.
    ghost predicate Building()
      reads this
    {
      WellLinked(View()) && Lists(order, code)
    }

    method AddLoad(op: Id, x: Var, k: Parts)
      requires Building() && op in code && New(View(), k.load)
      modifies `entry, `code, `order
      ensures WellLinked(old(View())) && View() == WithLoad(old(View()), op, x, k)
      ensures old(order) <= order && Lists(order, code)
    {
      if x in ReadVars(code[op].instr) {
        InsertBeforeAt(View(), op, k.load, Load(k.temp, x), op);
        ConnectBeforeOp(op, k.load, Load(k.temp, x));
      }
    }

    method AddFrees(op: Id, k: Parts)
      requires Building() && op in code
      requires New(View(), k.free0) && New(View(), k.free1) && k.free0 != k.free1
      modifies `code, `order
      ensures WellLinked(old(View())) && View() == WithFrees(old(View()), op, k)
      ensures old(order) <= order && Lists(order, code)
    {
      WithFreesAt(View(), op, k, op);
      InsertAfterAt(View(), op, k.free0, Free(k.temp), 0, op);
      ConnectOp(op, k.free0, Free(k.temp), 0);
      if code[op].instr.Branch? {
        ConnectOp(op, k.free1, Free(k.temp), 1);
      }
    }

    method AddStore(op: Id, x: Var, k: Parts)
      requires View().Valid() && Lists(order, code) && op in code && |code[op].next| > 0 && New(View(), k.store)
      modifies `code, `order
      ensures View() == InsertAfter(old(View()), op, k.store, Store(k.temp, x), 0)
      ensures old(order) <= order && Lists(order, code)
    {
      InsertAfterAt(View(), op, k.store, Store(k.temp, x), 0, op);
      ConnectOp(op, k.store, Store(k.temp, x), 0);
    }

    // Everything SplitVariable does for one operation that uses x: a load before
    // if it reads x, a store after if it writes x, a free on every link.
    method EditOperation(op: Id, x: Var, k: Parts)
      requires Building() && op in code && PartsNew(View(), k)
      modifies `entry, `code, `order
      ensures old(Building()) && View() == SplitOp(old(View()), op, x, k)
      ensures old(order) <= order && Lists(order, code)
    {
      var instr := code[op].instr;
      EditSteps(View(), op, x, k);
      AddLoad(op, x, k);
      AddFrees(op, k);
      FinishOperation(op, x, k, instr);
    }

    // The store, and the operation on its temporary.
    method FinishOperation(op: Id, x: Var, k: Parts, instr: Instr)
      requires View().Valid() && Lists(order, code) && op in code && |code[op].next| > 0 && New(View(), k.store)
      modifies `code, `order
      ensures View() == Rewrite(if WritesVar(instr, x) then InsertAfter(old(View()), op, k.store, Store(k.temp, x), 0) else old(View()),
                                op, Rename(instr, map[x := k.temp]))
      ensures old(order) <= order && Lists(order, code)
    {
      if x in WrittenVars(instr) {
        AddStore(op, x, k);
      }
      code := code[op := code[op].(instr := Rename(instr, map[x := k.temp]))];
    }

    // With a temporary of its own.
    method SplitOperation(op: Id, x: Var) returns (ghost k: Parts)
      requires Building() && IdsBelow(View(), nextId) && op in code
      modifies this
      ensures Building() && IdsBelow(View(), nextId) && old(Building())
      ensures PartsNew(old(View()), k) && k.temp == old(nextTempId) && View() == SplitOp(old(View()), op, x, k)
      ensures old(order) <= order
      ensures nextTempId == old(nextTempId) + 1 && generatedTemps == old(generatedTemps) + {k.temp}
    {
      var p := Parts(nextTempId, nextId, nextId + 1, nextId + 2, nextId + 3);
      k := p;
      SplitIdsBelow(View(), op, x, k, nextId, nextId + 4);
      nextTempId, nextId, generatedTemps := nextTempId + 1, nextId + 4, generatedTemps + {p.temp};
      EditOperation(op, x, p);
    }

    // One round of SplitVariable's loop.
    method VisitOperation(x: Var, i: nat, ghost g0: Graph, ghost order0: seq<Id>, ghost lo: Var, ghost parts: map<Id, Parts>)
      returns (ghost parts': map<Id, Parts>)
      requires i < |order| && IdsBelow(View(), nextId)
      requires Partly(g0, View(), order0, order, x, lo, nextTempId, parts, i)
      requires Confined(View(), generatedTemps, nextTempId) && x !in generatedTemps
      modifies this
      ensures Confined(View(), generatedTemps, nextTempId) && StaysSmall(old(View()), old(generatedTemps), View(), generatedTemps)
      ensures Partly(g0, View(), order0, order, x, lo, nextTempId, parts', i + 1) && IdsBelow(View(), nextId)
      ensures MadeBetween(old(generatedTemps), old(nextTempId), generatedTemps, nextTempId)
      ensures GoesOn(g0, parts, old(order), parts', order)
    {
      var op := order[i];
      assert op in order;
      parts' := parts;
      if x in UsedVars(code[op].instr) {
        parts' := SplitUser(x, i, g0, order0, lo, parts);
      } else {
        OneMorePassed(g0, View(), order0, order, x, lo, nextTempId, parts, i);
      }
    }

    method SplitUser(x: Var, i: nat, ghost g0: Graph, ghost order0: seq<Id>, ghost lo: Var, ghost parts: map<Id, Parts>)
      returns (ghost parts': map<Id, Parts>)
      requires i < |order| && IdsBelow(View(), nextId) && order[i] in code && UsesVar(code[order[i]].instr, x)
      requires Partly(g0, View(), order0, order, x, lo, nextTempId, parts, i)
      requires Confined(View(), generatedTemps, nextTempId) && x !in generatedTemps
      modifies this
      ensures Confined(View(), generatedTemps, nextTempId) && StaysSmall(old(View()), old(generatedTemps), View(), generatedTemps)
      ensures Partly(g0, View(), order0, order, x, lo, nextTempId, parts', i + 1) && IdsBelow(View(), nextId)
      ensures MadeBetween(old(generatedTemps), old(nextTempId), generatedTemps, nextTempId)
      ensures g0.code.Keys - parts'.Keys < g0.code.Keys - parts.Keys
    {
      ghost var g, order1, hi, temps, op := View(), order, nextTempId, generatedTemps, order[i];
      UserIsWhole(g0, g, order0, order1, x, lo, hi, parts, i, op);
      var k := SplitOperation(order[i], x);
      OneMade(temps, hi, generatedTemps, nextTempId);
      parts' := parts[op := k];
      UserIsSplit(g0, g, View(), order0, order1, order, x, lo, hi, nextTempId, parts, parts', i, k, temps, generatedTemps);
    }

    // Afterwards x is in use nowhere, and what is new is a temporary.
    method SplitVariable(x: Var)
      requires Tame() && x < nextTempId && x !in generatedTemps
      modifies this
      ensures old(Valid()) && Tame() && Unsplit() == old(Unsplit()) - {x}
      ensures Since(old(View()), old(generatedTemps), old(nextTempId), View(), generatedTemps, nextTempId)
    {
      ghost var parts: map<Id, Parts> := map[];
      PartlyStart(View(), order, x, nextTempId);
      var i := 0;
      while i < |order|
        invariant 0 <= i <= |order|
        invariant Partly(old(View()), View(), old(order), order, x, old(nextTempId), nextTempId, parts, i)
        invariant IdsBelow(View(), nextId) && x < old(nextTempId)
        invariant Confined(View(), generatedTemps, nextTempId) && StaysSmall(old(View()), old(generatedTemps), View(), generatedTemps)
        invariant MadeBetween(old(generatedTemps), old(nextTempId), generatedTemps, nextTempId)
        decreases old(code.Keys) - parts.Keys, |order| - i
      {
        ghost var g, temps, bound := View(), generatedTemps, nextTempId;
        parts := VisitOperation(x, i, old(View()), old(order), old(nextTempId), parts);
        SmallTwice(old(View()), old(generatedTemps), g, temps, View(), generatedTemps);
        MadeTwice(old(generatedTemps), old(nextTempId), temps, bound, generatedTemps, nextTempId);
        i := i + 1;
      }
      SplitDone(old(View()), View(), old(order), order, x, old(nextTempId), nextTempId, parts);
      UnsplitShrinks(old(View()), View(), x, old(nextTempId), nextTempId, old(generatedTemps), generatedTemps);
    }

    // One more variable, some moment after the splitting began.
    method SplitNext(x: Var, ghost g0: Graph, ghost temps0: set<Var>, ghost bound0: Var)
      requires Tame() && x < nextTempId && x !in generatedTemps
      requires Since(g0, temps0, bound0, View(), generatedTemps, nextTempId)
      modifies this
      ensures Tame() && Unsplit() == old(Unsplit()) - {x} && nextTempId >= old(nextTempId)
      ensures Since(g0, temps0, bound0, View(), generatedTemps, nextTempId)
      ensures MadeBetween(old(generatedTemps), old(nextTempId), generatedTemps, nextTempId)
    {
      ghost var g, temps, bound := View(), generatedTemps, nextTempId;
      SplitVariable(x);
      SinceTwice(g0, temps0, bound0, g, temps, bound, View(), generatedTemps, nextTempId);
    }

    // Since then, all of these variables but the ones left have been split.
    ghost predicate Splitting(g0: Graph, temps0: set<Var>, bound0: Var, unsplit0: set<Var>, all: set<Var>, left: set<Var>)
      reads this
    {
      Tame() && Since(g0, temps0, bound0, View(), generatedTemps, nextTempId) && AllBut(unsplit0, Unsplit(), all, left) &&
      forall v :: v in left ==> v < nextTempId && v !in generatedTemps
    }

    method SplitOne(left: set<Var>, ghost g0: Graph, ghost temps0: set<Var>, ghost bound0: Var, ghost unsplit0: set<Var>, ghost all: set<Var>)
      returns (rest: set<Var>)
      requires Splitting(g0, temps0, bound0, unsplit0, all, left) && left != {}
      modifies this
      ensures Splitting(g0, temps0, bound0, unsplit0, all, rest) && rest <= left && |rest| == |left| - 1
    {
      var v := AnyOf(left);
      ghost var before := Unsplit();
      SplitNext(v, g0, temps0, bound0);
      OneSplit(unsplit0, before, Unsplit(), all, left, v);
      rest := left - {v};
    }

    // The first cnt variables of some order on bvars; cnt counts down.
    method SplitSome(bvars: set<Var>, count: int) returns (cnt: int, ghost split: set<Var>)
      requires Tame() && count >= 1 && bvars <= Unsplit() && forall v :: v in bvars ==> v < nextTempId
      modifies this
      ensures old(Valid()) && Tame()
      ensures Since(old(View()), old(generatedTemps), old(nextTempId), View(), generatedTemps, nextTempId)
      ensures split <= bvars && Unsplit() == old(Unsplit()) - split
      ensures |split| == if count <= |bvars| then count else |bvars|
      ensures cnt == count - |split|
      ensures bvars == {} ==> View() == old(View()) && generatedTemps == old(generatedTemps)
    {
      var left := bvars;
      cnt := count;
      SinceItself(View(), generatedTemps, nextTempId);
      while left != {} && cnt != 0
        invariant Splitting(old(View()), old(generatedTemps), old(nextTempId), old(Unsplit()), bvars, left)
        invariant 0 <= cnt <= count && count - cnt == |bvars| - |left| && left <= bvars
        invariant bvars == {} ==> View() == old(View()) && generatedTemps == old(generatedTemps)
        decreases |left|
      {
        left := SplitOne(left, old(View()), old(generatedTemps), old(nextTempId), old(Unsplit()), bvars);
        cnt := cnt - 1;
      }
      split := bvars - left;
      HowMany(bvars, left, count, cnt);
    }

    // Past the iteration limit: every variable the analysis saw.
    method SplitAll(bvars: set<Var>, ghost g0: Graph, ghost temps0: set<Var>, ghost bound0: Var)
      requires Tame() && forall v :: v in bvars ==> v < nextTempId && v !in generatedTemps
      requires Since(g0, temps0, bound0, View(), generatedTemps, nextTempId)
      modifies this
      ensures Tame() && Unsplit() == old(Unsplit()) - bvars
      ensures Since(g0, temps0, bound0, View(), generatedTemps, nextTempId)
    {
      var left := bvars;
      while left != {}
        invariant Splitting(g0, temps0, bound0, old(Unsplit()), bvars, left)
        decreases |left|
      {
        left := SplitOne(left, g0, temps0, bound0, old(Unsplit()), bvars);
      }
      assert bvars - {} == bvars;
    }

    // A failed round of the allocator.
    method SplitRound(live: set<Var>, iter: nat, registers: nat) returns (stop: bool, ghost split: set<Var>)
      requires Tame() && forall v :: v in live <==> SomewhereLive(View(), code.Keys, v)
      modifies this
      ensures old(Valid()) && Tame()
      ensures Since(old(View()), old(generatedTemps), old(nextTempId), View(), generatedTemps, nextTempId)
      ensures Round(live - old(generatedTemps), iter, registers, stop, split)
      ensures stop ==> View() == old(View()) && generatedTemps == old(generatedTemps)
      ensures Unsplit() == old(Unsplit()) - split && split <= old(Unsplit()) && (!stop ==> split != {})
    {
      SplittableIsUnsplit(View(), generatedTemps, nextTempId, live);
      var bvars := live - generatedTemps;
      var cnt := Max(1, |bvars| / 4 - registers);
      NoMoreThanThere(live, generatedTemps, bvars, cnt, registers);
      cnt, split := SplitSome(bvars, cnt);
      RoundIs(bvars, iter, registers, split);
      stop := cnt != 0;
      if !stop && iter > 50 {
        SameCandidates(live, old(generatedTemps), old(nextTempId), generatedTemps, nextTempId);
        ghost var before := Unsplit();
        SplitAll(live - generatedTemps, old(View()), old(generatedTemps), old(nextTempId));
        AllOfThem(old(Unsplit()), before, Unsplit(), split, bvars);
        split := bvars;
      }
    }

    // Terminates on every worker; succeeds with registers that run the program it was
    // given, or gives up when only temporaries it made are live and some variable has
    // neighbours in every register; never if no operation uses more variables than that.
    method Spread(registers: nat) returns (ok: bool, res: map<Var, int>, bad: Var)
      requires Valid() && registers >= 2
      modifies this
      ensures old(Valid()) && Valid() && Implements(old(View()), View())
      ensures ok ==> AllColored(View(), res) && forall v :: v in res ==> 0 <= res[v] < registers
      ensures ok ==> forall mem, world, n: nat :: RegistersMatch(old(View()), View(), res, mem, world, n)
      ensures forall v :: v in generatedTemps ==> old(nextTempId) <= v < nextTempId
      ensures !ok ==> OnlyTemps(View(), generatedTemps) && Crowded(View(), res, bad, registers)
      ensures Narrow(old(View()), registers) ==> ok
      ensures Targeted(old(View())) ==> Targeted(View())
      ensures Room(View(), generatedTemps) <= Room(old(View()), {})
    {
      generatedTemps := {};
      SinceItself(View(), {}, nextTempId);
      NoneConfined(View(), nextTempId);
      var iter := 0;
      while true
        invariant Tame() && Since(old(View()), {}, old(nextTempId), View(), generatedTemps, nextTempId)
        decreases Unsplit()
      {
        iter := iter + 1;
        var overlaps;
        ok, res, overlaps, bad := TryAllocate(View(), registers);
        if ok {
          RegistersAlwaysMatch(old(View()), View(), res);
          return;
        }
        ghost var g, temps, bound := View(), generatedTemps, nextTempId;
        var stop;
        ghost var split;
        stop, split := SplitRound(overlaps.Keys, iter, registers);
        SinceTwice(old(View()), {}, old(nextTempId), g, temps, bound, View(), generatedTemps, nextTempId);
        if stop {
          StoppedOnlyIfWide(old(View()), View(), generatedTemps, nextTempId, res, bad, registers);
          return;
        }
      }
    }
  }

  lemma StoppedOnlyIfWide(g0: Graph, g: Graph, temps: set<Var>, bound: Var, res: map<Var, int>, bad: Var, registers: nat)
    requires Confined(g, temps, bound) && OnlyTemps(g, temps) && Crowded(g, res, bad, registers) && registers >= 1
    requires StaysSimple(g0, g)
    ensures !Narrow(g0, registers)
  {
    if Narrow(g0, registers) { TempsDoNotCrowd(g, temps, bound, res, bad, registers); }
  }
}
