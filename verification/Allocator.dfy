// SpreadRegisters: colour, split what does not fit, start again. The loop ends,
// and the registers it returns run the program it was given.
module Allocator {
  import opened Wrappers
  import opened Ir
  import opened RegisterMachine
  import opened RegisterColoring
  import opened GraphSurgery
  import opened Spill
  import opened SpillRun

  // ---------------------------------------------------------------- what splitting does to the variables in use

  ghost function AllVars(g: Graph): set<Var>
  {
    set n, v | n in g.code && v in UsedVars(g.code[n].instr) :: v
  }

  ghost predicate InUse(g: Graph, v: Var)
  {
    exists n :: n in g.code && UsesVar(g.code[n].instr, v)
  }

  lemma AllVarsInUse(g: Graph, v: Var)
    ensures v in AllVars(g) <==> InUse(g, v)
  {
  }

  // Variables and places are below the next temporary, and no place belongs to a
  // variable still in use.
  ghost predicate OpTidy(g: Graph, bound: Var, n: Id)
    requires n in g.code
  {
    var i := g.code[n].instr;
    VarsBelow(i, bound) && (i.Load? || i.Store? ==> i.place < bound && !InUse(g, i.place))
  }

  ghost predicate Tidy(g: Graph, bound: Var)
  {
    forall n :: n in g.code ==> OpTidy(g, bound, n)
  }

  lemma TidySplittable(g: Graph, bound: Var, x: Var)
    requires g.Valid() && Tidy(g, bound) && InUse(g, x)
    ensures Splittable(g, x, bound)
  {
  }

  lemma RenamedUses(i: Instr, x: Var, temp: Var, v: Var)
    requires temp != x
    ensures v in UsedVars(Rename(i, map[x := temp])) <==> (v == temp && x in UsedVars(i)) || (v != x && v in UsedVars(i))
  {
    match i
    case Compute(_, d, args) => RenamedAmong(args, x, temp, v);
    case _ =>
  }

  lemma RenamedAmong(vs: seq<Var>, x: Var, temp: Var, v: Var)
    requires temp != x
    ensures v in RenamedAll(vs, map[x := temp]) <==> (v == temp && x in vs) || (v != x && v in vs)
  {
    var r := RenamedAll(vs, map[x := temp]);
    forall k | 0 <= k < |vs| ensures r[k] == if vs[k] == x then temp else vs[k] {
    }
    if x in vs {
      var k :| 0 <= k < |vs| && vs[k] == x;
      assert r[k] == temp;
    }
    if v in vs && v != x {
      var k :| 0 <= k < |vs| && vs[k] == v;
      assert r[k] == v;
    }
  }

  lemma RenamedVars(i: Instr, x: Var, temp: Var, v: Var)
    requires UsesVar(Rename(i, map[x := temp]), v) && temp != x
    ensures v != x && (v == temp || UsesVar(i, v))
  {
    RenamedUses(i, x, temp, v);
  }

  // The operations of a partly split program: old ones, renamed or not, and the
  // loads, stores and frees of temporaries.
  ghost predicate MadeFor(i: Instr, x: Var, lo: Var, hi: Var)
  {
    (i.Load? && i.place == x && lo <= i.dst < hi) || (i.Store? && i.place == x && lo <= i.src < hi) || (i.Free? && lo <= i.v < hi)
  }

  ghost predicate OpKnown(g0: Graph, g: Graph, x: Var, lo: Var, hi: Var, parts: map<Id, Parts>, n: Id)
    requires n in g.code
  {
    if n !in g0.code then MadeFor(g.code[n].instr, x, lo, hi)
    else if n in parts then
      lo <= parts[n].temp < hi && g.code[n].instr == Rename(g0.code[n].instr, map[x := parts[n].temp])
    else g.code[n].instr == g0.code[n].instr
  }

  ghost predicate OpsKnown(g0: Graph, g: Graph, x: Var, lo: Var, hi: Var, parts: map<Id, Parts>)
  {
    g0.code.Keys <= g.code.Keys && forall n :: n in g.code ==> OpKnown(g0, g, x, lo, hi, parts, n)
  }

  lemma KnownVars(g0: Graph, g: Graph, x: Var, lo: Var, hi: Var, parts: map<Id, Parts>, n: Id, v: Var)
    requires OpsKnown(g0, g, x, lo, hi, parts) && x < lo && n in g.code && UsesVar(g.code[n].instr, v)
    ensures lo <= v < hi || (n in g0.code && UsesVar(g0.code[n].instr, v))
    ensures v == x ==> n in g0.code && n !in parts
  {
    assert OpKnown(g0, g, x, lo, hi, parts, n);
    if n in g0.code && n in parts { RenamedVars(g0.code[n].instr, x, parts[n].temp, v); }
  }

  // Splitting x leaves every other variable in use.
  lemma OthersStay(g0: Graph, g: Graph, x: Var, lo: Var, hi: Var, parts: map<Id, Parts>, v: Var)
    requires OpsKnown(g0, g, x, lo, hi, parts) && InUse(g0, v) && v != x < lo
    ensures InUse(g, v)
  {
    var n :| n in g0.code && UsesVar(g0.code[n].instr, v);
    assert n in g.code && OpKnown(g0, g, x, lo, hi, parts, n);
    if n in parts { RenamedUses(g0.code[n].instr, x, parts[n].temp, v); }
    assert UsesVar(g.code[n].instr, v);
  }

  lemma FullySplitTidy(g0: Graph, g: Graph, x: Var, lo: Var, hi: Var, parts: map<Id, Parts>)
    requires OpsKnown(g0, g, x, lo, hi, parts) && x < lo <= hi && Complete(g0, x, parts) && Tidy(g0, lo)
    ensures Tidy(g, hi) && !InUse(g, x)
    ensures forall v :: InUse(g, v) ==> lo <= v < hi || InUse(g0, v)
  {
    forall v | InUse(g, v) ensures v != x && (lo <= v < hi || InUse(g0, v)) {
      var n :| n in g.code && UsesVar(g.code[n].instr, v);
      FullySplitUse(g0, g, x, lo, hi, parts, n, v);
    }
    forall n | n in g.code ensures OpTidy(g, hi, n) {
      FullySplitOp(g0, g, x, lo, hi, parts, n);
    }
  }

  lemma FullySplitOp(g0: Graph, g: Graph, x: Var, lo: Var, hi: Var, parts: map<Id, Parts>, n: Id)
    requires OpsKnown(g0, g, x, lo, hi, parts) && x < lo <= hi && Complete(g0, x, parts) && Tidy(g0, lo)
    requires forall v :: InUse(g, v) ==> v != x && (lo <= v < hi || InUse(g0, v))
    requires n in g.code
    ensures OpTidy(g, hi, n)
  {
    forall v | v in UsedVars(g.code[n].instr) ensures v < hi {
      FullySplitUse(g0, g, x, lo, hi, parts, n, v);
    }
    assert OpKnown(g0, g, x, lo, hi, parts, n);
    if n in g0.code { assert OpTidy(g0, lo, n); }
  }

  lemma FullySplitUse(g0: Graph, g: Graph, x: Var, lo: Var, hi: Var, parts: map<Id, Parts>, n: Id, v: Var)
    requires OpsKnown(g0, g, x, lo, hi, parts) && x < lo <= hi && Complete(g0, x, parts) && Tidy(g0, lo)
    requires n in g.code && UsesVar(g.code[n].instr, v)
    ensures v != x && (lo <= v < hi || InUse(g0, v)) && v < hi
  {
    KnownVars(g0, g, x, lo, hi, parts, n, v);
    if n in g0.code { assert OpTidy(g0, lo, n); }
  }

  lemma SplitOpKnown(g0: Graph, g: Graph, x: Var, lo: Var, hi: Var, parts: map<Id, Parts>, n: Id, k: Parts)
    requires WellLinked(g) && OpsKnown(g0, g, x, lo, hi, parts) && n in g0.code && n !in parts && PartsNew(g, k)
    requires k.temp == hi && lo <= hi
    ensures OpsKnown(g0, SplitOp(g, n, x, k), x, lo, hi + 1, parts[n := k])
  {
    var g' := SplitOp(g, n, x, k);
    SplitOpLinked(g, n, x, k);
    SplitOpParts(g, n, x, k);
    forall m | m in g.code ensures m in g'.code && OpKnown(g0, g', x, lo, hi + 1, parts[n := k], m) {
      assert OpKnown(g0, g, x, lo, hi, parts, m) && OpKnown(g0, g, x, lo, hi, parts, n);
      if m != n { SplitOpOthers(g, n, x, k, m); }
    }
    forall m | m in g'.code && m !in g.code ensures OpKnown(g0, g', x, lo, hi + 1, parts[n := k], m) {
      NewOpsKnown(g, n, x, k, m);
    }
  }

  lemma NewOpsKnown(g: Graph, n: Id, x: Var, k: Parts, m: Id)
    requires WellLinked(g) && n in g.code && PartsNew(g, k) && m in SplitOp(g, n, x, k).code && m !in g.code
    ensures MadeFor(SplitOp(g, n, x, k).code[m].instr, x, k.temp, k.temp + 1)
  {
    SplitOpParts(g, n, x, k);
    SplitOpKeys(g, n, x, k);
    assert m in LoadKey(g.code[n].instr, x, k) + FreeKeys(g.code[n].instr, k) + StoreKey(g.code[n].instr, x, k);
  }

  ghost function LoadKey(i: Instr, x: Var, k: Parts): set<Id> { if ReadsVar(i, x) then {k.load} else {} }
  ghost function FreeKeys(i: Instr, k: Parts): set<Id> { if i.Branch? then {k.free0, k.free1} else {k.free0} }
  ghost function StoreKey(i: Instr, x: Var, k: Parts): set<Id> { if WritesVar(i, x) then {k.store} else {} }

  lemma FreedKeys(g: Graph, n: Id, x: Var, k: Parts) returns (g2: Graph)
    requires WellLinked(g) && n in g.code && PartsNew(g, k)
    ensures WellLinked(WithLoad(g, n, x, k)) && n in WithLoad(g, n, x, k).code && New(WithLoad(g, n, x, k), k.free0)
    ensures New(WithLoad(g, n, x, k), k.free1)
    ensures g2 == WithFrees(WithLoad(g, n, x, k), n, k)
    ensures g2.code.Keys == g.code.Keys + LoadKey(g.code[n].instr, x, k) + FreeKeys(g.code[n].instr, k)
    ensures |g2.code[n].next| > 0
  {
    var g1 := WithLoad(g, n, x, k);
    InsertBeforeAt(g, n, k.load, Load(k.temp, x), n);
    WithLoadLinked(g, n, x, k);
    WithFreesAt(g1, n, k, n);
    g2 := WithFrees(g1, n, k);
  }

  // The operations of the graph once n is split.
  lemma SplitOpKeys(g: Graph, n: Id, x: Var, k: Parts)
    requires WellLinked(g) && n in g.code && PartsNew(g, k)
    ensures var i := g.code[n].instr;
            SplitOp(g, n, x, k).code.Keys == g.code.Keys + LoadKey(i, x, k) + FreeKeys(i, k) + StoreKey(i, x, k)
  {
    var g2 := FreedKeys(g, n, x, k);
    if WritesVar(g.code[n].instr, x) {
      StoredKeys(g2, n, x, k);
    }
  }

  lemma StoredKeys(g: Graph, n: Id, x: Var, k: Parts)
    requires n in g.code && |g.code[n].next| > 0 && k.store !in g.code && g.code[n].next[0] != k.store
    ensures InsertAfter(g, n, k.store, Store(k.temp, x), 0).code.Keys == g.code.Keys + {k.store}
  {
  }

  // ---------------------------------------------------------------- one program doing what another does

  // The same events, and halted if the other has.
  ghost predicate SameEvents(s: State, t: State)
  {
    t.machine.trace == s.machine.trace && (s.pc == NULL ==> t.pc == NULL)
  }

  ghost predicate Matched(g0: Graph, g: Graph, mem: map<int, int>, world: World, n: nat)
    requires g0.Valid() && g.Valid()
  {
    var s := VariableRun(g0, StartOf(g0, mem), world, n);
    s.Some? ==> exists t :: Leads(g, StartOf(g, mem), t, world) && SameEvents(s.value, t)
  }

  // Every run of g0 is matched by a run of g.
  ghost predicate Implements(g0: Graph, g: Graph)
    requires g0.Valid() && g.Valid()
  {
    forall mem, world, n: nat :: Matched(g0, g, mem, world, n)
  }

  lemma ImplementsItself(g: Graph)
    requires g.Valid()
    ensures Implements(g, g)
  {
    forall mem, world, n: nat ensures Matched(g, g, mem, world, n) {
      var s := VariableRun(g, StartOf(g, mem), world, n);
      if s.Some? { assert Leads(g, StartOf(g, mem), s.value, world); }
    }
  }

  lemma ImplementsTransitive(g0: Graph, g1: Graph, g2: Graph)
    requires g0.Valid() && g1.Valid() && g2.Valid() && Implements(g0, g1) && Implements(g1, g2)
    ensures Implements(g0, g2)
  {
    forall mem, world, n: nat ensures Matched(g0, g2, mem, world, n) {
      var s := VariableRun(g0, StartOf(g0, mem), world, n);
      assert Matched(g0, g1, mem, world, n);
      if s.Some? {
        var t :| Leads(g1, StartOf(g1, mem), t, world) && SameEvents(s.value, t);
        var m: nat :| VariableRun(g1, StartOf(g1, mem), world, m) == Some(t);
        assert Matched(g1, g2, mem, world, m);
        var u :| Leads(g2, StartOf(g2, mem), u, world) && SameEvents(t, u);
        assert SameEvents(s.value, u);
      }
    }
  }

  lemma SplitImplements(g0: Graph, g: Graph, x: Var, bound: Var, parts: map<Id, Parts>)
    requires Splittable(g0, x, bound) && g.Valid() && Shape(g0, g, x, bound, parts) && Complete(g0, x, parts)
    ensures Implements(g0, g)
  {
    forall mem, world, n: nat ensures Matched(g0, g, mem, world, n) {
      if VariableRun(g0, StartOf(g0, mem), world, n).Some? {
        var t := SplitPreservesRuns(g0, g, x, bound, parts, mem, world, n);
        assert SameEvents(VariableRun(g0, StartOf(g0, mem), world, n).value, t);
      }
    }
  }

  // The registers res run g as g0 runs over variables.
  ghost predicate RegistersMatch(g0: Graph, g: Graph, res: map<Var, int>, mem: map<int, int>, world: World, n: nat)
    requires g0.Valid() && g.Valid()
  {
    var s := VariableRun(g0, StartOf(g0, mem), world, n);
    s.Some? ==>
      exists m: nat :: var r := RegisterRun(g, res, StartOf(g, mem), world, m); r.Some? && SameEvents(s.value, r.value)
  }

  lemma RegistersImplement(g0: Graph, g: Graph, res: map<Var, int>, mem: map<int, int>, world: World, n: nat)
    requires g0.Valid() && g.Valid() && Implements(g0, g)
    requires forall m: nat :: SameRun(g, res, mem, world, m)
    ensures RegistersMatch(g0, g, res, mem, world, n)
  {
    var s := VariableRun(g0, StartOf(g0, mem), world, n);
    assert Matched(g0, g, mem, world, n);
    if s.Some? {
      var t :| Leads(g, StartOf(g, mem), t, world) && SameEvents(s.value, t);
      var m: nat :| VariableRun(g, StartOf(g, mem), world, m) == Some(t);
      assert SameRun(g, res, mem, world, m);
      assert SameEvents(s.value, RegisterRun(g, res, StartOf(g, mem), world, m).value);
    }
  }

  lemma LiveInUse(g: Graph, v: Var)
    requires SomewhereLive(g, g.code.Keys, v)
    ensures InUse(g, v)
  {
    var n :| n in g.code.Keys && LiveAt(g, n, v);
    LiveIsUsed(g, n, v);
  }

  lemma LiveIsUsed(g: Graph, n: Id, v: Var)
    requires CanFrom(g, n, v)
    ensures InUse(g, v)
  {
    var p :| Zone(g, v, p) && |p| > 0 && p[|p| - 1] == n && Uses(g, p[0], v);
    assert UsesVar(g.code[p[0]].instr, v);
  }
}
