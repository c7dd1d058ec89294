// Splitting makes the code longer, but not much: each use of a variable that is no
// temporary is split once at most, and makes four operations at most.
module Growth {
  import opened Ir
  import opened GraphSurgery
  import opened Spill
  import opened Allocator
  import opened Pressure

  // The uses of variables that are no temporaries, among these operations.
  ghost function UsesAmong(g: Graph, temps: set<Var>, ns: set<Id>): set<(Id, Var)>
    requires ns <= g.code.Keys
  {
    set n, v | n in ns && v in VarsOf(g.code[n].instr) && v !in temps :: (n, v)
  }

  ghost function OpenUses(g: Graph, temps: set<Var>): set<(Id, Var)>
  {
    UsesAmong(g, temps, g.code.Keys)
  }

  // How many operations there can be once every use is split.
  ghost function Room(g: Graph, temps: set<Var>): nat
  {
    |g.code.Keys| + 4 * |OpenUses(g, temps)|
  }

  // A use that is there when n is split was there before, but for that of x by n.
  lemma OldUse(g: Graph, temps: set<Var>, n: Id, x: Var, k: Parts, m: Id, v: Var)
    requires WellLinked(g) && n in g.code && PartsNew(g, k) && k.temp != x && v !in temps + {k.temp}
    requires m in SplitOp(g, n, x, k).code && v in UsedVars(SplitOp(g, n, x, k).code[m].instr)
    ensures m in g.code && v in UsedVars(g.code[m].instr) && (m, v) != (n, x)
  {
    if m == n {
      SplitOpParts(g, n, x, k);
      RenamedUses(g.code[n].instr, x, k.temp, v);
    } else if m in g.code {
      SplitOpOthers(g, n, x, k, m);
    } else {
      NewOpsKnown(g, n, x, k, m);
    }
  }

  lemma SplitUses(g: Graph, temps: set<Var>, n: Id, x: Var, k: Parts)
    requires WellLinked(g) && n in g.code && PartsNew(g, k) && UsesVar(g.code[n].instr, x) && x !in temps && k.temp != x
    ensures |OpenUses(SplitOp(g, n, x, k), temps + {k.temp})| < |OpenUses(g, temps)|
  {
    var g', uses := SplitOp(g, n, x, k), OpenUses(g, temps);
    forall m, v | (m, v) in OpenUses(g', temps + {k.temp}) ensures (m, v) in uses - {(n, x)} {
      OldUse(g, temps, n, x, k, m, v);
    }
    SubsetCount(OpenUses(g', temps + {k.temp}), uses - {(n, x)});
    assert (n, x) in uses;
  }

  lemma SplitRoom(g: Graph, temps: set<Var>, n: Id, x: Var, k: Parts)
    requires WellLinked(g) && n in g.code && PartsNew(g, k) && UsesVar(g.code[n].instr, x) && x !in temps && k.temp != x
    ensures Room(SplitOp(g, n, x, k), temps + {k.temp}) <= Room(g, temps)
  {
    SplitUses(g, temps, n, x, k);
    SplitOpKeys(g, n, x, k);
    var made := {k.load, k.store, k.free0, k.free1};
    SubsetCount(SplitOp(g, n, x, k).code.Keys, g.code.Keys + made);
  }

  // ---------------------------------------------------------------- any number of splits

  ghost predicate StaysSmall(g: Graph, temps: set<Var>, g': Graph, temps': set<Var>)
  {
    StaysSimple(g, g') && Room(g', temps') <= Room(g, temps)
  }

  lemma SplitStaysSmall(g: Graph, temps: set<Var>, n: Id, x: Var, k: Parts)
    requires WellLinked(g) && n in g.code && PartsNew(g, k) && UsesVar(g.code[n].instr, x) && x !in temps && k.temp != x
    ensures StaysSmall(g, temps, SplitOp(g, n, x, k), temps + {k.temp})
  {
    SplitStaysSimple(g, n, x, k);
    SplitRoom(g, temps, n, x, k);
  }

  lemma SmallTwice(g0: Graph, temps0: set<Var>, g1: Graph, temps1: set<Var>, g2: Graph, temps2: set<Var>)
    requires StaysSmall(g0, temps0, g1, temps1) && StaysSmall(g1, temps1, g2, temps2)
    ensures StaysSmall(g0, temps0, g2, temps2)
  {
    SimpleTwice(g0, g1, g2);
  }

  // ---------------------------------------------------------------- to begin with

  lemma {:induction false} FewUses(g: Graph, ns: set<Id>)
    requires ns <= g.code.Keys && Narrow(g, 3)
    ensures |UsesAmong(g, {}, ns)| <= 3 * |ns|
    decreases ns
  {
    if ns != {} {
      assert (forall n :: n !in ns) ==> ns == {};
      var n :| n in ns;
      var rest := ns - {n};
      FewUses(g, rest);
      assert NarrowAt(g, 3, n);
      var here := set v | v in VarsOf(g.code[n].instr) :: (n, v);
      PairsCount(n, VarsOf(g.code[n].instr), here);
      assert UsesAmong(g, {}, ns) == UsesAmong(g, {}, rest) + here;
    }
  }

  lemma {:induction false} PairsCount(n: Id, vs: set<Var>, pairs: set<(Id, Var)>)
    requires pairs == set v | v in vs :: (n, v)
    ensures |pairs| == |vs|
    decreases vs
  {
    if vs != {} {
      assert (forall v :: v !in vs) ==> vs == {};
      var v :| v in vs;
      PairsCount(n, vs - {v}, pairs - {(n, v)});
    }
  }

  // A program whose operations use three variables at most grows thirteenfold at most.
  lemma RoomToBegin(g: Graph)
    requires Narrow(g, 3)
    ensures Room(g, {}) <= 13 * |g.code.Keys|
  {
    FewUses(g, g.code.Keys);
  }
}
