// Generated temporaries are short-lived: none is live outside the operations made for
// the one operation it was made for. So a program in which only they are live needs no
// more registers than its operations have variables.
module Pressure {
  import opened Ir
  import opened RegisterMachine
  import opened RegisterColoring
  import opened GraphSurgery
  import opened Spill
  import opened Allocator

  // ---------------------------------------------------------------- where temporaries can be

  // The operation each operation was made for, itself if it was there before; the same
  // for temporaries; and the temporaries that can be live when an operation starts.
  datatype Plan = Plan(home: map<Id, Id>, owner: map<Var, Id>, reach: map<Id, set<Var>>)

  ghost function Home(p: Plan, n: Id): Id { if n in p.home then p.home[n] else n }

  ghost function Reach(p: Plan, n: Id): set<Var> { if n in p.reach then p.reach[n] else {} }

  ghost predicate Owns(p: Plan, h: Id, t: Var) { t in p.owner && p.owner[t] == h }

  // t can be live behind an operation that does this.
  ghost predicate Leaves(p: Plan, n: Id, i: Instr, t: Var)
  {
    i != Free(t) && (t in Reach(p, n) || t in UsedVars(i))
  }

  // Only temporaries of the operation's own home reach it or are used by it, and whoever
  // uses anything else is at home.
  ghost predicate AtHome(p: Plan, temps: set<Var>, bound: Var, n: Id, i: Instr)
  {
    (forall v :: v in UsedVars(i) ==> v < bound && if v in temps then Owns(p, Home(p, n), v) else Home(p, n) == n) &&
    forall t :: t in Reach(p, n) ==> t in temps && Owns(p, Home(p, n), t)
  }

  // What leaves an operation reaches the next one.
  ghost predicate FlowsTo(p: Plan, temps: set<Var>, n: Id, i: Instr, m: Id)
  {
    forall t :: t in temps && Leaves(p, n, i, t) ==> t in Reach(p, m)
  }

  ghost predicate FlowsOn(g: Graph, p: Plan, temps: set<Var>, n: Id, i: Instr, next: seq<Id>)
  {
    forall k :: 0 <= k < |next| && next[k] in g.code ==> FlowsTo(p, temps, n, i, next[k])
  }

  ghost predicate OwnerUses(g: Graph, p: Plan, bound: Var, t: Var)
  {
    t < bound && t in p.owner && p.owner[t] in g.code && UsesVar(g.code[p.owner[t]].instr, t)
  }

  ghost predicate ConfinedBy(g: Graph, p: Plan, temps: set<Var>, bound: Var)
  {
    (forall n :: n in g.code ==> AtHome(p, temps, bound, n, g.code[n].instr)) &&
    (forall n :: n in g.code ==> FlowsOn(g, p, temps, n, g.code[n].instr, g.code[n].next)) &&
    forall t :: t in temps ==> OwnerUses(g, p, bound, t)
  }

  ghost predicate Confined(g: Graph, temps: set<Var>, bound: Var)
  {
    exists p :: ConfinedBy(g, p, temps, bound)
  }

  lemma NoneConfined(g: Graph, bound: Var)
    requires Tidy(g, bound)
    ensures Confined(g, {}, bound)
  {
    var p := Plan(map[], map[], map[]);
    forall n | n in g.code ensures AtHome(p, {}, bound, n, g.code[n].instr) {
      assert OpTidy(g, bound, n);
    }
    assert ConfinedBy(g, p, {}, bound);
  }

  // ---------------------------------------------------------------- splitting keeps it so

  // The temporaries that can be live behind n, before and after it is split.
  ghost function Behind(p: Plan, temps: set<Var>, n: Id, i: Instr): set<Var>
  {
    set t | t in temps && Leaves(p, n, i, t)
  }

  ghost function SplitPlan(p: Plan, temps: set<Var>, n: Id, i: Instr, x: Var, k: Parts): Plan
  {
    var behind := Behind(p, temps, n, i) + {k.temp};
    Plan(p.home[k.load := n][k.store := n][k.free0 := n][k.free1 := n][n := n],
         p.owner[k.temp := n],
         p.reach[k.load := Reach(p, n)][k.store := behind][k.free0 := behind][k.free1 := behind]
           [n := Reach(p, n) + if ReadsVar(i, x) then {k.temp} else {}])
  }

  // What SplitConfined starts from.
  ghost predicate CanSplit(g: Graph, p: Plan, temps: set<Var>, bound: Var, n: Id, x: Var, k: Parts)
  {
    WellLinked(g) && ConfinedBy(g, p, temps, bound) && n in g.code && PartsNew(g, k) && UsesVar(g.code[n].instr, x) &&
    x !in temps && k.temp == bound
  }

  lemma PlanOther(g: Graph, p: Plan, temps: set<Var>, bound: Var, n: Id, x: Var, k: Parts, m: Id)
    requires CanSplit(g, p, temps, bound, n, x, k) && m in g.code && m != n
    ensures var p' := SplitPlan(p, temps, n, g.code[n].instr, x, k);
            Home(p', m) == Home(p, m) && Reach(p', m) == Reach(p, m) && bound !in Reach(p, m)
  {
    assert AtHome(p, temps, bound, m, g.code[m].instr);
    assert bound in temps ==> OwnerUses(g, p, bound, bound);
  }

  lemma PlanMade(g: Graph, p: Plan, temps: set<Var>, bound: Var, n: Id, x: Var, k: Parts)
    requires CanSplit(g, p, temps, bound, n, x, k)
    ensures var i := g.code[n].instr; var p' := SplitPlan(p, temps, n, i, x, k);
            Home(p', n) == n && Reach(p', n) == (Reach(p, n) + if ReadsVar(i, x) then {bound} else {}) &&
            Home(p', k.load) == n && Reach(p', k.load) == Reach(p, n) &&
            (forall f :: f in {k.store, k.free0, k.free1} ==> Home(p', f) == n && Reach(p', f) == Behind(p, temps, n, i) + {bound})
  {
  }

  lemma PlanAt(g: Graph, p: Plan, temps: set<Var>, bound: Var, n: Id, x: Var, k: Parts, m: Id)
    requires CanSplit(g, p, temps, bound, n, x, k)
    ensures var i := g.code[n].instr; var p' := SplitPlan(p, temps, n, i, x, k);
            Home(p, n) == n && bound !in Reach(p, n) && bound !in temps &&
            (m in g.code && m != n ==> Home(p', m) == Home(p, m) && Reach(p', m) == Reach(p, m) && bound !in Reach(p, m)) &&
            Home(p', n) == n && Reach(p', n) == (Reach(p, n) + if ReadsVar(i, x) then {bound} else {}) &&
            Home(p', k.load) == n && Reach(p', k.load) == Reach(p, n) &&
            (forall f :: f in {k.store, k.free0, k.free1} ==> Home(p', f) == n && Reach(p', f) == Behind(p, temps, n, i) + {bound})
  {
    assert AtHome(p, temps, bound, n, g.code[n].instr);
    assert bound in temps ==> OwnerUses(g, p, bound, bound);
    PlanMade(g, p, temps, bound, n, x, k);
    if m in g.code && m != n { PlanOther(g, p, temps, bound, n, x, k, m); }
  }

  // Temporaries keep their owners.
  lemma OwnersKept(g: Graph, p: Plan, temps: set<Var>, bound: Var, n: Id, x: Var, k: Parts, h: Id, t: Var)
    requires CanSplit(g, p, temps, bound, n, x, k)
    ensures var p' := SplitPlan(p, temps, n, g.code[n].instr, x, k);
            Owns(p', n, bound) && (t in temps ==> t != bound && (Owns(p', h, t) <==> Owns(p, h, t)))
  {
    assert t in temps ==> OwnerUses(g, p, bound, t);
  }

  lemma OtherAtHome(g: Graph, p: Plan, temps: set<Var>, bound: Var, n: Id, x: Var, k: Parts, m: Id)
    requires CanSplit(g, p, temps, bound, n, x, k) && m in g.code && m != n
    ensures AtHome(SplitPlan(p, temps, n, g.code[n].instr, x, k), temps + {bound}, bound + 1, m, g.code[m].instr)
  {
    var p', i := SplitPlan(p, temps, n, g.code[n].instr, x, k), g.code[m].instr;
    PlanAt(g, p, temps, bound, n, x, k, m);
    assert AtHome(p, temps, bound, m, i);
    forall v | v in UsedVars(i)
      ensures v < bound + 1 && if v in temps + {bound} then Owns(p', Home(p', m), v) else Home(p', m) == m
    {
      OwnersKept(g, p, temps, bound, n, x, k, Home(p, m), v);
    }
    forall t | t in Reach(p', m) ensures t in temps + {bound} && Owns(p', Home(p', m), t) {
      OwnersKept(g, p, temps, bound, n, x, k, Home(p, m), t);
    }
  }

  lemma SplitAtHome(g: Graph, p: Plan, temps: set<Var>, bound: Var, n: Id, x: Var, k: Parts)
    requires CanSplit(g, p, temps, bound, n, x, k)
    ensures AtHome(SplitPlan(p, temps, n, g.code[n].instr, x, k), temps + {bound}, bound + 1, n,
                   Rename(g.code[n].instr, map[x := bound]))
  {
    var i := g.code[n].instr;
    var p' := SplitPlan(p, temps, n, i, x, k);
    PlanAt(g, p, temps, bound, n, x, k, n);
    assert AtHome(p, temps, bound, n, i);
    forall v | v in UsedVars(Rename(i, map[x := bound]))
      ensures v < bound + 1 && if v in temps + {bound} then Owns(p', n, v) else Home(p', n) == n
    {
      RenamedUses(i, x, bound, v);
      OwnersKept(g, p, temps, bound, n, x, k, n, v);
    }
    forall t | t in Reach(p', n) ensures t in temps + {bound} && Owns(p', n, t) {
      OwnersKept(g, p, temps, bound, n, x, k, n, t);
    }
  }

  // The load, the store and the frees.
  lemma MadeAtHome(g: Graph, p: Plan, temps: set<Var>, bound: Var, n: Id, x: Var, k: Parts, f: Id, i: Instr)
    requires CanSplit(g, p, temps, bound, n, x, k) && f in {k.load, k.store, k.free0, k.free1}
    requires i == Load(bound, x) || i == Store(bound, x) || i == Free(bound)
    ensures AtHome(SplitPlan(p, temps, n, g.code[n].instr, x, k), temps + {bound}, bound + 1, f, i)
  {
    var p' := SplitPlan(p, temps, n, g.code[n].instr, x, k);
    PlanAt(g, p, temps, bound, n, x, k, n);
    assert AtHome(p, temps, bound, n, g.code[n].instr);
    OwnersKept(g, p, temps, bound, n, x, k, n, bound);
    forall t | t in Reach(p', f) ensures t in temps + {bound} && Owns(p', n, t) {
      OwnersKept(g, p, temps, bound, n, x, k, n, t);
    }
  }

  // What reached an operation before reaches it still, or the load in front of it.
  lemma FlowsMoved(g: Graph, p: Plan, temps: set<Var>, bound: Var, n: Id, x: Var, k: Parts, m: Id, next: seq<Id>)
    requires CanSplit(g, p, temps, bound, n, x, k) && m in g.code && next == g.code[m].next
    ensures var i := g.code[n].instr; var p' := SplitPlan(p, temps, n, i, x, k);
            var g', moved := SplitOp(g, n, x, k), MovedAll(next, n, ReadsVar(i, x), k);
            forall j :: 0 <= j < |moved| && moved[j] in g'.code ==>
              forall t :: t in temps && Leaves(p, m, g.code[m].instr, t) ==> t in Reach(p', moved[j])
  {
    var i := g.code[n].instr;
    var p' := SplitPlan(p, temps, n, i, x, k);
    var g', moved := SplitOp(g, n, x, k), MovedAll(next, n, ReadsVar(i, x), k);
    assert FlowsOn(g, p, temps, m, g.code[m].instr, next) && g.BlockOk(m);
    forall j, t | 0 <= j < |moved| && moved[j] in g'.code && t in temps && Leaves(p, m, g.code[m].instr, t)
      ensures t in Reach(p', moved[j])
    {
      PlanAt(g, p, temps, bound, n, x, k, next[j]);
      SplitOpLinked(g, n, x, k);
      if next[j] != NULL { assert FlowsTo(p, temps, m, g.code[m].instr, next[j]); }
    }
  }

  lemma OtherFlowsOn(g: Graph, p: Plan, temps: set<Var>, bound: Var, n: Id, x: Var, k: Parts, m: Id)
    requires CanSplit(g, p, temps, bound, n, x, k) && m in g.code && m != n
    ensures FlowsOn(SplitOp(g, n, x, k), SplitPlan(p, temps, n, g.code[n].instr, x, k), temps + {bound}, m, g.code[m].instr,
                    MovedAll(g.code[m].next, n, ReadsVar(g.code[n].instr, x), k))
  {
    var i := g.code[m].instr;
    PlanAt(g, p, temps, bound, n, x, k, m);
    assert AtHome(p, temps, bound, m, i);
    FlowsMoved(g, p, temps, bound, n, x, k, m, g.code[m].next);
  }

  // From the split operation to the store or a free.
  lemma SplitFlowsTo(g: Graph, p: Plan, temps: set<Var>, bound: Var, n: Id, x: Var, k: Parts, f: Id)
    requires CanSplit(g, p, temps, bound, n, x, k) && f in {k.store, k.free0, k.free1}
    ensures FlowsTo(SplitPlan(p, temps, n, g.code[n].instr, x, k), temps + {bound}, n, Rename(g.code[n].instr, map[x := bound]), f)
  {
    var i := g.code[n].instr;
    var p', i' := SplitPlan(p, temps, n, i, x, k), Rename(i, map[x := bound]);
    PlanAt(g, p, temps, bound, n, x, k, n);
    forall t | t in temps + {bound} && Leaves(p', n, i', t) ensures t in Reach(p', f) {
      RenamedUses(i, x, bound, t);
      if t != bound { assert i != Free(t); }
    }
  }

  // From a free on, the temporary is gone.
  lemma FreeFlowsTo(g: Graph, p: Plan, temps: set<Var>, bound: Var, n: Id, x: Var, k: Parts, f: Id, j: nat)
    requires CanSplit(g, p, temps, bound, n, x, k) && f in {k.free0, k.free1} && j < |g.code[n].next|
    ensures FlowsOn(SplitOp(g, n, x, k), SplitPlan(p, temps, n, g.code[n].instr, x, k), temps + {bound}, f, Free(bound),
                    [MovedAll(g.code[n].next, n, ReadsVar(g.code[n].instr, x), k)[j]])
  {
    var p' := SplitPlan(p, temps, n, g.code[n].instr, x, k);
    PlanAt(g, p, temps, bound, n, x, k, n);
    FlowsMoved(g, p, temps, bound, n, x, k, n, g.code[n].next);
    forall t | t in temps + {bound} && Leaves(p', f, Free(bound), t) ensures t in temps && Leaves(p, n, g.code[n].instr, t) {
    }
  }

  lemma LoadFlowsTo(g: Graph, p: Plan, temps: set<Var>, bound: Var, n: Id, x: Var, k: Parts)
    requires CanSplit(g, p, temps, bound, n, x, k) && ReadsVar(g.code[n].instr, x)
    ensures FlowsTo(SplitPlan(p, temps, n, g.code[n].instr, x, k), temps + {bound}, k.load, Load(bound, x), n)
  {
    var p' := SplitPlan(p, temps, n, g.code[n].instr, x, k);
    PlanAt(g, p, temps, bound, n, x, k, n);
    forall t | t in temps + {bound} && Leaves(p', k.load, Load(bound, x), t) ensures t in Reach(p', n) {
      assert t in Reach(p', k.load) || t in UsedVars(Load(bound, x));
    }
  }

  lemma StoreFlowsTo(g: Graph, p: Plan, temps: set<Var>, bound: Var, n: Id, x: Var, k: Parts)
    requires CanSplit(g, p, temps, bound, n, x, k)
    ensures FlowsTo(SplitPlan(p, temps, n, g.code[n].instr, x, k), temps + {bound}, k.store, Store(bound, x), k.free0)
  {
    var p' := SplitPlan(p, temps, n, g.code[n].instr, x, k);
    PlanAt(g, p, temps, bound, n, x, k, n);
    forall t | t in temps + {bound} && Leaves(p', k.store, Store(bound, x), t) ensures t in Reach(p', k.free0) {
      assert t in Reach(p', k.store) || t in UsedVars(Store(bound, x));
    }
  }

  lemma SplitOwners(g: Graph, p: Plan, temps: set<Var>, bound: Var, n: Id, x: Var, k: Parts, t: Var)
    requires CanSplit(g, p, temps, bound, n, x, k) && t in temps + {bound}
    ensures OwnerUses(SplitOp(g, n, x, k), SplitPlan(p, temps, n, g.code[n].instr, x, k), bound + 1, t)
  {
    SplitOpParts(g, n, x, k);
    RenamedUses(g.code[n].instr, x, bound, t);
    PlanAt(g, p, temps, bound, n, x, k, n);
    assert AtHome(p, temps, bound, n, g.code[n].instr);
    if t != bound {
      assert OwnerUses(g, p, bound, t);
      if p.owner[t] != n { SplitOpOthers(g, n, x, k, p.owner[t]); }
    }
  }

  // An operation that is there after n was split.
  ghost predicate PlacedWell(g': Graph, p': Plan, temps: set<Var>, bound: Var, m: Id)
    requires m in g'.code
  {
    AtHome(p', temps, bound, m, g'.code[m].instr) && FlowsOn(g', p', temps, m, g'.code[m].instr, g'.code[m].next)
  }

  lemma SplitPlaced(g: Graph, p: Plan, temps: set<Var>, bound: Var, n: Id, x: Var, k: Parts)
    requires CanSplit(g, p, temps, bound, n, x, k)
    ensures n in SplitOp(g, n, x, k).code
    ensures PlacedWell(SplitOp(g, n, x, k), SplitPlan(p, temps, n, g.code[n].instr, x, k), temps + {bound}, bound + 1, n)
  {
    SplitOpParts(g, n, x, k);
    SplitAtHome(g, p, temps, bound, n, x, k);
    SplitFlowsTo(g, p, temps, bound, n, x, k, k.store);
    SplitFlowsTo(g, p, temps, bound, n, x, k, k.free0);
    SplitFlowsTo(g, p, temps, bound, n, x, k, k.free1);
  }

  lemma OtherPlaced(g: Graph, p: Plan, temps: set<Var>, bound: Var, n: Id, x: Var, k: Parts, m: Id)
    requires CanSplit(g, p, temps, bound, n, x, k) && m in g.code && m != n
    ensures m in SplitOp(g, n, x, k).code
    ensures PlacedWell(SplitOp(g, n, x, k), SplitPlan(p, temps, n, g.code[n].instr, x, k), temps + {bound}, bound + 1, m)
  {
    SplitOpOthers(g, n, x, k, m);
    OtherAtHome(g, p, temps, bound, n, x, k, m);
    OtherFlowsOn(g, p, temps, bound, n, x, k, m);
  }

  lemma FreePlaced(g: Graph, p: Plan, temps: set<Var>, bound: Var, n: Id, x: Var, k: Parts, f: Id, j: nat)
    requires CanSplit(g, p, temps, bound, n, x, k) && j < |g.code[n].next| && f == (if j == 0 then k.free0 else k.free1)
    ensures f in SplitOp(g, n, x, k).code
    ensures PlacedWell(SplitOp(g, n, x, k), SplitPlan(p, temps, n, g.code[n].instr, x, k), temps + {bound}, bound + 1, f)
  {
    SplitOpParts(g, n, x, k);
    MadeAtHome(g, p, temps, bound, n, x, k, f, Free(bound));
    FreeFlowsTo(g, p, temps, bound, n, x, k, f, j);
  }

  lemma LoadPlaced(g: Graph, p: Plan, temps: set<Var>, bound: Var, n: Id, x: Var, k: Parts)
    requires CanSplit(g, p, temps, bound, n, x, k) && ReadsVar(g.code[n].instr, x)
    ensures k.load in SplitOp(g, n, x, k).code
    ensures PlacedWell(SplitOp(g, n, x, k), SplitPlan(p, temps, n, g.code[n].instr, x, k), temps + {bound}, bound + 1, k.load)
  {
    SplitOpParts(g, n, x, k);
    MadeAtHome(g, p, temps, bound, n, x, k, k.load, Load(bound, x));
    LoadFlowsTo(g, p, temps, bound, n, x, k);
  }

  lemma StorePlaced(g: Graph, p: Plan, temps: set<Var>, bound: Var, n: Id, x: Var, k: Parts)
    requires CanSplit(g, p, temps, bound, n, x, k) && WritesVar(g.code[n].instr, x)
    ensures k.store in SplitOp(g, n, x, k).code
    ensures PlacedWell(SplitOp(g, n, x, k), SplitPlan(p, temps, n, g.code[n].instr, x, k), temps + {bound}, bound + 1, k.store)
  {
    SplitOpParts(g, n, x, k);
    MadeAtHome(g, p, temps, bound, n, x, k, k.store, Store(bound, x));
    StoreFlowsTo(g, p, temps, bound, n, x, k);
  }

  lemma MadeIsPart(g: Graph, n: Id, x: Var, k: Parts, m: Id)
    requires WellLinked(g) && n in g.code && PartsNew(g, k) && m in SplitOp(g, n, x, k).code && m !in g.code
    ensures var i := g.code[n].instr;
            m == k.free0 || (m == k.free1 && i.Branch?) || (m == k.load && ReadsVar(i, x)) || (m == k.store && WritesVar(i, x))
  {
    SplitOpKeys(g, n, x, k);
    assert m in LoadKey(g.code[n].instr, x, k) + FreeKeys(g.code[n].instr, k) + StoreKey(g.code[n].instr, x, k);
  }

  lemma MadePlaced(g: Graph, p: Plan, temps: set<Var>, bound: Var, n: Id, x: Var, k: Parts, m: Id)
    requires CanSplit(g, p, temps, bound, n, x, k) && m in SplitOp(g, n, x, k).code && m !in g.code
    ensures PlacedWell(SplitOp(g, n, x, k), SplitPlan(p, temps, n, g.code[n].instr, x, k), temps + {bound}, bound + 1, m)
  {
    assert g.BlockOk(n);
    MadeIsPart(g, n, x, k, m);
    if m == k.free0 {
      FreePlaced(g, p, temps, bound, n, x, k, m, 0);
    } else if m == k.free1 {
      FreePlaced(g, p, temps, bound, n, x, k, m, 1);
    } else if m == k.load {
      LoadPlaced(g, p, temps, bound, n, x, k);
    } else {
      StorePlaced(g, p, temps, bound, n, x, k);
    }
  }

  // Splitting an operation that uses a variable that is no temporary.
  lemma SplitConfined(g: Graph, temps: set<Var>, bound: Var, n: Id, x: Var, k: Parts)
    requires WellLinked(g) && Confined(g, temps, bound) && n in g.code && PartsNew(g, k) && UsesVar(g.code[n].instr, x)
    requires x !in temps && k.temp == bound
    ensures Confined(SplitOp(g, n, x, k), temps + {bound}, bound + 1)
  {
    var p :| ConfinedBy(g, p, temps, bound);
    var g', p', temps' := SplitOp(g, n, x, k), SplitPlan(p, temps, n, g.code[n].instr, x, k), temps + {bound};
    forall m | m in g'.code ensures PlacedWell(g', p', temps', bound + 1, m) {
      if m == n {
        SplitPlaced(g, p, temps, bound, n, x, k);
      } else if m in g.code {
        OtherPlaced(g, p, temps, bound, n, x, k, m);
      } else {
        MadePlaced(g, p, temps, bound, n, x, k, m);
      }
    }
    forall t | t in temps' ensures OwnerUses(g', p', bound + 1, t) {
      SplitOwners(g, p, temps, bound, n, x, k, t);
    }
    AllPlaced(g', p', temps', bound + 1);
  }

  lemma AllPlaced(g: Graph, p: Plan, temps: set<Var>, bound: Var)
    requires forall m :: m in g.code ==> PlacedWell(g, p, temps, bound, m)
    requires forall t :: t in temps ==> OwnerUses(g, p, bound, t)
    ensures Confined(g, temps, bound)
  {
    forall m | m in g.code
      ensures AtHome(p, temps, bound, m, g.code[m].instr) && FlowsOn(g, p, temps, m, g.code[m].instr, g.code[m].next)
    {
      assert PlacedWell(g, p, temps, bound, m);
    }
    assert ConfinedBy(g, p, temps, bound);
  }

  // ---------------------------------------------------------------- how many variables operations have

  ghost function VarsOf(i: Instr): set<Var> { set v | v in UsedVars(i) }

  ghost predicate NarrowAt(g: Graph, limit: nat, n: Id)
    requires n in g.code
  {
    |VarsOf(g.code[n].instr)| <= limit
  }

  // No operation uses more variables than this.
  ghost predicate Narrow(g: Graph, limit: nat)
  {
    forall n :: n in g.code ==> NarrowAt(g, limit, n)
  }

  // No operation needs more variables than before, and no jump has lost its target.
  ghost predicate StaysSimple(g: Graph, g': Graph)
  {
    (forall limit: nat :: limit >= 1 && Narrow(g, limit) ==> Narrow(g', limit)) && (Targeted(g) ==> Targeted(g'))
  }

  lemma RenamedCount(i: Instr, x: Var, temp: Var)
    requires UsesVar(i, x) && temp != x
    ensures |VarsOf(Rename(i, map[x := temp]))| <= |VarsOf(i)|
  {
    var after := VarsOf(Rename(i, map[x := temp]));
    forall v | v in after ensures v == temp || (v != x && v in VarsOf(i)) {
      RenamedUses(i, x, temp, v);
    }
    OneForOne(VarsOf(i), after, x, temp);
  }

  lemma OneForOne(before: set<Var>, after: set<Var>, x: Var, temp: Var)
    requires x in before && forall v :: v in after ==> v == temp || (v != x && v in before)
    ensures |after| <= |before|
  {
    forall v | v in after ensures v in (before - {x}) + {temp} {
    }
    SubsetCount(after, (before - {x}) + {temp});
    assert before == (before - {x}) + {x};
  }

  lemma SubsetCount<T>(a: set<T>, b: set<T>)
    requires a <= b
    ensures |a| <= |b|
  {
    assert b == a + (b - a);
  }

  lemma {:induction false} NoMoreThanListed(vs: seq<Var>)
    ensures |set v | v in vs| <= |vs|
  {
    if |vs| > 0 {
      var front := vs[..|vs| - 1];
      var all, init := set v | v in vs, set v | v in front;
      NoMoreThanListed(front);
      forall v | v in all ensures v in init + {vs[|vs| - 1]} {
        assert vs == front + [vs[|vs| - 1]];
      }
      SubsetCount(all, init + {vs[|vs| - 1]});
    }
  }

  lemma MadeIsNarrow(i: Instr)
    requires i.Load? || i.Store? || i.Free?
    ensures |VarsOf(i)| <= 1
  {
    NoMoreThanListed(UsedVars(i));
  }

  // A result and two operands at most.
  lemma FewOperands(i: Instr)
    requires i.Compute? ==> |i.args| <= 2
    ensures |VarsOf(i)| <= 3
  {
    NoMoreThanListed(UsedVars(i));
  }

  lemma SplitNarrow(g: Graph, n: Id, x: Var, k: Parts, limit: nat)
    requires WellLinked(g) && n in g.code && PartsNew(g, k) && UsesVar(g.code[n].instr, x) && k.temp != x
    requires limit >= 1 && Narrow(g, limit)
    ensures Narrow(SplitOp(g, n, x, k), limit)
  {
    var g' := SplitOp(g, n, x, k);
    SplitOpParts(g, n, x, k);
    forall m | m in g'.code ensures NarrowAt(g', limit, m) {
      if m == n {
        assert NarrowAt(g, limit, n);
        RenamedCount(g.code[n].instr, x, k.temp);
      } else if m in g.code {
        assert NarrowAt(g, limit, m);
        SplitOpOthers(g, n, x, k, m);
      } else {
        NewOpsKnown(g, n, x, k, m);
        MadeIsNarrow(g'.code[m].instr);
      }
    }
  }

  lemma SplitTargeted(g: Graph, n: Id, x: Var, k: Parts)
    requires WellLinked(g) && n in g.code && PartsNew(g, k) && UsesVar(g.code[n].instr, x) && Targeted(g)
    ensures Targeted(SplitOp(g, n, x, k))
  {
    var g' := SplitOp(g, n, x, k);
    SplitOpParts(g, n, x, k);
    forall m | m in g'.code ensures TargetAt(g'.code[m]) {
      if m in g.code && m != n {
        assert TargetAt(g.code[m]);
        SplitOpOthers(g, n, x, k, m);
      } else if m != n {
        NewOpsKnown(g, n, x, k, m);
      }
    }
  }

  lemma SplitStaysSimple(g: Graph, n: Id, x: Var, k: Parts)
    requires WellLinked(g) && n in g.code && PartsNew(g, k) && UsesVar(g.code[n].instr, x) && k.temp != x
    ensures StaysSimple(g, SplitOp(g, n, x, k))
  {
    forall limit: nat | limit >= 1 && Narrow(g, limit) ensures Narrow(SplitOp(g, n, x, k), limit) {
      SplitNarrow(g, n, x, k, limit);
    }
    if Targeted(g) { SplitTargeted(g, n, x, k); }
  }

  lemma SimpleTwice(g0: Graph, g1: Graph, g2: Graph)
    requires StaysSimple(g0, g1) && StaysSimple(g1, g2)
    ensures StaysSimple(g0, g2)
  {
  }

  // ---------------------------------------------------------------- temporaries do not crowd

  lemma {:induction false} TempAtHome(g: Graph, p: Plan, temps: set<Var>, bound: Var, path: seq<Id>, t: Var)
    requires ConfinedBy(g, p, temps, bound) && t in temps && Zone(g, t, path) && Uses(g, path[0], t)
    ensures Owns(p, Home(p, path[|path| - 1]), t)
    ensures Leaves(p, path[|path| - 1], g.code[path[|path| - 1]].instr, t)
    decreases |path|
  {
    var n := path[|path| - 1];
    assert AtHome(p, temps, bound, n, g.code[n].instr);
    if |path| > 1 {
      var init := path[..|path| - 1];
      var m := init[|init| - 1];
      assert Zone(g, t, init) by {
        forall k | 0 < k < |init| ensures g.Edge(init[k - 1], init[k]) { assert g.Edge(path[k - 1], path[k]); }
      }
      TempAtHome(g, p, temps, bound, init, t);
      assert g.Edge(path[|path| - 2], path[|path| - 1]);
      assert FlowsOn(g, p, temps, m, g.code[m].instr, g.code[m].next);
      var j :| 0 <= j < |g.code[m].next| && g.code[m].next[j] == n;
      assert FlowsTo(p, temps, m, g.code[m].instr, n);
    }
  }

  // A temporary is live only among the operations made for its own one.
  lemma LiveAtHome(g: Graph, p: Plan, temps: set<Var>, bound: Var, n: Id, t: Var)
    requires ConfinedBy(g, p, temps, bound) && t in temps && LiveAt(g, n, t)
    ensures Owns(p, Home(p, n), t)
  {
    var path :| Zone(g, t, path) && Uses(g, path[0], t) && path[|path| - 1] == n;
    TempAtHome(g, p, temps, bound, path, t);
  }

  ghost predicate OnlyTemps(g: Graph, temps: set<Var>)
  {
    forall v :: SomewhereLive(g, g.code.Keys, v) ==> v in temps
  }

  lemma LiveTemp(g: Graph, p: Plan, temps: set<Var>, bound: Var, n: Id, v: Var)
    requires ConfinedBy(g, p, temps, bound) && OnlyTemps(g, temps) && LiveAt(g, n, v)
    ensures v in temps && Owns(p, Home(p, n), v)
  {
    LiveInside(g, n, v);
    assert SomewhereLive(g, g.code.Keys, v);
    LiveAtHome(g, p, temps, bound, n, v);
  }

  lemma ConflictOwner(g: Graph, p: Plan, temps: set<Var>, bound: Var, n: Id, v: Var, w: Var)
    requires ConfinedBy(g, p, temps, bound) && OnlyTemps(g, temps) && ConflictAt(g, n, v, w)
    ensures v in temps && w in temps && v != w && exists h :: Owns(p, h, v) && Owns(p, h, w)
  {
    LiveTemp(g, p, temps, bound, n, v);
    LiveTemp(g, p, temps, bound, n, w);
  }

  // Two temporaries in conflict are of one operation, which uses both.
  lemma ConflictsShareOwner(g: Graph, p: Plan, temps: set<Var>, bound: Var, v: Var, w: Var)
    requires ConfinedBy(g, p, temps, bound) && OnlyTemps(g, temps) && SomeConflict(g, g.code.Keys, v, w)
    ensures v in p.owner && p.owner[v] in g.code && v in VarsOf(g.code[p.owner[v]].instr)
    ensures w in VarsOf(g.code[p.owner[v]].instr) - {v}
  {
    var n :| n in g.code.Keys && ConflictAt(g, n, v, w);
    ConflictOwner(g, p, temps, bound, n, v, w);
    var h :| Owns(p, h, v) && Owns(p, h, w);
    BothUsed(g, p, temps, bound, h, v, w);
  }

  lemma BothUsed(g: Graph, p: Plan, temps: set<Var>, bound: Var, h: Id, v: Var, w: Var)
    requires ConfinedBy(g, p, temps, bound) && v in temps && w in temps && v != w && Owns(p, h, v) && Owns(p, h, w)
    ensures h in g.code && v in VarsOf(g.code[h].instr) && w in VarsOf(g.code[h].instr) - {v}
  {
    assert OwnerUses(g, p, bound, v) && OwnerUses(g, p, bound, w);
  }

  lemma {:induction false} DifferentRegisters(s: set<Var>, res: map<Var, int>, n: nat)
    requires forall c :: 0 <= c < n ==> Taken(res, s, c)
    ensures |s| >= n
  {
    if n > 0 {
      assert Taken(res, s, n - 1);
      var w :| w in s && w in res && res[w] == n - 1;
      var rest := s - {w};
      forall c | 0 <= c < n - 1 ensures Taken(res, rest, c) {
        assert Taken(res, s, c);
        var u :| u in s && u in res && res[u] == c;
        assert u in rest;
      }
      DifferentRegisters(rest, res, n - 1);
    }
  }

  // Everything around v is used by the operation v was made for.
  lemma AllAround(g: Graph, p: Plan, temps: set<Var>, bound: Var, res: map<Var, int>, v: Var, c: int)
    requires ConfinedBy(g, p, temps, bound) && OnlyTemps(g, temps) && TakenAround(g, res, v, c)
    ensures v in p.owner && p.owner[v] in g.code && v in VarsOf(g.code[p.owner[v]].instr)
    ensures Taken(res, VarsOf(g.code[p.owner[v]].instr) - {v}, c)
  {
    var w :| w in res && res[w] == c && SomeConflict(g, g.code.Keys, v, w);
    ConflictsShareOwner(g, p, temps, bound, v, w);
  }

  lemma ManyVariables(g: Graph, h: Id, res: map<Var, int>, v: Var, registers: nat)
    requires h in g.code && v in VarsOf(g.code[h].instr)
    requires forall c :: 0 <= c < registers ==> Taken(res, VarsOf(g.code[h].instr) - {v}, c)
    ensures !NarrowAt(g, registers, h)
  {
    var all := VarsOf(g.code[h].instr);
    DifferentRegisters(all - {v}, res, registers);
    assert all == (all - {v}) + {v};
  }

  // So that operation has more variables than there are registers.
  lemma CrowdedOwner(g: Graph, p: Plan, temps: set<Var>, bound: Var, res: map<Var, int>, v: Var, registers: nat) returns (h: Id)
    requires ConfinedBy(g, p, temps, bound) && OnlyTemps(g, temps) && registers >= 1
    requires forall c :: 0 <= c < registers ==> TakenAround(g, res, v, c)
    ensures h in g.code && !NarrowAt(g, registers, h)
  {
    AllAround(g, p, temps, bound, res, v, 0);
    h := p.owner[v];
    var around := VarsOf(g.code[h].instr) - {v};
    forall c | 0 <= c < registers ensures Taken(res, around, c) {
      AllAround(g, p, temps, bound, res, v, c);
    }
    ManyVariables(g, h, res, v, registers);
  }

  // With enough registers for each operation, temporaries alone never crowd a variable.
  lemma TempsDoNotCrowd(g: Graph, temps: set<Var>, bound: Var, res: map<Var, int>, v: Var, registers: nat)
    requires Confined(g, temps, bound) && OnlyTemps(g, temps) && Narrow(g, registers) && registers >= 1
    ensures !Crowded(g, res, v, registers)
  {
    var p :| ConfinedBy(g, p, temps, bound);
    if Crowded(g, res, v, registers) {
      var h := CrowdedOwner(g, p, temps, bound, res, v, registers);
    }
  }
}
