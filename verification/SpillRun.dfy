// A split program runs as the original: same events, and the split variable's
// memory cell holds its value at every original operation.
module SpillRun {
  import opened Wrappers
  import opened Ir
  import opened RegisterMachine
  import opened GraphSurgery
  import opened Spill

  // ---------------------------------------------------------------- the shape of a split program

  // Where links to m lead when the operations in `parts` have been split.
  ghost function Head(g0: Graph, x: Var, parts: map<Id, Parts>, m: Id): Id
  {
    if m in parts && m in g0.code && ReadsVar(g0.code[m].instr, x) then parts[m].load else m
  }

  ghost function Heads(g0: Graph, x: Var, parts: map<Id, Parts>, next: seq<Id>): (r: seq<Id>)
    ensures |r| == |next|
  {
    seq(|next|, j requires 0 <= j < |next| => Head(g0, x, parts, next[j]))
  }

  ghost predicate SplitShape(g: Graph, n: Id, i: Instr, next: seq<Id>, x: Var, k: Parts)
    requires |next| == if i.Branch? then 2 else 1
  {
    var first := if WritesVar(i, x) then k.store else k.free0;
    IsOp(g, n, Rename(i, map[x := k.temp]), if i.Branch? then [first, k.free1] else [first]) &&
    (ReadsVar(i, x) ==> IsOp(g, k.load, Load(k.temp, x), [n])) &&
    (WritesVar(i, x) ==> IsOp(g, k.store, Store(k.temp, x), [k.free0])) &&
    IsOp(g, k.free0, Free(k.temp), [next[0]]) &&
    (i.Branch? ==> IsOp(g, k.free1, Free(k.temp), [next[1]]))
  }

  ghost predicate OpShape(g0: Graph, g: Graph, x: Var, parts: map<Id, Parts>, n: Id)
    requires n in g0.code && g0.BlockOk(n)
  {
    var i, next := g0.code[n].instr, Heads(g0, x, parts, g0.code[n].next);
    if n in parts then SplitShape(g, n, i, next, x, parts[n]) else IsOp(g, n, i, next)
  }

  // Parts are new operations, and temporaries are above every old variable.
  ghost predicate PartOk(g0: Graph, x: Var, bound: Var, n: Id, k: Parts)
  {
    n in g0.code && UsesVar(g0.code[n].instr, x) && k.temp >= bound &&
    k.load !in g0.code && k.store !in g0.code && k.free0 !in g0.code && k.free1 !in g0.code
  }

  ghost predicate Shape(g0: Graph, g: Graph, x: Var, bound: Var, parts: map<Id, Parts>)
    requires g0.Valid()
  {
    g.entry == Head(g0, x, parts, g0.entry) &&
    (forall n :: n in parts ==> PartOk(g0, x, bound, n, parts[n])) &&
    forall n :: n in g0.code ==> g0.BlockOk(n) && OpShape(g0, g, x, parts, n)
  }

  ghost predicate Complete(g0: Graph, x: Var, parts: map<Id, Parts>)
  {
    forall n :: n in g0.code && UsesVar(g0.code[n].instr, x) ==> n in parts
  }

  // ---------------------------------------------------------------- one more operation split

  lemma HeadMoves(g0: Graph, x: Var, bound: Var, parts: map<Id, Parts>, n: Id, k: Parts, m: Id)
    requires n in g0.code && n !in parts
    requires forall n :: n in parts ==> PartOk(g0, x, bound, n, parts[n])
    ensures Head(g0, x, parts[n := k], m) == Moved(n, Head(g0, x, parts, m), ReadsVar(g0.code[n].instr, x), k)
    ensures Head(g0, x, parts, m) == n ==> m == n
  {
  }

  lemma HeadsMove(g0: Graph, x: Var, bound: Var, parts: map<Id, Parts>, n: Id, k: Parts, next: seq<Id>)
    requires n in g0.code && n !in parts
    requires forall n :: n in parts ==> PartOk(g0, x, bound, n, parts[n])
    ensures Heads(g0, x, parts[n := k], next) == MovedAll(Heads(g0, x, parts, next), n, ReadsVar(g0.code[n].instr, x), k)
  {
  }

  lemma OtherOpMoves(g: Graph, n: Id, x: Var, k: Parts, m: Id, i: Instr, next: seq<Id>)
    requires WellLinked(g) && n in g.code && PartsNew(g, k) && IsOp(g, m, i, next) && m != n
    ensures IsOp(SplitOp(g, n, x, k), m, i, MovedAll(next, n, ReadsVar(g.code[n].instr, x), k))
  {
    SplitOpOthers(g, n, x, k, m);
  }

  // An operation split earlier keeps its shape.
  lemma EarlierShapeKept(g: Graph, n: Id, x: Var, k: Parts, m: Id, i: Instr, next: seq<Id>, km: Parts)
    requires WellLinked(g) && n in g.code && PartsNew(g, k) && m != n
    requires |next| == (if i.Branch? then 2 else 1) && SplitShape(g, m, i, next, x, km)
    requires n != km.load && n != km.store && n != km.free0 && n != km.free1
    ensures SplitShape(SplitOp(g, n, x, k), m, i, MovedAll(next, n, ReadsVar(g.code[n].instr, x), k), x, km)
  {
    var first := if WritesVar(i, x) then km.store else km.free0;
    var links := if i.Branch? then [first, km.free1] else [first];
    var isRead := ReadsVar(g.code[n].instr, x);
    OtherOpMoves(g, n, x, k, m, Rename(i, map[x := km.temp]), links);
    assert MovedAll(links, n, isRead, k) == links;
    if ReadsVar(i, x) {
      OtherOpMoves(g, n, x, k, km.load, Load(km.temp, x), [m]);
      assert MovedAll([m], n, isRead, k) == [m];
    }
    if WritesVar(i, x) {
      OtherOpMoves(g, n, x, k, km.store, Store(km.temp, x), [km.free0]);
      assert MovedAll([km.free0], n, isRead, k) == [km.free0];
    }
    OtherOpMoves(g, n, x, k, km.free0, Free(km.temp), [next[0]]);
    assert MovedAll([next[0]], n, isRead, k) == [MovedAll(next, n, isRead, k)[0]];
    if i.Branch? {
      OtherOpMoves(g, n, x, k, km.free1, Free(km.temp), [next[1]]);
      assert MovedAll([next[1]], n, isRead, k) == [MovedAll(next, n, isRead, k)[1]];
    }
  }

  lemma OpShapeStep(g0: Graph, g: Graph, x: Var, bound: Var, parts: map<Id, Parts>, n: Id, k: Parts, m: Id)
    requires g0.Valid() && Shape(g0, g, x, bound, parts) && WellLinked(g) && PartsNew(g, k)
    requires n in g0.code && n !in parts && m in g0.code && g0.BlockOk(m)
    ensures n in g.code && OpShape(g0, SplitOp(g, n, x, k), x, parts[n := k], m)
  {
    assert OpShape(g0, g, x, parts, n) && OpShape(g0, g, x, parts, m);
    assert g.code[n].instr == g0.code[n].instr;
    var next := Heads(g0, x, parts, g0.code[m].next);
    HeadsMove(g0, x, bound, parts, n, k, g0.code[m].next);
    if m == n {
      SplitOpParts(g, n, x, k);
    } else if m in parts {
      assert PartOk(g0, x, bound, m, parts[m]);
      EarlierShapeKept(g, n, x, k, m, g0.code[m].instr, next, parts[m]);
    } else {
      OtherOpMoves(g, n, x, k, m, g0.code[m].instr, next);
    }
  }

  lemma ShapeStep(g0: Graph, g: Graph, x: Var, bound: Var, parts: map<Id, Parts>, n: Id, k: Parts)
    requires g0.Valid() && Shape(g0, g, x, bound, parts) && WellLinked(g) && PartsNew(g, k)
    requires n in g0.code && n !in parts && PartOk(g0, x, bound, n, k)
    ensures n in g.code && Shape(g0, SplitOp(g, n, x, k), x, bound, parts[n := k])
  {
    assert g0.BlockOk(n) && OpShape(g0, g, x, parts, n);
    var g', parts' := SplitOp(g, n, x, k), parts[n := k];
    SplitOpEntry(g, n, x, k);
    HeadMoves(g0, x, bound, parts, n, k, g0.entry);
    forall m | m in g0.code ensures g0.BlockOk(m) && OpShape(g0, g', x, parts', m) {
      assert g0.BlockOk(m);
      OpShapeStep(g0, g, x, bound, parts, n, k, m);
    }
  }

  // ---------------------------------------------------------------- machines

  // t agrees with s on everything but x, and the split program's temporaries.
  ghost predicate AgreeBut(s: Machine, t: Machine, x: Var)
  {
    t.trace == s.trace &&
    (forall v :: v in s.env && v != x ==> v in t.env && t.env[v] == s.env[v]) &&
    (forall p :: p in s.mem && p != x ==> p in t.mem && t.mem[p] == s.mem[p])
  }

  // And x's memory cell holds its value.
  ghost predicate Agree(s: Machine, t: Machine, x: Var)
  {
    AgreeBut(s, t, x) && (x in s.env ==> x in t.mem && t.mem[x] == s.env[x])
  }

  ghost predicate VarsBelow(i: Instr, bound: Var)
  {
    forall v :: v in UsedVars(i) ==> v < bound
  }

  // The operation does not touch memory place x.
  ghost predicate AvoidsPlace(i: Instr, x: Var)
  {
    (i.Load? ==> i.place != x) && (i.Store? ==> i.place != x)
  }

  ghost predicate EnvBelow(m: Machine, bound: Var)
  {
    forall v :: v in m.env ==> v < bound
  }

  lemma SameValues(s: Machine, t: Machine, x: Var, temp: Var, vs: seq<Var>)
    requires AgreeBut(s, t, x) && CanRead(s.env, vs)
    requires x in vs ==> temp in t.env && x in s.env && t.env[temp] == s.env[x]
    ensures CanRead(t.env, RenamedAll(vs, map[x := temp])) && ValuesOf(t.env, RenamedAll(vs, map[x := temp])) == ValuesOf(s.env, vs)
  {
  }

  // The renamed operation does to t, through the temporary, what the original does to s.
  // What both machines need to do the operation.
  ghost predicate MayRename(i: Instr, s: Machine, t: Machine, x: Var, temp: Var, bound: Var, world: World)
  {
    AgreeBut(s, t, x) && EnvBelow(s, bound) && temp >= bound && VarsBelow(i, bound) && AvoidsPlace(i, x) &&
    Execute(i, s, world).Next? && (ReadsVar(i, x) ==> temp in t.env && x in s.env && t.env[temp] == s.env[x])
  }

  lemma RenamedReads(i: Instr, s: Machine, t: Machine, x: Var, temp: Var, bound: Var, world: World)
    requires MayRename(i, s, t, x, temp, bound, world)
    ensures var j := Rename(i, map[x := temp]);
            CanRead(s.env, ReadVars(i)) && CanRead(t.env, ReadVars(j)) && ValuesOf(t.env, ReadVars(j)) == ValuesOf(s.env, ReadVars(i)) &&
            (|ReadVars(i)| > 0 ==> s.env[ReadVars(i)[0]] == t.env[ReadVars(j)[0]])
    ensures Dest(i).Some? ==> Dest(i).value < bound
  {
    var j := Rename(i, map[x := temp]);
    SameValues(s, t, x, temp, ReadVars(i));
    assert ReadVars(j) == RenamedAll(ReadVars(i), map[x := temp]);
    if |ReadVars(i)| > 0 {
      assert s.env[ReadVars(i)[0]] == ValuesOf(s.env, ReadVars(i))[0] == t.env[ReadVars(j)[0]];
    }
    if Dest(i).Some? { assert Dest(i).value in UsedVars(i); }
  }

  lemma RenamedAgrees(i: Instr, s: Machine, t: Machine, x: Var, temp: Var, bound: Var, world: World)
    requires MayRename(i, s, t, x, temp, bound, world)
    ensures var a, b := Execute(i, s, world), Execute(Rename(i, map[x := temp]), t, world);
            b.Next? && b.taken == a.taken && AgreeBut(a.machine, b.machine, x) && EnvBelow(a.machine, bound)
  {
    RenamedReads(i, s, t, x, temp, bound, world);
  }

  lemma RenamedEffect(i: Instr, s: Machine, t: Machine, x: Var, temp: Var, bound: Var, world: World)
    requires AgreeBut(s, t, x) && EnvBelow(s, bound) && temp >= bound && VarsBelow(i, bound) && AvoidsPlace(i, x)
    requires Execute(i, s, world).Next?
    requires ReadsVar(i, x) ==> temp in t.env && x in s.env && t.env[temp] == s.env[x]
    ensures var a, b := Execute(i, s, world), Execute(Rename(i, map[x := temp]), t, world);
            b.Next? && b.taken == a.taken && AgreeBut(a.machine, b.machine, x) && EnvBelow(a.machine, bound) &&
            (WritesVar(i, x) ==> x in a.machine.env && temp in b.machine.env && b.machine.env[temp] == a.machine.env[x]) &&
            (!WritesVar(i, x) ==> (x in a.machine.env ==> x in s.env && a.machine.env[x] == s.env[x]) &&
                                  (x in t.mem ==> x in b.machine.mem && b.machine.mem[x] == t.mem[x]))
  {
    RenamedReads(i, s, t, x, temp, bound, world);
    RenamedAgrees(i, s, t, x, temp, bound, world);
  }

  // An operation that does not use x is not renamed.
  lemma RenameNothing(i: Instr, x: Var, temp: Var)
    requires !UsesVar(i, x)
    ensures Rename(i, map[x := temp]) == i
  {
  }

  // ---------------------------------------------------------------- runs

  // t is reached from s in some number of steps.
  ghost predicate Leads(g: Graph, s: State, t: State, world: World)
    requires g.Valid()
  {
    exists n: nat :: VariableRun(g, s, world, n) == Some(t)
  }

  lemma LeadsStep(g: Graph, s: State, t: State, u: State, world: World)
    requires g.Valid() && Leads(g, s, t, world) && VariableStep(g, t, world) == Some(u)
    ensures Leads(g, s, u, world)
  {
    var n: nat :| VariableRun(g, s, world, n) == Some(t);
    assert VariableRun(g, s, world, n + 1) == Some(u);
  }

  lemma LeadsNowhere(g: Graph, s: State, world: World)
    requires g.Valid()
    ensures Leads(g, s, s, world)
  {
    assert VariableRun(g, s, world, 0) == Some(s);
  }

  // One operation, known to be at t.pc with a single link, that succeeds.
  lemma LeadsThrough(g: Graph, s: State, t: State, i: Instr, next: Id, world: World)
    requires g.Valid() && Leads(g, s, t, world) && IsOp(g, t.pc, i, [next]) && !i.Branch?
    requires Execute(i, t.machine, world).Next?
    ensures Leads(g, s, State(next, Execute(i, t.machine, world).machine), world)
  {
    assert g.BlockOk(t.pc);
    LeadsStep(g, s, t, State(next, Execute(i, t.machine, world).machine), world);
  }

  // The two programs are at the same original operation and agree.
  ghost predicate InStep(g0: Graph, x: Var, bound: Var, parts: map<Id, Parts>, s: State, t: State)
  {
    t.pc == Head(g0, x, parts, s.pc) && Agree(s.machine, t.machine, x) && EnvBelow(s.machine, bound)
  }

  ghost predicate Splittable(g0: Graph, x: Var, bound: Var)
  {
    g0.Valid() && x < bound && forall n :: n in g0.code ==> VarsBelow(g0.code[n].instr, bound) && AvoidsPlace(g0.code[n].instr, x)
  }

  // An operation that was not split.
  lemma PlainStep(g0: Graph, g: Graph, x: Var, bound: Var, parts: map<Id, Parts>, s: State, t: State, world: World)
    requires Splittable(g0, x, bound) && g.Valid() && Shape(g0, g, x, bound, parts) && Complete(g0, x, parts)
    requires InStep(g0, x, bound, parts, s, t) && VariableStep(g0, s, world).Some? && s.pc !in parts
    ensures VariableStep(g, t, world).Some?
    ensures InStep(g0, x, bound, parts, VariableStep(g0, s, world).value, VariableStep(g, t, world).value)
  {
    var n, i := s.pc, g0.code[s.pc].instr;
    assert g0.BlockOk(n) && OpShape(g0, g, x, parts, n);
    assert g.BlockOk(n);
    assert VarsBelow(i, bound) && AvoidsPlace(i, x);
    assert !UsesVar(i, x);
    RenameNothing(i, x, bound);
    NotUsed(i, x);
    RenamedEffect(i, s.machine, t.machine, x, bound, bound, world);
  }

  lemma NotUsed(i: Instr, x: Var)
    requires !UsesVar(i, x)
    ensures !ReadsVar(i, x) && !WritesVar(i, x)
  {
  }

  // The load before a split operation, if it has one.
  lemma AfterLoad(g0: Graph, g: Graph, x: Var, bound: Var, parts: map<Id, Parts>, s: State, t: State, world: World)
    returns (u: State)
    requires Splittable(g0, x, bound) && g.Valid() && Shape(g0, g, x, bound, parts)
    requires InStep(g0, x, bound, parts, s, t) && VariableStep(g0, s, world).Some? && s.pc in parts
    ensures Leads(g, t, u, world) && u.pc == s.pc && Agree(s.machine, u.machine, x)
    ensures var i, temp := g0.code[s.pc].instr, parts[s.pc].temp;
            ReadsVar(i, x) ==> temp in u.machine.env && x in s.machine.env && u.machine.env[temp] == s.machine.env[x]
  {
    var n, i, k := s.pc, g0.code[s.pc].instr, parts[s.pc];
    assert g0.BlockOk(n) && OpShape(g0, g, x, parts, n) && PartOk(g0, x, bound, n, k);
    LeadsNowhere(g, t, world);
    u := t;
    if ReadsVar(i, x) {
      assert x in s.machine.env;
      u := Loaded(g, t, k.temp, x, n, world);
    }
  }

  lemma Loaded(g: Graph, t: State, temp: Var, place: Var, next: Id, world: World) returns (u: State)
    requires g.Valid() && IsOp(g, t.pc, Load(temp, place), [next]) && place in t.machine.mem
    ensures Leads(g, t, u, world) && u.pc == next
    ensures u.machine == t.machine.(env := t.machine.env[temp := t.machine.mem[place]])
  {
    LeadsNowhere(g, t, world);
    LeadsThrough(g, t, t, Load(temp, place), next, world);
    u := State(next, Execute(Load(temp, place), t.machine, world).machine);
  }

  // The store after a split operation, if it has one, and the free.
  lemma AfterFree(g: Graph, t: State, w: State, i: Instr, a: Machine, x: Var, k: Parts, next: Id, slot: nat, world: World)
    returns (u: State)
    requires g.Valid() && Leads(g, t, w, world) && AgreeBut(a, w.machine, x) && k.temp !in a.env
    requires WritesVar(i, x) ==> slot == 0 && w.pc == k.store && IsOp(g, k.store, Store(k.temp, x), [k.free0])
    requires WritesVar(i, x) ==> x in a.env && k.temp in w.machine.env && w.machine.env[k.temp] == a.env[x]
    requires !WritesVar(i, x) ==> w.pc == (if slot == 0 then k.free0 else k.free1) && Agree(a, w.machine, x)
    requires IsOp(g, if slot == 0 then k.free0 else k.free1, Free(k.temp), [next])
    ensures Leads(g, t, u, world) && u.pc == next && Agree(a, u.machine, x)
  {
    u := w;
    if WritesVar(i, x) {
      assert CanRead(u.machine.env, [k.temp]);
      LeadsThrough(g, t, u, Store(k.temp, x), k.free0, world);
      u := State(k.free0, Execute(Store(k.temp, x), u.machine, world).machine);
    }
    LeadsThrough(g, t, u, Free(k.temp), next, world);
    u := State(next, Execute(Free(k.temp), u.machine, world).machine);
  }

  // A split operation: up to four steps of the split program.
  lemma SplitStep(g0: Graph, g: Graph, x: Var, bound: Var, parts: map<Id, Parts>, s: State, t: State, world: World)
    returns (v: State)
    requires Splittable(g0, x, bound) && g.Valid() && Shape(g0, g, x, bound, parts)
    requires InStep(g0, x, bound, parts, s, t) && VariableStep(g0, s, world).Some? && s.pc in parts
    ensures Leads(g, t, v, world) && InStep(g0, x, bound, parts, VariableStep(g0, s, world).value, v)
  {
    var n, i, k := s.pc, g0.code[s.pc].instr, parts[s.pc];
    assert g0.BlockOk(n) && OpShape(g0, g, x, parts, n) && PartOk(g0, x, bound, n, k);
    assert VarsBelow(i, bound) && AvoidsPlace(i, x);
    var u := AfterLoad(g0, g, x, bound, parts, s, t, world);
    RenamedEffect(i, s.machine, u.machine, x, k.temp, bound, world);
    var a, b := Execute(i, s.machine, world), Execute(Rename(i, map[x := k.temp]), u.machine, world);
    var first, slot := if WritesVar(i, x) then k.store else k.free0, if i.Branch? && a.taken then 1 else 0;
    assert g.BlockOk(n);
    var w := State(if slot == 0 then first else k.free1, b.machine);
    LeadsStep(g, t, u, w, world);
    if WritesVar(i, x) { WriterHasOneLink(i, x); }
    v := AfterFree(g, t, w, i, a.machine, x, k, Head(g0, x, parts, g0.code[n].next[slot]), slot, world);
  }

  // The theorem: every run of the original is matched by a run of the split
  // program with the same events, at the same operation, and with the split
  // variable's value in its memory cell.
  lemma {:induction false} SplitPreservesRuns(g0: Graph, g: Graph, x: Var, bound: Var, parts: map<Id, Parts>,
                                              mem: map<int, int>, world: World, n: nat) returns (t: State)
    requires Splittable(g0, x, bound) && g.Valid() && Shape(g0, g, x, bound, parts) && Complete(g0, x, parts)
    requires VariableRun(g0, StartOf(g0, mem), world, n).Some?
    ensures Leads(g, StartOf(g, mem), t, world)
    ensures InStep(g0, x, bound, parts, VariableRun(g0, StartOf(g0, mem), world, n).value, t)
  {
    if n == 0 {
      t := StartOf(g, mem);
      LeadsNowhere(g, t, world);
    } else {
      var u := SplitPreservesRuns(g0, g, x, bound, parts, mem, world, n - 1);
      var s := VariableRun(g0, StartOf(g0, mem), world, n - 1).value;
      if s.pc in parts {
        t := SplitStep(g0, g, x, bound, parts, s, u, world);
        LeadsTwice(g, StartOf(g, mem), u, t, world);
      } else {
        PlainStep(g0, g, x, bound, parts, s, u, world);
        t := VariableStep(g, u, world).value;
        LeadsStep(g, StartOf(g, mem), u, t, world);
      }
    }
  }

  lemma LeadsTwice(g: Graph, s: State, t: State, u: State, world: World)
    requires g.Valid() && Leads(g, s, t, world) && Leads(g, t, u, world)
    ensures Leads(g, s, u, world)
  {
    var n: nat :| VariableRun(g, s, world, n) == Some(t);
    var m: nat :| VariableRun(g, t, world, m) == Some(u);
    RunsCompose(g, s, t, world, n, m);
  }

  lemma {:induction false} RunsCompose(g: Graph, s: State, t: State, world: World, n: nat, m: nat)
    requires g.Valid() && VariableRun(g, s, world, n) == Some(t)
    ensures VariableRun(g, s, world, n + m) == VariableRun(g, t, world, m)
  {
    if m > 0 { RunsCompose(g, s, t, world, n, m - 1); }
  }
}
