// Register allocation preserves meaning: any colouring of the interference graph
// the analysis builds runs the program with the same values at every read.
module RegisterMachine {
  import opened Wrappers
  import opened Ir

  // ---------------------------------------------------------------- the two machines

  // One step over variables.
  function VariableStep(g: Graph, s: State, world: World): Option<State>
    requires g.Valid()
  {
    if s.pc !in g.code then None
    else
      var b := g.code[s.pc];
      assert g.BlockOk(s.pc);
      match Execute(b.instr, s.machine, world)
      case Stuck => None
      case Next(m, taken) => Some(State(Target(b, taken), m))
  }

  // What an operation does once variables have become registers: frees emit nothing.
  function RegisterExecute(i: Instr, colors: map<Var, int>, m: Machine, world: World): Outcome
  {
    if i.Free? then Next(m, false) else Execute(Rename(i, colors), m, world)
  }

  function RegisterStep(g: Graph, colors: map<Var, int>, s: State, world: World): Option<State>
    requires g.Valid()
  {
    if s.pc !in g.code then None
    else
      var b := g.code[s.pc];
      assert g.BlockOk(s.pc);
      match RegisterExecute(b.instr, colors, s.machine, world)
      case Stuck => None
      case Next(m, taken) => Some(State(Target(b, taken), m))
  }

  // n steps, if the run gets that far without reading an undefined variable.
  function VariableRun(g: Graph, s: State, world: World, n: nat): Option<State>
    requires g.Valid()
  {
    if n == 0 then Some(s)
    else match VariableRun(g, s, world, n - 1)
         case None => None
         case Some(t) => VariableStep(g, t, world)
  }

  function RegisterRun(g: Graph, colors: map<Var, int>, s: State, world: World, n: nat): Option<State>
    requires g.Valid()
  {
    if n == 0 then Some(s)
    else match RegisterRun(g, colors, s, world, n - 1)
         case None => None
         case Some(t) => RegisterStep(g, colors, t, world)
  }

  // ---------------------------------------------------------------- live zones and conflicts

  // A path of the graph none of whose operations frees v.
  ghost predicate Zone(g: Graph, v: Var, p: seq<Id>)
  {
    |p| > 0 && (forall k :: 0 <= k < |p| ==> p[k] in g.code && g.code[p[k]].instr != Free(v)) &&
    forall k :: 0 < k < |p| ==> g.Edge(p[k - 1], p[k])
  }

  ghost predicate Uses(g: Graph, n: Id, v: Var)
  {
    n in g.code && v in UsedVars(g.code[n].instr)
  }

  // updateCanFrom marks n for v: some use of v leads to n with no free between.
  ghost predicate CanFrom(g: Graph, n: Id, v: Var)
  {
    exists p :: Zone(g, v, p) && Uses(g, p[0], v) && p[|p| - 1] == n
  }

  // updateCanTo marks n for v: n leads to some use of v with no free between.
  ghost predicate CanTo(g: Graph, n: Id, v: Var)
  {
    exists p :: Zone(g, v, p) && p[0] == n && Uses(g, p[|p| - 1], v)
  }

  // v is in op_vars[n].
  ghost predicate LiveAt(g: Graph, n: Id, v: Var)
  {
    CanFrom(g, n, v) && CanTo(g, n, v)
  }

  // The variables freed by the chain of frees that starts at n.
  ghost function FreedFrom(g: Graph, n: Id, fuel: nat): set<Var>
    decreases fuel
  {
    if fuel == 0 || n !in g.code || !g.code[n].instr.Free? || |g.code[n].next| == 0 then {}
    else {g.code[n].instr.v} + FreedFrom(g, g.code[n].next[0], fuel - 1)
  }

  ghost function FreedAfter(g: Graph, n: Id): set<Var>
    requires n in g.code
  {
    var next := g.code[n].next;
    if |next| == 1 then FreedFrom(g, next[0], |g.code|) else {}
  }

  // n writes i alone, reads j, and j is freed straight after.
  ghost predicate WritesOver(g: Graph, n: Id, i: Var, j: Var)
    requires n in g.code
  {
    Dest(g.code[n].instr) == Some(i) && j in ReadVars(g.code[n].instr) && j in FreedAfter(g, n)
  }

  ghost predicate ConflictAt(g: Graph, n: Id, i: Var, j: Var)
  {
    n in g.code && i != j && LiveAt(g, n, i) && LiveAt(g, n, j) && !WritesOver(g, n, i, j) && !WritesOver(g, n, j, i)
  }

  // A chain of frees, each following the one before.
  ghost predicate FreeChain(g: Graph, chain: seq<Id>)
  {
    chain != [] && (forall k :: 0 <= k < |chain| ==> chain[k] in g.code && g.code[chain[k]].instr.Free? && |g.code[chain[k]].next| > 0) &&
    forall k :: 0 < k < |chain| ==> chain[k] == g.code[chain[k - 1]].next[0]
  }

  // It starts straight behind n and ends with the free of v.
  ghost predicate FreedByChain(g: Graph, n: Id, v: Var, chain: seq<Id>)
    requires n in g.code
  {
    FreeChain(g, chain) && |chain| <= |g.code| && |g.code[n].next| == 1 && chain[0] == g.code[n].next[0] &&
    g.code[chain[|chain| - 1]].instr == Free(v)
  }

  lemma {:induction false} FreedFromChain(g: Graph, n: Id, v: Var, fuel: nat) returns (chain: seq<Id>)
    requires v in FreedFrom(g, n, fuel)
    ensures FreeChain(g, chain) && |chain| <= fuel && chain[0] == n && g.code[chain[|chain| - 1]].instr == Free(v)
    decreases fuel
  {
    chain := [n];
    if g.code[n].instr.v != v {
      var rest := FreedFromChain(g, g.code[n].next[0], v, fuel - 1);
      chain := [n] + rest;
    }
  }

  lemma {:induction false} ChainFrees(g: Graph, chain: seq<Id>, v: Var, fuel: nat)
    requires FreeChain(g, chain) && |chain| <= fuel && g.code[chain[|chain| - 1]].instr == Free(v)
    ensures v in FreedFrom(g, chain[0], fuel)
    decreases fuel
  {
    if |chain| > 1 {
      assert chain[1] == g.code[chain[0]].next[0];
      ChainFrees(g, chain[1..], v, fuel - 1);
    }
  }

  lemma FreedAfterChain(g: Graph, n: Id, v: Var)
    requires n in g.code
    ensures v in FreedAfter(g, n) <==> exists chain :: FreedByChain(g, n, v, chain)
  {
    if v in FreedAfter(g, n) {
      var chain := FreedFromChain(g, g.code[n].next[0], v, |g.code|);
      assert FreedByChain(g, n, v, chain);
    }
    if chain :| FreedByChain(g, n, v, chain) { ChainFrees(g, chain, v, |g.code|); }
  }

  // n writes i and nothing else, reads j, and the frees straight behind n free j: the
  // result may go where j is.
  ghost predicate MayShare(g: Graph, n: Id, i: Var, j: Var)
    requires n in g.code
  {
    WrittenVars(g.code[n].instr) == [i] && j in ReadVars(g.code[n].instr) && exists chain :: FreedByChain(g, n, j, chain)
  }

  // Two variables conflict at an operation exactly if both are live there and neither may
  // take the place of the other.
  lemma ConflictExactly(g: Graph, n: Id, i: Var, j: Var)
    ensures ConflictAt(g, n, i, j) <==>
              i != j && n in g.code && LiveAt(g, n, i) && LiveAt(g, n, j) && !MayShare(g, n, i, j) && !MayShare(g, n, j, i)
  {
    if n in g.code {
      FreedAfterChain(g, n, i);
      FreedAfterChain(g, n, j);
    }
  }

  // What a colouring has to satisfy: every live variable has a colour, and
  // variables in conflict have different ones.
  ghost predicate ProperColoring(g: Graph, colors: map<Var, int>)
  {
    (forall n, v {:trigger LiveAt(g, n, v)} :: LiveAt(g, n, v) ==> v in colors) &&
    (forall n, i, j {:trigger ConflictAt(g, n, i, j)} :: ConflictAt(g, n, i, j) && i in colors && j in colors ==> colors[i] != colors[j])
  }

  // Every operation that does something finds all its variables in registers.
  ghost predicate AllColored(g: Graph, colors: map<Var, int>)
  {
    forall n, v :: n in g.code && !g.code[n].instr.Free? && v in UsedVars(g.code[n].instr) ==> v in colors
  }

  lemma ProperColorsAll(g: Graph, colors: map<Var, int>)
    requires ProperColoring(g, colors)
    ensures AllColored(g, colors)
  {
    forall n, v | n in g.code && !g.code[n].instr.Free? && v in UsedVars(g.code[n].instr) ensures v in colors {
      OneNodeZone(g, n, v);
    }
  }

  // ---------------------------------------------------------------- paths

  lemma OneNodeZone(g: Graph, n: Id, v: Var)
    requires Uses(g, n, v) && g.code[n].instr != Free(v)
    ensures LiveAt(g, n, v)
  {
    assert Zone(g, v, [n]) && [n][0] == n && [n][|[n]| - 1] == n;
  }

  lemma ZoneSnoc(g: Graph, v: Var, p: seq<Id>, m: Id)
    requires Zone(g, v, p) && g.Edge(p[|p| - 1], m) && g.code[m].instr != Free(v)
    ensures Zone(g, v, p + [m])
  {
    var q := p + [m];
    forall k | 0 < k < |q| ensures g.Edge(q[k - 1], q[k]) {
      if k < |p| { assert g.Edge(p[k - 1], p[k]); }
    }
  }

  lemma ZoneCons(g: Graph, v: Var, n: Id, p: seq<Id>)
    requires Zone(g, v, p) && g.Edge(n, p[0]) && g.code[n].instr != Free(v)
    ensures Zone(g, v, [n] + p)
  {
    var q := [n] + p;
    forall k | 0 < k < |q| ensures g.Edge(q[k - 1], q[k]) {
      if k > 1 { assert g.Edge(p[k - 2], p[k - 1]); }
    }
  }

  // v reaches the point just before m: m follows a node v can come from.
  ghost predicate Arrives(g: Graph, m: Id, v: Var)
  {
    exists n :: CanFrom(g, n, v) && n in g.code && m in g.code[n].next
  }

  lemma ArrivesMeansCanFrom(g: Graph, m: Id, v: Var)
    requires Arrives(g, m, v) && m in g.code && g.code[m].instr != Free(v)
    ensures CanFrom(g, m, v)
  {
    var n :| CanFrom(g, n, v) && n in g.code && m in g.code[n].next;
    var p :| Zone(g, v, p) && Uses(g, p[0], v) && p[|p| - 1] == n;
    ZoneSnoc(g, v, p, m);
    var q := p + [m];
    assert Zone(g, v, q) && Uses(g, q[0], v) && q[|q| - 1] == m;
  }

  lemma CanToBackwards(g: Graph, n: Id, m: Id, v: Var)
    requires n in g.code && m in g.code[n].next && CanTo(g, m, v) && g.code[n].instr != Free(v)
    ensures CanTo(g, n, v)
  {
    var p :| Zone(g, v, p) && p[0] == m && Uses(g, p[|p| - 1], v);
    ZoneCons(g, v, n, p);
    var q := [n] + p;
    assert Zone(g, v, q) && q[0] == n && Uses(g, q[|q| - 1], v);
  }

  lemma ZoneTail(g: Graph, v: Var, p: seq<Id>)
    requires Zone(g, v, p) && |p| > 1
    ensures Zone(g, v, p[1..]) && g.Edge(p[0], p[1])
  {
    var q := p[1..];
    forall k | 0 < k < |q| ensures g.Edge(q[k - 1], q[k]) {
      assert g.Edge(p[k], p[k + 1]);
    }
  }

  // A variable freed by the chain of frees at n is not live there.
  lemma {:induction false} FreedNotNeeded(g: Graph, n: Id, v: Var, fuel: nat)
    requires g.Valid() && v in FreedFrom(g, n, fuel)
    ensures !CanTo(g, n, v)
    decreases fuel
  {
    if CanTo(g, n, v) {
      var p :| Zone(g, v, p) && p[0] == n && Uses(g, p[|p| - 1], v);
      FreedNotOnPath(g, p, v, fuel);
    }
  }

  lemma {:induction false} FreedNotOnPath(g: Graph, p: seq<Id>, v: Var, fuel: nat)
    requires g.Valid() && Zone(g, v, p) && v in FreedFrom(g, p[0], fuel)
    ensures !Uses(g, p[|p| - 1], v)
    decreases fuel
  {
    if |p| > 1 {
      ZoneTail(g, v, p);
      assert g.BlockOk(p[0]);
      FreedNotOnPath(g, p[1..], v, fuel - 1);
    }
  }

  // ---------------------------------------------------------------- simulation

  // v holds its value in its register whenever it may still be used.
  ghost predicate InRegister(g: Graph, colors: map<Var, int>, pc: Id, env: map<Var, int>, regs: map<Var, int>, v: Var)
    requires v in env
  {
    CanTo(g, pc, v) ==> v in colors && colors[v] in regs && regs[colors[v]] == env[v]
  }

  ghost predicate Simulates(g: Graph, colors: map<Var, int>, s: State, r: State)
  {
    s.pc == r.pc && s.machine.mem == r.machine.mem && s.machine.trace == r.machine.trace &&
    forall v :: v in s.machine.env ==>
      Arrives(g, s.pc, v) && InRegister(g, colors, s.pc, s.machine.env, r.machine.env, v)
  }

  lemma ReadInRegister(g: Graph, colors: map<Var, int>, s: State, r: State, v: Var)
    requires Simulates(g, colors, s, r) && s.pc in g.code && v in s.machine.env
    requires v in ReadVars(g.code[s.pc].instr)
    ensures v in colors && colors[v] in r.machine.env && r.machine.env[colors[v]] == s.machine.env[v]
  {
    assert v in UsedVars(g.code[s.pc].instr);
    OneNodeZone(g, s.pc, v);
    assert InRegister(g, colors, s.pc, s.machine.env, r.machine.env, v);
  }

  lemma SameReads(g: Graph, colors: map<Var, int>, s: State, r: State)
    requires Simulates(g, colors, s, r) && s.pc in g.code && !g.code[s.pc].instr.Free?
    requires CanRead(s.machine.env, ReadVars(g.code[s.pc].instr))
    ensures var vs, ws := ReadVars(g.code[s.pc].instr), ReadVars(Rename(g.code[s.pc].instr, colors));
            CanRead(r.machine.env, ws) && ValuesOf(r.machine.env, ws) == ValuesOf(s.machine.env, vs)
  {
    var i := g.code[s.pc].instr;
    var vs, ws := ReadVars(i), ReadVars(Rename(i, colors));
    forall k | 0 <= k < |vs| ensures ws[k] in r.machine.env && r.machine.env[ws[k]] == s.machine.env[vs[k]] {
      ReadInRegister(g, colors, s, r, vs[k]);
      assert ws[k] == Renamed(vs[k], colors);
    }
  }

  // The two machines do the same, except for where a result goes.
  ghost predicate SameButRegisters(i: Instr, colors: map<Var, int>, m: Machine, r: Machine, a: Outcome, b: Outcome)
  {
    a.Next? && b.Next? && b.taken == a.taken && b.machine.mem == a.machine.mem && b.machine.trace == a.machine.trace &&
    match Dest(i)
    case None =>
      a.machine.env == (if i.Free? then m.env - {i.v} else m.env) && b.machine.env == r.env
    case Some(d) =>
      d in a.machine.env && a.machine.env == m.env[d := a.machine.env[d]] &&
      b.machine.env == r.env[Renamed(d, colors) := a.machine.env[d]]
  }

  lemma SameEffect(g: Graph, colors: map<Var, int>, s: State, r: State, world: World)
    requires Simulates(g, colors, s, r) && s.pc in g.code
    requires Execute(g.code[s.pc].instr, s.machine, world).Next?
    ensures var i := g.code[s.pc].instr;
            SameButRegisters(i, colors, s.machine, r.machine,
              Execute(i, s.machine, world), RegisterExecute(i, colors, r.machine, world))
  {
    var i := g.code[s.pc].instr;
    if !i.Free? {
      SameReads(g, colors, s, r);
      SameInstr(i, colors, s.machine, r.machine, world);
    }
  }

  lemma SameInstr(i: Instr, colors: map<Var, int>, m: Machine, r: Machine, world: World)
    requires !i.Free? && m.mem == r.mem && m.trace == r.trace && Execute(i, m, world).Next?
    requires CanRead(m.env, ReadVars(i)) && CanRead(r.env, ReadVars(Rename(i, colors)))
    requires ValuesOf(m.env, ReadVars(i)) == ValuesOf(r.env, ReadVars(Rename(i, colors)))
    ensures SameButRegisters(i, colors, m, r, Execute(i, m, world), RegisterExecute(i, colors, r, world))
  {
    var j := Rename(i, colors);
    if |ReadVars(i)| > 0 {
      assert m.env[ReadVars(i)[0]] == ValuesOf(m.env, ReadVars(i))[0] == ValuesOf(r.env, ReadVars(j))[0] == r.env[ReadVars(j)[0]];
    }
  }

  lemma FreedAfterNotNeeded(g: Graph, n: Id, m: Id, v: Var)
    requires g.Valid() && n in g.code && m in g.code[n].next && v in FreedAfter(g, n)
    ensures !CanTo(g, m, v)
  {
    assert g.BlockOk(n);
    FreedNotNeeded(g, m, v, |g.code|);
  }

  // A variable still needed after n conflicts with what n writes.
  lemma StillNeededConflicts(g: Graph, n: Id, m: Id, d: Var, v: Var)
    requires g.Valid() && n in g.code && m in g.code[n].next && CanTo(g, m, v)
    requires Dest(g.code[n].instr) == Some(d) && v != d && LiveAt(g, n, d) && LiveAt(g, n, v)
    ensures ConflictAt(g, n, d, v)
  {
    assert v !in FreedAfter(g, n) by {
      if v in FreedAfter(g, n) { FreedAfterNotNeeded(g, n, m, v); }
    }
  }

  // The register a result goes to holds no other value that is still needed.
  lemma NoClobber(g: Graph, colors: map<Var, int>, n: Id, m: Id, d: Var, v: Var)
    requires g.Valid() && ProperColoring(g, colors) && n in g.code && m in g.code[n].next
    requires Dest(g.code[n].instr) == Some(d) && v != d && CanFrom(g, n, v) && CanTo(g, n, v) && CanTo(g, m, v)
    ensures d in colors && v in colors && colors[d] != colors[v]
  {
    assert d in UsedVars(g.code[n].instr);
    OneNodeZone(g, n, d);
    assert LiveAt(g, n, v);
    StillNeededConflicts(g, n, m, d, v);
  }

  // The result of the operation itself.
  lemma ResultInRegister(g: Graph, colors: map<Var, int>, n: Id, m: Id, s: Machine, r: Machine, a: Machine, b: Machine, v: Var)
    requires g.Valid() && ProperColoring(g, colors) && n in g.code && m in g.code[n].next && Dest(g.code[n].instr) == Some(v)
    requires SameButRegisters(g.code[n].instr, colors, s, r, Next(a, false), Next(b, false))
    ensures Arrives(g, m, v) && InRegister(g, colors, m, a.env, b.env, v)
  {
    assert v in UsedVars(g.code[n].instr);
    OneNodeZone(g, n, v);
  }

  // Any other variable.
  lemma OtherInRegister(g: Graph, colors: map<Var, int>, n: Id, m: Id, s: Machine, r: Machine, a: Machine, b: Machine, v: Var)
    requires g.Valid() && ProperColoring(g, colors) && n in g.code && m in g.code[n].next && Dest(g.code[n].instr) != Some(v)
    requires v in s.env && Arrives(g, n, v) && InRegister(g, colors, n, s.env, r.env, v)
    requires SameButRegisters(g.code[n].instr, colors, s, r, Next(a, false), Next(b, false)) && v in a.env
    ensures Arrives(g, m, v) && InRegister(g, colors, m, a.env, b.env, v)
  {
    ArrivesMeansCanFrom(g, n, v);
    if CanTo(g, m, v) {
      CanToBackwards(g, n, m, v);
      KeptInRegister(g, colors, n, m, s, r, v);
    }
  }

  lemma StepPreservesVariable(g: Graph, colors: map<Var, int>, n: Id, m: Id, s: Machine, r: Machine, a: Machine, b: Machine, v: Var)
    requires g.Valid() && ProperColoring(g, colors) && n in g.code && m in g.code[n].next
    requires v in s.env ==> Arrives(g, n, v) && InRegister(g, colors, n, s.env, r.env, v)
    requires SameButRegisters(g.code[n].instr, colors, s, r, Next(a, false), Next(b, false))
    requires v in a.env
    ensures Arrives(g, m, v) && InRegister(g, colors, m, a.env, b.env, v)
  {
    if Dest(g.code[n].instr) == Some(v) {
      ResultInRegister(g, colors, n, m, s, r, a, b, v);
    } else {
      OtherInRegister(g, colors, n, m, s, r, a, b, v);
    }
  }

  lemma KeptInRegister(g: Graph, colors: map<Var, int>, n: Id, m: Id, s: Machine, r: Machine, v: Var)
    requires g.Valid() && ProperColoring(g, colors) && n in g.code && m in g.code[n].next && v in s.env
    requires InRegister(g, colors, n, s.env, r.env, v) && CanFrom(g, n, v) && CanTo(g, n, v) && CanTo(g, m, v)
    requires Dest(g.code[n].instr) != Some(v)
    ensures v in colors && colors[v] in r.env && r.env[colors[v]] == s.env[v]
    ensures Dest(g.code[n].instr).Some? ==> Renamed(Dest(g.code[n].instr).value, colors) != colors[v]
  {
    if Dest(g.code[n].instr).Some? {
      NoClobber(g, colors, n, m, Dest(g.code[n].instr).value, v);
    }
  }

  lemma StepSimulates(g: Graph, colors: map<Var, int>, s: State, r: State, world: World)
    requires g.Valid() && ProperColoring(g, colors) && Simulates(g, colors, s, r)
    requires VariableStep(g, s, world).Some?
    ensures RegisterStep(g, colors, r, world).Some?
    ensures Simulates(g, colors, VariableStep(g, s, world).value, RegisterStep(g, colors, r, world).value)
  {
    SameEffect(g, colors, s, r, world);
    var s', r' := VariableStep(g, s, world).value, RegisterStep(g, colors, r, world).value;
    assert g.BlockOk(s.pc);
    forall v | v in s'.machine.env
      ensures Arrives(g, s'.pc, v) && InRegister(g, colors, s'.pc, s'.machine.env, r'.machine.env, v)
    {
      StepPreservesVariable(g, colors, s.pc, s'.pc, s.machine, r.machine, s'.machine, r'.machine, v);
    }
  }

  function StartOf(g: Graph, mem: map<int, int>): State
  {
    State(g.entry, Machine(map[], mem, []))
  }

  // Running n steps over registers does what running them over variables does:
  // the same events (the same value at every read), the same path, the same memory.
  ghost predicate SameRun(g: Graph, colors: map<Var, int>, mem: map<int, int>, world: World, n: nat)
    requires g.Valid()
  {
    var s, r := VariableRun(g, StartOf(g, mem), world, n), RegisterRun(g, colors, StartOf(g, mem), world, n);
    s.Some? ==>
      r.Some? && r.value.pc == s.value.pc && r.value.machine.trace == s.value.machine.trace &&
      r.value.machine.mem == s.value.machine.mem
  }

  // The theorem: that holds for every run, as far as it reads no variable that
  // holds nothing.
  lemma AllocationPreservesRuns(g: Graph, colors: map<Var, int>, mem: map<int, int>, world: World, n: nat)
    requires g.Valid() && ProperColoring(g, colors)
    ensures SameRun(g, colors, mem, world, n)
  {
    if VariableRun(g, StartOf(g, mem), world, n).Some? {
      RunSimulates(g, colors, StartOf(g, mem), StartOf(g, mem), world, n);
    }
  }

  // The run over variables has stopped, or the one over registers stands where it does.
  ghost predicate Simulated(g: Graph, colors: map<Var, int>, a: Option<State>, b: Option<State>)
  {
    a.Some? ==> b.Some? && Simulates(g, colors, a.value, b.value)
  }

  lemma StepSimulated(g: Graph, colors: map<Var, int>, a: Option<State>, b: Option<State>, world: World,
                      a': Option<State>, b': Option<State>)
    requires g.Valid() && ProperColoring(g, colors) && Simulated(g, colors, a, b)
    requires a' == match a case None => None case Some(s) => VariableStep(g, s, world)
    requires b' == match b case None => None case Some(r) => RegisterStep(g, colors, r, world)
    ensures Simulated(g, colors, a', b')
  {
    if a'.Some? { StepSimulates(g, colors, a.value, b.value, world); }
  }

  lemma {:induction false} RunSimulates(g: Graph, colors: map<Var, int>, s: State, r: State, world: World, n: nat)
    requires g.Valid() && ProperColoring(g, colors) && Simulates(g, colors, s, r)
    ensures Simulated(g, colors, VariableRun(g, s, world, n), RegisterRun(g, colors, r, world, n))
  {
    if n > 0 {
      RunSimulates(g, colors, s, r, world, n - 1);
      StepSimulated(g, colors, VariableRun(g, s, world, n - 1), RegisterRun(g, colors, r, world, n - 1), world,
                    VariableRun(g, s, world, n), RegisterRun(g, colors, r, world, n));
    }
  }
}
