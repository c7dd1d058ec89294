// From a parsed worker body to code over registers: lowering, building the graph,
// splicing the jumps out, spreading the registers. What the source program does, the
// registers do.
module Compiler {
  import opened Wrappers
  import opened Ir
  import opened LinearCode
  import opened Source
  import opened Lowering
  import opened LoweringRuns
  import opened LoweredCode
  import opened Builder
  import opened TreeMeaning
  import opened RegisterMachine
  import opened RegisterColoring
  import opened GraphSurgery
  import opened ControlFlow
  import opened WorkerContent
  import opened Allocator
  import opened Pressure
  import opened Growth
  import opened SpreadRegisters

  function CodeOf(program: Stmt): seq<Operation>
  {
    StmtCode(program, FIRST_TEMP).ops
  }

  function BlockOps(block: seq<Statement>): seq<Operation> { CodeOf(MeantBlock(block)) }

  ghost function Start(mem: map<int, int>): Machine
  {
    Machine(map[], mem, [])
  }

  lemma CodeFits(program: Stmt)
    requires Declared(program)
    ensures Fits(CodeOf(program), StmtCode(program, FIRST_TEMP).next)
    ensures JumpsInside(CodeOf(program)) && OffsetsForward(CodeOf(program))
  {
    StmtFits(program, FIRST_TEMP);
    var code, bound := CodeOf(program), StmtCode(program, FIRST_TEMP).next;
    forall i | 0 <= i < |code| ensures JumpInside(code, i) && (code[i].instr.Jump? ==> code[i].offset > 0) {
      assert OpFits(code, bound, i);
    }
  }

  // A program that is done leaves its graph at its end, with its values.
  lemma DoneHalts(program: Stmt, mem: map<int, int>, world: World, fuel: nat) returns (m: Machine)
    requires Declared(program) && Sensible(world) && Exec(program, map[], world, fuel).Done?
    ensures GraphOf(CodeOf(program)).Valid()
    ensures Comes(GraphOf(CodeOf(program)), Start(mem), world, m, true) && Holds(m, Exec(program, map[], world, fuel).store)
  {
    var code, s := CodeOf(program), State(0, Start(mem));
    CodeFits(program);
    GraphOfLinked(code);
    assert [] + code + [] == code;
    var u := LoweringIsCorrect([], program, [], Start(mem), map[], world, FIRST_TEMP, fuel);
    m := u.machine;
    var n: nat :| n >= 0 && LinearRun(code, s, world, n) == Some(u);
    SameLinearRun(code, s, world, n);
    assert ComesIn(VariableRun(GraphOf(code), State(GraphOf(code).entry, Start(mem)), world, n), m, true);
  }

  // A program that is not done, however long it runs, never leaves its graph.
  lemma RunningNeverHalts(program: Stmt, mem: map<int, int>, world: World, m: Machine)
    requires Declared(program) && Sensible(world) && forall fuel: nat :: Exec(program, map[], world, fuel).OutOfFuel?
    ensures GraphOf(CodeOf(program)).Valid() && !Comes(GraphOf(CodeOf(program)), Start(mem), world, m, true)
  {
    var code, s := CodeOf(program), State(0, Start(mem));
    CodeFits(program);
    GraphOfLinked(code);
    if n: nat :| ComesIn(VariableRun(GraphOf(code), State(LinkTo(code, 0), Start(mem)), world, n), m, true) {
      assert [] + code + [] == code;
      var u := LoweringIsCorrect([], program, [], Start(mem), map[], world, FIRST_TEMP, n + 1);
      StillRunning(code, s, u, world, n, m);
    }
  }

  // A run of more than n steps has not come to the end in n.
  lemma StillRunning(code: seq<Operation>, s: State, u: State, world: World, n: nat, m: Machine)
    requires JumpsInside(code) && s.pc >= 0 && Reaches(code, s, u, world, n + 1)
    ensures GraphOf(code).Valid()
    ensures !ComesIn(VariableRun(GraphOf(code), State(LinkTo(code, s.pc), s.machine), world, n), m, true)
  {
    GraphOfLinked(code);
    var g, t := GraphOf(code), State(LinkTo(code, s.pc), s.machine);
    var k: nat :| k >= n + 1 && LinearRun(code, s, world, k) == Some(u);
    SameLinearRun(code, s, world, k);
    RunPrefix(g, t, world, n + 1, k);
    RunPrefix(g, t, world, n, k);
    assert VariableRun(g, t, world, n + 1) == VariableStep(g, VariableRun(g, t, world, n).value, world);
  }

  // It makes as many events as one may ask for.
  lemma RunningMakesEvents(program: Stmt, mem: map<int, int>, world: World, count: nat) returns (m: Machine)
    requires Declared(program) && Sensible(world) && Exec(program, map[], world, count).OutOfFuel?
    ensures GraphOf(CodeOf(program)).Valid()
    ensures Comes(GraphOf(CodeOf(program)), Start(mem), world, m, false) && |m.trace| >= count
  {
    var code, s := CodeOf(program), State(0, Start(mem));
    CodeFits(program);
    GraphOfLinked(code);
    assert [] + code + [] == code;
    var u := LoweringIsCorrect([], program, [], Start(mem), map[], world, FIRST_TEMP, count);
    m := u.machine;
    var n: nat :| n >= count && LinearRun(code, s, world, n) == Some(u);
    SameLinearRun(code, s, world, n);
    assert ComesIn(VariableRun(GraphOf(code), State(GraphOf(code).entry, Start(mem)), world, n), m, false);
  }

  lemma SplicedIsTidy(g: Graph, code: seq<Operation>, bound: Var)
    requires Fits(code, bound) && forall n :: n in g.code ==> n in GraphOf(code).code && g.code[n].instr == GraphOf(code).code[n].instr
    ensures Tidy(g, bound) && IdsBelow(g, |code|)
  {
    forall n | n in g.code ensures OpTidy(g, bound, n) {
      assert OpFits(code, bound, n);
    }
  }

  // No operation of the lowered code uses more than a result and two operands.
  lemma SplicedIsNarrow(g: Graph, code: seq<Operation>, bound: Var)
    requires Fits(code, bound) && forall n :: n in g.code ==> n in GraphOf(code).code && g.code[n].instr == GraphOf(code).code[n].instr
    ensures Narrow(g, 3)
  {
    forall n | n in g.code ensures NarrowAt(g, 3, n) {
      assert OpFits(code, bound, n);
      FewOperands(g.code[n].instr);
    }
  }

  // And there are no more of them than the lowered code has.
  lemma SplicedIsShort(g: Graph, code: seq<Operation>)
    requires forall n :: n in g.code ==> n in GraphOf(code).code
    ensures |g.code.Keys| <= |code|
  {
    ManyBelow(g.code.Keys, |code|);
  }

  lemma {:induction false} ManyBelow(ns: set<Id>, bound: nat)
    requires forall n :: n in ns ==> 0 <= n < bound
    ensures |ns| <= bound
  {
    if bound > 0 {
      ManyBelow(ns - {bound - 1}, bound - 1);
      SubsetCount(ns, (ns - {bound - 1}) + {bound - 1});
    } else {
      assert (forall n :: n !in ns) ==> ns == {};
    }
  }

  lemma LoweredTargeted(code: seq<Operation>)
    requires JumpsInside(code) && AllLand(code)
    ensures Targeted(GraphOf(code))
  {
    var g := GraphOf(code);
    forall n | n in g.code ensures TargetAt(g.code[n]) {
      assert JumpInside(code, n) && Lands(code, n);
    }
  }

  // The registers come to the end having made exactly these events.
  ghost predicate RegistersHalt(g: Graph, res: map<Var, int>, mem: map<int, int>, world: World, trace: seq<Event>)
    requires g.Valid()
  {
    exists n: nat :: HaltedWith(RegisterRun(g, res, StartOf(g, mem), world, n), trace)
  }

  ghost predicate HaltedWith(r: Option<State>, trace: seq<Event>)
  {
    r.Some? && r.value.pc == NULL && r.value.machine.trace == trace
  }

  // A register run does not go past its end, and forgets no event.
  lemma RegistersStop(g: Graph, res: map<Var, int>, s: State, world: World, k: nat, n: nat)
    requires g.Valid() && RegisterRun(g, res, s, world, n).Some? && RegisterRun(g, res, s, world, n).value.pc == NULL
    requires RegisterRun(g, res, s, world, k).Some?
    ensures k <= n && |RegisterRun(g, res, s, world, k).value.machine.trace| <= |RegisterRun(g, res, s, world, n).value.machine.trace|
  {
    NothingBehindTheEnd(g, res, s, world, k, n);
    RegisterPrefix(g, res, s, world, k, n);
  }

  lemma {:induction false} NothingBehindTheEnd(g: Graph, res: map<Var, int>, s: State, world: World, k: nat, n: nat)
    requires g.Valid() && RegisterRun(g, res, s, world, n).Some? && RegisterRun(g, res, s, world, n).value.pc == NULL
    ensures k > n ==> RegisterRun(g, res, s, world, k).None?
  {
    if k > n { NothingBehindTheEnd(g, res, s, world, k - 1, n); }
  }

  lemma {:induction false} RegisterPrefix(g: Graph, res: map<Var, int>, s: State, world: World, k: nat, n: nat)
    requires g.Valid() && k <= n && RegisterRun(g, res, s, world, n).Some?
    ensures RegisterRun(g, res, s, world, k).Some?
    ensures |RegisterRun(g, res, s, world, k).value.machine.trace| <= |RegisterRun(g, res, s, world, n).value.machine.trace|
  {
    if k < n {
      RegisterPrefix(g, res, s, world, k, n - 1);
    }
  }

  // Wherever the program is done, so are the registers: they make the events of a run of
  // its operations that ends with the program's values.
  ghost predicate Implemented(block: seq<Statement>, g: Graph, res: map<Var, int>, mem: map<int, int>, world: World, fuel: nat)
    requires g.Valid() && GraphOf(BlockOps(block)).Valid()
  {
    Sensible(world) && ExecBlock(block, map[], world, fuel).Done? ==>
      exists m :: Comes(GraphOf(BlockOps(block)), Start(mem), world, m, true) &&
                  Holds(m, ExecBlock(block, map[], world, fuel).store) && RegistersHalt(g, res, mem, world, m.trace)
  }

  ghost predicate HasMade(r: Option<State>, trace: seq<Event>)
  {
    r.Some? && r.value.machine.trace == trace
  }

  // What a run of the program's operations makes, a run over registers makes, and halts where it does.
  lemma MatchedByRegisters(program: Stmt, spliced: Graph, g: Graph, res: map<Var, int>, mem: map<int, int>, world: World,
                           m: Machine, halted: bool) returns (k: nat)
    requires spliced.Valid() && g.Valid() && GraphOf(CodeOf(program)).Valid() && SameRuns(GraphOf(CodeOf(program)), spliced)
    requires forall mem, world, n: nat :: RegistersMatch(spliced, g, res, mem, world, n)
    requires Comes(GraphOf(CodeOf(program)), Start(mem), world, m, halted)
    ensures HasMade(RegisterRun(g, res, StartOf(g, mem), world, k), m.trace)
    ensures halted ==> HaltedWith(RegisterRun(g, res, StartOf(g, mem), world, k), m.trace)
  {
    assert Comes(spliced, Start(mem), world, m, halted);
    var n: nat :| ComesIn(VariableRun(spliced, State(spliced.entry, Start(mem)), world, n), m, halted);
    assert StartOf(spliced, mem) == State(spliced.entry, Start(mem));
    assert RegistersMatch(spliced, g, res, mem, world, n);
    k :| var r := RegisterRun(g, res, StartOf(g, mem), world, k);
         r.Some? && SameEvents(VariableRun(spliced, StartOf(spliced, mem), world, n).value, r.value);
  }

  lemma CompiledIsRight(block: seq<Statement>, spliced: Graph, g: Graph, res: map<Var, int>, mem: map<int, int>, world: World, fuel: nat)
    requires BlockNamesOnly(block) && spliced.Valid() && g.Valid() && GraphOf(BlockOps(block)).Valid()
    requires SameRuns(GraphOf(BlockOps(block)), spliced)
    requires forall mem, world, n: nat :: RegistersMatch(spliced, g, res, mem, world, n)
    ensures Implemented(block, g, res, mem, world, fuel)
  {
    var program := MeantBlock(block);
    BlockDeclared(block);
    BlockMeans(block, map[], world, fuel);
    if Sensible(world) && Exec(program, map[], world, fuel).Done? {
      var m := DoneHalts(program, mem, world, fuel);
      var k := MatchedByRegisters(program, spliced, g, res, mem, world, m, true);
      assert HaltedWith(RegisterRun(g, res, StartOf(g, mem), world, k), m.trace);
    }
  }

  // The registers come this far, having made exactly these events.
  ghost predicate RegistersCome(g: Graph, res: map<Var, int>, mem: map<int, int>, world: World, trace: seq<Event>)
    requires g.Valid()
  {
    exists n: nat :: HasMade(RegisterRun(g, res, StartOf(g, mem), world, n), trace)
  }

  // At least so many events of a run of the program's operations.
  ghost predicate MakesEvents(block: seq<Statement>, g: Graph, res: map<Var, int>, mem: map<int, int>, world: World, count: nat)
    requires g.Valid() && GraphOf(BlockOps(block)).Valid()
  {
    exists m :: Comes(GraphOf(BlockOps(block)), Start(mem), world, m, false) && |m.trace| >= count &&
                RegistersCome(g, res, mem, world, m.trace)
  }

  ghost predicate Endless(block: seq<Statement>, world: World)
  {
    Sensible(world) && forall fuel: nat :: ExecBlock(block, map[], world, fuel).OutOfFuel?
  }

  // And if the program is never done, they never come to the end, but make the events of
  // its operations, as many as one asks for.
  ghost predicate NeverDone(block: seq<Statement>, g: Graph, res: map<Var, int>, mem: map<int, int>, world: World)
    requires g.Valid() && GraphOf(BlockOps(block)).Valid()
  {
    Endless(block, world) ==>
      (forall trace :: !RegistersHalt(g, res, mem, world, trace)) &&
      forall count: nat :: MakesEvents(block, g, res, mem, world, count)
  }

  lemma CompiledNeverHalts(block: seq<Statement>, spliced: Graph, g: Graph, res: map<Var, int>, mem: map<int, int>, world: World)
    requires BlockNamesOnly(block) && spliced.Valid() && g.Valid() && GraphOf(BlockOps(block)).Valid()
    requires SameRuns(GraphOf(BlockOps(block)), spliced)
    requires forall mem, world, n: nat :: RegistersMatch(spliced, g, res, mem, world, n)
    ensures NeverDone(block, g, res, mem, world)
  {
    var program := MeantBlock(block);
    BlockDeclared(block);
    if Endless(block, world) {
      forall trace ensures !RegistersHalt(g, res, mem, world, trace) {
        BlockMeans(block, map[], world, |trace| + 1);
        var m := RunningMakesEvents(program, mem, world, |trace| + 1);
        LongerRun(program, spliced, g, res, mem, world, m, trace);
      }
      forall count: nat ensures MakesEvents(block, g, res, mem, world, count) {
        BlockMeans(block, map[], world, count);
        var m := RunningMakesEvents(program, mem, world, count);
        var k := MatchedByRegisters(program, spliced, g, res, mem, world, m, false);
        assert HasMade(RegisterRun(g, res, StartOf(g, mem), world, k), m.trace);
      }
    }
  }

  lemma LongerRun(program: Stmt, spliced: Graph, g: Graph, res: map<Var, int>, mem: map<int, int>, world: World, m: Machine, trace: seq<Event>)
    requires spliced.Valid() && g.Valid() && GraphOf(CodeOf(program)).Valid() && SameRuns(GraphOf(CodeOf(program)), spliced)
    requires forall mem, world, n: nat :: RegistersMatch(spliced, g, res, mem, world, n)
    requires Comes(GraphOf(CodeOf(program)), Start(mem), world, m, false) && |m.trace| > |trace|
    ensures !RegistersHalt(g, res, mem, world, trace)
  {
    var k := MatchedByRegisters(program, spliced, g, res, mem, world, m, false);
    forall n: nat ensures !HaltedWith(RegisterRun(g, res, StartOf(g, mem), world, n), trace) {
      var r := RegisterRun(g, res, StartOf(g, mem), world, n);
      if r.Some? && r.value.pc == NULL { RegistersStop(g, res, StartOf(g, mem), world, k, n); }
    }
  }

  // What the code is spread from: the program's graph without its jumps.
  ghost predicate Spliced(program: Stmt, spliced: Graph)
  {
    GraphOf(CodeOf(program)).Valid() && spliced.Valid() && SameRuns(GraphOf(CodeOf(program)), spliced) &&
    Narrow(spliced, 3) && Targeted(spliced) && |spliced.code.Keys| <= |CodeOf(program)|
  }

  lemma MoreIsNarrow(g: Graph, limit: nat, more: nat)
    requires Narrow(g, limit) && limit <= more
    ensures Narrow(g, more)
  {
    forall n | n in g.code ensures NarrowAt(g, more, n) {
      assert NarrowAt(g, limit, n);
    }
  }

  // Succeeds whenever there are three registers; with two it can give up, but only when
  // the temporaries of splitting are all that is live and crowd one of them.
  method Compile(block: seq<Statement>, registers: nat)
    returns (ok: bool, spreader: RegisterSpreader, res: map<Var, int>, bad: Var, ghost spliced: Graph)
    requires block != [] && BlockNamesOnly(block) && registers >= 2
    ensures spreader.View().Valid() && Spliced(MeantBlock(block), spliced) && Implements(spliced, spreader.View())
    ensures ok ==> AllColored(spreader.View(), res) && forall v :: v in res ==> 0 <= res[v] < registers
    ensures ok ==> forall mem, world, fuel: nat :: Implemented(block, spreader.View(), res, mem, world, fuel)
    ensures ok ==> forall mem, world :: NeverDone(block, spreader.View(), res, mem, world)
    ensures registers >= 3 ==> ok
    ensures Targeted(spreader.View()) && |spreader.View().code.Keys| <= 13 * |CodeOf(MeantBlock(block))|
    ensures !ok ==> OnlyTemps(spreader.View(), spreader.generatedTemps) && Crowded(spreader.View(), res, bad, registers)
    ensures forall v :: v in spreader.generatedTemps ==> v >= StmtCode(MeantBlock(block), FIRST_TEMP).next
  {
    spreader := Prepare(block);
    spliced := spreader.View();
    if registers >= 3 { MoreIsNarrow(spliced, 3, registers); }
    RoomToBegin(spliced);
    ok, res, bad := spreader.Spread(registers);
    if ok {
      forall mem, world, fuel: nat ensures Implemented(block, spreader.View(), res, mem, world, fuel) {
        CompiledIsRight(block, spliced, spreader.View(), res, mem, world, fuel);
      }
      forall mem, world ensures NeverDone(block, spreader.View(), res, mem, world) {
        CompiledNeverHalts(block, spliced, spreader.View(), res, mem, world);
      }
    }
  }

  // Lowering, building the graph, splicing the jumps out.
  method Prepare(block: seq<Statement>) returns (spreader: RegisterSpreader)
    requires block != [] && BlockNamesOnly(block)
    ensures fresh(spreader) && spreader.Valid() && Spliced(MeantBlock(block), spreader.View())
    ensures spreader.nextTempId == StmtCode(MeantBlock(block), FIRST_TEMP).next
  {
    BlockDeclared(block);
    var context := new BuildContext(FIRST_TEMP);
    var ops := context.BuildCodeBlock(block);
    CodeFits(MeantBlock(block));
    GraphOfLinked(ops);
    GraphOfForward(ops);
    BlockHasCode(block);
    StmtLands(MeantBlock(block), FIRST_TEMP);
    LoweredTargeted(ops);
    var content := new Content(ops);
    content.RemoveJumps();
    SplicedIsTidy(content.View(), ops, context.nextTempId);
    SplicedIsNarrow(content.View(), ops, context.nextTempId);
    SplicedIsShort(content.View(), ops);
    spreader := new RegisterSpreader(content.entry, content.code, content.order, context.nextTempId, |ops|);
  }

  lemma BlockHasCode(block: seq<Statement>)
    requires block != []
    ensures CodeOf(MeantBlock(block)) != []
  {
    var first := StmtCode(Meant(block[0]), FIRST_TEMP);
    assert |first.ops| > 0;
  }
}
