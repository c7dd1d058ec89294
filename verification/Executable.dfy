// From a parsed worker body to bytes: compiled over registers, laid out, its jumps
// inserted. What the source program does, the processor does.
module Executable {
  import opened Wrappers
  import opened Ir
  import opened Source
  import opened Lowering
  import opened Builder
  import opened TreeMeaning
  import opened RegisterMachine
  import opened GraphSurgery
  import opened ControlFlow
  import opened Compiler
  import opened Processor
  import opened Layout
  import opened CodeLayout
  import opened CodeGenerator

  // The bytes of an operation whose variables are registers, its jump not included; which
  // operation it is says what else they depend on, as the width of its variables.
  type Encoder = (Id, Instr) -> seq<byte>

  ghost predicate TestsEmit(encode: Encoder)
  {
    forall n: Id, i: Instr :: i.Branch? ==> encode(n, i) != []
  }

  ghost predicate NoLonger(encode: Encoder, longest: nat)
  {
    forall n: Id, i: Instr :: |encode(n, i)| <= longest
  }

  // Frees emit nothing.
  function BodyOf(n: Id, i: Instr, res: map<Var, int>, encode: Encoder): seq<byte>
  {
    if i.Free? then [] else encode(n, Rename(i, res))
  }

  function BodiesOf(code: map<Id, Block>, res: map<Var, int>, encode: Encoder): Bodies
  {
    map n | n in code :: BodyOf(n, code[n].instr, res, encode)
  }

  // What stands for an operation are the bytes of one on the registers its variables are
  // in, which does what the registers' run does there; for a free, nothing.
  ghost predicate OnRegisters(g: Graph, res: map<Var, int>, registers: nat, encode: Encoder, n: Id, body: seq<byte>)
    requires g.Valid() && n in g.code
  {
    if g.code[n].instr.Free? then body == [] && forall m, world :: StaysPut(g, res, n, m, world)
    else exists i: Instr :: body == encode(n, i) && (forall v :: v in UsedVars(i) ==> 0 <= v < registers) &&
                            forall m, world :: DoesStep(g, res, n, i, m, world)
  }

  ghost predicate StaysPut(g: Graph, res: map<Var, int>, n: Id, m: Machine, world: World)
    requires g.Valid() && n in g.code
  {
    g.BlockOk(n) && RegisterStep(g, res, State(n, m), world) == Some(State(g.code[n].next[0], m))
  }

  ghost predicate DoesStep(g: Graph, res: map<Var, int>, n: Id, i: Instr, m: Machine, world: World)
    requires g.Valid() && n in g.code
  {
    g.BlockOk(n) &&
    RegisterStep(g, res, State(n, m), world) ==
      match Execute(i, m, world)
      case Stuck => None
      case Next(after, taken) => Some(State(if taken then g.code[n].next[|g.code[n].next| - 1] else g.code[n].next[0], after))
  }

  lemma BodyIsOnRegisters(g: Graph, res: map<Var, int>, registers: nat, encode: Encoder, n: Id)
    requires g.Valid() && n in g.code && AllColored(g, res) && forall v :: v in res ==> 0 <= res[v] < registers
    ensures OnRegisters(g, res, registers, encode, n, BodiesOf(g.code, res, encode)[n])
  {
    var i := g.code[n].instr;
    assert g.BlockOk(n);
    if i.Free? {
      forall m, world ensures StaysPut(g, res, n, m, world) {
      }
    } else {
      var j := Rename(i, res);
      forall v | v in UsedVars(j) ensures 0 <= v < registers {
        RenamedIsRegister(i, res, v);
      }
      forall m, world ensures DoesStep(g, res, n, j, m, world) {
      }
      assert BodiesOf(g.code, res, encode)[n] == encode(n, j);
    }
  }

  lemma RenamedIsRegister(i: Instr, res: map<Var, int>, v: Var)
    requires v in UsedVars(Rename(i, res)) && forall w :: w in UsedVars(i) ==> w in res
    ensures v in res.Values
  {
    match i
    case Compute(_, d, args) =>
      if v in RenamedAll(args, res) {
        var k :| 0 <= k < |args| && RenamedAll(args, res)[k] == v;
        assert args[k] in UsedVars(i);
        assert v == res[args[k]];
      } else {
        assert d.value in UsedVars(i) && v == res[d.value];
      }
    case Free(w) => assert w in UsedVars(i) && v == res[w];
    case Branch(_, w) => assert w in UsedVars(i) && v == res[w];
    case Load(w, _) => assert w in UsedVars(i) && v == res[w];
    case Store(w, _) => assert w in UsedVars(i) && v == res[w];
    case Jump =>
  }

  lemma TargetedIsGeneratable(g: Graph, res: map<Var, int>, encode: Encoder)
    requires g.Valid() && Targeted(g) && TestsEmit(encode)
    ensures Generatable(g, BodiesOf(g.code, res, encode))
  {
    var bodies := BodiesOf(g.code, res, encode);
    forall n | n in g.code ensures BodyFits(g, bodies, n) {
      assert g.BlockOk(n) && TargetAt(g.code[n]);
    }
  }

  // ---------------------------------------------------------------- how many bytes

  lemma {:induction false} TotalIsSmall(g: Graph, res: map<Var, int>, encode: Encoder, longest: nat, ns: set<Id>)
    requires NoLonger(encode, longest)
    ensures Total(g, BodiesOf(g.code, res, encode), ns) <= (longest + 12) * |ns|
    decreases ns
  {
    if ns != {} {
      assert (forall n :: n !in ns) ==> ns == {};
      var n :| n in ns;
      var bodies := BodiesOf(g.code, res, encode);
      TotalIsSmall(g, res, encode, longest, ns - {n});
      TotalWith(g, bodies, ns, n);
      assert Cost(g, bodies, n) <= longest + 12;
      OneMore(longest + 12, |ns| - 1, |ns|);
    }
  }

  lemma OneMore(unit: nat, count: nat, next: nat)
    requires next == count + 1
    ensures unit * next == unit * count + unit
  {
  }

  lemma Times(unit: nat, count: nat, more: nat)
    requires count <= more
    ensures unit * count <= unit * more
  {
  }

  // What a worker of so many lowered operations takes at most.
  ghost function SizeLimit(block: seq<Statement>, longest: nat): nat { (longest + 12) * (13 * |BlockOps(block)|) + 6 }

  lemma BuiltIsSmall(block: seq<Statement>, g: Graph, res: map<Var, int>, encode: Encoder, longest: nat)
    requires NoLonger(encode, longest) && |g.code.Keys| <= 13 * |BlockOps(block)|
    ensures Total(g, BodiesOf(g.code, res, encode), g.code.Keys) + 6 <= SizeLimit(block, longest)
  {
    TotalIsSmall(g, res, encode, longest, g.code.Keys);
    Times(longest + 12, |g.code.Keys|, 13 * |BlockOps(block)|);
  }

  // ---------------------------------------------------------------- what the bytes do

  // A worker's bytes: its operations with their registers, and where they stand.
  datatype Built = Built(g: Graph, res: map<Var, int>, bodies: Bodies, code: seq<byte>, address: map<Id, int>, start: int)

  // Behind n operations, executed one after the other from the start, these events are made.
  ghost predicate Executing(b: Built, mem: map<int, int>, world: World, ps: seq<int>, n: nat, trace: seq<Event>)
    requires b.g.Valid()
  {
    Executed(b.g, b.res, b.bodies, b.code, b.address, b.start, Start(mem), world, ps, n) &&
    HasMade(RegisterRun(b.g, b.res, StartOf(b.g, mem), world, n), trace)
  }

  ghost predicate AtReturn(b: Built, p: int) { Returns(b.code, p) }

  // The processor comes to a return having made exactly these events.
  ghost predicate BytesReturn(b: Built, mem: map<int, int>, world: World, trace: seq<Event>)
    requires b.g.Valid()
  {
    exists ps, n: nat :: Executing(b, mem, world, ps, n, trace) && AtReturn(b, ps[n])
  }

  ghost predicate BytesCome(b: Built, mem: map<int, int>, world: World, trace: seq<Event>)
    requires b.g.Valid()
  {
    exists ps, n: nat :: Executing(b, mem, world, ps, n, trace)
  }

  lemma RegistersAreExecuted(b: Built, mem: map<int, int>, world: World, n: nat) returns (ps: seq<int>)
    requires LaidOut(b.g, b.bodies, b.code, b.address, b.start) && RegisterRun(b.g, b.res, StartOf(b.g, mem), world, n).Some?
    ensures var s := RegisterRun(b.g, b.res, StartOf(b.g, mem), world, n).value;
            Executing(b, mem, world, ps, n, s.machine.trace) && (s.pc == NULL ==> AtReturn(b, ps[n]))
  {
    assert StartOf(b.g, mem) == State(b.g.entry, Start(mem));
    ps := RunIsExecuted(b.g, b.res, b.bodies, b.code, b.address, b.start, Start(mem), world, n);
  }

  // Wherever the program is done, the processor returns, with the events of a run of the
  // program's operations that ends with the program's values.
  ghost predicate Done(block: seq<Statement>, b: Built, mem: map<int, int>, world: World, fuel: nat)
    requires b.g.Valid() && GraphOf(BlockOps(block)).Valid()
  {
    Sensible(world) && ExecBlock(block, map[], world, fuel).Done? ==>
      exists m :: Comes(GraphOf(BlockOps(block)), Start(mem), world, m, true) &&
                  Holds(m, ExecBlock(block, map[], world, fuel).store) && BytesReturn(b, mem, world, m.trace)
  }

  lemma BytesAreDone(block: seq<Statement>, b: Built, mem: map<int, int>, world: World, fuel: nat)
    requires LaidOut(b.g, b.bodies, b.code, b.address, b.start) && GraphOf(BlockOps(block)).Valid()
    requires Implemented(block, b.g, b.res, mem, world, fuel)
    ensures Done(block, b, mem, world, fuel)
  {
    if Sensible(world) && ExecBlock(block, map[], world, fuel).Done? {
      var m :| Comes(GraphOf(BlockOps(block)), Start(mem), world, m, true) &&
               Holds(m, ExecBlock(block, map[], world, fuel).store) && RegistersHalt(b.g, b.res, mem, world, m.trace);
      var n: nat :| HaltedWith(RegisterRun(b.g, b.res, StartOf(b.g, mem), world, n), m.trace);
      var ps := RegistersAreExecuted(b, mem, world, n);
      assert BytesReturn(b, mem, world, m.trace);
    }
  }

  // Wherever it is never done, the processor goes on for ever, with the events of its
  // operations, and no run of the registers has come to its end.
  ghost predicate GoesOnForEver(block: seq<Statement>, b: Built, mem: map<int, int>, world: World)
    requires b.g.Valid() && GraphOf(BlockOps(block)).Valid()
  {
    Endless(block, world) ==>
      (forall trace :: !RegistersHalt(b.g, b.res, mem, world, trace)) &&
      forall count: nat :: BytesMake(block, b, mem, world, count)
  }

  ghost predicate BytesMake(block: seq<Statement>, b: Built, mem: map<int, int>, world: World, count: nat)
    requires b.g.Valid() && GraphOf(BlockOps(block)).Valid()
  {
    exists m :: Comes(GraphOf(BlockOps(block)), Start(mem), world, m, false) && |m.trace| >= count && BytesCome(b, mem, world, m.trace)
  }

  lemma BytesGoOn(block: seq<Statement>, b: Built, mem: map<int, int>, world: World)
    requires LaidOut(b.g, b.bodies, b.code, b.address, b.start) && GraphOf(BlockOps(block)).Valid()
    requires NeverDone(block, b.g, b.res, mem, world)
    ensures GoesOnForEver(block, b, mem, world)
  {
    if Endless(block, world) {
      forall count: nat ensures BytesMake(block, b, mem, world, count) {
        assert MakesEvents(block, b.g, b.res, mem, world, count);
        var m :| Comes(GraphOf(BlockOps(block)), Start(mem), world, m, false) && |m.trace| >= count &&
                 RegistersCome(b.g, b.res, mem, world, m.trace);
        var n: nat :| HasMade(RegisterRun(b.g, b.res, StartOf(b.g, mem), world, n), m.trace);
        var ps := RegistersAreExecuted(b, mem, world, n);
        assert BytesCome(b, mem, world, m.trace);
      }
    }
  }

  // The whole way. `pre` is the code of the workers built before; where the registers
  // cannot be spread nothing is built.
  method BuildWorker(block: seq<Statement>, registers: nat, encode: Encoder, pre: seq<byte>)
    returns (ok: bool, code: array<byte>, newEnd: nat, ghost built: Built)
    requires block != [] && BlockNamesOnly(block) && registers >= 2 && TestsEmit(encode)
    ensures (registers >= 3 ==> ok) && (!ok ==> newEnd == |pre|)
    ensures |pre| <= newEnd <= code.Length && code[..|pre|] == pre
    ensures forall longest: nat :: NoLonger(encode, longest) ==> newEnd <= |pre| + SizeLimit(block, longest)
    ensures built.g.Valid() && GraphOf(BlockOps(block)).Valid() && built.code == code[..newEnd] && built.start == |pre|
    ensures ok ==> built.bodies.Keys == built.g.code.Keys
    ensures ok ==> forall n :: n in built.bodies ==> OnRegisters(built.g, built.res, registers, encode, n, built.bodies[n])
    ensures ok && newEnd < 0x7FFF_FFF0 ==>
              forall mem, world, fuel: nat :: Done(block, built, mem, world, fuel)
    ensures ok && newEnd < 0x7FFF_FFF0 ==> forall mem, world :: GoesOnForEver(block, built, mem, world)
  {
    var spreader, res, bad;
    ghost var spliced;
    ok, spreader, res, bad, spliced := Compile(block, registers);
    ghost var g := spreader.View();
    if !ok {
      code := BufferFor(pre, 0);
      newEnd := |pre|;
      built := Built(g, map[], BodiesOf(g.code, map[], encode), code[..newEnd], map[], |pre|);
      return;
    }
    TargetedIsGeneratable(g, res, encode);
    var address;
    code, newEnd, address := BuildFn(Graph(spreader.entry, spreader.code), BodiesOf(spreader.code, res, encode), pre);
    built := Built(g, res, BodiesOf(g.code, res, encode), code[..newEnd], address, |pre|);
    forall n | n in g.code ensures OnRegisters(g, res, registers, encode, n, BodiesOf(g.code, res, encode)[n]) {
      BodyIsOnRegisters(g, res, registers, encode, n);
    }
    forall longest: nat | NoLonger(encode, longest) ensures newEnd <= |pre| + SizeLimit(block, longest) {
      BuiltIsSmall(block, g, res, encode, longest);
    }
    if newEnd < 0x7FFF_FFF0 {
      forall mem, world, fuel: nat ensures Done(block, built, mem, world, fuel) {
        BytesAreDone(block, built, mem, world, fuel);
      }
      forall mem, world ensures GoesOnForEver(block, built, mem, world) {
        BytesGoOn(block, built, mem, world);
      }
    }
  }
}
