// The scalar intermediate representation: operation blocks linked into a
// control-flow graph, and what running them means.
module Ir {
  import opened Wrappers

  type Id = int
  type Var = int

  const NULL: Id := -1

  // What an operation does with the values it reads: a test, OP_NEW_INT, OP_MOV, a
  // two-operand operation, one of the three on promises, or any other one.
  datatype Tag =
    | Test
    | NewInt(value: int)
    | Mov
    | Binary(operator: int)
    | NewPromise
    | PushPromise
    | QueryPromise
    | Other(id: int)

  // The operations by the way they use their operands: OP_FREE_TEMP; OP_JMP, until
  // it is spliced out of the graph; anything that reads some variables and writes
  // at most one; OP_JZ and OP_JNZ; OP_LOAD and OP_STORE between a variable and a
  // memory place.
  datatype Instr =
    | Free(v: Var)
    | Jump
    | Compute(tag: Tag, dest: Option<Var>, args: seq<Var>)
    | Branch(onZero: bool, cond: Var)
    | Load(dst: Var, place: int)
    | Store(src: Var, place: int)

  function ReadVars(i: Instr): seq<Var>
  {
    match i
    case Free(_) => []
    case Jump => []
    case Compute(_, _, args) => args
    case Branch(_, c) => [c]
    case Load(_, _) => []
    case Store(v, _) => [v]
  }

  function Dest(i: Instr): Option<Var>
  {
    match i
    case Compute(_, d, _) => d
    case Load(d, _) => Some(d)
    case _ => None
  }

  function WrittenVars(i: Instr): seq<Var>
  {
    match Dest(i)
    case None => []
    case Some(d) => [d]
  }

  function UsedVars(i: Instr): seq<Var>
  {
    match i
    case Free(v) => [v]
    case _ => WrittenVars(i) + ReadVars(i)
  }

  // applyNamesTranslition
  function Rename(i: Instr, m: map<Var, Var>): Instr
  {
    match i
    case Free(v) => Free(Renamed(v, m))
    case Jump => Jump
    case Compute(t, d, args) =>
      Compute(t, match d case None => None case Some(v) => Some(Renamed(v, m)), RenamedAll(args, m))
    case Branch(z, c) => Branch(z, Renamed(c, m))
    case Load(d, p) => Load(Renamed(d, m), p)
    case Store(v, p) => Store(Renamed(v, m), p)
  }

  function Renamed(v: Var, m: map<Var, Var>): Var { if v in m then m[v] else v }

  function RenamedAll(vs: seq<Var>, m: map<Var, Var>): (r: seq<Var>)
    ensures |r| == |vs|
  {
    seq(|vs|, k requires 0 <= k < |vs| => Renamed(vs[k], m))
  }

  datatype Block = Block(instr: Instr, next: seq<Id>, prev: set<Id>)

  datatype Graph = Graph(entry: Id, code: map<Id, Block>) {
    // Jumps have a fallthrough and a target; everything else one successor.
    ghost predicate Valid()
    {
      NULL !in code && (entry == NULL || entry in code) &&
      forall n :: n in code ==> BlockOk(n)
    }

    ghost predicate BlockOk(n: Id)
      requires n in code
    {
      var b := code[n];
      |b.next| == (if b.instr.Branch? then 2 else 1) &&
      forall k :: 0 <= k < |b.next| ==> b.next[k] == NULL || b.next[k] in code
    }

    ghost predicate Edge(n: Id, m: Id)
    {
      n in code && m in code && m in code[n].next
    }
  }

  // ---------------------------------------------------------------- running

  // What an operation shows to the outside: which one it is and what it read.
  datatype Event = Event(tag: Tag, args: seq<int>)

  // The outside world answers every operation from everything that happened so far.
  type World = seq<Event> -> int

  datatype Machine = Machine(env: map<Var, int>, mem: map<int, int>, trace: seq<Event>)

  // The machine after an operation and whether a jump is taken; None when it reads
  // a variable or place that holds nothing.
  datatype Outcome = Stuck | Next(machine: Machine, taken: bool)

  predicate CanRead(env: map<Var, int>, vs: seq<Var>)
  {
    forall k :: 0 <= k < |vs| ==> vs[k] in env
  }

  function ValuesOf(env: map<Var, int>, vs: seq<Var>): (r: seq<int>)
    requires CanRead(env, vs)
    ensures |r| == |vs|
  {
    seq(|vs|, k requires 0 <= k < |vs| => env[vs[k]])
  }

  function Execute(i: Instr, s: Machine, world: World): Outcome
  {
    if !CanRead(s.env, ReadVars(i)) then Stuck
    else
      match i
      case Free(v) => Next(s.(env := s.env - {v}), false)
      case Jump => Next(s, false)
      case Compute(t, d, args) =>
        var trace := s.trace + [Event(t, ValuesOf(s.env, args))];
        Next(Machine(match d case None => s.env case Some(v) => s.env[v := world(trace)], s.mem, trace), false)
      case Branch(onZero, c) =>
        assert ReadVars(i)[0] == c;
        Next(s.(trace := s.trace + [Event(Test, [s.env[c]])]), onZero == (s.env[c] == 0))
      case Load(d, p) =>
        if p in s.mem then Next(s.(env := s.env[d := s.mem[p]]), false) else Stuck
      case Store(v, p) =>
        assert ReadVars(i)[0] == v;
        Next(s.(mem := s.mem[p := s.env[v]]), false)
  }

  datatype State = State(pc: Id, machine: Machine)

  function Target(b: Block, taken: bool): Id
    requires |b.next| >= 1 && (b.instr.Branch? ==> |b.next| == 2)
  {
    if taken && b.instr.Branch? then b.next[1] else b.next[0]
  }
}
