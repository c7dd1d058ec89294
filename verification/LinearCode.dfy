// Linear code with relative jumps, as the builders produce it, and its runs.
module LinearCode {
  import opened Wrappers
  import opened Ir

  // An operation; JMP, JZ and JNZ go to their own position plus the offset.
  datatype Operation = Operation(instr: Instr, offset: int)

  function Plain(instr: Instr): Operation { Operation(instr, 0) }

  function NextPc(op: Operation, pc: int, taken: bool): int
  {
    if op.instr.Jump? || (op.instr.Branch? && taken) then pc + op.offset else pc + 1
  }

  function LinearStep(code: seq<Operation>, s: State, world: World): Option<State>
  {
    if !(0 <= s.pc < |code|) then None
    else
      match Execute(code[s.pc].instr, s.machine, world)
      case Stuck => None
      case Next(m, taken) => Some(State(NextPc(code[s.pc], s.pc, taken), m))
  }

  function LinearRun(code: seq<Operation>, s: State, world: World, n: nat): Option<State>
  {
    if n == 0 then Some(s)
    else match LinearRun(code, s, world, n - 1)
         case None => None
         case Some(t) => LinearStep(code, t, world)
  }

  // t is reached from s in k steps or more, with k events or more.
  ghost predicate Reaches(code: seq<Operation>, s: State, t: State, world: World, k: nat)
  {
    |t.machine.trace| >= |s.machine.trace| + k && exists n: nat :: n >= k && LinearRun(code, s, world, n) == Some(t)
  }

  lemma ReachesItself(code: seq<Operation>, s: State, world: World)
    ensures Reaches(code, s, s, world, 0)
  {
    assert LinearRun(code, s, world, 0) == Some(s);
  }

  lemma ReachesWeaker(code: seq<Operation>, s: State, t: State, world: World, k: nat, j: nat)
    requires Reaches(code, s, t, world, k) && j <= k
    ensures Reaches(code, s, t, world, j)
  {
  }

  function After(op: Operation, s: State, world: World): State
    requires Execute(op.instr, s.machine, world).Next?
  {
    var r := Execute(op.instr, s.machine, world);
    State(NextPc(op, s.pc, r.taken), r.machine)
  }

  lemma ReachesNext(code: seq<Operation>, s: State, t: State, op: Operation, world: World, k: nat)
    requires Reaches(code, s, t, world, k) && 0 <= t.pc < |code| && code[t.pc] == op
    requires Execute(op.instr, t.machine, world).Next?
    ensures Reaches(code, s, After(op, t, world), world, if op.instr.Branch? then k + 1 else k)
  {
    var n: nat :| n >= k && LinearRun(code, s, world, n) == Some(t);
    assert LinearRun(code, s, world, n + 1) == LinearStep(code, t, world);
  }

  // ops stands in code at base.
  ghost predicate Placed(code: seq<Operation>, base: nat, ops: seq<Operation>)
  {
    base + |ops| <= |code| && forall k :: 0 <= k < |ops| ==> code[base + k] == ops[k]
  }

  lemma PlacedSplit(code: seq<Operation>, base: nat, xs: seq<Operation>, ys: seq<Operation>)
    requires Placed(code, base, xs + ys)
    ensures Placed(code, base, xs) && Placed(code, base + |xs|, ys)
  {
    forall k | 0 <= k < |xs| ensures code[base + k] == xs[k] {
      assert (xs + ys)[k] == xs[k];
    }
    forall k | 0 <= k < |ys| ensures code[base + |xs| + k] == ys[k] {
      assert (xs + ys)[|xs| + k] == ys[k];
    }
  }

  lemma PlacedThree(code: seq<Operation>, base: nat, xs: seq<Operation>, ys: seq<Operation>, zs: seq<Operation>)
    requires Placed(code, base, xs + (ys + zs))
    ensures Placed(code, base, xs) && Placed(code, base + |xs|, ys) && Placed(code, base + |xs| + |ys|, zs)
  {
    PlacedSplit(code, base, xs, ys + zs);
    PlacedSplit(code, base + |xs|, ys, zs);
  }

  lemma PlacedFour(code: seq<Operation>, base: nat, xs: seq<Operation>, ys: seq<Operation>, zs: seq<Operation>, ws: seq<Operation>)
    requires Placed(code, base, xs + (ys + (zs + ws)))
    ensures Placed(code, base, xs) && Placed(code, base + |xs|, ys)
    ensures Placed(code, base + |xs| + |ys|, zs) && Placed(code, base + |xs| + |ys| + |zs|, ws)
  {
    PlacedThree(code, base, xs, ys, zs + ws);
    PlacedSplit(code, base + |xs| + |ys|, zs, ws);
  }

  lemma PlacedAt(code: seq<Operation>, base: nat, ops: seq<Operation>, k: nat)
    requires Placed(code, base, ops) && k < |ops|
    ensures base + k < |code| && code[base + k] == ops[k]
  {
  }
}
