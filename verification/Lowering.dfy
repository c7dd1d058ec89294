// Lowering expressions and statements to linear code with relative jumps, and the
// proof that the code, placed anywhere, does what the source means.
module Lowering {
  import opened Wrappers
  import opened Ir
  import opened LinearCode
  import opened Source

  // ---------------------------------------------------------------- the code

  // The code of an expression, the temporary its value ends in, the next free temporary.
  datatype Lowered = Lowered(ops: seq<Operation>, pos: Var, next: Var)

  function Moves(targets: seq<Var>, pos: Var): (r: seq<Operation>)
    ensures |r| == |targets|
  {
    seq(|targets|, k requires 0 <= k < |targets| => Plain(Compute(Mov, Some(targets[k]), [pos])))
  }

  function ArithmeticTail(k: int, tmp: Var, pos: Var, pos2: Var): seq<Operation>
  {
    [Plain(Compute(Binary(k), Some(tmp), [pos, pos2])), Plain(Free(pos2)), Plain(Free(pos))]
  }

  // The test of the left operand jumps over the right one to the last operation.
  function LogicHead(isAnd: bool, pos: Var, rightLength: nat): seq<Operation>
  {
    [Operation(Branch(isAnd, pos), 5 + rightLength), Plain(Free(pos))]
  }

  function LogicTail(isAnd: bool, tmp: Var, pos2: Var): seq<Operation>
  {
    [Plain(Compute(NewInt(if isAnd then -1 else 0), Some(tmp), [])), Operation(Branch(!isAnd, pos2), 3),
     Plain(Free(pos2)), Plain(Compute(NewInt(if isAnd then 0 else -1), Some(tmp), []))]
  }

  function Lower(e: Expr, t: Var): (r: Lowered)
    ensures t <= r.pos < r.next
  {
    match e
    case Literal(c) => Lowered([Plain(Compute(NewInt(c), Some(t), []))], t, t + 1)
    case Name(v) => Lowered([Plain(Compute(Mov, Some(t), [v]))], t, t + 1)
    case Assign(targets, source) =>
      var l := Lower(source, t);
      Lowered(l.ops + Moves(targets, l.pos), l.pos, l.next)
    case Infix(op, left, right) =>
      var a := Lower(left, t);
      var b := Lower(right, a.next);
      Lowered(InfixOps(op, a, b), b.next, b.next + 1)
  }

  function InfixOps(op: Operator, a: Lowered, b: Lowered): seq<Operation>
  {
    match op
    case Arithmetic(k) => ArithmeticOps(k, a, b)
    case _ => LogicOps(op == And, a, b)
  }

  function ArithmeticOps(k: int, a: Lowered, b: Lowered): seq<Operation>
  {
    a.ops + (b.ops + ArithmeticTail(k, b.next, a.pos, b.pos))
  }

  function LogicOps(isAnd: bool, a: Lowered, b: Lowered): seq<Operation>
  {
    a.ops + (LogicHead(isAnd, a.pos, |b.ops|) + (b.ops + LogicTail(isAnd, b.next, b.pos)))
  }

  datatype LoweredStmt = LoweredStmt(ops: seq<Operation>, next: Var)

  function WhileHead(bodyLength: nat, pos: Var): seq<Operation>
  {
    [Operation(Jump, 2 + bodyLength), Plain(Free(pos))]
  }

  function WhileTail(bodyLength: nat, guardLength: nat, pos: Var): seq<Operation>
  {
    [Operation(Branch(false, pos), -1 - guardLength - bodyLength), Plain(Free(pos))]
  }

  // The guard stands after the body; its value is freed on both ways out of the test.
  function WhileOps(g: Lowered, body: seq<Operation>): seq<Operation>
  {
    WhileHead(|body|, g.pos) + (body + (g.ops + WhileTail(|body|, |g.ops|, g.pos)))
  }

  function CaseHead(matchPos: Var, patternPos: Var, tmp: Var, blockLength: nat): seq<Operation>
  {
    [Plain(Compute(Binary(EQ), Some(tmp), [matchPos, patternPos])), Plain(Free(patternPos)),
     Operation(Branch(true, tmp), 2 + blockLength), Plain(Free(tmp))]
  }

  function CaseOps(matchPos: Var, p: Lowered, b: LoweredStmt): seq<Operation>
  {
    p.ops + (CaseHead(matchPos, p.pos, b.next, |b.ops|) + (b.ops + [Plain(Free(b.next))]))
  }

  function LowerStmt(s: Stmt, t: Var): (r: LoweredStmt)
    ensures t <= r.next
  {
    match s
    case Skip => LoweredStmt([], t)
    case Then(first, rest) =>
      var a := LowerStmt(first, t);
      var b := LowerStmt(rest, a.next);
      LoweredStmt(a.ops + b.ops, b.next)
    case Evaluate(e) =>
      var l := Lower(e, t);
      LoweredStmt(l.ops + [Plain(Free(l.pos))], l.next)
    case While(guard, body) =>
      var g := Lower(guard, t);
      var b := LowerStmt(body, g.next);
      LoweredStmt(WhileOps(g, b.ops), b.next)
    case Match(subject, cases) =>
      var m := Lower(subject, t);
      var c := LowerCases(cases, m.pos, m.next);
      LoweredStmt(m.ops + (c.ops + [Plain(Free(m.pos))]), c.next)
  }

  function LowerCases(cases: Cases, matchPos: Var, t: Var): (r: LoweredStmt)
    ensures t <= r.next
  {
    match cases
    case NoCases => LoweredStmt([], t)
    case Case(pattern, block, others) =>
      var p := Lower(pattern, t);
      var b := LowerStmt(block, p.next);
      var rest := LowerCases(others, matchPos, b.next + 1);
      LoweredStmt(CaseOps(matchPos, p, b) + rest.ops, rest.next)
  }

  // The same, for contracts: names that stand for one unfolding.
  function ExprCode(e: Expr, t: Var): Lowered { Lower(e, t) }

  function StmtCode(s: Stmt, t: Var): LoweredStmt { LowerStmt(s, t) }

  function CasesCode(cases: Cases, matchPos: Var, t: Var): LoweredStmt { LowerCases(cases, matchPos, t) }

  // ---------------------------------------------------------------- what the code keeps

  ghost predicate VarHolds(env: map<Var, int>, store: Store, v: Var)
  {
    (v in store <==> v in env) && (v in store ==> env[v] == store[v])
  }

  // The program variables are as in the store.
  ghost predicate Holds(m: Machine, store: Store)
  {
    forall v :: v < FIRST_TEMP ==> VarHolds(m.env, store, v)
  }

  ghost predicate Has(m: Machine, v: Var, value: int)
  {
    v in m.env && m.env[v] == value
  }

  // Temporaries before t are untouched.
  ghost predicate Kept(a: Machine, b: Machine, t: Var)
  {
    forall v :: FIRST_TEMP <= v < t && v in a.env ==> Has(b, v, a.env[v])
  }

  ghost predicate ChangesOnly(a: Machine, b: Machine, d: Var)
  {
    forall v :: v in a.env && v != d ==> Has(b, v, a.env[v])
  }

  lemma KeptTwice(a: Machine, b: Machine, c: Machine, t: Var, u: Var)
    requires Kept(a, b, t) && Kept(b, c, u) && t <= u
    ensures Kept(a, c, t)
  {
  }

  // ---------------------------------------------------------------- one operation

  // What all the runs below share: the code, where the run started, and what operations mean.
  ghost predicate At(code: seq<Operation>, s0: State, s: State, world: World, k: nat, pc: int, store: Store)
  {
    Reaches(code, s0, s, world, k) && s.pc == pc && Holds(s.machine, store)
  }

  lemma ComputeRuns(code: seq<Operation>, s0: State, s: State, world: World, k: nat, pc: nat, store: Store,
                    tag: Tag, d: Var, args: seq<Var>, values: seq<int>) returns (u: State)
    requires At(code, s0, s, world, k, pc, store) && Sensible(world) && Placed(code, pc, [Plain(Compute(tag, Some(d), args))])
    requires |args| == |values| && forall j :: 0 <= j < |args| ==> Has(s.machine, args[j], values[j])
    ensures var value := Answer(world, Event(tag, values));
            Has(u.machine, d, value) && ChangesOnly(s.machine, u.machine, d) &&
            At(code, s0, u, world, k, pc + 1, if d < FIRST_TEMP then store[d := value] else store)
  {
    var op := Plain(Compute(tag, Some(d), args));
    PlacedAt(code, pc, [op], 0);
    forall j | 0 <= j < |args| ensures args[j] in s.machine.env && s.machine.env[args[j]] == values[j] {
      assert Has(s.machine, args[j], values[j]);
    }
    assert ReadVars(op.instr) == args && CanRead(s.machine.env, args);
    assert ValuesOf(s.machine.env, args) == values;
    assert Memoryless(world, s.machine.trace, Event(tag, values));
    ReachesNext(code, s0, s, op, world, k);
    u := After(op, s, world);
    var value := Answer(world, Event(tag, values));
    assert u.machine.env == s.machine.env[d := value];
    var store' := if d < FIRST_TEMP then store[d := value] else store;
    forall v | v < FIRST_TEMP ensures VarHolds(u.machine.env, store', v) {
      assert VarHolds(s.machine.env, store, v);
    }
  }

  lemma FreeRuns(code: seq<Operation>, s0: State, s: State, world: World, k: nat, pc: nat, store: Store, v: Var) returns (u: State)
    requires At(code, s0, s, world, k, pc, store) && Placed(code, pc, [Plain(Free(v))]) && FIRST_TEMP <= v
    ensures At(code, s0, u, world, k, pc + 1, store) && ChangesOnly(s.machine, u.machine, v)
  {
    var op := Plain(Free(v));
    PlacedAt(code, pc, [op], 0);
    ReachesNext(code, s0, s, op, world, k);
    u := After(op, s, world);
    forall w | w < FIRST_TEMP ensures VarHolds(u.machine.env, store, w) {
      assert VarHolds(s.machine.env, store, w);
    }
  }

  // A test leaves the variables alone.
  lemma BranchRuns(code: seq<Operation>, s0: State, s: State, world: World, k: nat, pc: nat, store: Store,
                   onZero: bool, v: Var, offset: int, value: int) returns (u: State)
    requires At(code, s0, s, world, k, pc, store) && Placed(code, pc, [Operation(Branch(onZero, v), offset)])
    requires Has(s.machine, v, value)
    ensures At(code, s0, u, world, k + 1, if onZero == (value == 0) then pc + offset else pc + 1, store)
    ensures u.machine.env == s.machine.env
  {
    var op := Operation(Branch(onZero, v), offset);
    PlacedAt(code, pc, [op], 0);
    ReachesNext(code, s0, s, op, world, k);
    u := After(op, s, world);
  }

  // ---------------------------------------------------------------- expressions

  lemma {:induction false} MovesRun(code: seq<Operation>, s0: State, s: State, world: World, k: nat, pc: nat, store: Store,
                                    targets: seq<Var>, pos: Var, value: int) returns (u: State)
    requires At(code, s0, s, world, k, pc, store) && Sensible(world)
    requires Placed(code, pc, Moves(targets, pos)) && Has(s.machine, pos, value) && pos >= FIRST_TEMP
    requires forall j :: 0 <= j < |targets| ==> targets[j] < FIRST_TEMP
    ensures At(code, s0, u, world, k, pc + |targets|, SetAll(store, targets, value)) && Kept(s.machine, u.machine, pos + 1)
    decreases targets
  {
    u := s;
    if targets != [] {
      var first, rest := [Plain(Compute(Mov, Some(targets[0]), [pos]))], Moves(targets[1..], pos);
      assert Moves(targets, pos) == first + rest;
      PlacedSplit(code, pc, first, rest);
      var v := ComputeRuns(code, s0, s, world, k, pc, store, Mov, targets[0], [pos], [value]);
      assert Has(v.machine, pos, s.machine.env[pos]);
      u := MovesRun(code, s0, v, world, k, pc + 1, store[targets[0] := value], targets[1..], pos, value);
      KeptTwice(s.machine, v.machine, u.machine, pos + 1, pos + 1);
    }
  }

  // The code of e ran from s to u.
  ghost predicate Ran(code: seq<Operation>, s0: State, s: State, u: State, world: World, k: nat, e: Expr, t: Var, pc: nat,
                      r: Evaluated)
  {
    var l := ExprCode(e, t);
    At(code, s0, u, world, k, pc + |l.ops|, r.store) && Has(u.machine, l.pos, r.value) && Kept(s.machine, u.machine, t)
  }

  // The theorem for expressions.
  lemma {:induction false} ExprRuns(code: seq<Operation>, s0: State, s: State, world: World, k: nat, pc: nat, store: Store,
                                    e: Expr, t: Var) returns (u: State)
    requires At(code, s0, s, world, k, pc, store) && Sensible(world)
    requires DeclaredExpr(e) && t >= FIRST_TEMP && Placed(code, pc, ExprCode(e, t).ops) && Eval(e, store, world).Some?
    ensures Ran(code, s0, s, u, world, k, e, t, pc, Eval(e, store, world).value)
    decreases e, 3
  {
    match e
    case Literal(c) =>
      u := ComputeRuns(code, s0, s, world, k, pc, store, NewInt(c), t, [], []);
    case Name(v) =>
      assert VarHolds(s.machine.env, store, v);
      u := ComputeRuns(code, s0, s, world, k, pc, store, Mov, t, [v], [store[v]]);
    case Assign(targets, source) =>
      var l, r := ExprCode(source, t), Eval(source, store, world).value;
      PlacedSplit(code, pc, l.ops, Moves(targets, l.pos));
      var v := ExprRuns(code, s0, s, world, k, pc, store, source, t);
      u := MovesRun(code, s0, v, world, k, pc + |l.ops|, r.store, targets, l.pos, r.value);
      assert Has(u.machine, l.pos, v.machine.env[l.pos]);
      KeptTwice(s.machine, v.machine, u.machine, t, l.pos + 1);
    case Infix(op, left, right) =>
      match op {
        case Arithmetic(n) => u := ArithmeticRuns(code, s0, s, world, k, pc, store, n, left, right, t);
        case _ =>
          LogicEval(op, left, right, store, world);
          u := LogicRuns(code, s0, s, world, k, pc, store, op, left, right, t);
      }
  }

  lemma {:induction false} ArithmeticRuns(code: seq<Operation>, s0: State, s: State, world: World, k: nat, pc: nat, store: Store,
                                          n: int, left: Expr, right: Expr, t: Var) returns (u: State)
    requires At(code, s0, s, world, k, pc, store) && Sensible(world)
    requires DeclaredExpr(left) && DeclaredExpr(right) && t >= FIRST_TEMP && Eval(left, store, world).Some?
    requires Eval(right, Eval(left, store, world).value.store, world).Some?
    requires var a := ExprCode(left, t); Placed(code, pc, ArithmeticOps(n, a, ExprCode(right, a.next)))
    ensures var a, r := ExprCode(left, t), Eval(left, store, world).value;
            var b, q := ExprCode(right, a.next), Eval(right, r.store, world).value;
            At(code, s0, u, world, k, pc + |ArithmeticOps(n, a, b)|, q.store) && Kept(s.machine, u.machine, t) &&
            Has(u.machine, b.next, Answer(world, Event(Binary(n), [r.value, q.value])))
    decreases Infix(Arithmetic(n), left, right), 1
  {
    var a, r := ExprCode(left, t), Eval(left, store, world).value;
    var b, q := ExprCode(right, a.next), Eval(right, r.store, world).value;
    ArithmeticPlaced(code, pc, n, a, b);
    var w := BothRun(code, s0, s, world, k, pc, pc + |a.ops|, store, Arithmetic(n), left, right, t);
    u := ArithmeticTailRuns(code, s0, w, world, k, pc + |a.ops| + |b.ops|, q.store, n, b.next, a.pos, b.pos, r.value, q.value, t);
    KeptTwice(s.machine, w.machine, u.machine, t, t);
  }

  lemma ArithmeticPlaced(code: seq<Operation>, pc: nat, n: int, a: Lowered, b: Lowered)
    requires Placed(code, pc, ArithmeticOps(n, a, b))
    ensures Placed(code, pc, a.ops) && Placed(code, pc + |a.ops|, b.ops)
    ensures Placed(code, pc + |a.ops| + |b.ops|, ArithmeticTail(n, b.next, a.pos, b.pos))
    ensures |ArithmeticOps(n, a, b)| == |a.ops| + |b.ops| + 3
  {
    PlacedThree(code, pc, a.ops, b.ops, ArithmeticTail(n, b.next, a.pos, b.pos));
  }

  // Both operands, one after the other; the second leaves the first one's value alone.
  lemma {:induction false} BothRun(code: seq<Operation>, s0: State, s: State, world: World, k: nat, pc: nat, pc1: nat,
                                   store: Store, op: Operator, left: Expr, right: Expr, t: Var) returns (w: State)
    requires At(code, s0, s, world, k, pc, store) && Sensible(world)
    requires DeclaredExpr(left) && DeclaredExpr(right) && t >= FIRST_TEMP
    requires Placed(code, pc, ExprCode(left, t).ops) && Eval(left, store, world).Some? && pc1 == pc + |ExprCode(left, t).ops|
    requires Placed(code, pc1, ExprCode(right, ExprCode(left, t).next).ops) && Eval(right, Eval(left, store, world).value.store, world).Some?
    ensures var a, r := ExprCode(left, t), Eval(left, store, world).value;
            var b, q := ExprCode(right, a.next), Eval(right, r.store, world).value;
            At(code, s0, w, world, k, pc1 + |b.ops|, q.store) && Has(w.machine, a.pos, r.value) && Has(w.machine, b.pos, q.value) &&
            Kept(s.machine, w.machine, t)
    decreases Infix(op, left, right), 0
  {
    var a, r := ExprCode(left, t), Eval(left, store, world).value;
    var v := ExprRuns(code, s0, s, world, k, pc, store, left, t);
    w := ExprRuns(code, s0, v, world, k, pc1, r.store, right, a.next);
    assert Has(w.machine, a.pos, v.machine.env[a.pos]);
    KeptTwice(s.machine, v.machine, w.machine, t, a.next);
  }

  lemma ArithmeticTailPlaced(code: seq<Operation>, pc: nat, n: int, tmp: Var, pos: Var, pos2: Var)
    requires Placed(code, pc, ArithmeticTail(n, tmp, pos, pos2))
    ensures Placed(code, pc, [Plain(Compute(Binary(n), Some(tmp), [pos, pos2]))])
    ensures Placed(code, pc + 1, [Plain(Free(pos2))]) && Placed(code, pc + 2, [Plain(Free(pos))])
  {
    var op := Plain(Compute(Binary(n), Some(tmp), [pos, pos2]));
    assert ArithmeticTail(n, tmp, pos, pos2) == [op] + ([Plain(Free(pos2))] + [Plain(Free(pos))]);
    PlacedThree(code, pc, [op], [Plain(Free(pos2))], [Plain(Free(pos))]);
  }

  lemma ArithmeticTailRuns(code: seq<Operation>, s0: State, s: State, world: World, k: nat, pc: nat, store: Store,
                           n: int, tmp: Var, pos: Var, pos2: Var, x: int, y: int, t: Var) returns (u: State)
    requires At(code, s0, s, world, k, pc, store) && Sensible(world) && Placed(code, pc, ArithmeticTail(n, tmp, pos, pos2))
    requires Has(s.machine, pos, x) && Has(s.machine, pos2, y) && FIRST_TEMP <= t <= pos < tmp && t <= pos2 < tmp
    ensures At(code, s0, u, world, k, pc + 3, store) && Has(u.machine, tmp, Answer(world, Event(Binary(n), [x, y])))
    ensures Kept(s.machine, u.machine, t)
  {
    ArithmeticTailPlaced(code, pc, n, tmp, pos, pos2);
    var v := ComputeRuns(code, s0, s, world, k, pc, store, Binary(n), tmp, [pos, pos2], [x, y]);
    var w := FreeRuns(code, s0, v, world, k, pc + 1, store, pos2);
    u := FreeRuns(code, s0, w, world, k, pc + 2, store, pos);
    assert Has(w.machine, tmp, v.machine.env[tmp]);
    KeptTwice(s.machine, v.machine, w.machine, t, t);
    KeptTwice(s.machine, w.machine, u.machine, t, t);
  }

  lemma {:induction false} LogicRuns(code: seq<Operation>, s0: State, s: State, world: World, k: nat, pc: nat, store: Store,
                                     op: Operator, left: Expr, right: Expr, t: Var) returns (u: State)
    requires At(code, s0, s, world, k, pc, store) && Sensible(world)
    requires DeclaredExpr(left) && DeclaredExpr(right) && t >= FIRST_TEMP && !op.Arithmetic? && Eval(left, store, world).Some?
    requires var r := Eval(left, store, world).value; LogicValue(op, r.value, right, r.store, world).Some?
    requires var a := ExprCode(left, t); Placed(code, pc, LogicOps(op == And, a, ExprCode(right, a.next)))
    ensures var a, r := ExprCode(left, t), Eval(left, store, world).value;
            var b, q := ExprCode(right, a.next), LogicValue(op, r.value, right, r.store, world).value;
            At(code, s0, u, world, k, pc + |LogicOps(op == And, a, b)|, q.store) && Kept(s.machine, u.machine, t) &&
            Has(u.machine, b.next, q.value)
    decreases Infix(op, left, right), 2
  {
    var a, r := ExprCode(left, t), Eval(left, store, world).value;
    var b, pc1 := ExprCode(right, a.next), pc + |a.ops|;
    LogicPlaced(code, pc, pc1, op == And, a, b);
    var v := ExprRuns(code, s0, s, world, k, pc, store, left, t);
    assert At(code, s0, v, world, k, pc1, r.store) && Has(v.machine, a.pos, r.value);
    var q := LogicValue(op, r.value, right, r.store, world).value;
    u := AfterLeftRuns(code, s0, v, world, k, pc1, r.store, op, a.pos, r.value, right, b, q, pc1 + 2 + |b.ops|, t, a.next);
    KeptTwice(s.machine, v.machine, u.machine, t, t);
  }

  // The value of && and || once the left operand has the value x.
  function LogicValue(op: Operator, x: int, right: Expr, store: Store, world: World): Option<Evaluated>
  {
    if (op == And) == (x == 0) then Some(Evaluated(if op == And then 0 else -1, store))
    else match Eval(right, store, world)
         case None => None
         case Some(q) => Some(Evaluated(Combine(op, x, q.value, world), q.store))
  }

  lemma LogicEval(op: Operator, left: Expr, right: Expr, store: Store, world: World)
    requires !op.Arithmetic? && Eval(Infix(op, left, right), store, world).Some?
    ensures Eval(left, store, world).Some?
    ensures var r := Eval(left, store, world).value;
            Eval(Infix(op, left, right), store, world) == LogicValue(op, r.value, right, r.store, world)
  {
  }

  lemma LogicPlaced(code: seq<Operation>, pc: nat, pc1: nat, isAnd: bool, a: Lowered, b: Lowered)
    requires Placed(code, pc, LogicOps(isAnd, a, b)) && pc1 == pc + |a.ops|
    ensures Placed(code, pc, a.ops) && Placed(code, pc1, LogicHead(isAnd, a.pos, |b.ops|))
    ensures Placed(code, pc1 + 2, b.ops) && Placed(code, pc1 + 2 + |b.ops|, LogicTail(isAnd, b.next, b.pos))
    ensures |LogicOps(isAnd, a, b)| == |a.ops| + |b.ops| + 6
  {
    PlacedFour(code, pc, a.ops, LogicHead(isAnd, a.pos, |b.ops|), b.ops, LogicTail(isAnd, b.next, b.pos));
  }

  // From the value x of the left operand to the value of the whole.
  lemma {:induction false} AfterLeftRuns(code: seq<Operation>, s0: State, s: State, world: World, k: nat, pc: nat, store: Store,
                                         op: Operator, pos: Var, x: int, right: Expr, b: Lowered, r: Evaluated, pt: nat,
                                         t: Var, t1: Var) returns (u: State)
    requires At(code, s0, s, world, k, pc, store) && Sensible(world) && pt == pc + 2 + |b.ops|
    requires DeclaredExpr(right) && FIRST_TEMP <= t <= pos < t1 && !op.Arithmetic? && Has(s.machine, pos, x)
    requires b == ExprCode(right, t1) && Placed(code, pc, LogicHead(op == And, pos, |b.ops|)) && Placed(code, pc + 2, b.ops)
    requires Placed(code, pt, LogicTail(op == And, b.next, b.pos)) && LogicValue(op, x, right, store, world) == Some(r)
    ensures At(code, s0, u, world, k, pt + 4, r.store) && Has(u.machine, b.next, r.value) && Kept(s.machine, u.machine, t)
    decreases right, 5
  {
    var w := TestRuns(code, s0, s, world, k, pc, store, op == And, pos, |b.ops|, x);
    if (op == And) == (x == 0) {
      u := DecidedRuns(code, s0, s, w, world, k, pt, store, op == And, b.next, b.pos, t);
    } else {
      u := RightRuns(code, s0, w, world, k, pc + 1, store, op, pos, x, right, b, t, t1);
    }
  }

  // The test of the left operand.
  lemma TestRuns(code: seq<Operation>, s0: State, s: State, world: World, k: nat, pc: nat, store: Store,
                 isAnd: bool, pos: Var, rightLength: nat, x: int) returns (w: State)
    requires At(code, s0, s, world, k, pc, store) && Has(s.machine, pos, x) && Placed(code, pc, LogicHead(isAnd, pos, rightLength))
    ensures At(code, s0, w, world, k, if isAnd == (x == 0) then pc + rightLength + 5 else pc + 1, store)
    ensures w.machine.env == s.machine.env && Placed(code, pc + 1, [Plain(Free(pos))])
  {
    var test, free := Operation(Branch(isAnd, pos), 5 + rightLength), Plain(Free(pos));
    assert LogicHead(isAnd, pos, rightLength) == [test] + [free];
    PlacedSplit(code, pc, [test], [free]);
    w := BranchRuns(code, s0, s, world, k, pc, store, isAnd, pos, 5 + rightLength, x);
    ReachesWeaker(code, s0, w, world, k + 1, k);
  }

  // The right operand and what follows it.
  lemma {:induction false} RightRuns(code: seq<Operation>, s0: State, s: State, world: World, k: nat, pc: nat, store: Store,
                                     op: Operator, pos: Var, x: int, right: Expr, b: Lowered, t: Var, t1: Var) returns (u: State)
    requires At(code, s0, s, world, k, pc, store) && Sensible(world)
    requires DeclaredExpr(right) && FIRST_TEMP <= t <= pos < t1 && !op.Arithmetic?
    requires b == ExprCode(right, t1) && Placed(code, pc, [Plain(Free(pos))]) && Placed(code, pc + 1, b.ops)
    requires Placed(code, pc + 1 + |b.ops|, LogicTail(op == And, b.next, b.pos))
    requires (op == And) != (x == 0) && Eval(right, store, world).Some?
    ensures var q := Eval(right, store, world).value;
            At(code, s0, u, world, k, pc + 5 + |b.ops|, q.store) && Has(u.machine, b.next, Combine(op, x, q.value, world)) &&
            Kept(s.machine, u.machine, t)
    decreases right, 4
  {
    var q := Eval(right, store, world).value;
    var v := FreeRuns(code, s0, s, world, k, pc, store, pos);
    var y := ExprRuns(code, s0, v, world, k, pc + 1, store, right, t1);
    KeptTwice(s.machine, v.machine, y.machine, t, t1);
    u := LogicTailRuns(code, s0, y, world, k, pc + 1 + |b.ops|, q.store, op == And, b.next, b.pos, q.value, t);
    KeptTwice(s.machine, y.machine, u.machine, t, t);
  }

  // Only the last operation, which the left operand's test jumps to.
  lemma LogicEndRuns(code: seq<Operation>, s0: State, s: State, world: World, k: nat, pc: nat, store: Store,
                     isAnd: bool, tmp: Var, pos2: Var) returns (u: State)
    requires Placed(code, pc, LogicTail(isAnd, tmp, pos2)) && tmp >= FIRST_TEMP
    requires At(code, s0, s, world, k, pc + 3, store) && Sensible(world)
    ensures At(code, s0, u, world, k, pc + 4, store) && Has(u.machine, tmp, if isAnd then 0 else -1)
    ensures ChangesOnly(s.machine, u.machine, tmp)
  {
    var tail := LogicTail(isAnd, tmp, pos2);
    assert tail == tail[..3] + [tail[3]];
    PlacedSplit(code, pc, tail[..3], [tail[3]]);
    u := ComputeRuns(code, s0, s, world, k, pc + 3, store, NewInt(if isAnd then 0 else -1), tmp, [], []);
  }

  lemma DecidedRuns(code: seq<Operation>, s0: State, s: State, w: State, world: World, k: nat, pc: nat, store: Store,
                    isAnd: bool, tmp: Var, pos2: Var, t: Var) returns (u: State)
    requires Placed(code, pc, LogicTail(isAnd, tmp, pos2)) && FIRST_TEMP <= t <= tmp && w.machine.env == s.machine.env
    requires At(code, s0, w, world, k, pc + 3, store) && Sensible(world)
    ensures At(code, s0, u, world, k, pc + 4, store) && Has(u.machine, tmp, if isAnd then 0 else -1) && Kept(s.machine, u.machine, t)
  {
    u := LogicEndRuns(code, s0, w, world, k, pc, store, isAnd, tmp, pos2);
    KeptTwice(s.machine, w.machine, u.machine, t, t);
  }

  lemma LogicTailRuns(code: seq<Operation>, s0: State, s: State, world: World, k: nat, pc: nat, store: Store,
                      isAnd: bool, tmp: Var, pos2: Var, y: int, t: Var) returns (u: State)
    requires Placed(code, pc, LogicTail(isAnd, tmp, pos2)) && FIRST_TEMP <= t <= pos2 < tmp && Has(s.machine, pos2, y)
    requires At(code, s0, s, world, k, pc, store) && Sensible(world)
    ensures At(code, s0, u, world, k, pc + 4, store)
    ensures Has(u.machine, tmp, if isAnd == (y == 0) then (if isAnd then 0 else -1) else (if isAnd then -1 else 0))
    ensures Kept(s.machine, u.machine, t)
  {
    var tail := LogicTail(isAnd, tmp, pos2);
    assert tail == [tail[0]] + ([tail[1]] + ([tail[2]] + [tail[3]]));
    PlacedSplit(code, pc, [tail[0]], [tail[1]] + ([tail[2]] + [tail[3]]));
    PlacedSplit(code, pc + 1, [tail[1]], [tail[2]] + [tail[3]]);
    PlacedSplit(code, pc + 2, [tail[2]], [tail[3]]);
    var v := ComputeRuns(code, s0, s, world, k, pc, store, NewInt(if isAnd then -1 else 0), tmp, [], []);
    assert Has(v.machine, pos2, s.machine.env[pos2]);
    var w := BranchRuns(code, s0, v, world, k, pc + 1, store, !isAnd, pos2, 3, y);
    ReachesWeaker(code, s0, w, world, k + 1, k);
    u := w;
    if isAnd == (y == 0) {
      var x := FreeRuns(code, s0, w, world, k, pc + 2, store, pos2);
      KeptTwice(s.machine, w.machine, x.machine, t, t);
      u := LogicEndRuns(code, s0, x, world, k, pc, store, isAnd, tmp, pos2);
      KeptTwice(s.machine, x.machine, u.machine, t, t);
    }
  }
}
