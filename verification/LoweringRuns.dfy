// The lowered statements run as the source says, wherever the code is placed.
module LoweringRuns {
  import opened Wrappers
  import opened Ir
  import opened LinearCode
  import opened Source
  import opened Lowering

  // The code of a statement, `length` operations from pc, was run from s with the
  // outcome r: it came to its end with the store, or is still running after fuel events.
  ghost predicate Came(code: seq<Operation>, s0: State, s: State, u: State, world: World, k: nat, pc: nat, length: nat,
                       t: Var, r: Result, fuel: nat)
  {
    match r
    case Done(store) => At(code, s0, u, world, k, pc + length, store) && Kept(s.machine, u.machine, t)
    case OutOfFuel => Reaches(code, s0, u, world, k + fuel)
    case Failed => true
  }

  // What ran behind v, with more temporaries taken, ran behind s.
  lemma CameAfter(code: seq<Operation>, s0: State, s: State, v: State, u: State, world: World, k: nat, pc: nat, length: nat,
                  pc1: nat, length1: nat, t: Var, t1: Var, r: Result, fuel: nat)
    requires Came(code, s0, v, u, world, k, pc1, length1, t1, r, fuel) && Kept(s.machine, v.machine, t) && t <= t1
    requires pc + length == pc1 + length1
    ensures Came(code, s0, s, u, world, k, pc, length, t, r, fuel)
  {
  }

  // And a free behind that.
  lemma ThenFree(code: seq<Operation>, s0: State, s: State, v: State, world: World, k: nat, pc: nat, length: nat, tmp: Var, t: Var,
                 r: Result, fuel: nat) returns (u: State)
    requires Came(code, s0, s, v, world, k, pc, length, t, r, fuel) && FIRST_TEMP <= t <= tmp
    requires Placed(code, pc + length, [Plain(Free(tmp))])
    ensures Came(code, s0, s, u, world, k, pc, length + 1, t, r, fuel)
  {
    u := v;
    if r.Done? {
      u := FreeRuns(code, s0, v, world, k, pc + length, r.store, tmp);
      KeptTwice(s.machine, v.machine, u.machine, t, t);
    }
  }

  // The theorem for statements.
  lemma {:induction false} StmtRuns(code: seq<Operation>, s0: State, s: State, world: World, k: nat, pc: nat, store: Store,
                                    stmt: Stmt, t: Var, fuel: nat) returns (u: State)
    requires At(code, s0, s, world, k, pc, store) && Sensible(world)
    requires Declared(stmt) && t >= FIRST_TEMP && Placed(code, pc, StmtCode(stmt, t).ops)
    ensures Came(code, s0, s, u, world, k, pc, |StmtCode(stmt, t).ops|, t, Exec(stmt, store, world, fuel), fuel)
    decreases fuel, stmt, 4, 0
  {
    u := s;
    match stmt
    case Skip =>
    case Then(first, rest) =>
      var a := StmtCode(first, t);
      var b := StmtCode(rest, a.next);
      PlacedSplit(code, pc, a.ops, b.ops);
      u := ThenRuns(code, s0, s, world, k, pc, store, first, rest, a, b, t, fuel);
    case Evaluate(e) =>
      if Eval(e, store, world).Some? {
        u := EvaluateRuns(code, s0, s, world, k, pc, store, e, t);
      }
    case While(guard, body) =>
      u := WhileRuns(code, s0, s, world, k, pc, store, guard, body, t, fuel);
    case Match(subject, cases) =>
      if Eval(subject, store, world).Some? {
        var m := ExprCode(subject, t);
        u := MatchRuns(code, s0, s, world, k, pc, store, subject, cases, m, CasesCode(cases, m.pos, m.next),
                       Eval(subject, store, world).value, t, fuel);
      }
  }

  lemma EvaluateRuns(code: seq<Operation>, s0: State, s: State, world: World, k: nat, pc: nat, store: Store,
                     e: Expr, t: Var) returns (u: State)
    requires At(code, s0, s, world, k, pc, store) && Sensible(world)
    requires DeclaredExpr(e) && t >= FIRST_TEMP && Placed(code, pc, ExprCode(e, t).ops + [Plain(Free(ExprCode(e, t).pos))])
    requires Eval(e, store, world).Some?
    ensures At(code, s0, u, world, k, pc + |ExprCode(e, t).ops| + 1, Eval(e, store, world).value.store) && Kept(s.machine, u.machine, t)
  {
    var l := ExprCode(e, t);
    PlacedSplit(code, pc, l.ops, [Plain(Free(l.pos))]);
    var v := ExprRuns(code, s0, s, world, k, pc, store, e, t);
    u := FreeRuns(code, s0, v, world, k, pc + |l.ops|, Eval(e, store, world).value.store, l.pos);
    KeptTwice(s.machine, v.machine, u.machine, t, t);
  }

  lemma {:induction false} ThenRuns(code: seq<Operation>, s0: State, s: State, world: World, k: nat, pc: nat, store: Store,
                                    first: Stmt, rest: Stmt, a: LoweredStmt, b: LoweredStmt, t: Var, fuel: nat) returns (u: State)
    requires At(code, s0, s, world, k, pc, store) && Sensible(world)
    requires Declared(first) && Declared(rest) && t >= FIRST_TEMP && a == StmtCode(first, t) && b == StmtCode(rest, a.next)
    requires Placed(code, pc, a.ops) && Placed(code, pc + |a.ops|, b.ops)
    ensures var r := Exec(first, store, world, fuel);
            Came(code, s0, s, u, world, k, pc, |a.ops| + |b.ops|, t, if r.Done? then Exec(rest, r.store, world, fuel) else r, fuel)
    decreases fuel, Then(first, rest), 3
  {
    u := StmtRuns(code, s0, s, world, k, pc, store, first, t, fuel);
    var r := Exec(first, store, world, fuel);
    if r.Done? {
      var v := u;
      u := RestRuns(code, s0, s, v, world, k, pc, |a.ops|, r.store, rest, b, t, a.next, fuel);
    }
  }

  lemma {:induction false} RestRuns(code: seq<Operation>, s0: State, s: State, v: State, world: World, k: nat, pc: nat, length: nat,
                                    store: Store, rest: Stmt, b: LoweredStmt, t: Var, t1: Var, fuel: nat) returns (u: State)
    requires At(code, s0, v, world, k, pc + length, store) && Sensible(world) && Kept(s.machine, v.machine, t)
    requires Declared(rest) && FIRST_TEMP <= t <= t1 && b == StmtCode(rest, t1) && Placed(code, pc + length, b.ops)
    ensures Came(code, s0, s, u, world, k, pc, length + |b.ops|, t, Exec(rest, store, world, fuel), fuel)
    decreases fuel, rest, 4, 1
  {
    var n := |b.ops|;
    u := StmtRuns(code, s0, v, world, k, pc + length, store, rest, t1, fuel);
    CameAfter(code, s0, s, v, u, world, k, pc, length + n, pc + length, n, t, t1, Exec(rest, store, world, fuel), fuel);
  }

  // ---------------------------------------------------------------- while

  // The pieces of a loop that starts at pc and whose guard starts at pg.
  ghost predicate LoopPlaced(code: seq<Operation>, pc: nat, pg: nat, g: Lowered, body: seq<Operation>)
  {
    pg == pc + 2 + |body| && Placed(code, pc, [Operation(Jump, 2 + |body|)]) && Placed(code, pc + 1, [Plain(Free(g.pos))]) &&
    Placed(code, pc + 2, body) && Placed(code, pg, g.ops) &&
    Placed(code, pg + |g.ops|, [Operation(Branch(false, g.pos), -1 - |g.ops| - |body|)]) &&
    Placed(code, pg + |g.ops| + 1, [Plain(Free(g.pos))])
  }

  lemma LoopPieces(code: seq<Operation>, pc: nat, pg: nat, g: Lowered, body: seq<Operation>)
    requires Placed(code, pc, WhileOps(g, body)) && pg == pc + 2 + |body|
    ensures LoopPlaced(code, pc, pg, g, body) && |WhileOps(g, body)| == |body| + |g.ops| + 4
  {
    var head, tail := WhileHead(|body|, g.pos), WhileTail(|body|, |g.ops|, g.pos);
    PlacedFour(code, pc, head, body, g.ops, tail);
    assert head == [head[0]] + [head[1]] && tail == [tail[0]] + [tail[1]];
    PlacedSplit(code, pc, [head[0]], [head[1]]);
    PlacedSplit(code, pg + |g.ops|, [tail[0]], [tail[1]]);
  }

  lemma {:induction false} WhileRuns(code: seq<Operation>, s0: State, s: State, world: World, k: nat, pc: nat, store: Store,
                                     guard: Expr, body: Stmt, t: Var, fuel: nat) returns (u: State)
    requires At(code, s0, s, world, k, pc, store) && Sensible(world)
    requires DeclaredExpr(guard) && Declared(body) && t >= FIRST_TEMP
    requires var g := ExprCode(guard, t); Placed(code, pc, WhileOps(g, StmtCode(body, g.next).ops))
    ensures var g := ExprCode(guard, t); var b := StmtCode(body, g.next);
            Came(code, s0, s, u, world, k, pc, |WhileOps(g, b.ops)|, t, Exec(While(guard, body), store, world, fuel), fuel)
    decreases fuel, body, 12
  {
    var g := ExprCode(guard, t);
    var b := StmtCode(body, g.next);
    var pg := pc + 2 + |b.ops|;
    LoopPieces(code, pc, pg, g, b.ops);
    var v := JumpRuns(code, s0, s, world, k, pc, store, 2 + |b.ops|);
    u := LoopRuns(code, s0, v, world, k, pc, pg, store, guard, body, t, fuel);
  }

  lemma JumpRuns(code: seq<Operation>, s0: State, s: State, world: World, k: nat, pc: nat, store: Store, offset: int) returns (u: State)
    requires At(code, s0, s, world, k, pc, store) && Placed(code, pc, [Operation(Jump, offset)])
    ensures At(code, s0, u, world, k, pc + offset, store) && u.machine == s.machine
  {
    var op := Operation(Jump, offset);
    PlacedAt(code, pc, [op], 0);
    ReachesNext(code, s0, s, op, world, k);
    u := After(op, s, world);
  }

  // From the guard.
  lemma {:induction false} LoopRuns(code: seq<Operation>, s0: State, s: State, world: World, k: nat, pc: nat, pg: nat, store: Store,
                                    guard: Expr, body: Stmt, t: Var, fuel: nat) returns (u: State)
    requires At(code, s0, s, world, k, pg, store) && Sensible(world)
    requires DeclaredExpr(guard) && Declared(body) && t >= FIRST_TEMP
    requires var g := ExprCode(guard, t); LoopPlaced(code, pc, pg, g, StmtCode(body, g.next).ops)
    ensures Came(code, s0, s, u, world, k, pg, |ExprCode(guard, t).ops| + 2, t, Exec(While(guard, body), store, world, fuel), fuel)
    decreases fuel, body, 11
  {
    u := s;
    if fuel > 0 && Eval(guard, store, world).Some? {
      var g, r := ExprCode(guard, t), Eval(guard, store, world).value;
      var w := GuardRuns(code, s0, s, world, k, pc, pg, store, guard, StmtCode(body, g.next).ops, t);
      if r.value == 0 {
        u := w;
      } else {
        u := RoundRuns(code, s0, w, world, k, k + 1, pc, pg, r.store, guard, body, g, StmtCode(body, g.next), t, fuel - 1, fuel);
        CameAfter(code, s0, s, w, u, world, k, pg, |g.ops| + 2, pg, |g.ops| + 2, t, t, Exec(While(guard, body), store, world, fuel), fuel);
      }
    }
  }

  // The guard and its test: to the end of the loop, or to its first free.
  lemma GuardRuns(code: seq<Operation>, s0: State, s: State, world: World, k: nat, pc: nat, pg: nat, store: Store,
                  guard: Expr, body: seq<Operation>, t: Var) returns (u: State)
    requires At(code, s0, s, world, k, pg, store) && Sensible(world)
    requires DeclaredExpr(guard) && t >= FIRST_TEMP && Eval(guard, store, world).Some? && pg == pc + 2 + |body|
    requires var g := ExprCode(guard, t);
             Placed(code, pg, g.ops) && Placed(code, pg + |g.ops|, [Operation(Branch(false, g.pos), -1 - |g.ops| - |body|)]) &&
             Placed(code, pg + |g.ops| + 1, [Plain(Free(g.pos))])
    ensures Kept(s.machine, u.machine, t)
    ensures var r := Eval(guard, store, world).value;
            if r.value == 0 then At(code, s0, u, world, k, pg + |ExprCode(guard, t).ops| + 2, r.store)
            else At(code, s0, u, world, k + 1, pc + 1, r.store)
  {
    var g, r := ExprCode(guard, t), Eval(guard, store, world).value;
    var v := ExprRuns(code, s0, s, world, k, pg, store, guard, t);
    u := GuardTested(code, s0, s, v, world, k, pc, pg, pg + |g.ops|, r.store, g.pos, -1 - |g.ops| - |body|, r.value, t);
  }

  // Behind the guard: back to the body, or on.
  lemma GuardTested(code: seq<Operation>, s0: State, s: State, v: State, world: World, k: nat, pc: nat, pg: nat, pt: nat, store: Store,
                    pos: Var, offset: int, value: int, t: Var) returns (u: State)
    requires At(code, s0, v, world, k, pt, store) && Has(v.machine, pos, value) && Kept(s.machine, v.machine, t) && FIRST_TEMP <= t <= pos
    requires Placed(code, pt, [Operation(Branch(false, pos), offset)]) && Placed(code, pt + 1, [Plain(Free(pos))])
    requires pt + offset == pc + 1
    ensures Kept(s.machine, u.machine, t)
    ensures if value == 0 then At(code, s0, u, world, k, pt + 2, store) else At(code, s0, u, world, k + 1, pc + 1, store)
  {
    u := BranchRuns(code, s0, v, world, k, pt, store, false, pos, offset, value);
    if value == 0 {
      var w := u;
      ReachesWeaker(code, s0, w, world, k + 1, k);
      u := FreeRuns(code, s0, w, world, k, pt + 1, store, pos);
    }
  }

  // The body, and then the rest of the loop.
  lemma {:induction false} RoundRuns(code: seq<Operation>, s0: State, s: State, world: World, k: nat, k1: nat, pc: nat, pg: nat,
                                     store: Store, guard: Expr, body: Stmt, g: Lowered, b: LoweredStmt, t: Var, rest: nat, fuel: nat)
    returns (u: State)
    requires k1 == k + 1 && fuel == rest + 1 && At(code, s0, s, world, k1, pc + 1, store) && Sensible(world)
    requires DeclaredExpr(guard) && Declared(body) && t >= FIRST_TEMP
    requires g == ExprCode(guard, t) && b == StmtCode(body, g.next) && LoopPlaced(code, pc, pg, g, b.ops)
    ensures Came(code, s0, s, u, world, k, pg, |g.ops| + 2, t, RoundOutcome(guard, body, store, world, rest), fuel)
    decreases rest, body, 13
  {
    var v := FreeRuns(code, s0, s, world, k1, pc + 1, store, g.pos);
    u := StmtRuns(code, s0, v, world, k1, pc + 2, store, body, g.next, rest);
    var r := Exec(body, store, world, rest);
    if r.Done? {
      var w := u;
      KeptTwice(s.machine, v.machine, w.machine, t, g.next);
      u := NextRound(code, s0, s, w, world, k, k1, pc, pg, r.store, guard, body, g, b, t, rest, fuel);
    }
  }

  // The body and what comes after it.
  ghost function RoundOutcome(guard: Expr, body: Stmt, store: Store, world: World, fuel: nat): Result
  {
    var r := Exec(body, store, world, fuel);
    if r.Done? then Exec(While(guard, body), r.store, world, fuel) else r
  }

  // Behind the body, at the guard again.
  lemma {:induction false} NextRound(code: seq<Operation>, s0: State, s: State, w: State, world: World, k: nat, k1: nat, pc: nat,
                                     pg: nat, store: Store, guard: Expr, body: Stmt, g: Lowered, b: LoweredStmt, t: Var,
                                     rest: nat, fuel: nat) returns (u: State)
    requires k1 == k + 1 && fuel == rest + 1 && At(code, s0, w, world, k1, pg, store) && Sensible(world)
    requires Kept(s.machine, w.machine, t) && DeclaredExpr(guard) && Declared(body) && t >= FIRST_TEMP
    requires g == ExprCode(guard, t) && b == StmtCode(body, g.next) && LoopPlaced(code, pc, pg, g, b.ops)
    ensures Came(code, s0, s, u, world, k, pg, |g.ops| + 2, t, Exec(While(guard, body), store, world, rest), fuel)
    decreases rest, body, 12
  {
    u := LoopRuns(code, s0, w, world, k1, pc, pg, store, guard, body, t, rest);
    WeakerRound(code, s0, s, w, u, world, k, k1, pg, |g.ops| + 2, t, Exec(While(guard, body), store, world, rest), rest, fuel);
  }

  lemma WeakerRound(code: seq<Operation>, s0: State, s: State, w: State, u: State, world: World, k: nat, k1: nat, pc: nat, length: nat,
                    t: Var, r: Result, rest: nat, fuel: nat)
    requires k1 == k + 1 && fuel == rest + 1 && Came(code, s0, w, u, world, k1, pc, length, t, r, rest) && Kept(s.machine, w.machine, t)
    ensures Came(code, s0, s, u, world, k, pc, length, t, r, fuel)
  {
  }

  // ---------------------------------------------------------------- match

  lemma {:induction false} MatchRuns(code: seq<Operation>, s0: State, s: State, world: World, k: nat, pc: nat, store: Store,
                                     subject: Expr, cases: Cases, m: Lowered, c: LoweredStmt, r: Evaluated, t: Var, fuel: nat)
    returns (u: State)
    requires At(code, s0, s, world, k, pc, store) && Sensible(world)
    requires DeclaredExpr(subject) && DeclaredCases(cases) && t >= FIRST_TEMP && Eval(subject, store, world) == Some(r)
    requires m == ExprCode(subject, t) && c == CasesCode(cases, m.pos, m.next) && Placed(code, pc, m.ops + (c.ops + [Plain(Free(m.pos))]))
    ensures Came(code, s0, s, u, world, k, pc, |m.ops| + |c.ops| + 1, t, ExecCases(cases, r.value, r.store, world, fuel), fuel)
    decreases fuel, cases, 9
  {
    var x := ExecCases(cases, r.value, r.store, world, fuel);
    PlacedThree(code, pc, m.ops, c.ops, [Plain(Free(m.pos))]);
    var v := ExprRuns(code, s0, s, world, k, pc, store, subject, t);
    var w := CasesRun(code, s0, v, world, k, pc + |m.ops|, r.store, cases, m.pos, r.value, m.next, fuel);
    CameAfter(code, s0, s, v, w, world, k, pc, |m.ops| + |c.ops|, pc + |m.ops|, |c.ops|, t, m.next, x, fuel);
    u := ThenFree(code, s0, s, w, world, k, pc, |m.ops| + |c.ops|, m.pos, t, x, fuel);
  }

  lemma {:induction false} CasesRun(code: seq<Operation>, s0: State, s: State, world: World, k: nat, pc: nat, store: Store,
                                    cases: Cases, matchPos: Var, value: int, t: Var, fuel: nat) returns (u: State)
    requires At(code, s0, s, world, k, pc, store) && Sensible(world)
    requires DeclaredCases(cases) && FIRST_TEMP <= matchPos < t && Has(s.machine, matchPos, value)
    requires Placed(code, pc, CasesCode(cases, matchPos, t).ops)
    ensures Came(code, s0, s, u, world, k, pc, |CasesCode(cases, matchPos, t).ops|, t, ExecCases(cases, value, store, world, fuel), fuel)
    decreases fuel, cases, 4
  {
    u := s;
    match cases
    case NoCases =>
    case Case(pattern, block, others) =>
      if Eval(pattern, store, world).Some? {
        var p := ExprCode(pattern, t);
        var b := StmtCode(block, p.next);
        var rest := CasesCode(others, matchPos, b.next + 1);
        FirstCasePlaced(code, pc, cases, matchPos, t, p, b, rest);
        FirstCase(cases, value, store, world, fuel);
        u := CasesFrom(code, s0, s, world, k, pc, store, cases, p, b, |p.ops| + |b.ops| + 5, rest, matchPos, value,
                       CaseOutcome(pattern, block, value, store, world, fuel), t, b.next + 1, fuel);
      }
  }

  lemma FirstCase(cases: Cases, value: int, store: Store, world: World, fuel: nat)
    requires cases.Case? && Eval(cases.pattern, store, world).Some?
    ensures var r := CaseOutcome(cases.pattern, cases.block, value, store, world, fuel);
            ExecCases(cases, value, store, world, fuel) == if r.Done? then ExecCases(cases.others, value, r.store, world, fuel) else r
  {
  }

  lemma FirstCasePlaced(code: seq<Operation>, pc: nat, cases: Cases, matchPos: Var, t: Var, p: Lowered, b: LoweredStmt, rest: LoweredStmt)
    requires cases.Case? && Placed(code, pc, CasesCode(cases, matchPos, t).ops)
    requires p == ExprCode(cases.pattern, t) && b == StmtCode(cases.block, p.next) && rest == CasesCode(cases.others, matchPos, b.next + 1)
    ensures CasePlaced(code, pc, pc + |p.ops|, matchPos, p, b) && Placed(code, pc + (|p.ops| + |b.ops| + 5), rest.ops)
    ensures |CasesCode(cases, matchPos, t).ops| == |p.ops| + |b.ops| + 5 + |rest.ops|
  {
    FirstPieces(code, pc, pc + |p.ops|, matchPos, p, b, rest);
  }

  // The pieces of a case that starts at pc, with its comparison at pc1.
  ghost predicate CasePlaced(code: seq<Operation>, pc: nat, pc1: nat, matchPos: Var, p: Lowered, b: LoweredStmt)
  {
    Placed(code, pc, p.ops) && BlockPlaced(code, pc1, matchPos, p.pos, b)
  }

  ghost predicate BlockPlaced(code: seq<Operation>, pc1: nat, matchPos: Var, patternPos: Var, b: LoweredStmt)
  {
    Placed(code, pc1, CaseHead(matchPos, patternPos, b.next, |b.ops|)) && Placed(code, pc1 + 4, b.ops) &&
    Placed(code, pc1 + 4 + |b.ops|, [Plain(Free(b.next))])
  }

  lemma FirstPieces(code: seq<Operation>, pc: nat, pc1: nat, matchPos: Var, p: Lowered, b: LoweredStmt, rest: LoweredStmt)
    requires Placed(code, pc, CaseOps(matchPos, p, b) + rest.ops) && pc1 == pc + |p.ops|
    ensures CasePlaced(code, pc, pc1, matchPos, p, b) && |CaseOps(matchPos, p, b)| == |p.ops| + |b.ops| + 5
    ensures Placed(code, pc + |p.ops| + |b.ops| + 5, rest.ops)
  {
    PlacedSplit(code, pc, CaseOps(matchPos, p, b), rest.ops);
    PlacedFour(code, pc, p.ops, CaseHead(matchPos, p.pos, b.next, |b.ops|), b.ops, [Plain(Free(b.next))]);
  }

  lemma {:induction false} CasesFrom(code: seq<Operation>, s0: State, s: State, world: World, k: nat, pc: nat, store: Store,
                                     cases: Cases, p: Lowered, b: LoweredStmt, length: nat, rest: LoweredStmt,
                                     matchPos: Var, value: int, r: Result, t: Var, t1: Var, fuel: nat) returns (u: State)
    requires At(code, s0, s, world, k, pc, store) && Sensible(world) && cases.Case? && DeclaredCases(cases)
    requires FIRST_TEMP <= matchPos < t && Has(s.machine, matchPos, value)
    requires p == ExprCode(cases.pattern, t) && b == StmtCode(cases.block, p.next)
    requires t1 == b.next + 1 && rest == CasesCode(cases.others, matchPos, t1)
    requires length == |p.ops| + |b.ops| + 5 && CasePlaced(code, pc, pc + |p.ops|, matchPos, p, b) && Placed(code, pc + length, rest.ops)
    requires Eval(cases.pattern, store, world).Some? && r == CaseOutcome(cases.pattern, cases.block, value, store, world, fuel)
    ensures Came(code, s0, s, u, world, k, pc, length + |rest.ops|, t,
                 if r.Done? then ExecCases(cases.others, value, r.store, world, fuel) else r, fuel)
    decreases fuel, cases, 3
  {
    var v := CaseRuns(code, s0, s, world, k, pc, store, cases.pattern, cases.block, p, b, length, matchPos, value, r, t, fuel);
    u := OthersRun(code, s0, s, v, world, k, pc, length, r, cases.others, rest, matchPos, value, t, t1, fuel);
  }

  // The cases after one that came to r.
  lemma {:induction false} OthersRun(code: seq<Operation>, s0: State, s: State, v: State, world: World, k: nat, pc: nat,
                                     length: nat, r: Result, others: Cases, rest: LoweredStmt, matchPos: Var, value: int,
                                     t: Var, t1: Var, fuel: nat) returns (u: State)
    requires Came(code, s0, s, v, world, k, pc, length, t, r, fuel) && Sensible(world)
    requires DeclaredCases(others) && FIRST_TEMP <= matchPos < t <= t1 && Has(s.machine, matchPos, value)
    requires rest == CasesCode(others, matchPos, t1) && Placed(code, pc + length, rest.ops)
    ensures Came(code, s0, s, u, world, k, pc, length + |rest.ops|, t,
                 if r.Done? then ExecCases(others, value, r.store, world, fuel) else r, fuel)
    decreases fuel, others, 7
  {
    u := v;
    if r.Done? {
      assert Has(v.machine, matchPos, s.machine.env[matchPos]);
      u := CasesRun(code, s0, v, world, k, pc + length, r.store, others, matchPos, value, t1, fuel);
      CameAfter(code, s0, s, v, u, world, k, pc, length + |rest.ops|, pc + length, |rest.ops|, t, t1,
                ExecCases(others, value, r.store, world, fuel), fuel);
    }
  }

  function CaseOutcome(pattern: Expr, block: Stmt, value: int, store: Store, world: World, fuel: nat): Result
  {
    match Eval(pattern, store, world)
    case None => Failed
    case Some(p) => if value == p.value then Exec(block, p.store, world, fuel) else Done(p.store)
  }

  // One case.
  lemma {:induction false} CaseRuns(code: seq<Operation>, s0: State, s: State, world: World, k: nat, pc: nat, store: Store,
                                    pattern: Expr, block: Stmt, p: Lowered, b: LoweredStmt, length: nat, matchPos: Var, value: int,
                                    r: Result, t: Var, fuel: nat) returns (u: State)
    requires At(code, s0, s, world, k, pc, store) && Sensible(world) && Eval(pattern, store, world).Some?
    requires DeclaredExpr(pattern) && Declared(block) && FIRST_TEMP <= matchPos < t && Has(s.machine, matchPos, value)
    requires p == ExprCode(pattern, t) && b == StmtCode(block, p.next) && length == |p.ops| + |b.ops| + 5
    requires CasePlaced(code, pc, pc + |p.ops|, matchPos, p, b) && r == CaseOutcome(pattern, block, value, store, world, fuel)
    ensures Came(code, s0, s, u, world, k, pc, length, t, r, fuel)
    decreases fuel, block, 6
  {
    var q, pc1 := Eval(pattern, store, world).value, pc + |p.ops|;
    assert BlockPlaced(code, pc1, matchPos, p.pos, b);
    var v := ExprRuns(code, s0, s, world, k, pc, store, pattern, t);
    assert Has(v.machine, matchPos, s.machine.env[matchPos]);
    u := CaseRest(code, s0, v, world, k, pc1, q.store, block, p, b, matchPos, value, q.value, r, t, fuel);
    CameAfter(code, s0, s, v, u, world, k, pc, length, pc1, |b.ops| + 5, t, t, r, fuel);
  }

  // From the pattern's value y.
  lemma {:induction false} CaseRest(code: seq<Operation>, s0: State, s: State, world: World, k: nat, pc: nat, store: Store,
                                    block: Stmt, p: Lowered, b: LoweredStmt, matchPos: Var, value: int, y: int,
                                    r: Result, t: Var, fuel: nat) returns (u: State)
    requires At(code, s0, s, world, k, pc, store) && Sensible(world)
    requires Declared(block) && FIRST_TEMP <= matchPos < t <= p.pos < p.next && Has(s.machine, matchPos, value) && Has(s.machine, p.pos, y)
    requires b == StmtCode(block, p.next) && BlockPlaced(code, pc, matchPos, p.pos, b)
    requires r == if value == y then Exec(block, store, world, fuel) else Done(store)
    ensures Came(code, s0, s, u, world, k, pc, |b.ops| + 5, t, r, fuel)
    decreases fuel, block, 5
  {
    var w := CaseHeadRuns(code, s0, s, world, k, pc, store, matchPos, p.pos, b.next, |b.ops|, value, y, t);
    u := BlockRuns(code, s0, w, world, k, pc + 4, store, block, p.next, t, value == y, fuel);
    CameAfter(code, s0, s, w, u, world, k, pc, |b.ops| + 5, pc + 4, |b.ops| + 1, t, t, r, fuel);
  }

  // The comparison, and the test that skips the block.
  lemma CaseHeadRuns(code: seq<Operation>, s0: State, s: State, world: World, k: nat, pc: nat, store: Store,
                     matchPos: Var, patternPos: Var, tmp: Var, blockLength: nat, x: int, y: int, t: Var) returns (u: State)
    requires At(code, s0, s, world, k, pc, store) && Sensible(world)
    requires Placed(code, pc, CaseHead(matchPos, patternPos, tmp, blockLength)) && FIRST_TEMP <= matchPos < t <= patternPos < tmp
    requires Has(s.machine, matchPos, x) && Has(s.machine, patternPos, y)
    ensures At(code, s0, u, world, k, if x == y then pc + 4 else pc + 4 + blockLength, store) && Kept(s.machine, u.machine, t)
  {
    var head := CaseHead(matchPos, patternPos, tmp, blockLength);
    assert head == [head[0]] + ([head[1]] + ([head[2]] + [head[3]]));
    PlacedFour(code, pc, [head[0]], [head[1]], [head[2]], [head[3]]);
    var v := ComputeRuns(code, s0, s, world, k, pc, store, Binary(EQ), tmp, [matchPos, patternPos], [x, y]);
    var w := FreeRuns(code, s0, v, world, k, pc + 1, store, patternPos);
    var z := Answer(world, Event(Binary(EQ), [x, y]));
    assert Has(w.machine, tmp, v.machine.env[tmp]);
    KeptTwice(s.machine, v.machine, w.machine, t, t);
    u := CaseTested(code, s0, s, w, world, k, pc + 2, store, tmp, 2 + blockLength, z, t);
  }

  // Behind the comparison: into the block, or over it.
  lemma CaseTested(code: seq<Operation>, s0: State, s: State, w: State, world: World, k: nat, pc: nat, store: Store,
                   tmp: Var, offset: int, value: int, t: Var) returns (u: State)
    requires At(code, s0, w, world, k, pc, store) && Has(w.machine, tmp, value) && Kept(s.machine, w.machine, t) && FIRST_TEMP <= t <= tmp
    requires Placed(code, pc, [Operation(Branch(true, tmp), offset)]) && Placed(code, pc + 1, [Plain(Free(tmp))])
    ensures At(code, s0, u, world, k, if value != 0 then pc + 2 else pc + offset, store) && Kept(s.machine, u.machine, t)
  {
    u := BranchRuns(code, s0, w, world, k, pc, store, true, tmp, offset, value);
    ReachesWeaker(code, s0, u, world, k + 1, k);
    if value != 0 {
      var q := u;
      u := FreeRuns(code, s0, q, world, k, pc + 1, store, tmp);
    }
  }

  // The block, if the pattern matched, and the free behind it.
  lemma {:induction false} BlockRuns(code: seq<Operation>, s0: State, s: State, world: World, k: nat, pc: nat, store: Store,
                                     block: Stmt, t1: Var, t: Var, matches: bool, fuel: nat) returns (u: State)
    requires Sensible(world) && Declared(block) && FIRST_TEMP <= t <= t1
    requires var b := StmtCode(block, t1);
             At(code, s0, s, world, k, if matches then pc else pc + |b.ops|, store) &&
             Placed(code, pc, b.ops) && Placed(code, pc + |b.ops|, [Plain(Free(b.next))])
    ensures Came(code, s0, s, u, world, k, pc, |StmtCode(block, t1).ops| + 1, t,
                 if matches then Exec(block, store, world, fuel) else Done(store), fuel)
    decreases fuel, block, 4, 1
  {
    var b, x := StmtCode(block, t1), if matches then Exec(block, store, world, fuel) else Done(store);
    u := s;
    if matches {
      u := StmtRuns(code, s0, s, world, k, pc, store, block, t1, fuel);
      if x.Done? { KeptTwice(s.machine, u.machine, u.machine, t, t); }
    }
    u := ThenFree(code, s0, s, u, world, k, pc, |b.ops|, b.next, t, x, fuel);
  }

  // ---------------------------------------------------------------- whole programs

  // Code at position pc of anything: when the program is done, so is its code, with the
  // same values in the program's variables; while the program is not, its code is not.
  lemma LoweringIsCorrect(prefix: seq<Operation>, program: Stmt, suffix: seq<Operation>, m: Machine, store: Store,
                          world: World, t: Var, fuel: nat) returns (u: State)
    requires Sensible(world) && Declared(program) && t >= FIRST_TEMP && Holds(m, store)
    ensures var ops := StmtCode(program, t).ops;
            var code, r := prefix + ops + suffix, Exec(program, store, world, fuel);
            (r.Done? ==> Reaches(code, State(|prefix|, m), u, world, 0) && u.pc == |prefix| + |ops| && Holds(u.machine, r.store)) &&
            (r.OutOfFuel? ==> Reaches(code, State(|prefix|, m), u, world, fuel))
  {
    var ops := StmtCode(program, t).ops;
    var code, s := prefix + ops + suffix, State(|prefix|, m);
    ReachesItself(code, s, world);
    u := StmtRuns(code, s, s, world, 0, |prefix|, store, program, t, fuel);
  }
}
