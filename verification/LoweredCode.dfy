// What the lowered code never does: jump out of itself, jump back except from the
// end of a loop, use a temporary it was not given, use more than three variables at once.
module LoweredCode {
  import opened Ir
  import opened LinearCode
  import opened Source
  import opened Lowering
  import opened SpillRun

  ghost predicate OpFits(ops: seq<Operation>, bound: Var, i: int)
    requires 0 <= i < |ops|
  {
    OpAtFits(ops[i], bound, i, |ops|)
  }

  ghost predicate Fits(ops: seq<Operation>, bound: Var)
  {
    forall i :: 0 <= i < |ops| ==> OpFits(ops, bound, i)
  }

  // The part of the operations from lo up to hi.
  ghost predicate FitsFrom(ops: seq<Operation>, bound: Var, lo: int, hi: int)
  {
    0 <= lo <= hi <= |ops| && forall i :: lo <= i < hi ==> OpFits(ops, bound, i)
  }

  lemma PieceFits(ops: seq<Operation>, bound: Var, base: nat, piece: seq<Operation>, b: Var, end: nat)
    requires Placed(ops, base, piece) && Fits(piece, b) && b <= bound && end == base + |piece|
    ensures FitsFrom(ops, bound, base, end)
  {
    forall i | base <= i < end ensures OpFits(ops, bound, i) {
      assert OpFits(piece, b, i - base);
      assert ops[i] == piece[i - base];
    }
  }

  lemma WholePlaced(ops: seq<Operation>)
    ensures Placed(ops, 0, ops)
  {
  }

  lemma TwoFit(xs: seq<Operation>, bound1: Var, ys: seq<Operation>, bound2: Var)
    requires Fits(xs, bound1) && Fits(ys, bound2) && bound1 <= bound2
    ensures Fits(xs + ys, bound2)
  {
    WholePlaced(xs + ys);
    PlacedSplit(xs + ys, 0, xs, ys);
    PieceFits(xs + ys, bound2, 0, xs, bound1, |xs|);
    PieceFits(xs + ys, bound2, |xs|, ys, bound2, |xs| + |ys|);
  }

  lemma {:induction false} ExprFits(e: Expr, t: Var)
    requires DeclaredExpr(e) && t >= FIRST_TEMP
    ensures Fits(ExprCode(e, t).ops, ExprCode(e, t).next)
  {
    match e
    case Literal(_) =>
    case Name(_) =>
    case Assign(targets, source) =>
      ExprFits(source, t);
      var l := ExprCode(source, t);
      TwoFit(l.ops, l.next, Moves(targets, l.pos), l.next);
    case Infix(op, left, right) =>
      ExprFits(left, t);
      var a := ExprCode(left, t);
      ExprFits(right, a.next);
      var b := ExprCode(right, a.next);
      if op.Arithmetic? {
        ArithmeticFits(op.operator, a, b);
      } else {
        LogicFits(op == And, a, b);
      }
  }

  lemma ArithmeticFits(k: int, a: Lowered, b: Lowered)
    requires Fits(a.ops, a.next) && Fits(b.ops, b.next) && a.pos < a.next <= b.pos < b.next
    ensures Fits(ArithmeticOps(k, a, b), b.next + 1)
  {
    var tail := ArithmeticTail(k, b.next, a.pos, b.pos);
    assert Fits(tail, b.next + 1);
    TwoFit(b.ops, b.next, tail, b.next + 1);
    TwoFit(a.ops, a.next, b.ops + tail, b.next + 1);
  }

  lemma LogicFits(isAnd: bool, a: Lowered, b: Lowered)
    requires Fits(a.ops, a.next) && Fits(b.ops, b.next) && a.pos < a.next <= b.pos < b.next
    ensures Fits(LogicOps(isAnd, a, b), b.next + 1)
  {
    LogicRestFits(isAnd, a.pos, b);
    TwoFit(a.ops, a.next, LogicHead(isAnd, a.pos, |b.ops|) + (b.ops + LogicTail(isAnd, b.next, b.pos)), b.next + 1);
  }

  lemma LogicRestFits(isAnd: bool, pos: Var, b: Lowered)
    requires Fits(b.ops, b.next) && pos < b.pos < b.next
    ensures Fits(LogicHead(isAnd, pos, |b.ops|) + (b.ops + LogicTail(isAnd, b.next, b.pos)), b.next + 1)
  {
    MiddleFits(LogicHead(isAnd, pos, |b.ops|), b.ops, b.next, LogicTail(isAnd, b.next, b.pos), b.next + 1);
  }

  // Operations between a head and a tail that fit, and fit themselves.
  lemma EndsFit(ops: seq<Operation>, bound: Var, head: seq<Operation>, tail: seq<Operation>, n: nat)
    requires Placed(ops, 0, head) && Placed(ops, |head| + n, tail) && |ops| == |head| + n + |tail|
    requires FitsFrom(ops, bound, |head|, |head| + n)
    requires forall i :: 0 <= i < |head| ==> OpAtFits(head[i], bound, i, |ops|)
    requires forall i :: 0 <= i < |tail| ==> OpAtFits(tail[i], bound, |head| + n + i, |ops|)
    ensures Fits(ops, bound)
  {
    forall i | 0 <= i < |ops| ensures OpFits(ops, bound, i) {
      if i < |head| {
        assert ops[i] == head[i] && OpAtFits(head[i], bound, i, |ops|);
      } else if i >= |head| + n {
        var j := i - |head| - n;
        assert ops[i] == tail[j] && OpAtFits(tail[j], bound, |head| + n + j, |ops|);
      }
    }
  }

  lemma MiddleFits(head: seq<Operation>, middle: seq<Operation>, b: Var, tail: seq<Operation>, bound: Var)
    requires Fits(middle, b) && b <= bound
    requires forall i :: 0 <= i < |head| ==> OpAtFits(head[i], bound, i, |head| + |middle| + |tail|)
    requires forall i :: 0 <= i < |tail| ==> OpAtFits(tail[i], bound, |head| + |middle| + i, |head| + |middle| + |tail|)
    ensures Fits(head + (middle + tail), bound)
  {
    var ops := head + (middle + tail);
    WholePlaced(ops);
    PlacedThree(ops, 0, head, middle, tail);
    PieceFits(ops, bound, |head|, middle, b, |head| + |middle|);
    EndsFit(ops, bound, head, tail, |middle|);
  }

  ghost predicate OpAtFits(op: Operation, bound: Var, i: int, length: nat)
  {
    (op.instr.Jump? || op.instr.Branch? ==> 0 <= i + op.offset <= length) && (op.instr.Jump? ==> op.offset > 0) &&
    VarsBelow(op.instr, bound) && !op.instr.Load? && !op.instr.Store? && (op.instr.Compute? ==> |op.instr.args| <= 2)
  }

  lemma {:induction false} StmtFits(s: Stmt, t: Var)
    requires Declared(s) && t >= FIRST_TEMP
    ensures Fits(StmtCode(s, t).ops, StmtCode(s, t).next)
  {
    match s
    case Skip =>
    case Then(first, rest) =>
      var a := StmtCode(first, t);
      StmtFits(first, t);
      StmtFits(rest, a.next);
      TwoFit(a.ops, a.next, StmtCode(rest, a.next).ops, StmtCode(rest, a.next).next);
    case Evaluate(e) =>
      var l := ExprCode(e, t);
      ExprFits(e, t);
      TwoFit(l.ops, l.next, [Plain(Free(l.pos))], l.next);
    case While(guard, body) =>
      var g := ExprCode(guard, t);
      ExprFits(guard, t);
      StmtFits(body, g.next);
      WhileFits(g, StmtCode(body, g.next));
    case Match(subject, cases) =>
      var m := ExprCode(subject, t);
      var c := CasesCode(cases, m.pos, m.next);
      ExprFits(subject, t);
      CasesFit(cases, m.pos, m.next);
      TwoFit(c.ops, c.next, [Plain(Free(m.pos))], c.next);
      TwoFit(m.ops, m.next, c.ops + [Plain(Free(m.pos))], c.next);
  }

  lemma WhileEndsFit(n: nat, k: nat, pos: Var, bound: Var, length: nat, head: seq<Operation>, tail: seq<Operation>)
    requires pos < bound && length == n + k + 4 && head == WhileHead(n, pos) && tail == WhileTail(n, k, pos)
    ensures forall i :: 0 <= i < |head| ==> OpAtFits(head[i], bound, i, length) && LandsAt(head[i], i, length)
    ensures forall i :: 0 <= i < |tail| ==>
              OpAtFits(tail[i], bound, 2 + n + k + i, length) && LandsAt(tail[i], 2 + n + k + i, length)
  {
  }

  lemma WhileFits(g: Lowered, b: LoweredStmt)
    requires Fits(g.ops, g.next) && Fits(b.ops, b.next) && g.pos < g.next <= b.next
    ensures Fits(WhileOps(g, b.ops), b.next)
  {
    var ops, n, k := WhileOps(g, b.ops), |b.ops|, |g.ops|;
    var head, tail := WhileHead(n, g.pos), WhileTail(n, k, g.pos);
    WholePlaced(ops);
    PlacedFour(ops, 0, head, b.ops, g.ops, tail);
    PieceFits(ops, b.next, 2, b.ops, b.next, 2 + n);
    PieceFits(ops, b.next, 2 + n, g.ops, g.next, 2 + n + k);
    assert FitsFrom(ops, b.next, 2, 2 + n + k);
    WhileEndsFit(n, k, g.pos, b.next, n + k + 4, head, tail);
    EndsFit(ops, b.next, head, tail, n + k);
  }

  lemma {:induction false} CasesFit(cases: Cases, matchPos: Var, t: Var)
    requires DeclaredCases(cases) && FIRST_TEMP <= matchPos < t
    ensures Fits(CasesCode(cases, matchPos, t).ops, CasesCode(cases, matchPos, t).next)
  {
    match cases
    case NoCases =>
    case Case(pattern, block, others) =>
      var p := ExprCode(pattern, t);
      var b := StmtCode(block, p.next);
      ExprFits(pattern, t);
      StmtFits(block, p.next);
      CaseFits(matchPos, p, b);
      CasesFit(others, matchPos, b.next + 1);
      var rest := CasesCode(others, matchPos, b.next + 1);
      TwoFit(CaseOps(matchPos, p, b), b.next + 1, rest.ops, rest.next);
  }

  lemma CaseFits(matchPos: Var, p: Lowered, b: LoweredStmt)
    requires Fits(p.ops, p.next) && Fits(b.ops, b.next) && matchPos < p.pos < p.next <= b.next
    ensures Fits(CaseOps(matchPos, p, b), b.next + 1)
  {
    CaseRestFits(matchPos, p.pos, b);
    TwoFit(p.ops, p.next, CaseHead(matchPos, p.pos, b.next, |b.ops|) + (b.ops + [Plain(Free(b.next))]), b.next + 1);
  }

  lemma CaseRestFits(matchPos: Var, pos: Var, b: LoweredStmt)
    requires Fits(b.ops, b.next) && matchPos < pos < b.next
    ensures Fits(CaseHead(matchPos, pos, b.next, |b.ops|) + (b.ops + [Plain(Free(b.next))]), b.next + 1)
  {
    var n, bound := |b.ops|, b.next + 1;
    var head := CaseHead(matchPos, pos, b.next, n);
    CaseHeadFits(matchPos, pos, b.next, bound, n, n + 5, head);
    FreeFits(b.next, bound, 4 + n, n + 5);
    MiddleFits(head, b.ops, b.next, [Plain(Free(b.next))], bound);
  }

  lemma FreeFits(v: Var, bound: Var, i: nat, length: nat)
    requires v < bound
    ensures OpAtFits(Plain(Free(v)), bound, i, length)
  {
  }

  lemma CaseHeadFits(matchPos: Var, pos: Var, tmp: Var, bound: Var, blockLength: nat, length: nat, head: seq<Operation>)
    requires matchPos < pos < tmp < bound && length == blockLength + 5 && head == CaseHead(matchPos, pos, tmp, blockLength)
    ensures forall i :: 0 <= i < |head| ==> OpAtFits(head[i], bound, i, length)
  {
  }

  // ---------------------------------------------------------------- where jumps land

  // On an operation, not behind the last one.
  ghost predicate LandsAt(op: Operation, i: int, length: nat)
  {
    op.instr.Jump? || op.instr.Branch? ==> i + op.offset < length
  }

  ghost predicate Lands(ops: seq<Operation>, i: int)
    requires 0 <= i < |ops|
  {
    LandsAt(ops[i], i, |ops|)
  }

  ghost predicate AllLand(ops: seq<Operation>)
  {
    forall i :: 0 <= i < |ops| ==> Lands(ops, i)
  }

  ghost predicate LandFrom(ops: seq<Operation>, lo: int, hi: int)
  {
    0 <= lo <= hi <= |ops| && forall i :: lo <= i < hi ==> Lands(ops, i)
  }

  lemma PieceLands(ops: seq<Operation>, base: nat, piece: seq<Operation>, end: nat)
    requires Placed(ops, base, piece) && AllLand(piece) && end == base + |piece|
    ensures LandFrom(ops, base, end)
  {
    forall i | base <= i < end ensures Lands(ops, i) {
      assert Lands(piece, i - base);
      assert ops[i] == piece[i - base];
    }
  }

  // A jump to the end of an expression lands on what comes behind it.
  lemma FollowedLands(ops: seq<Operation>, base: nat, piece: seq<Operation>, b: Var, end: nat)
    requires Placed(ops, base, piece) && Fits(piece, b) && end == base + |piece| < |ops|
    ensures LandFrom(ops, base, end)
  {
    forall i | base <= i < end ensures Lands(ops, i) {
      assert OpFits(piece, b, i - base);
      assert ops[i] == piece[i - base];
    }
  }

  lemma TwoLand(xs: seq<Operation>, ys: seq<Operation>)
    requires AllLand(xs) && AllLand(ys)
    ensures AllLand(xs + ys)
  {
    WholePlaced(xs + ys);
    PlacedSplit(xs + ys, 0, xs, ys);
    PieceLands(xs + ys, 0, xs, |xs|);
    PieceLands(xs + ys, |xs|, ys, |xs| + |ys|);
  }

  // What comes behind an expression.
  lemma BehindLands(xs: seq<Operation>, bound: Var, ys: seq<Operation>)
    requires Fits(xs, bound) && AllLand(ys) && ys != []
    ensures AllLand(xs + ys)
  {
    WholePlaced(xs + ys);
    PlacedSplit(xs + ys, 0, xs, ys);
    FollowedLands(xs + ys, 0, xs, bound, |xs|);
    PieceLands(xs + ys, |xs|, ys, |xs| + |ys|);
  }

  lemma {:induction false} StmtLands(s: Stmt, t: Var)
    requires Declared(s) && t >= FIRST_TEMP
    ensures AllLand(StmtCode(s, t).ops)
  {
    match s
    case Skip =>
    case Then(first, rest) =>
      StmtLands(first, t);
      StmtLands(rest, StmtCode(first, t).next);
      TwoLand(StmtCode(first, t).ops, StmtCode(rest, StmtCode(first, t).next).ops);
    case Evaluate(e) =>
      ExprFits(e, t);
      BehindLands(ExprCode(e, t).ops, ExprCode(e, t).next, [Plain(Free(ExprCode(e, t).pos))]);
    case While(guard, body) =>
      ExprFits(guard, t);
      StmtLands(body, ExprCode(guard, t).next);
      WhileLands(ExprCode(guard, t), StmtCode(body, ExprCode(guard, t).next).ops);
    case Match(subject, cases) =>
      var m := ExprCode(subject, t);
      var c := CasesCode(cases, m.pos, m.next);
      ExprFits(subject, t);
      CasesLand(cases, m.pos, m.next);
      TwoLand(c.ops, [Plain(Free(m.pos))]);
      BehindLands(m.ops, m.next, c.ops + [Plain(Free(m.pos))]);
  }

  lemma EndsLand(ops: seq<Operation>, head: seq<Operation>, tail: seq<Operation>, n: nat)
    requires Placed(ops, 0, head) && Placed(ops, |head| + n, tail) && |ops| == |head| + n + |tail|
    requires LandFrom(ops, |head|, |head| + n)
    requires forall i :: 0 <= i < |head| ==> LandsAt(head[i], i, |ops|)
    requires forall i :: 0 <= i < |tail| ==> LandsAt(tail[i], |head| + n + i, |ops|)
    ensures AllLand(ops)
  {
    forall i | 0 <= i < |ops| ensures Lands(ops, i) {
      if i < |head| {
        assert ops[i] == head[i] && LandsAt(head[i], i, |ops|);
      } else if i >= |head| + n {
        var j := i - |head| - n;
        assert ops[i] == tail[j] && LandsAt(tail[j], |head| + n + j, |ops|);
      }
    }
  }

  lemma WhileLands(g: Lowered, body: seq<Operation>)
    requires Fits(g.ops, g.next) && AllLand(body)
    ensures AllLand(WhileOps(g, body))
  {
    var ops, n, k := WhileOps(g, body), |body|, |g.ops|;
    var head, tail := WhileHead(n, g.pos), WhileTail(n, k, g.pos);
    WholePlaced(ops);
    PlacedFour(ops, 0, head, body, g.ops, tail);
    PieceLands(ops, 2, body, 2 + n);
    FollowedLands(ops, 2 + n, g.ops, g.next, 2 + n + k);
    WhileEndsFit(n, k, g.pos, g.pos + 1, n + k + 4, head, tail);
    EndsLand(ops, head, tail, n + k);
  }

  lemma {:induction false} CasesLand(cases: Cases, matchPos: Var, t: Var)
    requires DeclaredCases(cases) && FIRST_TEMP <= matchPos < t
    ensures AllLand(CasesCode(cases, matchPos, t).ops)
  {
    match cases
    case NoCases =>
    case Case(pattern, block, others) =>
      var p := ExprCode(pattern, t);
      var b := StmtCode(block, p.next);
      ExprFits(pattern, t);
      StmtLands(block, p.next);
      CaseLands(matchPos, p, b);
      CasesLand(others, matchPos, b.next + 1);
      TwoLand(CaseOps(matchPos, p, b), CasesCode(others, matchPos, b.next + 1).ops);
  }

  lemma MiddleLands(head: seq<Operation>, middle: seq<Operation>, tail: seq<Operation>, length: nat)
    requires AllLand(middle) && tail != [] && length == |head| + |middle| + |tail|
    requires forall i :: 0 <= i < |head| ==> LandsAt(head[i], i, length)
    requires forall i :: 0 <= i < |tail| ==> !tail[i].instr.Jump? && !tail[i].instr.Branch?
    ensures AllLand(head + (middle + tail))
  {
    var ops := head + (middle + tail);
    WholePlaced(ops);
    PlacedThree(ops, 0, head, middle, tail);
    PieceLands(ops, |head|, middle, |head| + |middle|);
    EndsLand(ops, head, tail, |middle|);
  }

  lemma CaseLands(matchPos: Var, p: Lowered, b: LoweredStmt)
    requires Fits(p.ops, p.next) && AllLand(b.ops)
    ensures AllLand(CaseOps(matchPos, p, b))
  {
    var head, tail := CaseHead(matchPos, p.pos, b.next, |b.ops|), [Plain(Free(b.next))];
    MiddleLands(head, b.ops, tail, 5 + |b.ops|);
    BehindLands(p.ops, p.next, head + (b.ops + tail));
  }
}
