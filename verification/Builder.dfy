// The builders: loops over the parsed tree that append operations, take temporaries
// from a counter and patch jump offsets in place. They produce exactly the code
// of Lowering, with operator chains grouped to the left.
module Builder {
  import opened Wrappers
  import opened Ir
  import opened LinearCode
  import opened Source
  import opened Lowering

  // ---------------------------------------------------------------- the parsed tree

  // An operator chain stays flat: first op operand op operand ...
  datatype Node =
    | IntegerNode(value: int)
    | NameNode(v: Var)
    | ChainNode(first: Node, links: seq<Link>)
    | SetNode(targets: seq<Var>, source: Node)

  datatype Link = Link(op: Operator, operand: Node)

  datatype Statement =
    | ExpressionStatement(e: Node)
    | WhileStatement(guard: Node, body: seq<Statement>)
    | MatchStatement(subject: Node, cases: seq<CaseBranch>)

  datatype CaseBranch = CaseBranch(pattern: Node, block: seq<Statement>)

  function Grouped(n: Node): Expr
    decreases n, if n.ChainNode? then |n.links| + 1 else 0
  {
    match n
    case IntegerNode(c) => Literal(c)
    case NameNode(v) => Name(v)
    case ChainNode(_, links) => GroupedLinks(n, |links|)
    case SetNode(targets, source) => Assign(targets, Grouped(source))
  }

  function GroupedLinks(n: Node, k: nat): Expr
    requires n.ChainNode? && k <= |n.links|
    decreases n, k
  {
    if k == 0 then Grouped(n.first)
    else Infix(n.links[k - 1].op, GroupedLinks(n, k - 1), Grouped(n.links[k - 1].operand))
  }

  function Meant(s: Statement): Stmt
  {
    match s
    case ExpressionStatement(e) => Evaluate(Grouped(e))
    case WhileStatement(guard, body) => While(Grouped(guard), MeantBlock(body))
    case MatchStatement(subject, cases) => Match(Grouped(subject), MeantCases(cases))
  }

  function MeantBlock(ss: seq<Statement>): Stmt
  {
    if ss == [] then Skip else Then(Meant(ss[0]), MeantBlock(ss[1..]))
  }

  function MeantCases(cs: seq<CaseBranch>): Cases
  {
    if cs == [] then NoCases else Case(Grouped(cs[0].pattern), MeantBlock(cs[0].block), MeantCases(cs[1..]))
  }

  lemma BlockUnfolds(ss: seq<Statement>, i: nat)
    requires i < |ss|
    ensures MeantBlock(ss[i..]) == Then(Meant(ss[i]), MeantBlock(ss[i + 1..]))
  {
    assert ss[i..][0] == ss[i] && ss[i..][1..] == ss[i + 1..];
  }

  lemma CasesUnfold(cs: seq<CaseBranch>, i: nat)
    requires i < |cs|
    ensures MeantCases(cs[i..]) == Case(Grouped(cs[i].pattern), MeantBlock(cs[i].block), MeantCases(cs[i + 1..]))
  {
    assert cs[i..][0] == cs[i] && cs[i..][1..] == cs[i + 1..];
  }

  // ---------------------------------------------------------------- the builders

  function FreeTemp(ops: seq<Operation>, id: Var): seq<Operation>
  {
    if id >= FIRST_TEMP then ops + [Plain(Free(id))] else ops
  }

  // && and ||: both jumps are appended with offset -1 and patched at the end.
  method LogicLink(isAnd: bool, t: seq<Operation>, pos: Var, t2: seq<Operation>, pos2: Var, tmp: Var) returns (ops: seq<Operation>)
    requires pos >= FIRST_TEMP && pos2 >= FIRST_TEMP
    ensures forall next :: ops == LogicOps(isAnd, Lowered(t, pos, next), Lowered(t2, pos2, tmp))
  {
    var short := if isAnd then 0 else -1;
    ops := t;
    var aJmp := |ops|;
    ops := FreeTemp(ops + [Operation(Branch(isAnd, pos), -1)], pos);
    ops := ops + t2;
    ops := ops + [Plain(Compute(NewInt(-1 - short), Some(tmp), []))];
    var bJmp := |ops|;
    ops := FreeTemp(ops + [Operation(Branch(!isAnd, pos2), -1)], pos2);
    var push := |ops|;
    ops := ops + [Plain(Compute(NewInt(short), Some(tmp), []))];
    ops := ops[aJmp := ops[aJmp].(offset := push - aJmp)];
    ops := ops[bJmp := ops[bJmp].(offset := |ops| - bJmp)];
    assert ops == t + (LogicHead(isAnd, pos, |t2|) + (t2 + LogicTail(isAnd, tmp, pos2)));
  }

  method ArithmeticLink(k: int, t: seq<Operation>, pos: Var, t2: seq<Operation>, pos2: Var, tmp: Var) returns (ops: seq<Operation>)
    requires pos >= FIRST_TEMP && pos2 >= FIRST_TEMP
    ensures forall next :: ops == ArithmeticOps(k, Lowered(t, pos, next), Lowered(t2, pos2, tmp))
  {
    ops := t + t2 + [Plain(Compute(Binary(k), Some(tmp), [pos, pos2]))];
    ops := FreeTemp(ops, pos2);
    ops := FreeTemp(ops, pos);
    assert ops == t + (t2 + ArithmeticTail(k, tmp, pos, pos2));
  }

  class BuildContext {
    var nextTempId: Var

    constructor (first: Var)
      ensures nextTempId == first
    {
      nextTempId := first;
    }

    method NewTemp() returns (tmp: Var)
      modifies this
      ensures tmp == old(nextTempId) && nextTempId == tmp + 1
    {
      tmp := nextTempId;
      nextTempId := nextTempId + 1;
    }

    method BuildExpression(n: Node) returns (ops: seq<Operation>, pos: Var)
      requires nextTempId >= FIRST_TEMP
      modifies this
      ensures ExprCode(Grouped(n), old(nextTempId)) == Lowered(ops, pos, nextTempId)
      ensures old(nextTempId) <= pos < nextTempId
      decreases n, 1
    {
      match n
      case IntegerNode(c) =>
        pos := NewTemp();
        ops := [Plain(Compute(NewInt(c), Some(pos), []))];
      case NameNode(v) =>
        pos := NewTemp();
        ops := [Plain(Compute(Mov, Some(pos), [v]))];
      case SetNode(targets, source) =>
        ops, pos := BuildSet(targets, source);
      case ChainNode(_, _) =>
        ops, pos := BuildChain(n);
    }

    method BuildSet(targets: seq<Var>, source: Node) returns (ops: seq<Operation>, pos: Var)
      requires nextTempId >= FIRST_TEMP
      modifies this
      ensures ExprCode(Assign(targets, Grouped(source)), old(nextTempId)) == Lowered(ops, pos, nextTempId)
      ensures old(nextTempId) <= pos < nextTempId
      decreases source, 2
    {
      var res;
      res, pos := BuildExpression(source);
      ops := res;
      for k := 0 to |targets|
        invariant ops == res + Moves(targets[..k], pos)
      {
        ops := ops + [Plain(Compute(Mov, Some(targets[k]), [pos]))];
        assert Moves(targets[..k + 1], pos) == Moves(targets[..k], pos) + [Plain(Compute(Mov, Some(targets[k]), [pos]))];
      }
      assert targets[..|targets|] == targets;
    }

    method BuildChain(n: Node) returns (t: seq<Operation>, pos: Var)
      requires nextTempId >= FIRST_TEMP && n.ChainNode?
      modifies this
      ensures ExprCode(GroupedLinks(n, |n.links|), old(nextTempId)) == Lowered(t, pos, nextTempId)
      ensures old(nextTempId) <= pos < nextTempId
      decreases n, 0
    {
      t, pos := BuildExpression(n.first);
      for k := 0 to |n.links|
        invariant ExprCode(GroupedLinks(n, k), old(nextTempId)) == Lowered(t, pos, nextTempId)
        invariant old(nextTempId) <= pos < nextTempId
      {
        t, pos := BuildLink(n, k, t, pos, old(nextTempId));
      }
    }

    method BuildLink(n: Node, k: nat, t: seq<Operation>, pos: Var, ghost t0: Var) returns (ops: seq<Operation>, tmp: Var)
      requires n.ChainNode? && k < |n.links| && FIRST_TEMP <= t0 <= pos < nextTempId
      requires ExprCode(GroupedLinks(n, k), t0) == Lowered(t, pos, nextTempId)
      modifies this
      ensures ExprCode(GroupedLinks(n, k + 1), t0) == Lowered(ops, tmp, nextTempId) && t0 <= tmp < nextTempId
      decreases n.links[k], 5
    {
      ghost var a := ExprCode(GroupedLinks(n, k), t0);
      var t2, pos2 := BuildExpression(n.links[k].operand);
      tmp := NewTemp();
      match n.links[k].op
      case Arithmetic(i) => ops := ArithmeticLink(i, t, pos, t2, pos2, tmp);
      case And => ops := LogicLink(true, t, pos, t2, pos2, tmp);
      case Or => ops := LogicLink(false, t, pos, t2, pos2, tmp);
      assert ops == InfixOps(n.links[k].op, a, Lowered(t2, pos2, tmp));
    }

    method BuildStatement(s: Statement) returns (ops: seq<Operation>)
      requires nextTempId >= FIRST_TEMP
      modifies this
      ensures StmtCode(Meant(s), old(nextTempId)) == LoweredStmt(ops, nextTempId) && nextTempId >= old(nextTempId)
      decreases s, 1
    {
      match s
      case ExpressionStatement(e) =>
        var pos;
        ops, pos := BuildExpression(e);
        ops := FreeTemp(ops, pos);
      case WhileStatement(guard, body) =>
        ops := BuildWhile(guard, body);
      case MatchStatement(subject, cases) =>
        ops := BuildMatch(subject, cases);
    }

    method BuildWhile(guard: Node, block: seq<Statement>) returns (ops: seq<Operation>)
      requires nextTempId >= FIRST_TEMP
      modifies this
      ensures StmtCode(While(Grouped(guard), MeantBlock(block)), old(nextTempId)) == LoweredStmt(ops, nextTempId)
      ensures nextTempId >= old(nextTempId)
      decreases block, 3
    {
      var g, guardPos := BuildExpression(guard);
      ghost var l := Lowered(g, guardPos, nextTempId);
      var body := BuildCodeBlock(block);
      ops := [Operation(Jump, 2 + |body|)];
      ops := FreeTemp(ops, guardPos);
      ops := ops + body;
      ops := ops + g;
      ops := ops + [Operation(Branch(false, guardPos), -1 - |g| - |body|)];
      ops := FreeTemp(ops, guardPos);
      assert ops == WhileOps(l, body);
    }

    method BuildCodeBlock(ss: seq<Statement>) returns (ops: seq<Operation>)
      requires nextTempId >= FIRST_TEMP
      modifies this
      ensures StmtCode(MeantBlock(ss), old(nextTempId)) == LoweredStmt(ops, nextTempId) && nextTempId >= old(nextTempId)
      decreases ss, 2
    {
      ops := [];
      assert ss[0..] == ss;
      for i := 0 to |ss|
        invariant nextTempId >= old(nextTempId)
        invariant var rest := StmtCode(MeantBlock(ss[i..]), nextTempId);
                  StmtCode(MeantBlock(ss), old(nextTempId)) == LoweredStmt(ops + rest.ops, rest.next)
      {
        BlockUnfolds(ss, i);
        var res := BuildStatement(ss[i]);
        ghost var rest := StmtCode(MeantBlock(ss[i + 1..]), nextTempId);
        assert ops + (res + rest.ops) == ops + res + rest.ops;
        ops := ops + res;
      }
      assert ss[|ss|..] == [];
    }

    method BuildMatch(subject: Node, cases: seq<CaseBranch>) returns (ops: seq<Operation>)
      requires nextTempId >= FIRST_TEMP
      modifies this
      ensures StmtCode(Match(Grouped(subject), MeantCases(cases)), old(nextTempId)) == LoweredStmt(ops, nextTempId)
      ensures nextTempId >= old(nextTempId)
      decreases cases, 3
    {
      var m, matchPos := BuildExpression(subject);
      var c := BuildCases(cases, matchPos);
      ops := FreeTemp(m + c, matchPos);
      assert ops == m + (c + [Plain(Free(matchPos))]);
    }

    method BuildCases(cases: seq<CaseBranch>, matchPos: Var) returns (ops: seq<Operation>)
      requires nextTempId >= FIRST_TEMP
      modifies this
      ensures CasesCode(MeantCases(cases), matchPos, old(nextTempId)) == LoweredStmt(ops, nextTempId) && nextTempId >= old(nextTempId)
      decreases cases, 2
    {
      ops := [];
      assert cases[0..] == cases;
      for i := 0 to |cases|
        invariant nextTempId >= old(nextTempId)
        invariant var rest := CasesCode(MeantCases(cases[i..]), matchPos, nextTempId);
                  CasesCode(MeantCases(cases), matchPos, old(nextTempId)) == LoweredStmt(ops + rest.ops, rest.next)
      {
        CasesUnfold(cases, i);
        var res := BuildCase(cases[i], matchPos);
        ghost var rest := CasesCode(MeantCases(cases[i + 1..]), matchPos, nextTempId);
        assert ops + (res + rest.ops) == ops + res + rest.ops;
        ops := ops + res;
      }
      assert cases[|cases|..] == [];
    }

    method BuildCase(c: CaseBranch, matchPos: Var) returns (ops: seq<Operation>)
      requires nextTempId >= FIRST_TEMP
      modifies this
      ensures var p := ExprCode(Grouped(c.pattern), old(nextTempId)); var b := StmtCode(MeantBlock(c.block), p.next);
              ops == CaseOps(matchPos, p, b) && nextTempId == b.next + 1 && old(nextTempId) <= b.next
      decreases c, 1
    {
      var pattern, patternPos := BuildExpression(c.pattern);
      ghost var p := Lowered(pattern, patternPos, nextTempId);
      var block := BuildCodeBlock(c.block);
      ghost var b := LoweredStmt(block, nextTempId);
      var temp := NewTemp();
      ops := pattern + [Plain(Compute(Binary(EQ), Some(temp), [matchPos, patternPos]))];
      ops := FreeTemp(ops, patternPos);
      ops := ops + [Operation(Branch(true, temp), 2 + |block|)];
      ops := FreeTemp(ops, temp);
      ops := ops + block;
      ops := FreeTemp(ops, temp);
      assert ops == CaseOps(matchPos, p, b);
    }
  }
}
