// The scalar part of the source language: what expressions and statements mean.
module Source {
  import opened Wrappers
  import opened Ir

  // Program variables are below, compiler temporaries from here on.
  const FIRST_TEMP: Var := 1000000
  const EQ: int := 1

  datatype Operator = Arithmetic(operator: int) | And | Or

  // a.b.c <- value sets every target to the value, which is also the result.
  datatype Expr =
    | Literal(value: int)
    | Name(v: Var)
    | Infix(op: Operator, left: Expr, right: Expr)
    | Assign(targets: seq<Var>, source: Expr)

  datatype Stmt =
    | Skip
    | Then(first: Stmt, rest: Stmt)
    | Evaluate(e: Expr)
    | While(guard: Expr, body: Stmt)
    | Match(subject: Expr, cases: Cases)

  datatype Cases = NoCases | Case(pattern: Expr, block: Stmt, others: Cases)

  type Store = map<Var, int>

  // What an operation answers, whatever the width of the scalars.
  function Answer(world: World, e: Event): int { world([e]) }

  // Worlds that know nothing but arithmetic: an answer depends on the operation alone.
  ghost predicate Memoryless(world: World, trace: seq<Event>, e: Event)
  {
    world(trace + [e]) == Answer(world, e)
  }

  ghost predicate Sensible(world: World)
  {
    (forall trace, e :: Memoryless(world, trace, e)) &&
    (forall c :: Answer(world, Event(NewInt(c), [])) == c) && (forall x :: Answer(world, Event(Mov, [x])) == x) &&
    forall x, y :: Answer(world, Event(Binary(EQ), [x, y])) != 0 <==> x == y
  }

  datatype Evaluated = Evaluated(value: int, store: Store)

  function SetAll(store: Store, targets: seq<Var>, value: int): Store
    decreases targets
  {
    if targets == [] then store else SetAll(store[targets[0] := value], targets[1..], value)
  }

  // Left to right; && and || skip their right operand when the left one decides,
  // and give -1 for true and 0 for false. None when a variable that holds nothing is read.
  function Eval(e: Expr, store: Store, world: World): Option<Evaluated>
  {
    match e
    case Literal(c) => Some(Evaluated(c, store))
    case Name(v) => if v in store then Some(Evaluated(store[v], store)) else None
    case Assign(targets, source) =>
      (match Eval(source, store, world)
       case None => None
       case Some(r) => Some(Evaluated(r.value, SetAll(r.store, targets, r.value))))
    case Infix(op, left, right) =>
      match Eval(left, store, world)
      case None => None
      case Some(a) =>
        if op == And && a.value == 0 then Some(Evaluated(0, a.store))
        else if op == Or && a.value != 0 then Some(Evaluated(-1, a.store))
        else
          match Eval(right, a.store, world)
          case None => None
          case Some(b) => Some(Evaluated(Combine(op, a.value, b.value, world), b.store))
  }

  function Combine(op: Operator, x: int, y: int, world: World): int
  {
    match op
    case Arithmetic(k) => Answer(world, Event(Binary(k), [x, y]))
    case And => if x != 0 && y != 0 then -1 else 0
    case Or => if x != 0 || y != 0 then -1 else 0
  }

  datatype Result = Done(store: Store) | OutOfFuel | Failed

  // Fuel bounds how deep loop rounds nest and follow each other; a program
  // terminates when it is done with some fuel.
  function Exec(s: Stmt, store: Store, world: World, fuel: nat): Result
    decreases fuel, s
  {
    match s
    case Skip => Done(store)
    case Then(first, rest) =>
      var r := Exec(first, store, world, fuel);
      if r.Done? then Exec(rest, r.store, world, fuel) else r
    case Evaluate(e) =>
      (match Eval(e, store, world)
       case None => Failed
       case Some(r) => Done(r.store))
    case While(guard, body) =>
      if fuel == 0 then OutOfFuel
      else
        (match Eval(guard, store, world)
         case None => Failed
         case Some(g) =>
           if g.value == 0 then Done(g.store)
           else
             var r := Exec(body, g.store, world, fuel - 1);
             if r.Done? then Exec(s, r.store, world, fuel - 1) else r)
    case Match(subject, cases) =>
      match Eval(subject, store, world)
      case None => Failed
      case Some(v) => ExecCases(cases, v.value, v.store, world, fuel)
  }

  // Every case whose pattern equals the value, in order.
  function ExecCases(cases: Cases, value: int, store: Store, world: World, fuel: nat): Result
    decreases fuel, cases
  {
    match cases
    case NoCases => Done(store)
    case Case(pattern, block, others) =>
      match Eval(pattern, store, world)
      case None => Failed
      case Some(p) =>
        var r := if value == p.value then Exec(block, p.store, world, fuel) else Done(p.store);
        if r.Done? then ExecCases(others, value, r.store, world, fuel) else r
  }

  // Only program variables are mentioned.
  predicate DeclaredExpr(e: Expr)
  {
    match e
    case Literal(_) => true
    case Name(v) => v < FIRST_TEMP
    case Infix(_, left, right) => DeclaredExpr(left) && DeclaredExpr(right)
    case Assign(targets, source) => DeclaredExpr(source) && forall k :: 0 <= k < |targets| ==> targets[k] < FIRST_TEMP
  }

  predicate Declared(s: Stmt)
  {
    match s
    case Skip => true
    case Then(first, rest) => Declared(first) && Declared(rest)
    case Evaluate(e) => DeclaredExpr(e)
    case While(guard, body) => DeclaredExpr(guard) && Declared(body)
    case Match(subject, cases) => DeclaredExpr(subject) && DeclaredCases(cases)
  }

  predicate DeclaredCases(cases: Cases)
  {
    match cases
    case NoCases => true
    case Case(pattern, block, others) => DeclaredExpr(pattern) && Declared(block) && DeclaredCases(others)
  }
}
