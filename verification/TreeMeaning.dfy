// What parsed trees mean, said on the trees themselves: operator chains from left to
// right, each link with its own operator and operand; statements in their order. The
// expressions and statements the builders compile mean the same.
module TreeMeaning {
  import opened Wrappers
  import opened Ir
  import opened Source
  import opened Builder

  // Every target holds the value afterwards, everything else what it held.
  function WithTargets(store: Store, targets: seq<Var>, value: int): Store
  {
    map v | v in store.Keys + (set k | 0 <= k < |targets| :: targets[k]) :: if v in targets then value else store[v]
  }

  function EvalNode(n: Node, store: Store, world: World): Option<Evaluated>
    decreases n
  {
    match n
    case IntegerNode(c) => Some(Evaluated(c, store))
    case NameNode(v) => if v in store then Some(Evaluated(store[v], store)) else None
    case SetNode(targets, source) =>
      (match EvalNode(source, store, world)
       case None => None
       case Some(r) => Some(Evaluated(r.value, WithTargets(r.store, targets, r.value))))
    case ChainNode(first, links) =>
      match EvalNode(first, store, world)
      case None => None
      case Some(a) => FoldLinks(links, a, world)
  }

  // The links from the first one on, each applied to what the ones in front of it gave.
  function FoldLinks(links: seq<Link>, a: Evaluated, world: World): Option<Evaluated>
    decreases links
  {
    if links == [] then Some(a)
    else
      match ApplyLink(links[0], a, world)
      case None => None
      case Some(b) => FoldLinks(links[1..], b, world)
  }

  // The operand is not evaluated where the left value decides; true is -1, false is 0.
  function ApplyLink(link: Link, a: Evaluated, world: World): Option<Evaluated>
    decreases link
  {
    if link.op == And && a.value == 0 then Some(Evaluated(0, a.store))
    else if link.op == Or && a.value != 0 then Some(Evaluated(-1, a.store))
    else
      match EvalNode(link.operand, a.store, world)
      case None => None
      case Some(b) =>
        Some(Evaluated(match link.op
                       case Arithmetic(k) => world([Event(Binary(k), [a.value, b.value])])
                       case And => if b.value == 0 then 0 else -1
                       case Or => if b.value == 0 then 0 else -1,
                       b.store))
  }

  function ExecBlock(ss: seq<Statement>, store: Store, world: World, fuel: nat): Result
    decreases fuel, ss
  {
    if ss == [] then Done(store)
    else
      var r := ExecStatement(ss[0], store, world, fuel);
      if r.Done? then ExecBlock(ss[1..], r.store, world, fuel) else r
  }

  // A round of a loop takes one unit of fuel.
  function ExecStatement(s: Statement, store: Store, world: World, fuel: nat): Result
    decreases fuel, s
  {
    match s
    case ExpressionStatement(e) =>
      (match EvalNode(e, store, world)
       case None => Failed
       case Some(r) => Done(r.store))
    case WhileStatement(guard, body) =>
      if fuel == 0 then OutOfFuel
      else
        (match EvalNode(guard, store, world)
         case None => Failed
         case Some(g) =>
           if g.value == 0 then Done(g.store)
           else
             var r := ExecBlock(body, g.store, world, fuel - 1);
             if r.Done? then ExecStatement(s, r.store, world, fuel - 1) else r)
    case MatchStatement(subject, cases) =>
      match EvalNode(subject, store, world)
      case None => Failed
      case Some(v) => ExecBranches(cases, v.value, v.store, world, fuel)
  }

  // Every case whose pattern has the value, not only the first.
  function ExecBranches(cs: seq<CaseBranch>, value: int, store: Store, world: World, fuel: nat): Result
    decreases fuel, cs
  {
    if cs == [] then Done(store)
    else
      var r := ExecBranch(cs[0], value, store, world, fuel);
      if r.Done? then ExecBranches(cs[1..], value, r.store, world, fuel) else r
  }

  function ExecBranch(c: CaseBranch, value: int, store: Store, world: World, fuel: nat): Result
    decreases fuel, c
  {
    match EvalNode(c.pattern, store, world)
    case None => Failed
    case Some(p) => if p.value == value then ExecBlock(c.block, p.store, world, fuel) else Done(p.store)
  }

  // ---------------------------------------------------------------- the same as what is compiled

  lemma {:induction false} TargetsSet(store: Store, targets: seq<Var>, value: int)
    ensures SetAll(store, targets, value) == WithTargets(store, targets, value)
    decreases targets
  {
    if targets != [] {
      TargetsSet(store[targets[0] := value], targets[1..], value);
      var r := SetAll(store, targets, value);
      forall v ensures v in r <==> v in store || v in targets {
        if v in targets && v != targets[0] { assert v in targets[1..]; }
      }
      forall v | v in r ensures r[v] == (if v in targets then value else store[v]) {
        if v in targets && v != targets[0] { assert v in targets[1..]; }
      }
    }
  }

  function Onward(a: Option<Evaluated>, link: Link, world: World): Option<Evaluated>
  {
    match a case None => None case Some(x) => ApplyLink(link, x, world)
  }

  lemma {:induction false} FoldLast(links: seq<Link>, link: Link, a: Evaluated, world: World)
    ensures FoldLinks(links + [link], a, world) == Onward(FoldLinks(links, a, world), link, world)
    decreases links
  {
    var all := links + [link];
    if links == [] {
      assert all[1..] == [] && all[0] == link;
    } else {
      assert all[0] == links[0] && all[1..] == links[1..] + [link];
      var b := ApplyLink(links[0], a, world);
      if b.Some? { FoldLast(links[1..], link, b.value, world); }
    }
  }

  // An expression means what its tree means.
  lemma {:induction false} NodeMeans(n: Node, store: Store, world: World)
    ensures Eval(Grouped(n), store, world) == EvalNode(n, store, world)
    decreases n, if n.ChainNode? then |n.links| + 1 else 0
  {
    match n
    case SetNode(targets, source) =>
      NodeMeans(source, store, world);
      var r := EvalNode(source, store, world);
      if r.Some? { TargetsSet(r.value.store, targets, r.value.value); }
    case ChainNode(first, links) =>
      LinksMean(n, |links|, store, world);
      assert links[..|links|] == links;
    case _ =>
  }

  lemma {:induction false} LinksMean(n: Node, k: nat, store: Store, world: World)
    requires n.ChainNode? && k <= |n.links|
    ensures Eval(GroupedLinks(n, k), store, world) ==
            match EvalNode(n.first, store, world)
            case None => None
            case Some(a) => FoldLinks(n.links[..k], a, world)
    decreases n, k
  {
    if k == 0 {
      NodeMeans(n.first, store, world);
    } else {
      LinksMean(n, k - 1, store, world);
      var first, left, link := EvalNode(n.first, store, world), Eval(GroupedLinks(n, k - 1), store, world), n.links[k - 1];
      assert n.links[..k] == n.links[..k - 1] + [link];
      if first.Some? { FoldLast(n.links[..k - 1], link, first.value, world); }
      if left.Some? { NodeMeans(link.operand, left.value.store, world); }
    }
  }

  lemma {:induction false} BlockMeans(ss: seq<Statement>, store: Store, world: World, fuel: nat)
    ensures Exec(MeantBlock(ss), store, world, fuel) == ExecBlock(ss, store, world, fuel)
    decreases fuel, ss
  {
    if ss != [] {
      StatementMeans(ss[0], store, world, fuel);
      var r := ExecStatement(ss[0], store, world, fuel);
      if r.Done? { BlockMeans(ss[1..], r.store, world, fuel); }
    }
  }

  lemma {:induction false} StatementMeans(s: Statement, store: Store, world: World, fuel: nat)
    ensures Exec(Meant(s), store, world, fuel) == ExecStatement(s, store, world, fuel)
    decreases fuel, s
  {
    match s
    case ExpressionStatement(e) => NodeMeans(e, store, world);
    case WhileStatement(guard, body) =>
      NodeMeans(guard, store, world);
      var g := EvalNode(guard, store, world);
      if fuel > 0 && g.Some? && g.value.value != 0 {
        BlockMeans(body, g.value.store, world, fuel - 1);
        var r := ExecBlock(body, g.value.store, world, fuel - 1);
        if r.Done? { StatementMeans(s, r.store, world, fuel - 1); }
      }
    case MatchStatement(subject, cases) =>
      NodeMeans(subject, store, world);
      var v := EvalNode(subject, store, world);
      if v.Some? { BranchesMean(cases, v.value.value, v.value.store, world, fuel); }
  }

  lemma {:induction false} BranchesMean(cs: seq<CaseBranch>, value: int, store: Store, world: World, fuel: nat)
    ensures ExecCases(MeantCases(cs), value, store, world, fuel) == ExecBranches(cs, value, store, world, fuel)
    decreases fuel, cs
  {
    if cs != [] {
      NodeMeans(cs[0].pattern, store, world);
      var p := EvalNode(cs[0].pattern, store, world);
      if p.Some? && p.value.value == value { BlockMeans(cs[0].block, p.value.store, world, fuel); }
      var r := ExecBranch(cs[0], value, store, world, fuel);
      if r.Done? { BranchesMean(cs[1..], value, r.store, world, fuel); }
    }
  }

  // ---------------------------------------------------------------- the variables of a tree

  // Only variables of the program are mentioned, none of the compiler's temporaries,
  // which are counted from a million on.
  predicate NamesOnly(n: Node)
  {
    match n
    case IntegerNode(_) => true
    case NameNode(v) => v < 1000000
    case SetNode(targets, source) => NamesOnly(source) && forall k :: 0 <= k < |targets| ==> targets[k] < 1000000
    case ChainNode(first, links) => NamesOnly(first) && forall k :: 0 <= k < |links| ==> NamesOnly(links[k].operand)
  }

  predicate BlockNamesOnly(ss: seq<Statement>)
  {
    forall k :: 0 <= k < |ss| ==> StatementNamesOnly(ss[k])
  }

  predicate StatementNamesOnly(s: Statement)
  {
    match s
    case ExpressionStatement(e) => NamesOnly(e)
    case WhileStatement(guard, body) => NamesOnly(guard) && BlockNamesOnly(body)
    case MatchStatement(subject, cases) =>
      NamesOnly(subject) && forall k :: 0 <= k < |cases| ==> NamesOnly(cases[k].pattern) && BlockNamesOnly(cases[k].block)
  }

  lemma {:induction false} NodeDeclared(n: Node)
    requires NamesOnly(n)
    ensures DeclaredExpr(Grouped(n))
    decreases n, if n.ChainNode? then |n.links| + 1 else 0
  {
    match n
    case SetNode(_, source) => NodeDeclared(source);
    case ChainNode(_, links) => LinksDeclared(n, |links|);
    case _ =>
  }

  lemma {:induction false} LinksDeclared(n: Node, k: nat)
    requires n.ChainNode? && k <= |n.links| && NamesOnly(n)
    ensures DeclaredExpr(GroupedLinks(n, k))
    decreases n, k
  {
    if k == 0 {
      NodeDeclared(n.first);
    } else {
      LinksDeclared(n, k - 1);
      NodeDeclared(n.links[k - 1].operand);
    }
  }

  lemma {:induction false} BlockDeclared(ss: seq<Statement>)
    requires BlockNamesOnly(ss)
    ensures Declared(MeantBlock(ss))
    decreases ss
  {
    if ss != [] {
      StatementDeclared(ss[0]);
      BlockDeclared(ss[1..]);
    }
  }

  lemma {:induction false} StatementDeclared(s: Statement)
    requires StatementNamesOnly(s)
    ensures Declared(Meant(s))
    decreases s
  {
    match s
    case ExpressionStatement(e) => NodeDeclared(e);
    case WhileStatement(guard, body) =>
      NodeDeclared(guard);
      BlockDeclared(body);
    case MatchStatement(subject, cases) =>
      NodeDeclared(subject);
      BranchesDeclared(cases);
  }

  lemma {:induction false} BranchesDeclared(cs: seq<CaseBranch>)
    requires forall k :: 0 <= k < |cs| ==> NamesOnly(cs[k].pattern) && BlockNamesOnly(cs[k].block)
    ensures DeclaredCases(MeantCases(cs))
    decreases cs
  {
    if cs != [] {
      assert NamesOnly(cs[0].pattern) && BlockNamesOnly(cs[0].block);
      NodeDeclared(cs[0].pattern);
      BlockDeclared(cs[0].block);
      forall k | 0 <= k < |cs[1..]| ensures NamesOnly(cs[1..][k].pattern) && BlockNamesOnly(cs[1..][k].block) {
        assert cs[1..][k] == cs[k + 1];
      }
      BranchesDeclared(cs[1..]);
    }
  }
}
