// Plain PEG parsing, without a cache: what the parser of the language means.
module Grammar {
  import opened Wrappers

  type RuleId = int

  datatype Atom = Literal(text: string) | Nonterminal(rule: RuleId) | Scan(scanner: int)

  // Once the prefix, any number of times the period, once the suffix.
  datatype Variant = Variant(prefix: seq<Atom>, period: seq<Atom>, suffix: seq<Atom>)

  datatype Node = Node(rule: int, variant: int, start: int, end: int, children: seq<Node>)

  // A tree and the position behind it, or no tree and the furthest position seen.
  datatype Parsed = Parsed(node: Option<Node>, pos: int)

  // The grammar, the text, and the scanning functions on it.
  datatype Input = Input(rules: seq<seq<Variant>>, content: string, scan: (int, int) -> Parsed)

  datatype Progress = Progress(furthest: int, pos: int, ok: bool, children: seq<Node>)

  function StartsWith(content: string, pos: int, text: string): bool
  {
    0 <= pos && pos + |text| <= |content| && content[pos..pos + |text|] == text
  }

  function Leaf(content: string, pos: int, text: string): Parsed
  {
    if StartsWith(content, pos, text) then Parsed(Some(Node(-1, 0, pos, pos + |text|, [])), pos + |text|) else Parsed(None, pos)
  }

  // None when the fuel runs out: fuel bounds how deep rules nest and how often periods repeat.
  function EvalAtom(input: Input, atom: Atom, pos: int, fuel: nat): Option<Parsed>
    decreases fuel, 1, 0
  {
    match atom
    case Literal(text) => Some(Leaf(input.content, pos, text))
    case Nonterminal(rule) => EvalRule(input, rule, pos, fuel)
    case Scan(scanner) => Some(input.scan(scanner, pos))
  }

  // The first k atoms.
  function EvalSeq(input: Input, atoms: seq<Atom>, k: nat, pos: int, fuel: nat): Option<Progress>
    requires k <= |atoms|
    decreases fuel, 2, k
  {
    if k == 0 then Some(Progress(pos, pos, true, []))
    else
      match EvalSeq(input, atoms, k - 1, pos, fuel)
      case None => None
      case Some(r) =>
        if !r.ok then Some(r)
        else
          match EvalAtom(input, atoms[k - 1], r.pos, fuel)
          case None => None
          case Some(p) =>
            var furthest := Max(r.furthest, p.pos);
            Some(match p.node
                 case None => Progress(furthest, r.pos, false, r.children)
                 case Some(n) => Progress(furthest, p.pos, true, r.children + [n]))
  }

  // The period, as often as it goes.
  function EvalPeriod(input: Input, period: seq<Atom>, r: Progress, fuel: nat): Option<Progress>
    decreases fuel, 3, 0
  {
    if period == [] then Some(r)
    else
      match EvalSeq(input, period, |period|, r.pos, fuel)
      case None => None
      case Some(next) =>
        var furthest := Max(r.furthest, next.furthest);
        if !next.ok then Some(r.(furthest := furthest))
        else if fuel == 0 then None
        else EvalPeriod(input, period, Progress(furthest, next.pos, true, r.children + next.children), fuel - 1)
  }

  // A tree over the children; a failing suffix does not tell how far it got.
  function Finish(rule: RuleId, variant: int, r: Progress, suffix: Progress): Parsed
  {
    if !suffix.ok then Parsed(None, r.furthest)
    else
      var children := r.children + suffix.children;
      if children == [] then Parsed(Some(Node(rule, variant, suffix.pos, suffix.pos, [])), suffix.pos)
      else Parsed(Some(Node(rule, variant, children[0].start, children[|children| - 1].end, children)), suffix.pos)
  }

  function EvalVariant(input: Input, rule: RuleId, id: int, v: Variant, pos: int, fuel: nat): Option<Parsed>
    decreases fuel, 4, 0
  {
    match EvalSeq(input, v.prefix, |v.prefix|, pos, fuel)
    case None => None
    case Some(prefix) =>
      if !prefix.ok then Some(Parsed(None, prefix.furthest))
      else
        match EvalPeriod(input, v.period, prefix, fuel)
        case None => None
        case Some(r) =>
          match EvalSeq(input, v.suffix, |v.suffix|, r.pos, fuel)
          case None => None
          case Some(suffix) => Some(Finish(rule, id, r, suffix))
  }

  // The variants from number id on, in order.
  function EvalVariants(input: Input, rule: RuleId, id: nat, pos: int, furthest: int, fuel: nat): Option<Parsed>
    requires 0 <= rule < |input.rules| && id <= |input.rules[rule]|
    decreases fuel, 5, |input.rules[rule]| - id
  {
    if id == |input.rules[rule]| then Some(Parsed(None, furthest))
    else
      match EvalVariant(input, rule, id, input.rules[rule][id], pos, fuel)
      case None => None
      case Some(p) =>
        if p.node.Some? then Some(p) else EvalVariants(input, rule, id + 1, pos, Max(p.pos, furthest), fuel)
  }

  function EvalRule(input: Input, rule: RuleId, pos: int, fuel: nat): Option<Parsed>
    decreases fuel, 0, 0
  {
    if fuel == 0 || !(0 <= rule < |input.rules|) then None
    else EvalVariants(input, rule, 0, pos, 0, fuel - 1)
  }

  // ---------------------------------------------------------------- more fuel changes nothing

  lemma {:induction false} MoreForAtom(input: Input, atom: Atom, pos: int, fuel: nat)
    requires EvalAtom(input, atom, pos, fuel).Some?
    ensures EvalAtom(input, atom, pos, fuel + 1) == EvalAtom(input, atom, pos, fuel)
    decreases fuel, 1, 0
  {
    match atom
    case Nonterminal(rule) => MoreForRule(input, rule, pos, fuel);
    case _ =>
  }

  lemma {:induction false} MoreForSeq(input: Input, atoms: seq<Atom>, k: nat, pos: int, fuel: nat)
    requires k <= |atoms| && EvalSeq(input, atoms, k, pos, fuel).Some?
    ensures EvalSeq(input, atoms, k, pos, fuel + 1) == EvalSeq(input, atoms, k, pos, fuel)
    decreases fuel, 2, k
  {
    if k > 0 {
      MoreForSeq(input, atoms, k - 1, pos, fuel);
      var r := EvalSeq(input, atoms, k - 1, pos, fuel).value;
      if r.ok { MoreForAtom(input, atoms[k - 1], r.pos, fuel); }
    }
  }

  lemma {:induction false} MoreForPeriod(input: Input, period: seq<Atom>, r: Progress, fuel: nat)
    requires EvalPeriod(input, period, r, fuel).Some?
    ensures EvalPeriod(input, period, r, fuel + 1) == EvalPeriod(input, period, r, fuel)
    decreases fuel, 3, 0
  {
    if period != [] {
      MoreForSeq(input, period, |period|, r.pos, fuel);
      var next := EvalSeq(input, period, |period|, r.pos, fuel).value;
      if next.ok {
        MoreForPeriod(input, period, Progress(Max(r.furthest, next.furthest), next.pos, true, r.children + next.children), fuel - 1);
      }
    }
  }

  lemma {:induction false} MoreForVariant(input: Input, rule: RuleId, id: int, v: Variant, pos: int, fuel: nat)
    requires EvalVariant(input, rule, id, v, pos, fuel).Some?
    ensures EvalVariant(input, rule, id, v, pos, fuel + 1) == EvalVariant(input, rule, id, v, pos, fuel)
    decreases fuel, 4, 0
  {
    MoreForSeq(input, v.prefix, |v.prefix|, pos, fuel);
    var prefix := EvalSeq(input, v.prefix, |v.prefix|, pos, fuel).value;
    if prefix.ok {
      MoreForPeriod(input, v.period, prefix, fuel);
      var r := EvalPeriod(input, v.period, prefix, fuel).value;
      MoreForSeq(input, v.suffix, |v.suffix|, r.pos, fuel);
    }
  }

  lemma {:induction false} MoreForVariants(input: Input, rule: RuleId, id: nat, pos: int, furthest: int, fuel: nat)
    requires 0 <= rule < |input.rules| && id <= |input.rules[rule]| && EvalVariants(input, rule, id, pos, furthest, fuel).Some?
    ensures EvalVariants(input, rule, id, pos, furthest, fuel + 1) == EvalVariants(input, rule, id, pos, furthest, fuel)
    decreases fuel, 5, |input.rules[rule]| - id
  {
    if id < |input.rules[rule]| {
      MoreForVariant(input, rule, id, input.rules[rule][id], pos, fuel);
      var p := EvalVariant(input, rule, id, input.rules[rule][id], pos, fuel).value;
      if p.node.None? { MoreForVariants(input, rule, id + 1, pos, Max(p.pos, furthest), fuel); }
    }
  }

  lemma {:induction false} MoreForRule(input: Input, rule: RuleId, pos: int, fuel: nat)
    requires EvalRule(input, rule, pos, fuel).Some?
    ensures EvalRule(input, rule, pos, fuel + 1) == EvalRule(input, rule, pos, fuel)
    decreases fuel, 0, 0
  {
    MoreForVariants(input, rule, 0, pos, 0, fuel - 1);
  }

  lemma {:induction false} MuchMore(input: Input, rule: RuleId, pos: int, fuel: nat, more: nat)
    requires EvalRule(input, rule, pos, fuel).Some? && fuel <= more
    ensures EvalRule(input, rule, pos, more) == EvalRule(input, rule, pos, fuel)
    decreases more
  {
    if fuel < more {
      MuchMore(input, rule, pos, fuel, more - 1);
      MoreForRule(input, rule, pos, more - 1);
    }
  }

  // However much more there is.

  lemma {:induction false} MuchMoreForAtom(input: Input, atom: Atom, pos: int, fuel: nat, more: nat)
    requires fuel <= more && EvalAtom(input, atom, pos, fuel).Some?
    ensures EvalAtom(input, atom, pos, more) == EvalAtom(input, atom, pos, fuel)
    decreases more
  {
    if fuel < more {
      MuchMoreForAtom(input, atom, pos, fuel, more - 1);
      MoreForAtom(input, atom, pos, more - 1);
    }
  }

  lemma {:induction false} MuchMoreForSeq(input: Input, atoms: seq<Atom>, k: nat, pos: int, fuel: nat, more: nat)
    requires k <= |atoms| && fuel <= more && EvalSeq(input, atoms, k, pos, fuel).Some?
    ensures EvalSeq(input, atoms, k, pos, more) == EvalSeq(input, atoms, k, pos, fuel)
    decreases more
  {
    if fuel < more {
      MuchMoreForSeq(input, atoms, k, pos, fuel, more - 1);
      MoreForSeq(input, atoms, k, pos, more - 1);
    }
  }

  lemma {:induction false} MuchMoreForPeriod(input: Input, period: seq<Atom>, r: Progress, fuel: nat, more: nat)
    requires fuel <= more && EvalPeriod(input, period, r, fuel).Some?
    ensures EvalPeriod(input, period, r, more) == EvalPeriod(input, period, r, fuel)
    decreases more
  {
    if fuel < more {
      MuchMoreForPeriod(input, period, r, fuel, more - 1);
      MoreForPeriod(input, period, r, more - 1);
    }
  }

  lemma {:induction false} MuchMoreForVariant(input: Input, rule: RuleId, id: int, v: Variant, pos: int, fuel: nat, more: nat)
    requires fuel <= more && EvalVariant(input, rule, id, v, pos, fuel).Some?
    ensures EvalVariant(input, rule, id, v, pos, more) == EvalVariant(input, rule, id, v, pos, fuel)
    decreases more
  {
    if fuel < more {
      MuchMoreForVariant(input, rule, id, v, pos, fuel, more - 1);
      MoreForVariant(input, rule, id, v, pos, more - 1);
    }
  }

  lemma {:induction false} MuchMoreForVariants(input: Input, rule: RuleId, id: nat, pos: int, furthest: int, fuel: nat, more: nat)
    requires 0 <= rule < |input.rules| && id <= |input.rules[rule]| && fuel <= more && EvalVariants(input, rule, id, pos, furthest, fuel).Some?
    ensures EvalVariants(input, rule, id, pos, furthest, more) == EvalVariants(input, rule, id, pos, furthest, fuel)
    decreases more
  {
    if fuel < more {
      MuchMoreForVariants(input, rule, id, pos, furthest, fuel, more - 1);
      MoreForVariants(input, rule, id, pos, furthest, more - 1);
    }
  }

  // Whether a rule at a position can be evaluated at all, and what it gives.
  ghost predicate Gives(input: Input, rule: RuleId, pos: int, p: Parsed)
  {
    exists fuel: nat :: EvalRule(input, rule, pos, fuel) == Some(p)
  }

  lemma GivesOne(input: Input, rule: RuleId, pos: int, p: Parsed, q: Parsed)
    requires Gives(input, rule, pos, p) && Gives(input, rule, pos, q)
    ensures p == q
  {
    var f: nat :| EvalRule(input, rule, pos, f) == Some(p);
    var g: nat :| EvalRule(input, rule, pos, g) == Some(q);
    if f <= g { MuchMore(input, rule, pos, f, g); } else { MuchMore(input, rule, pos, g, f); }
  }

  // ---------------------------------------------------------------- trees lose nothing

  // A node covers its children, which follow each other without a gap.
  predicate Tiled(n: Node)
    decreases n
  {
    if n.children == [] then n.start <= n.end else Chain(n.children, n.start, n.end)
  }

  predicate Chain(ns: seq<Node>, start: int, end: int)
    decreases ns
  {
    if ns == [] then start == end
    else ns[0].start == start && Tiled(ns[0]) && Chain(ns[1..], ns[0].end, end)
  }

  // The text of the leaves, from left to right.
  function Leaves(content: string, n: Node): string
    requires Tiled(n) && 0 <= n.start && n.end <= |content|
    decreases n
  {
    ChainOrder(n);
    if n.children == [] then content[n.start..n.end] else AllLeaves(content, n.children, n.start, n.end)
  }

  function AllLeaves(content: string, ns: seq<Node>, start: int, end: int): string
    requires Chain(ns, start, end) && 0 <= start && end <= |content|
    decreases ns
  {
    if ns == [] then ""
    else
      assert ns[0].start <= ns[0].end <= end by { ChainOrder(ns[0]); ChainUp(ns[1..], ns[0].end, end); }
      Leaves(content, ns[0]) + AllLeaves(content, ns[1..], ns[0].end, end)
  }

  lemma {:induction false} ChainOrder(n: Node)
    requires Tiled(n)
    ensures n.start <= n.end
    decreases n
  {
    if n.children != [] { ChainUp(n.children, n.start, n.end); }
  }

  lemma {:induction false} ChainUp(ns: seq<Node>, start: int, end: int)
    requires Chain(ns, start, end)
    ensures start <= end
    decreases ns
  {
    if ns != [] {
      ChainOrder(ns[0]);
      ChainUp(ns[1..], ns[0].end, end);
    }
  }

  // Nothing of the text a tree covers is missing from its leaves.
  lemma {:induction false} LeavesAreText(content: string, n: Node)
    requires Tiled(n) && 0 <= n.start && n.end <= |content|
    ensures n.start <= n.end && Leaves(content, n) == content[n.start..n.end]
    decreases n
  {
    ChainOrder(n);
    if n.children != [] { ChainIsText(content, n.children, n.start, n.end); }
  }

  lemma {:induction false} ChainIsText(content: string, ns: seq<Node>, start: int, end: int)
    requires Chain(ns, start, end) && 0 <= start && end <= |content|
    ensures start <= end && AllLeaves(content, ns, start, end) == content[start..end]
    decreases ns
  {
    if ns != [] {
      ChainUp(ns[1..], ns[0].end, end);
      LeavesAreText(content, ns[0]);
      ChainIsText(content, ns[1..], ns[0].end, end);
      assert content[start..end] == content[start..ns[0].end] + content[ns[0].end..end];
    }
  }

  lemma {:induction false} ChainJoin(a: seq<Node>, b: seq<Node>, start: int, middle: int, end: int)
    requires Chain(a, start, middle) && Chain(b, middle, end)
    ensures Chain(a + b, start, end)
    decreases a
  {
    if a == [] {
      assert a + b == b;
    } else {
      ChainJoin(a[1..], b, a[0].end, middle, end);
      assert (a + b)[1..] == a[1..] + b;
    }
  }

  lemma {:induction false} ChainEnds(ns: seq<Node>, start: int, end: int)
    requires Chain(ns, start, end) && ns != []
    ensures ns[0].start == start && ns[|ns| - 1].end == end
    decreases ns
  {
    if |ns| > 1 { ChainEnds(ns[1..], ns[0].end, end); }
  }

  // Scanners return a tree over what they scanned, inside the text.
  ghost predicate ScansWell(input: Input)
  {
    forall f, pos :: 0 <= pos <= |input.content| ==> TreeOk(input, pos, input.scan(f, pos))
  }

  ghost predicate TreeOk(input: Input, pos: int, p: Parsed)
  {
    p.node.Some? ==> p.node.value.start == pos && p.node.value.end == p.pos <= |input.content| && Tiled(p.node.value)
  }

  ghost predicate ProgressOk(input: Input, pos: int, r: Progress)
  {
    0 <= pos <= r.pos <= |input.content| && Chain(r.children, pos, r.pos)
  }

  lemma {:induction false} AtomTree(input: Input, atom: Atom, pos: int, fuel: nat)
    requires ScansWell(input) && 0 <= pos <= |input.content| && EvalAtom(input, atom, pos, fuel).Some?
    ensures TreeOk(input, pos, EvalAtom(input, atom, pos, fuel).value)
    decreases fuel, 1, 0
  {
    match atom
    case Nonterminal(rule) => RuleTree(input, rule, pos, fuel);
    case _ =>
  }

  lemma {:induction false} SeqTree(input: Input, atoms: seq<Atom>, k: nat, pos: int, fuel: nat)
    requires ScansWell(input) && 0 <= pos <= |input.content| && k <= |atoms| && EvalSeq(input, atoms, k, pos, fuel).Some?
    ensures ProgressOk(input, pos, EvalSeq(input, atoms, k, pos, fuel).value)
    decreases fuel, 2, k
  {
    if k > 0 {
      SeqTree(input, atoms, k - 1, pos, fuel);
      var r := EvalSeq(input, atoms, k - 1, pos, fuel).value;
      if r.ok {
        AtomTree(input, atoms[k - 1], r.pos, fuel);
        var p := EvalAtom(input, atoms[k - 1], r.pos, fuel).value;
        if p.node.Some? {
          ChainOrder(p.node.value);
          assert Chain([p.node.value], r.pos, p.pos);
          ChainJoin(r.children, [p.node.value], pos, r.pos, p.pos);
        }
      }
    }
  }

  lemma {:induction false} PeriodTree(input: Input, period: seq<Atom>, r: Progress, pos: int, fuel: nat)
    requires ScansWell(input) && ProgressOk(input, pos, r) && EvalPeriod(input, period, r, fuel).Some?
    ensures ProgressOk(input, pos, EvalPeriod(input, period, r, fuel).value)
    decreases fuel, 3, 0
  {
    if period != [] {
      SeqTree(input, period, |period|, r.pos, fuel);
      var next := EvalSeq(input, period, |period|, r.pos, fuel).value;
      if next.ok {
        ChainJoin(r.children, next.children, pos, r.pos, next.pos);
        PeriodTree(input, period, Progress(Max(r.furthest, next.furthest), next.pos, true, r.children + next.children), pos, fuel - 1);
      }
    }
  }

  lemma {:induction false} VariantTree(input: Input, rule: RuleId, id: int, v: Variant, pos: int, fuel: nat)
    requires ScansWell(input) && 0 <= pos <= |input.content| && EvalVariant(input, rule, id, v, pos, fuel).Some?
    ensures TreeOk(input, pos, EvalVariant(input, rule, id, v, pos, fuel).value)
    decreases fuel, 4, 0
  {
    SeqTree(input, v.prefix, |v.prefix|, pos, fuel);
    var prefix := EvalSeq(input, v.prefix, |v.prefix|, pos, fuel).value;
    if prefix.ok {
      PeriodTree(input, v.period, prefix, pos, fuel);
      var r := EvalPeriod(input, v.period, prefix, fuel).value;
      SeqTree(input, v.suffix, |v.suffix|, r.pos, fuel);
      var suffix := EvalSeq(input, v.suffix, |v.suffix|, r.pos, fuel).value;
      ChainJoin(r.children, suffix.children, pos, r.pos, suffix.pos);
      var children := r.children + suffix.children;
      if children != [] { ChainEnds(children, pos, suffix.pos); }
    }
  }

  lemma {:induction false} VariantsTree(input: Input, rule: RuleId, id: nat, pos: int, furthest: int, fuel: nat)
    requires ScansWell(input) && 0 <= pos <= |input.content|
    requires 0 <= rule < |input.rules| && id <= |input.rules[rule]| && EvalVariants(input, rule, id, pos, furthest, fuel).Some?
    ensures TreeOk(input, pos, EvalVariants(input, rule, id, pos, furthest, fuel).value)
    decreases fuel, 5, |input.rules[rule]| - id
  {
    if id < |input.rules[rule]| {
      VariantTree(input, rule, id, input.rules[rule][id], pos, fuel);
      var p := EvalVariant(input, rule, id, input.rules[rule][id], pos, fuel).value;
      if p.node.None? { VariantsTree(input, rule, id + 1, pos, Max(p.pos, furthest), fuel); }
    }
  }

  // The tree of a rule starts where the rule was tried, ends where parsing goes on, and
  // has no gaps.
  lemma {:induction false} RuleTree(input: Input, rule: RuleId, pos: int, fuel: nat)
    requires ScansWell(input) && 0 <= pos <= |input.content| && EvalRule(input, rule, pos, fuel).Some?
    ensures TreeOk(input, pos, EvalRule(input, rule, pos, fuel).value)
    decreases fuel, 0, 0
  {
    VariantsTree(input, rule, 0, pos, 0, fuel - 1);
  }

  // So its leaves spell out exactly the text it was parsed from.
  lemma TreesAreLossless(input: Input, rule: RuleId, pos: int, p: Parsed)
    requires ScansWell(input) && 0 <= pos <= |input.content| && Gives(input, rule, pos, p) && p.node.Some?
    ensures pos <= p.pos <= |input.content| && Tiled(p.node.value) && p.node.value.start == pos && p.node.value.end == p.pos
    ensures Leaves(input.content, p.node.value) == input.content[pos..p.pos]
  {
    var fuel: nat :| EvalRule(input, rule, pos, fuel) == Some(p);
    RuleTree(input, rule, pos, fuel);
    LeavesAreText(input.content, p.node.value);
  }
}
