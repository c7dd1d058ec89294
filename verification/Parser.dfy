// The memoised parser: loops over the grammar with one table of results. It returns
// what plain parsing returns, and evaluates nothing twice.
module Parser {
  import opened Wrappers
  import opened Grammar
  import opened PegMeaning

  type Key = (RuleId, int)

  ghost predicate Evaluates(input: Input, k: Key, fuel: nat)
  {
    EvalRule(input, k.0, k.1, fuel).Some?
  }

  // Every result in the table is the plain one.
  ghost predicate CacheOk(input: Input, cache: map<Key, Parsed>)
  {
    forall k :: k in cache ==> Gives(input, k.0, k.1, cache[k])
  }

  // What is new in the table could be evaluated with this fuel.
  ghost predicate NewWithin(input: Input, before: map<Key, Parsed>, after: map<Key, Parsed>, fuel: nat)
  {
    (forall k :: k in before ==> k in after && after[k] == before[k]) &&
    forall k :: k in after && k !in before ==> Evaluates(input, k, fuel)
  }

  lemma NewTwice(input: Input, a: map<Key, Parsed>, b: map<Key, Parsed>, c: map<Key, Parsed>, fuel: nat)
    requires NewWithin(input, a, b, fuel) && NewWithin(input, b, c, fuel)
    ensures NewWithin(input, a, c, fuel)
  {
  }

  // The least fuel that is enough.
  lemma {:induction false} LeastFuel(input: Input, k: Key, fuel: nat) returns (n: nat)
    requires Evaluates(input, k, fuel)
    ensures 0 < n <= fuel && Evaluates(input, k, n) && !Evaluates(input, k, n - 1)
    ensures EvalRule(input, k.0, k.1, n) == EvalRule(input, k.0, k.1, fuel)
  {
    if Evaluates(input, k, fuel - 1) {
      n := LeastFuel(input, k, fuel - 1);
      MoreForRule(input, k.0, k.1, fuel - 1);
    } else {
      n := fuel;
    }
  }

  class Parser {
    const input: Input
    var cache: map<Key, Parsed>
    // The pairs evaluated to the end, in that order.
    ghost var completed: seq<Key>

    constructor (input: Input)
      ensures this.input == input && Valid() && cache == map[] && completed == []
    {
      this.input, cache, completed := input, map[], [];
    }

    ghost predicate Valid()
      reads this
    {
      CacheOk(input, cache) && (forall k :: k in cache <==> k in completed) &&
      forall i, j :: 0 <= i < j < |completed| ==> completed[i] != completed[j]
    }

    method ParseAtom(atom: Atom, pos: int, ghost fuel: nat) returns (p: Parsed)
      requires Valid() && EvalAtom(input, atom, pos, fuel).Some?
      modifies this
      ensures Valid() && NewWithin(input, old(cache), cache, fuel) && old(completed) <= completed
      ensures Some(p) == EvalAtom(input, atom, pos, fuel)
      decreases fuel, 1, 0
    {
      match atom
      case Nonterminal(rule) => p := ParseRule(rule, pos, fuel);
      case Literal(text) => p := Leaf(input.content, pos, text);
      case Scan(scanner) => p := input.scan(scanner, pos);
    }

    // variantApplySeq
    method ApplySeq(atoms: seq<Atom>, start: int, ghost fuel: nat) returns (r: Progress)
      requires Valid() && EvalSeq(input, atoms, |atoms|, start, fuel).Some?
      modifies this
      ensures Valid() && NewWithin(input, old(cache), cache, fuel) && old(completed) <= completed
      ensures Some(r) == EvalSeq(input, atoms, |atoms|, start, fuel)
      decreases fuel, 2, 0
    {
      var furthest, pos, children := start, start, [];
      for k := 0 to |atoms|
        invariant Valid() && NewWithin(input, old(cache), cache, fuel) && old(completed) <= completed
        invariant EvalSeq(input, atoms, k, start, fuel) == Some(Progress(furthest, pos, true, children))
      {
        EarlierAtoms(input, atoms, k + 1, start, fuel);
        ghost var before := cache;
        var p := ParseAtom(atoms[k], pos, fuel);
        NewTwice(input, old(cache), before, cache, fuel);
        furthest := Max(furthest, p.pos);
        if p.node.None? {
          r := Progress(furthest, pos, false, children);
          StopsHere(input, atoms, k + 1, start, fuel);
          return;
        }
        children, pos := children + [p.node.value], p.pos;
      }
      r := Progress(furthest, pos, true, children);
    }

    method ParseVariant(rule: RuleId, id: int, v: Variant, start: int, ghost fuel: nat) returns (p: Parsed)
      requires Valid() && EvalVariant(input, rule, id, v, start, fuel).Some?
      modifies this
      ensures Valid() && NewWithin(input, old(cache), cache, fuel) && old(completed) <= completed
      ensures Some(p) == EvalVariant(input, rule, id, v, start, fuel)
      decreases fuel, 4, 0
    {
      var r := ApplySeq(v.prefix, start, fuel);
      if !r.ok {
        return Parsed(None, r.furthest);
      }
      ghost var before := cache;
      r := ApplyPeriod(v.period, r, fuel);
      NewTwice(input, old(cache), before, cache, fuel);
      before := cache;
      var suffix := ApplySeq(v.suffix, r.pos, fuel);
      NewTwice(input, old(cache), before, cache, fuel);
      if !suffix.ok {
        return Parsed(None, r.furthest);
      }
      var children := r.children + suffix.children;
      if |children| == 0 {
        p := Parsed(Some(Node(rule, id, suffix.pos, suffix.pos, [])), suffix.pos);
      } else {
        p := Parsed(Some(Node(rule, id, children[0].start, children[|children| - 1].end, children)), suffix.pos);
      }
    }

    // The loop over the period.
    method ApplyPeriod(period: seq<Atom>, start: Progress, ghost fuel: nat) returns (r: Progress)
      requires Valid() && EvalPeriod(input, period, start, fuel).Some?
      modifies this
      ensures Valid() && NewWithin(input, old(cache), cache, fuel) && old(completed) <= completed
      ensures Some(r) == EvalPeriod(input, period, start, fuel)
      decreases fuel, 3, 0
    {
      r := start;
      ghost var left: nat := fuel;
      while |period| > 0
        invariant Valid() && NewWithin(input, old(cache), cache, fuel) && old(completed) <= completed && left <= fuel
        invariant EvalPeriod(input, period, r, left) == EvalPeriod(input, period, start, fuel)
        decreases left
      {
        ghost var before := cache;
        var next := ApplySeq(period, r.pos, left);
        NewLess(input, before, cache, left, fuel);
        NewTwice(input, old(cache), before, cache, fuel);
        var furthest := Max(r.furthest, next.furthest);
        if !next.ok {
          r := r.(furthest := furthest);
          return;
        }
        r := Progress(furthest, next.pos, true, r.children + next.children);
        left := left - 1;
      }
    }

    // parseRule: the table first; then every variant until one fits.
    method ParseRule(rule: RuleId, pos: int, ghost fuel: nat) returns (p: Parsed)
      requires Valid() && EvalRule(input, rule, pos, fuel).Some?
      modifies this
      ensures Valid() && NewWithin(input, old(cache), cache, fuel) && old(completed) <= completed
      ensures Some(p) == EvalRule(input, rule, pos, fuel) && RuleMeans(input, rule, pos, p)
      ensures (rule, pos) in cache
      decreases fuel, 0, 0
    {
      ghost var meant := EvalRule(input, rule, pos, fuel).value;
      assert Gives(input, rule, pos, meant);
      GivesWhatIsMeant(input, rule, pos, meant);
      if (rule, pos) in cache {
        p := cache[(rule, pos)];
        GivesOne(input, rule, pos, p, meant);
        return;
      }
      ghost var n := LeastFuel(input, (rule, pos), fuel);
      p := TryVariants(rule, pos, n - 1);
      // nothing tried on the way was this rule at this position
      assert (rule, pos) !in cache;
      NewLess(input, old(cache), cache, n - 1, fuel);
      cache := cache[(rule, pos) := p];
      completed := completed + [(rule, pos)];
    }

    method TryVariants(rule: RuleId, pos: int, ghost fuel: nat) returns (p: Parsed)
      requires Valid() && 0 <= rule < |input.rules| && EvalVariants(input, rule, 0, pos, 0, fuel).Some?
      modifies this
      ensures Valid() && NewWithin(input, old(cache), cache, fuel) && old(completed) <= completed
      ensures Some(p) == EvalVariants(input, rule, 0, pos, 0, fuel)
      decreases fuel, 5, 0
    {
      var furthest := 0;
      for id := 0 to |input.rules[rule]|
        invariant Valid() && NewWithin(input, old(cache), cache, fuel) && old(completed) <= completed
        invariant EvalVariants(input, rule, id, pos, furthest, fuel) == EvalVariants(input, rule, 0, pos, 0, fuel)
      {
        ghost var before := cache;
        p := ParseVariant(rule, id, input.rules[rule][id], pos, fuel);
        NewTwice(input, old(cache), before, cache, fuel);
        if p.node.Some? {
          return;
        }
        furthest := Max(p.pos, furthest);
      }
      p := Parsed(None, furthest);
    }
  }

  lemma NewLess(input: Input, before: map<Key, Parsed>, after: map<Key, Parsed>, fuel: nat, more: nat)
    requires NewWithin(input, before, after, fuel) && fuel <= more
    ensures NewWithin(input, before, after, more)
  {
    forall k | k in after && k !in before ensures Evaluates(input, k, more) {
      MuchMore(input, k.0, k.1, fuel, more);
    }
  }

  // If all atoms can be evaluated, so can the first ones.
  lemma {:induction false} EarlierAtoms(input: Input, atoms: seq<Atom>, k: nat, start: int, fuel: nat)
    requires k <= |atoms| && EvalSeq(input, atoms, |atoms|, start, fuel).Some?
    ensures EvalSeq(input, atoms, k, start, fuel).Some?
    decreases |atoms| - k
  {
    if k < |atoms| { EarlierAtoms(input, atoms, k + 1, start, fuel); }
  }

  // After an atom that fails nothing is tried.
  lemma {:induction false} StopsHere(input: Input, atoms: seq<Atom>, k: nat, start: int, fuel: nat)
    requires k <= |atoms| && EvalSeq(input, atoms, k, start, fuel).Some? && !EvalSeq(input, atoms, k, start, fuel).value.ok
    ensures EvalSeq(input, atoms, |atoms|, start, fuel) == EvalSeq(input, atoms, k, start, fuel)
    decreases |atoms| - k
  {
    if k < |atoms| { StopsHere(input, atoms, k + 1, start, fuel); }
  }
}
