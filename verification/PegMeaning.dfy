// What plain parsing gives, said outright: sequences, greedy periods and ordered choice,
// each by the results of its parts. Evaluation gives exactly that.
module PegMeaning {
  import opened Wrappers
  import opened Grammar

  ghost predicate AtomGives(input: Input, atom: Atom, pos: int, p: Parsed)
  {
    match atom
    case Literal(text) =>
      if 0 <= pos && pos + |text| <= |input.content| && input.content[pos..pos + |text|] == text
      then p == Parsed(Some(Node(-1, 0, pos, pos + |text|, [])), pos + |text|)
      else p == Parsed(None, pos)
    case Nonterminal(rule) => Gives(input, rule, pos, p)
    case Scan(scanner) => p == input.scan(scanner, pos)
  }

  // ---------------------------------------------------------------- sequences

  // Where the k-th atom of a sequence is tried: behind the tree in front of it.
  function TriedAt(pos: int, tried: seq<Parsed>, k: nat): int
    requires k <= |tried|
  {
    if k == 0 then pos else tried[k - 1].pos
  }

  // The results of the first atoms, up to the first one without a tree.
  ghost predicate Tried(input: Input, atoms: seq<Atom>, pos: int, tried: seq<Parsed>)
  {
    |tried| <= |atoms| &&
    (forall k :: 0 <= k < |tried| ==> TriedOk(input, atoms, pos, tried, k)) &&
    (|tried| < |atoms| ==> tried != [] && tried[|tried| - 1].node.None?)
  }

  ghost predicate TriedOk(input: Input, atoms: seq<Atom>, pos: int, tried: seq<Parsed>, k: nat)
    requires k < |tried| <= |atoms|
  {
    AtomGives(input, atoms[k], TriedAt(pos, tried, k), tried[k]) && (k + 1 < |tried| ==> tried[k].node.Some?)
  }

  // The furthest of a start and some positions.
  ghost predicate Furthest(furthest: int, start: int, ps: seq<Parsed>)
  {
    start <= furthest && (forall k :: 0 <= k < |ps| ==> ps[k].pos <= furthest) &&
    (furthest == start || exists k :: 0 <= k < |ps| && ps[k].pos == furthest)
  }

  // All trees, or the trees in front of the failing atom; and how far it got.
  ghost predicate SeqResult(pos: int, tried: seq<Parsed>, r: Progress)
  {
    r.ok == (tried == [] || tried[|tried| - 1].node.Some?) &&
    |r.children| == (if r.ok then |tried| else |tried| - 1) &&
    (forall k :: 0 <= k < |r.children| ==> tried[k].node == Some(r.children[k])) &&
    r.pos == TriedAt(pos, tried, |r.children|) && Furthest(r.furthest, pos, tried)
  }

  ghost predicate SeqGives(input: Input, atoms: seq<Atom>, pos: int, r: Progress)
  {
    exists tried :: Tried(input, atoms, pos, tried) && SeqResult(pos, tried, r)
  }

  // ---------------------------------------------------------------- periods

  function RoundAt(pos: int, rounds: seq<Progress>, k: nat): int
    requires k <= |rounds|
  {
    if k == 0 then pos else rounds[k - 1].pos
  }

  ghost predicate RoundOk(input: Input, period: seq<Atom>, pos: int, rounds: seq<Progress>, k: nat)
    requires k < |rounds|
  {
    SeqGives(input, period, RoundAt(pos, rounds, k), rounds[k]) && (rounds[k].ok <==> k + 1 < |rounds|)
  }

  // One round behind the other, up to the first one that does not fit.
  ghost predicate Rounds(input: Input, period: seq<Atom>, pos: int, rounds: seq<Progress>)
  {
    rounds != [] && forall k :: 0 <= k < |rounds| ==> RoundOk(input, period, pos, rounds, k)
  }

  // The trees of all rounds that fit.
  function TreesOf(rounds: seq<Progress>): seq<Node>
  {
    if rounds == [] then [] else rounds[0].children + TreesOf(rounds[1..])
  }

  ghost predicate FurthestRound(furthest: int, start: int, rounds: seq<Progress>)
  {
    start <= furthest && (forall k :: 0 <= k < |rounds| ==> rounds[k].furthest <= furthest) &&
    (furthest == start || exists k :: 0 <= k < |rounds| && rounds[k].furthest == furthest)
  }

  ghost predicate PeriodResult(start: Progress, rounds: seq<Progress>, r: Progress)
    requires rounds != []
  {
    var last := |rounds| - 1;
    r.ok && r.pos == RoundAt(start.pos, rounds, last) && r.children == start.children + TreesOf(rounds[..last]) &&
    FurthestRound(r.furthest, start.furthest, rounds)
  }

  // Behind a prefix: as many rounds as fit, and no further round fits.
  ghost predicate PeriodGives(input: Input, period: seq<Atom>, start: Progress, r: Progress)
  {
    if period == [] then r == start
    else exists rounds :: Rounds(input, period, start.pos, rounds) && PeriodResult(start, rounds, r)
  }

  // ---------------------------------------------------------------- variants and rules

  // A tree over the children; with none it is empty, where parsing stands.
  ghost predicate IsTree(n: Node, rule: RuleId, id: int, children: seq<Node>, pos: int)
  {
    n.rule == rule && n.variant == id && n.children == children &&
    n.start == (if children == [] then pos else children[0].start) &&
    n.end == (if children == [] then pos else children[|children| - 1].end)
  }

  // Behind the prefix and the rounds the suffix decides.
  ghost predicate SuffixGives(input: Input, rule: RuleId, id: int, v: Variant, r: Progress, p: Parsed)
  {
    exists suffix :: SeqGives(input, v.suffix, r.pos, suffix) &&
      if suffix.ok then p.pos == suffix.pos && p.node.Some? && IsTree(p.node.value, rule, id, r.children + suffix.children, suffix.pos)
      else p == Parsed(None, r.furthest)
  }

  ghost predicate VariantGives(input: Input, rule: RuleId, id: int, v: Variant, pos: int, p: Parsed)
  {
    exists prefix :: SeqGives(input, v.prefix, pos, prefix) &&
      if prefix.ok then exists r :: PeriodGives(input, v.period, prefix, r) && SuffixGives(input, rule, id, v, r, p)
      else p == Parsed(None, prefix.furthest)
  }

  ghost predicate NoTree(input: Input, rule: RuleId, id: nat, pos: int, p: Parsed)
    requires 0 <= rule < |input.rules| && id < |input.rules[rule]|
  {
    p.node.None? && VariantGives(input, rule, id, input.rules[rule][id], pos, p)
  }

  // Ordered choice: the tree of the first variant that has one.
  ghost predicate FirstFits(input: Input, rule: RuleId, pos: int, p: Parsed)
    requires 0 <= rule < |input.rules|
  {
    exists id: nat :: id < |input.rules[rule]| && ChoiceIs(input, rule, pos, id, p)
  }

  ghost predicate ChoiceIs(input: Input, rule: RuleId, pos: int, id: nat, p: Parsed)
    requires 0 <= rule < |input.rules| && id < |input.rules[rule]|
  {
    p.node.Some? && p.node.value.variant == id && VariantGives(input, rule, id, input.rules[rule][id], pos, p) &&
    forall j: nat :: j < id ==> Fails(input, rule, pos, j)
  }

  ghost predicate Fails(input: Input, rule: RuleId, pos: int, id: nat)
    requires 0 <= rule < |input.rules| && id < |input.rules[rule]|
  {
    exists q :: NoTree(input, rule, id, pos, q)
  }

  // No variant has one: then the furthest position any of them came to.
  ghost predicate NoneFits(input: Input, rule: RuleId, pos: int, p: Parsed)
    requires 0 <= rule < |input.rules|
  {
    exists ps: seq<Parsed> :: AllFail(input, rule, pos, ps) && p.node.None? && Furthest(p.pos, 0, ps)
  }

  ghost predicate AllFail(input: Input, rule: RuleId, pos: int, ps: seq<Parsed>)
    requires 0 <= rule < |input.rules|
  {
    |ps| == |input.rules[rule]| && FirstFail(input, rule, pos, ps)
  }

  ghost predicate FirstFail(input: Input, rule: RuleId, pos: int, ps: seq<Parsed>)
    requires 0 <= rule < |input.rules|
  {
    |ps| <= |input.rules[rule]| && forall j: nat :: j < |ps| ==> NoTree(input, rule, j, pos, ps[j])
  }

  ghost predicate RuleMeans(input: Input, rule: RuleId, pos: int, p: Parsed)
  {
    0 <= rule < |input.rules| && if p.node.Some? then FirstFits(input, rule, pos, p) else NoneFits(input, rule, pos, p)
  }

  // ---------------------------------------------------------------- sequences evaluate to what they mean

  lemma AtomMeans(input: Input, atom: Atom, pos: int, fuel: nat)
    requires EvalAtom(input, atom, pos, fuel).Some?
    ensures AtomGives(input, atom, pos, EvalAtom(input, atom, pos, fuel).value)
  {
  }

  lemma AtomEvaluates(input: Input, atom: Atom, pos: int, p: Parsed) returns (fuel: nat)
    requires AtomGives(input, atom, pos, p)
    ensures EvalAtom(input, atom, pos, fuel) == Some(p)
  {
    fuel := 0;
    if atom.Nonterminal? {
      fuel :| EvalRule(input, atom.rule, pos, fuel) == Some(p);
    }
  }

  // One atom more.
  function Onward(r: Progress, p: Parsed): Progress
  {
    var furthest := Max(r.furthest, p.pos);
    match p.node
    case None => Progress(furthest, r.pos, false, r.children)
    case Some(n) => Progress(furthest, p.pos, true, r.children + [n])
  }

  lemma FurthestOnward(furthest: int, start: int, ps: seq<Parsed>, p: Parsed)
    requires Furthest(furthest, start, ps)
    ensures Furthest(Max(furthest, p.pos), start, ps + [p])
  {
    var qs := ps + [p];
    assert qs[|ps|] == p;
    if furthest != start && furthest >= p.pos {
      var k :| 0 <= k < |ps| && ps[k].pos == furthest;
      assert qs[k].pos == furthest;
    }
  }

  lemma FurthestOne(a: int, b: int, start: int, ps: seq<Parsed>)
    requires Furthest(a, start, ps) && Furthest(b, start, ps)
    ensures a == b
  {
  }

  lemma TriedOnward(input: Input, atoms: seq<Atom>, k: nat, pos: int, tried: seq<Parsed>, r: Progress, p: Parsed)
    requires 0 < k <= |atoms| && Tried(input, atoms[..k - 1], pos, tried) && SeqResult(pos, tried, r) && r.ok
    requires AtomGives(input, atoms[k - 1], r.pos, p)
    ensures Tried(input, atoms[..k], pos, tried + [p])
    ensures SeqResult(pos, tried + [p], Onward(r, p))
  {
    var more := tried + [p];
    assert |tried| == k - 1;
    forall j | 0 <= j < |more| ensures TriedOk(input, atoms[..k], pos, more, j) {
      if j < |tried| { assert TriedOk(input, atoms[..k - 1], pos, tried, j); }
    }
    FurthestOnward(r.furthest, pos, tried, p);
  }

  lemma TriedStays(input: Input, atoms: seq<Atom>, k: nat, pos: int, tried: seq<Parsed>)
    requires 0 < k <= |atoms| && |tried| < k
    requires tried != [] && tried[|tried| - 1].node.None?
    ensures Tried(input, atoms[..k], pos, tried) <==> Tried(input, atoms[..k - 1], pos, tried)
  {
    var more, fewer := atoms[..k], atoms[..k - 1];
    forall j: nat | j < |tried| ensures TriedOk(input, more, pos, tried, j) <==> TriedOk(input, fewer, pos, tried, j) {
    }
  }

  lemma {:induction false} FirstAtomsMean(input: Input, atoms: seq<Atom>, k: nat, pos: int, fuel: nat) returns (tried: seq<Parsed>)
    requires k <= |atoms| && EvalSeq(input, atoms, k, pos, fuel).Some?
    ensures Tried(input, atoms[..k], pos, tried) && SeqResult(pos, tried, EvalSeq(input, atoms, k, pos, fuel).value)
    decreases k
  {
    tried := [];
    if k > 0 {
      tried := FirstAtomsMean(input, atoms, k - 1, pos, fuel);
      var r := EvalSeq(input, atoms, k - 1, pos, fuel).value;
      if r.ok {
        AtomMeans(input, atoms[k - 1], r.pos, fuel);
        var p := EvalAtom(input, atoms[k - 1], r.pos, fuel).value;
        TriedOnward(input, atoms, k, pos, tried, r, p);
        tried := tried + [p];
      } else {
        TriedStays(input, atoms, k, pos, tried);
      }
    }
  }

  lemma SeqMeans(input: Input, atoms: seq<Atom>, pos: int, fuel: nat)
    requires EvalSeq(input, atoms, |atoms|, pos, fuel).Some?
    ensures SeqGives(input, atoms, pos, EvalSeq(input, atoms, |atoms|, pos, fuel).value)
  {
    var tried := FirstAtomsMean(input, atoms, |atoms|, pos, fuel);
    assert atoms[..|atoms|] == atoms;
  }

  lemma TriedBefore(input: Input, atoms: seq<Atom>, k: nat, pos: int, tried: seq<Parsed>)
    requires 0 < k <= |atoms| && Tried(input, atoms[..k], pos, tried) && |tried| == k
    ensures Tried(input, atoms[..k - 1], pos, tried[..k - 1])
    ensures k > 1 ==> tried[k - 2].node.Some?
    ensures AtomGives(input, atoms[k - 1], TriedAt(pos, tried, k - 1), tried[k - 1])
  {
    var first, fewer := atoms[..k - 1], tried[..k - 1];
    forall j: nat | j < |fewer| ensures TriedOk(input, first, pos, fewer, j) {
      assert TriedOk(input, atoms[..k], pos, tried, j);
    }
    assert TriedOk(input, atoms[..k], pos, tried, k - 1);
    if k > 1 { assert TriedOk(input, atoms[..k], pos, tried, k - 2); }
  }

  lemma {:induction false} FirstAtomsEvaluate(input: Input, atoms: seq<Atom>, k: nat, pos: int, tried: seq<Parsed>) returns (fuel: nat)
    requires k <= |atoms| && Tried(input, atoms[..k], pos, tried)
    ensures EvalSeq(input, atoms, k, pos, fuel).Some? && SeqResult(pos, tried, EvalSeq(input, atoms, k, pos, fuel).value)
    decreases k
  {
    fuel := 0;
    if k > 0 {
      if |tried| < k {
        TriedStays(input, atoms, k, pos, tried);
        fuel := FirstAtomsEvaluate(input, atoms, k - 1, pos, tried);
      } else {
        TriedBefore(input, atoms, k, pos, tried);
        var a := FirstAtomsEvaluate(input, atoms, k - 1, pos, tried[..k - 1]);
        var r := EvalSeq(input, atoms, k - 1, pos, a).value;
        var b := AtomEvaluates(input, atoms[k - 1], r.pos, tried[k - 1]);
        fuel := a + b;
        MuchMoreForSeq(input, atoms, k - 1, pos, a, fuel);
        MuchMoreForAtom(input, atoms[k - 1], r.pos, b, fuel);
        TriedOnward(input, atoms, k, pos, tried[..k - 1], r, tried[k - 1]);
        assert tried[..k - 1] + [tried[k - 1]] == tried;
      }
    }
  }

  lemma ResultIsOne(pos: int, tried: seq<Parsed>, r: Progress, q: Progress)
    requires SeqResult(pos, tried, r) && SeqResult(pos, tried, q)
    ensures r == q
  {
    FurthestOne(r.furthest, q.furthest, pos, tried);
    assert r.children == q.children;
  }

  lemma SeqEvaluates(input: Input, atoms: seq<Atom>, pos: int, r: Progress) returns (fuel: nat)
    requires SeqGives(input, atoms, pos, r)
    ensures EvalSeq(input, atoms, |atoms|, pos, fuel) == Some(r)
  {
    var tried :| Tried(input, atoms, pos, tried) && SeqResult(pos, tried, r);
    assert atoms[..|atoms|] == atoms;
    fuel := FirstAtomsEvaluate(input, atoms, |atoms|, pos, tried);
    ResultIsOne(pos, tried, r, EvalSeq(input, atoms, |atoms|, pos, fuel).value);
  }

  // ---------------------------------------------------------------- so do periods

  function Around(start: Progress, round: Progress): Progress
  {
    Progress(Max(start.furthest, round.furthest), round.pos, true, start.children + round.children)
  }

  lemma RoundsOnward(input: Input, period: seq<Atom>, pos: int, round: Progress, rounds: seq<Progress>)
    requires SeqGives(input, period, pos, round) && round.ok
    ensures Rounds(input, period, pos, [round] + rounds) <==> Rounds(input, period, round.pos, rounds)
  {
    var all := [round] + rounds;
    if Rounds(input, period, round.pos, rounds) {
      forall k | 0 <= k < |all| ensures RoundOk(input, period, pos, all, k) {
        if k > 0 { assert RoundOk(input, period, round.pos, rounds, k - 1); }
      }
    }
    if Rounds(input, period, pos, all) {
      assert RoundOk(input, period, pos, all, 0);
      forall k | 0 <= k < |rounds| ensures RoundOk(input, period, round.pos, rounds, k) {
        assert RoundOk(input, period, pos, all, k + 1);
      }
    }
  }

  lemma FurthestRoundOnward(furthest: int, start: int, round: Progress, rounds: seq<Progress>)
    ensures FurthestRound(furthest, start, [round] + rounds) <==> FurthestRound(furthest, Max(start, round.furthest), rounds)
  {
    var all := [round] + rounds;
    assert forall k :: 0 <= k < |rounds| ==> all[k + 1] == rounds[k];
    if FurthestRound(furthest, start, all) && furthest != Max(start, round.furthest) {
      var k :| 0 <= k < |all| && all[k].furthest == furthest;
      assert rounds[k - 1].furthest == furthest;
    }
    if FurthestRound(furthest, Max(start, round.furthest), rounds) {
      assert all[0].furthest <= furthest;
      forall k | 0 <= k < |all| ensures all[k].furthest <= furthest {
        if k > 0 { assert all[k] == rounds[k - 1]; }
      }
    }
  }

  lemma PeriodOnward(start: Progress, round: Progress, rounds: seq<Progress>, r: Progress)
    requires rounds != []
    ensures PeriodResult(start, [round] + rounds, r) <==> PeriodResult(Around(start, round), rounds, r)
  {
    var all, last := [round] + rounds, |rounds| - 1;
    assert all[..last + 1] == [round] + rounds[..last];
    assert TreesOf([round] + rounds[..last]) == round.children + TreesOf(rounds[..last]) by {
      assert ([round] + rounds[..last])[1..] == rounds[..last];
    }
    assert start.children + (round.children + TreesOf(rounds[..last])) == start.children + round.children + TreesOf(rounds[..last]);
    FurthestRoundOnward(r.furthest, start.furthest, round, rounds);
  }

  lemma LastRound(start: Progress, round: Progress)
    requires start.ok
    ensures PeriodResult(start, [round], start.(furthest := Max(start.furthest, round.furthest)))
  {
    assert [round][..0] == [];
    assert [round][0] == round;
  }

  lemma {:induction false} PeriodMeans(input: Input, period: seq<Atom>, start: Progress, fuel: nat)
    requires start.ok && EvalPeriod(input, period, start, fuel).Some?
    ensures PeriodGives(input, period, start, EvalPeriod(input, period, start, fuel).value)
    decreases fuel
  {
    if period != [] {
      SeqMeans(input, period, start.pos, fuel);
      var round := EvalSeq(input, period, |period|, start.pos, fuel).value;
      var r := EvalPeriod(input, period, start, fuel).value;
      if round.ok {
        PeriodMeans(input, period, Around(start, round), fuel - 1);
        var rounds :| Rounds(input, period, round.pos, rounds) && PeriodResult(Around(start, round), rounds, r);
        RoundsOnward(input, period, start.pos, round, rounds);
        PeriodOnward(start, round, rounds, r);
      } else {
        LastRound(start, round);
        assert RoundOk(input, period, start.pos, [round], 0);
        assert Rounds(input, period, start.pos, [round]);
      }
    }
  }

  lemma OneLastRound(start: Progress, round: Progress, r: Progress)
    requires start.ok && PeriodResult(start, [round], r)
    ensures r == start.(furthest := Max(start.furthest, round.furthest))
  {
    assert [round][..0] == [];
    assert [round][0] == round;
  }

  lemma {:induction false} RoundsEvaluate(input: Input, period: seq<Atom>, start: Progress, rounds: seq<Progress>, r: Progress)
    returns (fuel: nat)
    requires period != [] && start.ok && Rounds(input, period, start.pos, rounds) && PeriodResult(start, rounds, r)
    ensures EvalPeriod(input, period, start, fuel) == Some(r)
    decreases rounds
  {
    var round, rest := rounds[0], rounds[1..];
    assert rounds == [round] + rest;
    assert RoundOk(input, period, start.pos, rounds, 0);
    var a := SeqEvaluates(input, period, start.pos, round);
    if rest == [] {
      fuel := a;
      OneLastRound(start, round, r);
    } else {
      RoundsOnward(input, period, start.pos, round, rest);
      PeriodOnward(start, round, rest, r);
      var b := RoundsEvaluate(input, period, Around(start, round), rest, r);
      var below := a + b;
      fuel := below + 1;
      MuchMoreForSeq(input, period, |period|, start.pos, a, fuel);
      MuchMoreForPeriod(input, period, Around(start, round), b, below);
    }
  }

  lemma PeriodEvaluates(input: Input, period: seq<Atom>, start: Progress, r: Progress) returns (fuel: nat)
    requires start.ok && PeriodGives(input, period, start, r)
    ensures EvalPeriod(input, period, start, fuel) == Some(r)
  {
    fuel := 0;
    if period != [] {
      var rounds :| Rounds(input, period, start.pos, rounds) && PeriodResult(start, rounds, r);
      fuel := RoundsEvaluate(input, period, start, rounds, r);
    }
  }

  // ---------------------------------------------------------------- variants

  lemma SuffixMeans(input: Input, rule: RuleId, id: int, v: Variant, r: Progress, fuel: nat)
    requires EvalSeq(input, v.suffix, |v.suffix|, r.pos, fuel).Some?
    ensures SuffixGives(input, rule, id, v, r, Finish(rule, id, r, EvalSeq(input, v.suffix, |v.suffix|, r.pos, fuel).value))
  {
    SeqMeans(input, v.suffix, r.pos, fuel);
    var suffix := EvalSeq(input, v.suffix, |v.suffix|, r.pos, fuel).value;
    if suffix.ok { TreeIsFinish(rule, id, r, suffix); }
  }

  lemma TreeIsFinish(rule: RuleId, id: int, r: Progress, suffix: Progress)
    requires suffix.ok
    ensures var p := Finish(rule, id, r, suffix);
            p.pos == suffix.pos && p.node.Some? && IsTree(p.node.value, rule, id, r.children + suffix.children, suffix.pos)
  {
  }

  lemma VariantMeans(input: Input, rule: RuleId, id: int, v: Variant, pos: int, fuel: nat)
    requires EvalVariant(input, rule, id, v, pos, fuel).Some?
    ensures VariantGives(input, rule, id, v, pos, EvalVariant(input, rule, id, v, pos, fuel).value)
  {
    SeqMeans(input, v.prefix, pos, fuel);
    var prefix := EvalSeq(input, v.prefix, |v.prefix|, pos, fuel).value;
    if prefix.ok {
      PeriodMeans(input, v.period, prefix, fuel);
      var r := EvalPeriod(input, v.period, prefix, fuel).value;
      SuffixMeans(input, rule, id, v, r, fuel);
    }
  }

  lemma FinishIsTree(rule: RuleId, id: int, r: Progress, suffix: Progress, p: Parsed)
    requires suffix.ok && p.pos == suffix.pos && p.node.Some?
    requires IsTree(p.node.value, rule, id, r.children + suffix.children, suffix.pos)
    ensures p == Finish(rule, id, r, suffix)
  {
  }

  lemma SuffixEvaluates(input: Input, rule: RuleId, id: int, v: Variant, r: Progress, p: Parsed) returns (suffix: Progress, fuel: nat)
    requires SuffixGives(input, rule, id, v, r, p)
    ensures EvalSeq(input, v.suffix, |v.suffix|, r.pos, fuel) == Some(suffix) && p == Finish(rule, id, r, suffix)
  {
    suffix :| SeqGives(input, v.suffix, r.pos, suffix) &&
      if suffix.ok then p.pos == suffix.pos && p.node.Some? && IsTree(p.node.value, rule, id, r.children + suffix.children, suffix.pos)
      else p == Parsed(None, r.furthest);
    fuel := SeqEvaluates(input, v.suffix, r.pos, suffix);
    if suffix.ok { FinishIsTree(rule, id, r, suffix, p); }
  }

  lemma VariantEvaluates(input: Input, rule: RuleId, id: int, v: Variant, pos: int, p: Parsed) returns (fuel: nat)
    requires VariantGives(input, rule, id, v, pos, p)
    ensures EvalVariant(input, rule, id, v, pos, fuel) == Some(p)
  {
    var prefix :| SeqGives(input, v.prefix, pos, prefix) &&
      if prefix.ok then exists r :: PeriodGives(input, v.period, prefix, r) && SuffixGives(input, rule, id, v, r, p)
      else p == Parsed(None, prefix.furthest);
    var a := SeqEvaluates(input, v.prefix, pos, prefix);
    fuel := a;
    if prefix.ok {
      var r :| PeriodGives(input, v.period, prefix, r) && SuffixGives(input, rule, id, v, r, p);
      var b := PeriodEvaluates(input, v.period, prefix, r);
      var suffix, c := SuffixEvaluates(input, rule, id, v, r, p);
      fuel := a + b + c;
      MuchMoreForSeq(input, v.prefix, |v.prefix|, pos, a, fuel);
      MuchMoreForPeriod(input, v.period, prefix, b, fuel);
      MuchMoreForSeq(input, v.suffix, |v.suffix|, r.pos, c, fuel);
    }
  }

  // ---------------------------------------------------------------- ordered choice

  lemma VariantNumber(input: Input, rule: RuleId, id: int, v: Variant, pos: int, p: Parsed)
    requires VariantGives(input, rule, id, v, pos, p) && p.node.Some?
    ensures p.node.value.variant == id
  {
  }

  // The variants in front of number id have failed as in ps, and have come this far.
  ghost predicate FailedTo(input: Input, rule: RuleId, pos: int, id: nat, furthest: int, ps: seq<Parsed>)
    requires 0 <= rule < |input.rules|
  {
    |ps| == id && FirstFail(input, rule, pos, ps) && Furthest(furthest, 0, ps)
  }

  lemma OneMoreFailed(input: Input, rule: RuleId, pos: int, id: nat, furthest: int, ps: seq<Parsed>, p: Parsed, next: nat, more: int)
    requires 0 <= rule < |input.rules| && id < |input.rules[rule]| && FailedTo(input, rule, pos, id, furthest, ps)
    requires next == id + 1 && more == Max(p.pos, furthest) && NoTree(input, rule, id, pos, p)
    ensures FailedTo(input, rule, pos, next, more, ps + [p])
  {
    FurthestOnward(furthest, 0, ps, p);
    var all := ps + [p];
    forall j: nat | j < |all| ensures NoTree(input, rule, j, pos, all[j]) {
      if j < id { assert NoTree(input, rule, j, pos, ps[j]); }
    }
  }

  lemma VariantMeansTree(input: Input, rule: RuleId, id: nat, pos: int, furthest: int, p: Parsed, ps: seq<Parsed>)
    requires 0 <= rule < |input.rules| && id < |input.rules[rule]| && FailedTo(input, rule, pos, id, furthest, ps)
    requires VariantGives(input, rule, id, input.rules[rule][id], pos, p) && p.node.Some?
    ensures RuleMeans(input, rule, pos, p)
  {
    VariantNumber(input, rule, id, input.rules[rule][id], pos, p);
    forall j: nat | j < id ensures Fails(input, rule, pos, j) {
      assert NoTree(input, rule, j, pos, ps[j]);
    }
    assert ChoiceIs(input, rule, pos, id, p);
  }

  lemma AllFailedMeans(input: Input, rule: RuleId, pos: int, id: nat, furthest: int, ps: seq<Parsed>)
    requires 0 <= rule < |input.rules| && id == |input.rules[rule]| && FailedTo(input, rule, pos, id, furthest, ps)
    ensures RuleMeans(input, rule, pos, Parsed(None, furthest))
  {
    assert AllFail(input, rule, pos, ps);
  }

  lemma {:induction false} ChoiceMeans(input: Input, rule: RuleId, id: nat, pos: int, furthest: int, ps: seq<Parsed>, fuel: nat)
    requires 0 <= rule < |input.rules| && id <= |input.rules[rule]| && EvalVariants(input, rule, id, pos, furthest, fuel).Some?
    requires FailedTo(input, rule, pos, id, furthest, ps)
    ensures RuleMeans(input, rule, pos, EvalVariants(input, rule, id, pos, furthest, fuel).value)
    decreases |input.rules[rule]| - id
  {
    if id == |input.rules[rule]| {
      AllFailedMeans(input, rule, pos, id, furthest, ps);
    } else {
      var v := input.rules[rule][id];
      VariantMeans(input, rule, id, v, pos, fuel);
      var p := EvalVariant(input, rule, id, v, pos, fuel).value;
      if p.node.Some? {
        VariantMeansTree(input, rule, id, pos, furthest, p, ps);
      } else {
        var next, more := id + 1, Max(p.pos, furthest);
        OneMoreFailed(input, rule, pos, id, furthest, ps, p, next, more);
        ChoiceMeans(input, rule, next, pos, more, ps + [p], fuel);
      }
    }
  }

  // A variant that fails, and the variants behind it.
  lemma PastFailure(input: Input, rule: RuleId, id: nat, pos: int, furthest: int, q: Parsed, a: nat, next: nat, more: int, b: nat) returns (fuel: nat)
    requires 0 <= rule < |input.rules| && id < |input.rules[rule]| && next == id + 1 && more == Max(q.pos, furthest) && q.node.None?
    requires EvalVariant(input, rule, id, input.rules[rule][id], pos, a) == Some(q)
    requires EvalVariants(input, rule, next, pos, more, b).Some?
    ensures EvalVariants(input, rule, id, pos, furthest, fuel) == EvalVariants(input, rule, next, pos, more, b)
  {
    fuel := a + b;
    MuchMoreForVariant(input, rule, id, input.rules[rule][id], pos, a, fuel);
    MuchMoreForVariants(input, rule, next, pos, more, b, fuel);
  }

  lemma {:induction false} ChoiceEvaluates(input: Input, rule: RuleId, id: nat, chosen: nat, pos: int, furthest: int, p: Parsed)
    returns (fuel: nat)
    requires 0 <= rule < |input.rules| && id <= chosen < |input.rules[rule]| && ChoiceIs(input, rule, pos, chosen, p)
    ensures EvalVariants(input, rule, id, pos, furthest, fuel) == Some(p)
    decreases chosen - id
  {
    if id == chosen {
      fuel := VariantEvaluates(input, rule, id, input.rules[rule][id], pos, p);
    } else {
      assert Fails(input, rule, pos, id);
      var q, a := FailureOf(input, rule, id, pos);
      var next, more := id + 1, Max(q.pos, furthest);
      var b := ChoiceEvaluates(input, rule, next, chosen, pos, more, p);
      fuel := PastFailure(input, rule, id, pos, furthest, q, a, next, more, b);
    }
  }

  lemma FailureOf(input: Input, rule: RuleId, id: nat, pos: int) returns (q: Parsed, fuel: nat)
    requires 0 <= rule < |input.rules| && id < |input.rules[rule]| && Fails(input, rule, pos, id)
    ensures q.node.None? && EvalVariant(input, rule, id, input.rules[rule][id], pos, fuel) == Some(q)
  {
    q :| NoTree(input, rule, id, pos, q);
    fuel := VariantEvaluates(input, rule, id, input.rules[rule][id], pos, q);
  }

  lemma OneFurther(ps: seq<Parsed>, id: nat, next: nat, furthest: int, more: int)
    requires id < |ps| && next == id + 1 && more == Max(ps[id].pos, furthest) && Furthest(furthest, 0, ps[..id])
    ensures Furthest(more, 0, ps[..next])
  {
    FurthestOnward(furthest, 0, ps[..id], ps[id]);
    assert ps[..next] == ps[..id] + [ps[id]];
  }

  ghost predicate FailsAtLast(r: Option<Parsed>, ps: seq<Parsed>)
  {
    r.Some? && r.value.node.None? && Furthest(r.value.pos, 0, ps)
  }

  lemma {:induction false} FailureEvaluates(input: Input, rule: RuleId, id: nat, pos: int, furthest: int, ps: seq<Parsed>)
    returns (fuel: nat)
    requires 0 <= rule < |input.rules| && id <= |input.rules[rule]| && AllFail(input, rule, pos, ps) && Furthest(furthest, 0, ps[..id])
    ensures FailsAtLast(EvalVariants(input, rule, id, pos, furthest, fuel), ps)
    decreases |input.rules[rule]| - id
  {
    if id == |ps| {
      assert ps[..id] == ps;
      fuel := 0;
    } else {
      var q := ps[id];
      assert NoTree(input, rule, id, pos, q);
      var a := VariantEvaluates(input, rule, id, input.rules[rule][id], pos, q);
      var next, more := id + 1, Max(q.pos, furthest);
      OneFurther(ps, id, next, furthest, more);
      var b := FailureEvaluates(input, rule, next, pos, more, ps);
      fuel := PastFailure(input, rule, id, pos, furthest, q, a, next, more, b);
    }
  }

  lemma NoneFitsEvaluates(input: Input, rule: RuleId, pos: int, p: Parsed) returns (fuel: nat)
    requires 0 <= rule < |input.rules| && NoneFits(input, rule, pos, p)
    ensures EvalVariants(input, rule, 0, pos, 0, fuel) == Some(p)
  {
    var ps: seq<Parsed> :| AllFail(input, rule, pos, ps) && p.node.None? && Furthest(p.pos, 0, ps);
    fuel := FailureEvaluates(input, rule, 0, pos, 0, ps);
    FurthestOne(p.pos, EvalVariants(input, rule, 0, pos, 0, fuel).value.pos, 0, ps);
  }

  // What evaluation gives is what the grammar means, both ways.
  lemma GivesWhatIsMeant(input: Input, rule: RuleId, pos: int, p: Parsed)
    ensures Gives(input, rule, pos, p) <==> RuleMeans(input, rule, pos, p)
  {
    if Gives(input, rule, pos, p) {
      var fuel: nat :| EvalRule(input, rule, pos, fuel) == Some(p);
      ChoiceMeans(input, rule, 0, pos, 0, [], fuel - 1);
    }
    if RuleMeans(input, rule, pos, p) {
      var fuel: nat;
      if p.node.Some? {
        var id: nat :| id < |input.rules[rule]| && ChoiceIs(input, rule, pos, id, p);
        fuel := ChoiceEvaluates(input, rule, 0, id, pos, 0, p);
      } else {
        fuel := NoneFitsEvaluates(input, rule, pos, p);
      }
      assert EvalRule(input, rule, pos, fuel + 1) == Some(p);
    }
  }
}
