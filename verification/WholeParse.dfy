// Parsing a whole file: one global construction after the other, with a way past
// errors, and what of the text the resulting trees hold.
module WholeParse {
  import opened Wrappers
  import opened Grammar
  import P = Parser

  // ---------------------------------------------------------------- failures look forward

  lemma {:induction false} SeqLooksForward(input: Input, atoms: seq<Atom>, k: nat, pos: int, fuel: nat)
    requires k <= |atoms| && EvalSeq(input, atoms, k, pos, fuel).Some?
    ensures EvalSeq(input, atoms, k, pos, fuel).value.furthest >= pos
    decreases k
  {
    if k > 0 { SeqLooksForward(input, atoms, k - 1, pos, fuel); }
  }

  lemma {:induction false} PeriodLooksForward(input: Input, period: seq<Atom>, r: Progress, fuel: nat)
    requires EvalPeriod(input, period, r, fuel).Some?
    ensures EvalPeriod(input, period, r, fuel).value.furthest >= r.furthest
    decreases fuel
  {
    if period != [] {
      var next := EvalSeq(input, period, |period|, r.pos, fuel).value;
      if next.ok {
        PeriodLooksForward(input, period, Progress(Max(r.furthest, next.furthest), next.pos, true, r.children + next.children), fuel - 1);
      }
    }
  }

  lemma VariantLooksForward(input: Input, rule: RuleId, id: int, v: Variant, pos: int, fuel: nat)
    requires EvalVariant(input, rule, id, v, pos, fuel).Some?
    ensures var p := EvalVariant(input, rule, id, v, pos, fuel).value; p.node.None? ==> p.pos >= pos
  {
    SeqLooksForward(input, v.prefix, |v.prefix|, pos, fuel);
    var prefix := EvalSeq(input, v.prefix, |v.prefix|, pos, fuel).value;
    if prefix.ok { PeriodLooksForward(input, v.period, prefix, fuel); }
  }

  lemma {:induction false} VariantsLookForward(input: Input, rule: RuleId, id: nat, pos: int, furthest: int, fuel: nat)
    requires 0 <= rule < |input.rules| && id <= |input.rules[rule]| && EvalVariants(input, rule, id, pos, furthest, fuel).Some?
    requires furthest >= pos || id < |input.rules[rule]|
    ensures var p := EvalVariants(input, rule, id, pos, furthest, fuel).value; p.node.None? ==> p.pos >= pos
    decreases |input.rules[rule]| - id
  {
    if id < |input.rules[rule]| {
      VariantLooksForward(input, rule, id, input.rules[rule][id], pos, fuel);
      var p := EvalVariant(input, rule, id, input.rules[rule][id], pos, fuel).value;
      if p.node.None? { VariantsLookForward(input, rule, id + 1, pos, Max(p.pos, furthest), fuel); }
    }
  }

  // ---------------------------------------------------------------- lists of trees

  lemma {:induction false} ChainSnoc(ns: seq<Node>, t: Node, start: int, end: int)
    ensures Chain(ns + [t], start, end) <==> Chain(ns, start, t.start) && Tiled(t) && end == t.end
    decreases |ns|
  {
    if ns == [] {
      assert (ns + [t])[1..] == [];
    } else {
      ChainSnoc(ns[1..], t, ns[0].end, end);
      assert (ns + [t])[1..] == ns[1..] + [t];
    }
  }

  lemma {:induction false} ChainUnique(ns: seq<Node>, start: int, end: int, end': int)
    requires Chain(ns, start, end) && Chain(ns, start, end')
    ensures end == end'
    decreases |ns|
  {
    if ns != [] { ChainUnique(ns[1..], ns[0].end, end, end'); }
  }

  predicate NoneEmpty(ts: seq<Node>) { forall i :: 0 <= i < |ts| ==> ts[i].start < ts[i].end }

  // The trees hold the text up to position, or something before it was passed over.
  ghost predicate HoldsTo(ts: seq<Node>, lost: bool, position: int, length: int)
  {
    if !lost then position <= length && Chain(ts, 0, position)
    else forall e :: Chain(ts, 0, e) ==> e < position && e < length
  }

  lemma PassedOver(ts: seq<Node>, lost: bool, position: int, next: int, length: int)
    requires HoldsTo(ts, lost, position, length) && position < next && position < length
    ensures HoldsTo(ts, true, next, length)
  {
    forall e | Chain(ts, 0, e) ensures e < next && e < length {
      if !lost { ChainUnique(ts, 0, e, position); }
    }
  }

  lemma OneMoreTree(ts: seq<Node>, lost: bool, position: int, t: Node, length: int)
    requires HoldsTo(ts, lost, position, length) && t.start == position && t.end <= length && Tiled(t)
    ensures HoldsTo(ts + [t], lost, t.end, length)
  {
    forall e ensures Chain(ts + [t], 0, e) <==> Chain(ts, 0, position) && e == t.end {
      ChainSnoc(ts, t, 0, e);
    }
  }

  lemma HoldsAll(ts: seq<Node>, lost: bool, position: int, content: string)
    requires HoldsTo(ts, lost, position, |content|) && position >= |content|
    ensures Chain(ts, 0, |content|) <==> !lost
    ensures !lost ==> AllLeaves(content, ts, 0, |content|) == content
  {
    if !lost { ChainIsText(content, ts, 0, |content|); }
  }

  // ---------------------------------------------------------------- what a file means

  // The file's rule can be tried, without the cache, wherever there is text.
  ghost predicate Parsable(input: Input, base: RuleId)
  {
    ScansWell(input) && 0 <= base < |input.rules| && input.rules[base] != [] &&
    forall pos :: 0 <= pos < |input.content| ==> Ends(input, base, pos)
  }

  ghost predicate Ends(input: Input, base: RuleId, pos: int) { exists p :: Gives(input, base, pos, p) }

  // What plain parsing gives there.
  ghost function Plain(input: Input, base: RuleId, position: nat): Parsed
    requires Parsable(input, base) && position < |input.content|
  {
    assert Ends(input, base, position);
    var p :| Gives(input, base, position, p);
    p
  }

  // Behind a tree; or behind the furthest position of a failure; or one further.
  ghost function NextTry(input: Input, base: RuleId, position: nat): (next: int)
    requires Parsable(input, base) && position < |input.content|
    ensures next > position
  {
    PlainLooksForward(input, base, position);
    var p := Plain(input, base, position);
    if p.node.None? then p.pos + 1 else if p.pos == position then position + 1 else p.pos
  }

  lemma PlainLooksForward(input: Input, base: RuleId, position: nat)
    requires Parsable(input, base) && position < |input.content|
    ensures var p := Plain(input, base, position); TreeOk(input, position, p) && p.pos >= position
  {
    var p := Plain(input, base, position);
    var fuel: nat :| EvalRule(input, base, position, fuel) == Some(p);
    RuleTree(input, base, position, fuel);
    VariantsLookForward(input, base, 0, position, 0, fuel - 1);
    if p.node.Some? { ChainOrder(p.node.value); }
  }

  // All positions the file's rule is tried at.
  ghost function Tries(input: Input, base: RuleId, position: nat): seq<nat>
    requires Parsable(input, base)
    decreases |input.content| - position
  {
    if position >= |input.content| then [] else [position] + Tries(input, base, NextTry(input, base, position))
  }

  // One try follows the other as the loop moves on: behind the tree that is given there, one
  // further if it is empty, and one behind the furthest position if none is given.
  ghost predicate MovesOn(input: Input, base: RuleId, position: nat, next: int)
  {
    exists p :: Gives(input, base, position, p) &&
      match p.node
      case Some(_) => (p.pos > position && next == p.pos) || (p.pos == position && next == position + 1)
      case None => next == p.pos + 1
  }

  // The positions tried are those the loop comes to, from the start of the text to its end.
  lemma {:induction false} TriesMoveOn(input: Input, base: RuleId, position: nat, i: nat)
    requires Parsable(input, base) && i < |Tries(input, base, position)|
    ensures var tries := Tries(input, base, position);
            tries[0] == position < |input.content| && tries[i] < |input.content| &&
            if i + 1 < |tries| then MovesOn(input, base, tries[i], tries[i + 1])
            else exists next :: next >= |input.content| && MovesOn(input, base, tries[i], next)
    decreases i
  {
    var next: nat := NextTry(input, base, position);
    NextMovesOn(input, base, position);
    var rest := Tries(input, base, next);
    assert Tries(input, base, position) == [position] + rest;
    if i > 0 {
      TriesMoveOn(input, base, next, i - 1);
    } else if rest != [] {
      assert rest[0] == next;
    }
  }

  lemma NextMovesOn(input: Input, base: RuleId, position: nat)
    requires Parsable(input, base) && position < |input.content|
    ensures MovesOn(input, base, position, NextTry(input, base, position))
  {
    PlainLooksForward(input, base, position);
    assert Gives(input, base, position, Plain(input, base, position));
  }

  ghost predicate InText(input: Input, tries: seq<nat>) { forall i :: 0 <= i < |tries| ==> tries[i] < |input.content| }

  // The plain trees at these positions, in order.
  ghost function TreesAt(input: Input, base: RuleId, tries: seq<nat>): seq<Node>
    requires Parsable(input, base) && InText(input, tries)
  {
    if tries == [] then []
    else
      var last := Plain(input, base, tries[|tries| - 1]);
      TreesAt(input, base, tries[..|tries| - 1]) + if last.node.Some? then [last.node.value] else []
  }

  ghost predicate SomeFails(input: Input, base: RuleId, tries: seq<nat>)
    requires Parsable(input, base) && InText(input, tries)
  {
    exists i :: 0 <= i < |tries| && Plain(input, base, tries[i]).node.None?
  }

  // From the position to the end of the text, construction follows construction, none empty.
  ghost predicate Covers(input: Input, base: RuleId, position: nat)
    requires Parsable(input, base)
    decreases |input.content| - position
  {
    if position >= |input.content| then position == |input.content|
    else
      var p := Plain(input, base, position);
      p.node.Some? && p.pos > position && Covers(input, base, p.pos)
  }

  // The loop has tried these positions and stands at the next one.
  ghost predicate TriedTo(input: Input, base: RuleId, tries: seq<nat>, position: nat, result: seq<Node>, anyErrors: bool)
  {
    Parsable(input, base) && InText(input, tries) && Tries(input, base, 0) == tries + Tries(input, base, position) &&
    result == TreesAt(input, base, tries) && (anyErrors <==> SomeFails(input, base, tries)) &&
    HoldsTo(result, anyErrors || !NoneEmpty(result), position, |input.content|) &&
    (Covers(input, base, 0) <==> !(anyErrors || !NoneEmpty(result)) && Covers(input, base, position))
  }

  lemma OneMoreTry(input: Input, base: RuleId, tries: seq<nat>, position: nat, result: seq<Node>, anyErrors: bool)
    requires TriedTo(input, base, tries, position, result, anyErrors) && position < |input.content|
    ensures var p, tries' := Plain(input, base, position), tries + [position];
            InText(input, tries') && Tries(input, base, 0) == tries' + Tries(input, base, NextTry(input, base, position)) &&
            TreesAt(input, base, tries') == (if p.node.Some? then result + [p.node.value] else result) &&
            (SomeFails(input, base, tries') <==> anyErrors || p.node.None?)
  {
    var tries' := tries + [position];
    assert tries'[..|tries|] == tries && tries'[|tries|] == position;
    assert tries + ([position] + Tries(input, base, NextTry(input, base, position))) == tries' + Tries(input, base, NextTry(input, base, position));
    if SomeFails(input, base, tries) {
      var i :| 0 <= i < |tries| && Plain(input, base, tries[i]).node.None?;
      assert tries'[i] == tries[i];
    }
  }

  lemma Failed(input: Input, base: RuleId, tries: seq<nat>, position: nat, result: seq<Node>, anyErrors: bool)
    requires TriedTo(input, base, tries, position, result, anyErrors) && position < |input.content|
    requires Plain(input, base, position).node.None?
    ensures TriedTo(input, base, tries + [position], NextTry(input, base, position), result, true)
  {
    OneMoreTry(input, base, tries, position, result, anyErrors);
    PassedOver(result, anyErrors || !NoneEmpty(result), position, NextTry(input, base, position), |input.content|);
  }

  lemma Found(input: Input, base: RuleId, tries: seq<nat>, position: nat, result: seq<Node>, anyErrors: bool)
    requires TriedTo(input, base, tries, position, result, anyErrors) && position < |input.content|
    requires Plain(input, base, position).node.Some?
    ensures var t := Plain(input, base, position).node.value;
            TriedTo(input, base, tries + [position], NextTry(input, base, position), result + [t], anyErrors)
  {
    var p := Plain(input, base, position);
    OneMoreTry(input, base, tries, position, result, anyErrors);
    PlainLooksForward(input, base, position);
    AddedTree(result, p.node.value);
    OneMoreTree(result, anyErrors || !NoneEmpty(result), position, p.node.value, |input.content|);
    if p.pos == position {
      PassedOver(result + [p.node.value], anyErrors || !NoneEmpty(result), position, position + 1, |input.content|);
    }
  }

  // The loop is at the end.
  lemma TriedAll(input: Input, base: RuleId, tries: seq<nat>, position: nat, result: seq<Node>, anyErrors: bool)
    requires TriedTo(input, base, tries, position, result, anyErrors) && position >= |input.content|
    ensures InText(input, Tries(input, base, 0)) && result == TreesAt(input, base, Tries(input, base, 0))
    ensures anyErrors <==> SomeFails(input, base, Tries(input, base, 0))
    ensures Chain(result, 0, |input.content|) <==> Covers(input, base, 0)
    ensures Covers(input, base, 0) ==> AllLeaves(input.content, result, 0, |input.content|) == input.content
  {
    assert tries + [] == tries;
    HoldsAll(result, anyErrors || !NoneEmpty(result), position, input.content);
  }

  // The file's rule at one position, with what was parsed before in the cache.
  method ParseAt(parser: P.Parser, base: RuleId, position: nat) returns (p: Parsed)
    requires parser.Valid() && Parsable(parser.input, base) && position < |parser.input.content|
    modifies parser
    ensures parser.Valid() && p == Plain(parser.input, base, position)
  {
    ghost var plain := Plain(parser.input, base, position);
    ghost var fuel: nat :| EvalRule(parser.input, base, position, fuel) == Some(plain);
    p := parser.ParseRule(base, position, fuel);
  }

  // parse: the plain trees at the positions tried, an error exactly if one of them has no
  // tree; and the trees spell all of the text exactly if the constructions cover it.
  method Parse(input: Input, base: RuleId) returns (result: seq<Node>, anyErrors: bool)
    requires Parsable(input, base)
    ensures InText(input, Tries(input, base, 0)) && result == TreesAt(input, base, Tries(input, base, 0))
    ensures anyErrors <==> SomeFails(input, base, Tries(input, base, 0))
    ensures Chain(result, 0, |input.content|) <==> Covers(input, base, 0)
    ensures Covers(input, base, 0) ==> AllLeaves(input.content, result, 0, |input.content|) == input.content
  {
    var parser := new P.Parser(input);
    result, anyErrors := [], false;
    var position: nat := 0;
    ghost var tries: seq<nat> := [];
    assert tries + Tries(input, base, 0) == Tries(input, base, 0);
    while position < |input.content|
      invariant parser.Valid() && parser.input == input && fresh(parser)
      invariant TriedTo(input, base, tries, position, result, anyErrors)
      decreases |input.content| - position
    {
      ghost var at := position;
      var p := ParseAt(parser, base, position);
      if p.node.None? {
        Failed(input, base, tries, at, result, anyErrors);
        position, anyErrors := p.pos + 1, true;
      } else {
        Found(input, base, tries, at, result, anyErrors);
        result := result + [p.node.value];
        position := if p.pos == position then position + 1 else p.pos;
      }
      tries := tries + [at];
    }
    TriedAll(input, base, tries, position, result, anyErrors);
  }

  lemma AddedTree(ts: seq<Node>, t: Node)
    ensures NoneEmpty(ts + [t]) <==> NoneEmpty(ts) && t.start < t.end
  {
    if NoneEmpty(ts + [t]) {
      forall i | 0 <= i < |ts| ensures ts[i].start < ts[i].end { assert (ts + [t])[i] == ts[i]; }
      assert (ts + [t])[|ts|] == t;
    }
  }
}
