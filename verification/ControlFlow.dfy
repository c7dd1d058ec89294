// From linear code to the operation graph, and splicing the unconditional jumps out
// of it. Both keep every run, and prev stays the exact inverse of next.
module ControlFlow {
  import opened Wrappers
  import opened Ir
  import opened LinearCode
  import opened RegisterMachine
  import opened GraphSurgery

  // ---------------------------------------------------------------- linear code as a graph

  // Jumps do not lead before the start.
  predicate JumpsInside(code: seq<Operation>)
  {
    forall i :: 0 <= i < |code| ==> JumpInside(code, i)
  }

  predicate JumpInside(code: seq<Operation>, i: nat)
    requires i < |code|
  {
    code[i].instr.Jump? || code[i].instr.Branch? ==> i + code[i].offset >= 0
  }

  // The operation at a position; positions behind the end are the end.
  function LinkTo(code: seq<Operation>, pc: int): Id
  {
    if pc >= |code| then NULL else pc
  }

  function NextOf(code: seq<Operation>, i: nat): seq<Id>
    requires i < |code|
  {
    if code[i].instr.Jump? then [LinkTo(code, i + code[i].offset)]
    else if code[i].instr.Branch? then [LinkTo(code, i + 1), LinkTo(code, i + code[i].offset)]
    else [LinkTo(code, i + 1)]
  }

  function PrevOf(code: seq<Operation>, i: int, bound: nat): set<Id>
    requires bound <= |code|
  {
    set j | 0 <= j < bound && i in NextOf(code, j)
  }

  function GraphOf(code: seq<Operation>): Graph
  {
    Graph(LinkTo(code, 0), map i | 0 <= i < |code| :: Block(code[i].instr, NextOf(code, i), PrevOf(code, i, |code|)))
  }

  lemma GraphOfLinked(code: seq<Operation>)
    requires JumpsInside(code)
    ensures WellLinked(GraphOf(code))
  {
    var g := GraphOf(code);
    forall n | n in g.code ensures g.BlockOk(n) && g.code[n].prev <= g.code.Keys {
      assert JumpInside(code, n);
    }
    forall n, m | n in g.code && m in g.code ensures LinkOk(g, m, n) {
    }
  }

  lemma SameStep(code: seq<Operation>, s: State, world: World)
    requires JumpsInside(code) && s.pc >= 0
    ensures GraphOf(code).Valid()
    ensures var r := LinearStep(code, s, world);
            (r.Some? ==> r.value.pc >= 0) &&
            VariableStep(GraphOf(code), State(LinkTo(code, s.pc), s.machine), world) ==
              match r case None => None case Some(t) => Some(State(LinkTo(code, t.pc), t.machine))
  {
    GraphOfLinked(code);
    if s.pc < |code| { assert JumpInside(code, s.pc); }
  }

  // Step for step.
  lemma {:induction false} SameLinearRun(code: seq<Operation>, s: State, world: World, n: nat)
    requires JumpsInside(code) && s.pc >= 0
    ensures GraphOf(code).Valid()
    ensures var r := LinearRun(code, s, world, n);
            (r.Some? ==> r.value.pc >= 0) &&
            VariableRun(GraphOf(code), State(LinkTo(code, s.pc), s.machine), world, n) ==
              match r case None => None case Some(t) => Some(State(LinkTo(code, t.pc), t.machine))
  {
    GraphOfLinked(code);
    if n > 0 {
      SameLinearRun(code, s, world, n - 1);
      var r := LinearRun(code, s, world, n - 1);
      if r.Some? { SameStep(code, r.value, world); }
    }
  }

  // ---------------------------------------------------------------- splicing an operation out

  function Removed(g: Graph, c: Id): Graph
    requires c in g.code && |g.code[c].next| > 0
  {
    var t := g.code[c].next[0];
    Graph(if g.entry == c then t else g.entry,
          map n | n in g.code && n != c ::
            Block(g.code[n].instr, Redirected(g.code[n].next, c, t),
                  if n == t then g.code[n].prev + g.code[c].prev - {c} else g.code[n].prev))
  }

  // An operation with one link that does not lead back to itself.
  ghost predicate Removable(g: Graph, c: Id)
  {
    WellLinked(g) && c in g.code && |g.code[c].next| == 1 && g.code[c].next[0] != c
  }

  lemma RemovedLinks(g: Graph, c: Id, m: Id, n: Id)
    requires Removable(g, c) && m in Removed(g, c).code && n in Removed(g, c).code
    ensures LinkOk(Removed(g, c), m, n)
  {
    var t := g.code[c].next[0];
    assert LinkOk(g, m, n) && LinkOk(g, m, c) && LinkOk(g, c, n);
    RedirectedMeans(g.code[m].next, c, t, n);
  }

  lemma RedirectedMeans(next: seq<Id>, c: Id, t: Id, n: Id)
    requires n != c && t != c
    ensures n in Redirected(next, c, t) <==> n in next || (n == t && c in next)
    ensures c !in Redirected(next, c, t)
  {
    var r := Redirected(next, c, t);
    if n in next {
      var j :| 0 <= j < |next| && next[j] == n;
      assert r[j] == n;
    }
    if c in next {
      var j :| 0 <= j < |next| && next[j] == c;
      assert r[j] == t;
    }
  }

  lemma RemovedLinked(g: Graph, c: Id)
    requires Removable(g, c)
    ensures WellLinked(Removed(g, c))
  {
    var g' := Removed(g, c);
    var t := g.code[c].next[0];
    assert g.BlockOk(c);
    forall n | n in g'.code ensures g'.BlockOk(n) && g'.code[n].prev <= g'.code.Keys {
      assert g.BlockOk(n) && LinkOk(g, c, n);
      forall k | 0 <= k < |g'.code[n].next| ensures g'.code[n].next[k] == NULL || g'.code[n].next[k] in g'.code {
        assert g.code[n].next[k] == NULL || g.code[n].next[k] in g.code;
      }
    }
    forall n, m | n in g'.code && m in g'.code ensures LinkOk(g', m, n) {
      RemovedLinks(g, c, m, n);
    }
  }

  lemma RemovedTargeted(g: Graph, c: Id)
    requires Removable(g, c) && g.code[c].instr.Jump? && Targeted(g)
    ensures Targeted(Removed(g, c))
  {
    var g' := Removed(g, c);
    assert TargetAt(g.code[c]);
    forall n | n in g'.code ensures TargetAt(g'.code[n]) {
      assert TargetAt(g.code[n]);
    }
  }

  // ---------------------------------------------------------------- runs that reach the same

  // A run from the start comes to the machine m', and to the end of the program if `halted`.
  ghost predicate Comes(g: Graph, m: Machine, world: World, m': Machine, halted: bool)
    requires g.Valid()
  {
    exists n: nat :: ComesIn(VariableRun(g, State(g.entry, m), world, n), m', halted)
  }

  ghost predicate ComesIn(r: Option<State>, m': Machine, halted: bool)
  {
    r.Some? && r.value.machine == m' && (halted ==> r.value.pc == NULL)
  }

  // The two programs come to the same machines, and to their ends with the same ones.
  ghost predicate SameRuns(g: Graph, g': Graph)
    requires g.Valid() && g'.Valid()
  {
    forall m, world, m', halted :: Comes(g, m, world, m', halted) <==> Comes(g', m, world, m', halted)
  }

  function Skip(g: Graph, c: Id, pc: Id): Id
    requires c in g.code && |g.code[c].next| > 0
  {
    if pc == c then g.code[c].next[0] else pc
  }

  function Skipped(g: Graph, c: Id, s: State): State
    requires c in g.code && |g.code[c].next| > 0
  {
    State(Skip(g, c, s.pc), s.machine)
  }

  // A step at the jump is no step of g'; any other is the same step.
  ghost predicate StepSkips(g: Graph, c: Id, g': Graph, s: State, world: World)
    requires g.Valid() && g'.Valid() && c in g.code && |g.code[c].next| > 0
  {
    var r, r' := VariableStep(g, s, world), VariableStep(g', Skipped(g, c, s), world);
    if s.pc == c then r == Some(Skipped(g, c, s))
    else r' == match r case None => None case Some(u) => Some(Skipped(g, c, u))
  }

  ghost predicate Splices(g: Graph, c: Id, g': Graph)
  {
    g.Valid() && g'.Valid() && c in g.code && |g.code[c].next| > 0 && g.code[c].next[0] != c &&
    forall s, world :: StepSkips(g, c, g', s, world)
  }

  lemma RemovedSplices(g: Graph, c: Id)
    requires Removable(g, c) && g.code[c].instr.Jump?
    ensures Splices(g, c, Removed(g, c))
  {
    RemovedLinked(g, c);
    forall s, world ensures StepSkips(g, c, Removed(g, c), s, world) {
      if s.pc in g.code { assert g.BlockOk(s.pc); }
    }
  }

  lemma {:induction false} RunSkips(g: Graph, c: Id, g': Graph, s: State, world: World, n: nat) returns (k: nat)
    requires Splices(g, c, g') && VariableRun(g, s, world, n).Some?
    ensures VariableRun(g', Skipped(g, c, s), world, k) == Some(Skipped(g, c, VariableRun(g, s, world, n).value))
  {
    k := 0;
    if n > 0 {
      k := RunSkips(g, c, g', s, world, n - 1);
      var u := VariableRun(g, s, world, n - 1).value;
      assert StepSkips(g, c, g', u, world);
      if u.pc != c { k := k + 1; }
    }
  }

  ghost predicate NeverAt(g: Graph, s: State, world: World, c: Id, j: nat)
    requires g.Valid()
  {
    VariableRun(g, s, world, j).Some? && VariableRun(g, s, world, j).value.pc != c
  }

  // And back: to the same place in one more step at most.
  lemma {:induction false} RunUnskips(g: Graph, c: Id, g': Graph, s: State, world: World, k: nat) returns (n: nat)
    requires Splices(g, c, g') && VariableRun(g', Skipped(g, c, s), world, k).Some?
    requires forall j: nat :: j <= k ==> NeverAt(g', Skipped(g, c, s), world, c, j)
    ensures VariableRun(g, s, world, n) == VariableRun(g', Skipped(g, c, s), world, k)
  {
    if k == 0 {
      n := Settle(g, c, g', s, s, world, 0);
    } else {
      var n0 := RunUnskips(g, c, g', s, world, k - 1);
      var u := VariableRun(g, s, world, n0).value;
      assert NeverAt(g', Skipped(g, c, s), world, c, k - 1);
      assert StepSkips(g, c, g', u, world);
      var v := VariableStep(g, u, world).value;
      assert VariableRun(g, s, world, n0 + 1) == Some(v);
      n := Settle(g, c, g', s, v, world, n0 + 1);
    }
  }

  // Past the jump, if the run is at it.
  lemma Settle(g: Graph, c: Id, g': Graph, s: State, u: State, world: World, n0: nat) returns (n: nat)
    requires Splices(g, c, g') && VariableRun(g, s, world, n0) == Some(u)
    ensures VariableRun(g, s, world, n) == Some(Skipped(g, c, u))
  {
    n := n0;
    if u.pc == c {
      assert StepSkips(g, c, g', u, world);
      n := n0 + 1;
    }
  }

  // The spliced program never is at the operation that is gone.
  lemma {:induction false} NotThere(g: Graph, c: Id, s: State, world: World, k: nat)
    requires Removable(g, c) && Removed(g, c).Valid() && s.pc != c && VariableRun(Removed(g, c), s, world, k).Some?
    ensures VariableRun(Removed(g, c), s, world, k).value.pc != c
  {
    if k > 0 {
      NotThere(g, c, s, world, k - 1);
      var u := VariableRun(Removed(g, c), s, world, k - 1).value;
      assert g.BlockOk(u.pc) && Removed(g, c).BlockOk(u.pc);
      RedirectedMeans(g.code[u.pc].next, c, g.code[c].next[0], NULL);
    }
  }

  lemma RemovalKeepsRuns(g: Graph, c: Id)
    requires Removable(g, c) && g.code[c].instr.Jump?
    ensures Removed(g, c).Valid() && SameRuns(g, Removed(g, c))
  {
    var g' := Removed(g, c);
    RemovedLinked(g, c);
    RemovedSplices(g, c);
    forall m, world, m', halted ensures Comes(g, m, world, m', halted) <==> Comes(g', m, world, m', halted) {
      ComesToo(g, c, g', m, world, m', halted);
      ComesBack(g, c, m, world, m', halted);
    }
  }

  lemma ComesToo(g: Graph, c: Id, g': Graph, m: Machine, world: World, m': Machine, halted: bool)
    requires Splices(g, c, g') && g'.entry == Skip(g, c, g.entry)
    ensures NULL !in g.code && (Comes(g, m, world, m', halted) ==> Comes(g', m, world, m', halted))
  {
    if n: nat :| ComesIn(VariableRun(g, State(g.entry, m), world, n), m', halted) {
      var k := RunSkips(g, c, g', State(g.entry, m), world, n);
      assert ComesIn(VariableRun(g', State(g'.entry, m), world, k), m', halted);
    }
  }

  lemma ComesBack(g: Graph, c: Id, m: Machine, world: World, m': Machine, halted: bool)
    requires Removable(g, c) && g.code[c].instr.Jump? && Removed(g, c).Valid()
    ensures Comes(Removed(g, c), m, world, m', halted) ==> Comes(g, m, world, m', halted)
  {
    var g', s := Removed(g, c), State(g.entry, m);
    RemovedSplices(g, c);
    assert Skipped(g, c, s) == State(g'.entry, m);
    if k: nat :| ComesIn(VariableRun(g', Skipped(g, c, s), world, k), m', halted) {
      forall j: nat | j <= k ensures NeverAt(g', Skipped(g, c, s), world, c, j) {
        RunPrefix(g', Skipped(g, c, s), world, j, k);
        NotThere(g, c, Skipped(g, c, s), world, j);
      }
      var n := RunUnskips(g, c, g', s, world, k);
      assert ComesIn(VariableRun(g, s, world, n), m', halted);
    }
  }

  lemma {:induction false} RunPrefix(g: Graph, s: State, world: World, j: nat, k: nat)
    requires g.Valid() && j <= k && VariableRun(g, s, world, k).Some?
    ensures VariableRun(g, s, world, j).Some?
  {
    if j < k { RunPrefix(g, s, world, j, k - 1); }
  }

  // ---------------------------------------------------------------- the edits themselves

  // The blocks when the links of the first i operations are filled in.
  ghost predicate LinkedUpTo(code: seq<Operation>, blocks: map<Id, Block>, i: nat)
    requires i <= |code|
  {
    (forall n :: n in blocks <==> 0 <= n < |code|) &&
    forall n :: 0 <= n < |code| ==> BlockUpTo(code, blocks, i, n)
  }

  ghost predicate BlockUpTo(code: seq<Operation>, blocks: map<Id, Block>, i: nat, n: nat)
    requires i <= |code| && n < |code|
  {
    n in blocks && blocks[n] == Block(code[n].instr, if n < i then NextOf(code, n) else [], PrevOf(code, n, i))
  }

  method OpsToBlocks(code: seq<Operation>) returns (blocks: map<Id, Block>)
    requires JumpsInside(code)
    ensures blocks == GraphOf(code).code
  {
    blocks := map[];
    for i := 0 to |code|
      invariant forall n :: n in blocks <==> 0 <= n < i
      invariant forall n :: 0 <= n < i ==> blocks[n] == Block(code[n].instr, [], {})
    {
      blocks := blocks[i := Block(code[i].instr, [], {})];
    }
    for i := 0 to |code|
      invariant LinkedUpTo(code, blocks, i)
    {
      blocks := FillLinks(code, blocks, i);
    }
    forall n | 0 <= n < |code| ensures blocks[n] == GraphOf(code).code[n] {
      assert BlockUpTo(code, blocks, |code|, n);
    }
    assert blocks == GraphOf(code).code;
  }

  method FillLinks(code: seq<Operation>, before: map<Id, Block>, i: nat) returns (blocks: map<Id, Block>)
    requires JumpsInside(code) && i < |code| && LinkedUpTo(code, before, i)
    ensures LinkedUpTo(code, blocks, i + 1)
  {
    assert JumpInside(code, i) && BlockUpTo(code, before, i, i);
    var next;
    if code[i].instr.Jump? {
      var pos := code[i].offset;
      next := [if i + pos >= |code| then NULL else i + pos];
    } else {
      next := [if i + 1 == |code| then NULL else i + 1];
      if code[i].instr.Branch? {
        var pos := code[i].offset;
        next := next + [if i + pos >= |code| then NULL else i + pos];
      }
    }
    assert next == NextOf(code, i);
    blocks := AddPrev(before[i := before[i].(next := next)], next, i);
    LinksFilled(code, before, blocks, i, i + 1);
  }

  // The block n once every block in next[..j] lists i as a predecessor.
  ghost predicate Listed(before: map<Id, Block>, after: map<Id, Block>, next: seq<Id>, i: Id, n: Id)
    requires n in before
  {
    n in after && after[n] == before[n].(prev := before[n].prev + if n in next then {i} else {})
  }

  method AddPrev(before: map<Id, Block>, next: seq<Id>, i: Id) returns (blocks: map<Id, Block>)
    requires forall j :: 0 <= j < |next| ==> next[j] == NULL || next[j] in before
    requires NULL !in before
    ensures blocks.Keys == before.Keys && forall n :: n in before ==> Listed(before, blocks, next, i, n)
  {
    blocks := before;
    for j := 0 to |next|
      invariant blocks.Keys == before.Keys && forall n :: n in before ==> Listed(before, blocks, next[..j], i, n)
    {
      ghost var last := blocks;
      if next[j] != NULL {
        blocks := blocks[next[j] := blocks[next[j]].(prev := blocks[next[j]].prev + {i})];
      }
      forall n | n in before ensures Listed(before, blocks, next[..j + 1], i, n) {
        assert Listed(before, last, next[..j], i, n);
        assert next[..j + 1] == next[..j] + [next[j]];
      }
    }
    assert next[..|next|] == next;
  }

  lemma LinksFilled(code: seq<Operation>, before: map<Id, Block>, blocks: map<Id, Block>, i: nat, i1: nat)
    requires JumpsInside(code) && i < |code| && i1 == i + 1 && LinkedUpTo(code, before, i) && i in before
    requires blocks.Keys == before.Keys
    requires forall n :: n in before ==> Listed(before[i := before[i].(next := NextOf(code, i))], blocks, NextOf(code, i), i, n)
    ensures LinkedUpTo(code, blocks, i1)
  {
    forall n | 0 <= n < |code| ensures BlockUpTo(code, blocks, i1, n) {
      assert BlockUpTo(code, before, i, n);
      assert Listed(before[i := before[i].(next := NextOf(code, i))], blocks, NextOf(code, i), i, n);
      OneMorePrev(code, n, i, i1);
    }
  }

  lemma OneMorePrev(code: seq<Operation>, n: int, i: nat, i1: nat)
    requires i < |code| && i1 == i + 1
    ensures PrevOf(code, n, i1) == PrevOf(code, n, i) + if n in NextOf(code, i) then {i} else {}
  {
  }
}
