// The interference graph of RegisterAnalizator and the greedy colouring of
// SpreadRegisters.
module RegisterColoring {
  import opened Wrappers
  import opened Ir
  import opened RegisterMachine
  import opened RegisterAnalysis

  // ---------------------------------------------------------------- interference graph

  ghost predicate Has(overlaps: map<Var, set<Var>>, i: Var, j: Var)
  {
    i in overlaps && j in overlaps[i]
  }

  function Neighbours(overlaps: map<Var, set<Var>>, i: Var): set<Var>
  {
    if i in overlaps then overlaps[i] else {}
  }

  // overlaps[i].insert(j); overlaps[j].insert(i)
  function Connect(overlaps: map<Var, set<Var>>, i: Var, j: Var): map<Var, set<Var>>
  {
    var a := overlaps[i := Neighbours(overlaps, i) + {j}];
    a[j := Neighbours(a, j) + {i}]
  }

  // The variables freed by the frees that follow, at most `fuel` of them.
  method FreedChain(g: Graph, n: Id, fuel: nat) returns (freed: set<Var>)
    requires g.Valid()
    ensures freed == FreedFrom(g, n, fuel)
  {
    freed := {};
    var x, k := n, 0;
    while k < fuel && x in g.code && g.code[x].instr.Free?
      invariant k <= fuel && freed + FreedFrom(g, x, fuel - k) == FreedFrom(g, n, fuel)
    {
      assert g.BlockOk(x);
      freed := freed + {g.code[x].instr.v};
      x := g.code[x].next[0];
      k := k + 1;
    }
  }

  // The exemption: one of i and j is all that n writes, and n reads the other,
  // which is freed straight after.
  predicate Exempt(instr: Instr, freed: set<Var>, i: Var, j: Var)
  {
    var written, read := WrittenVars(instr), ReadVars(instr);
    ((i in written && j in read && j in freed) || (j in written && i in read && i in freed)) && |written| == 1
  }

  lemma ExemptMeans(g: Graph, n: Id, freed: set<Var>, i: Var, j: Var)
    requires n in g.code && freed == FreedAfter(g, n)
    ensures Exempt(g.code[n].instr, freed, i, j) <==> WritesOver(g, n, i, j) || WritesOver(g, n, j, i)
  {
  }

  // What the inner loop adds for one variable i of one operation.
  ghost predicate Added(instr: Instr, freed: set<Var>, vars: set<Var>, i: Var, a: Var, b: Var)
  {
    (a == i && b in vars && i < b && !Exempt(instr, freed, i, b)) ||
    (b == i && a in vars && i < a && !Exempt(instr, freed, i, a))
  }

  method AddVariable(instr: Instr, freed: set<Var>, vars: set<Var>, i: Var, overlaps0: map<Var, set<Var>>)
    returns (overlaps: map<Var, set<Var>>)
    requires i in vars
    ensures overlaps0.Keys + {i} <= overlaps.Keys <= overlaps0.Keys + vars
    ensures forall a, b :: Has(overlaps, a, b) <==> Has(overlaps0, a, b) || Added(instr, freed, vars, i, a, b)
  {
    overlaps := overlaps0[i := Neighbours(overlaps0, i)];
    var rest := vars;
    while rest != {}
      invariant rest <= vars && overlaps0.Keys + {i} <= overlaps.Keys <= overlaps0.Keys + vars
      invariant forall a, b :: Has(overlaps, a, b) <==> Has(overlaps0, a, b) || Added(instr, freed, vars - rest, i, a, b)
      decreases rest
    {
      var j := AnyOf(rest);
      ghost var before, done := overlaps, vars - rest;
      if i < j && !Exempt(instr, freed, i, j) {
        overlaps := Connect(overlaps, i, j);
      }
      rest := rest - {j};
      AddedStep(instr, freed, done, i, j, before, overlaps, vars - rest);
    }
    assert vars - rest == vars;
  }

  lemma AddedStep(instr: Instr, freed: set<Var>, done: set<Var>, i: Var, j: Var,
                  before: map<Var, set<Var>>, after: map<Var, set<Var>>, done': set<Var>)
    requires done' == done + {j}
    requires after == if i < j && !Exempt(instr, freed, i, j) then Connect(before, i, j) else before
    ensures forall a, b :: Has(after, a, b) || Added(instr, freed, done, i, a, b) <==> Has(before, a, b) || Added(instr, freed, done', i, a, b)
    ensures after.Keys <= before.Keys + {i, j} && before.Keys <= after.Keys
    ensures forall a, b :: Has(before, a, b) ==> Has(after, a, b)
    ensures forall a, b :: Has(after, a, b) ==> Has(before, a, b) || Added(instr, freed, done', i, a, b)
  {
  }

  // All pairs of one operation.
  ghost predicate Clashes(instr: Instr, freed: set<Var>, vars: set<Var>, a: Var, b: Var)
  {
    a in vars && b in vars && a != b && !Exempt(instr, freed, a, b)
  }

  method AddOperation(instr: Instr, freed: set<Var>, vars: set<Var>, overlaps0: map<Var, set<Var>>)
    returns (overlaps: map<Var, set<Var>>)
    ensures overlaps.Keys == overlaps0.Keys + vars
    ensures forall a, b :: Has(overlaps, a, b) <==> Has(overlaps0, a, b) || Clashes(instr, freed, vars, a, b)
  {
    overlaps := overlaps0;
    var rest := vars;
    while rest != {}
      invariant rest <= vars && overlaps0.Keys + (vars - rest) <= overlaps.Keys <= overlaps0.Keys + vars
      invariant forall a, b :: Has(overlaps, a, b) <==>
        Has(overlaps0, a, b) || (exists i :: i in vars - rest && Added(instr, freed, vars, i, a, b))
      decreases rest
    {
      var i := AnyOf(rest);
      overlaps := AddVariable(instr, freed, vars, i, overlaps);
      rest := rest - {i};
    }
    forall a, b ensures Has(overlaps, a, b) <==> Has(overlaps0, a, b) || Clashes(instr, freed, vars, a, b) {
      PairSeen(instr, freed, vars, a, b);
    }
  }

  lemma PairSeen(instr: Instr, freed: set<Var>, vars: set<Var>, a: Var, b: Var)
    ensures (exists i :: i in vars && Added(instr, freed, vars, i, a, b)) <==> Clashes(instr, freed, vars, a, b)
  {
  }

  ghost predicate SomeConflict(g: Graph, ops: set<Id>, i: Var, j: Var)
  {
    exists n :: n in ops && ConflictAt(g, n, i, j)
  }

  ghost predicate SomewhereLive(g: Graph, ops: set<Id>, v: Var)
  {
    exists n :: n in ops && LiveAt(g, n, v)
  }

  // buildMainConflictGraph
  method BuildMainConflictGraph(g: Graph) returns (overlaps: map<Var, set<Var>>)
    requires Linked(g) && PrevInside(g)
    ensures forall v :: v in overlaps <==> SomewhereLive(g, g.code.Keys, v)
    ensures forall i, j :: Has(overlaps, i, j) <==> SomeConflict(g, g.code.Keys, i, j)
  {
    var opVars := UpdateOpVars(g);
    overlaps := map[];
    var rest := g.code.Keys;
    while rest != {}
      invariant rest <= g.code.Keys
      invariant forall v :: v in overlaps <==> SomewhereLive(g, g.code.Keys - rest, v)
      invariant forall i, j :: Has(overlaps, i, j) <==> SomeConflict(g, g.code.Keys - rest, i, j)
      decreases rest
    {
      var op := AnyOf(rest);
      var before := overlaps;
      var freed := FreedVarsOf(g, op);
      overlaps := AddOperation(g.code[op].instr, freed, opVars[op], before);
      OperationAdded(g, g.code.Keys - rest, op, opVars[op], freed, before, overlaps);
      assert g.code.Keys - (rest - {op}) == (g.code.Keys - rest) + {op};
      rest := rest - {op};
    }
    assert g.code.Keys - rest == g.code.Keys;
  }

  method FreedVarsOf(g: Graph, op: Id) returns (freed: set<Var>)
    requires g.Valid() && op in g.code
    ensures freed == FreedAfter(g, op)
  {
    freed := {};
    if |g.code[op].next| == 1 {
      freed := FreedChain(g, g.code[op].next[0], |g.code|);
    }
  }

  lemma ConflictAdded(g: Graph, done: set<Id>, op: Id, vars: set<Var>, freed: set<Var>, i: Var, j: Var)
    requires op in g.code && freed == FreedAfter(g, op) && forall v :: v in vars <==> LiveAt(g, op, v)
    ensures SomeConflict(g, done, i, j) || Clashes(g.code[op].instr, freed, vars, i, j) <==> SomeConflict(g, done + {op}, i, j)
  {
    ExemptMeans(g, op, freed, i, j);
    assert Clashes(g.code[op].instr, freed, vars, i, j) <==> ConflictAt(g, op, i, j);
    if ConflictAt(g, op, i, j) { assert op in done + {op}; }
  }

  lemma OperationAdded(g: Graph, done: set<Id>, op: Id, vars: set<Var>, freed: set<Var>,
                       before: map<Var, set<Var>>, after: map<Var, set<Var>>)
    requires op in g.code && freed == FreedAfter(g, op)
    requires forall v :: v in vars <==> LiveAt(g, op, v)
    requires forall v :: v in before <==> SomewhereLive(g, done, v)
    requires forall i, j :: Has(before, i, j) <==> SomeConflict(g, done, i, j)
    requires after.Keys == before.Keys + vars
    requires forall a, b :: Has(after, a, b) <==> Has(before, a, b) || Clashes(g.code[op].instr, freed, vars, a, b)
    ensures forall v :: v in after <==> SomewhereLive(g, done + {op}, v)
    ensures forall i, j :: Has(after, i, j) <==> SomeConflict(g, done + {op}, i, j)
  {
    forall v ensures v in after <==> SomewhereLive(g, done + {op}, v) {
      if LiveAt(g, op, v) { assert op in done + {op}; }
    }
    forall i, j ensures Has(after, i, j) <==> SomeConflict(g, done + {op}, i, j) {
      ConflictAdded(g, done, op, vars, freed, i, j);
    }
  }

  // ---------------------------------------------------------------- greedy colouring

  // How many registers are free (0) in a row of marks.
  function FreeCount(marks: seq<int>): (n: nat)
    ensures n <= |marks|
  {
    if marks == [] then 0 else FreeCount(marks[..|marks| - 1]) + if marks[|marks| - 1] == 0 then 1 else 0
  }

  ghost predicate Marks(marks: seq<int>)
  {
    forall k :: 0 <= k < |marks| ==> marks[k] == 0 || marks[k] == 1
  }

  lemma FreeCountNext(marks: seq<int>, k: nat)
    requires k < |marks|
    ensures FreeCount(marks[..k + 1]) == FreeCount(marks[..k]) + if marks[k] == 0 then 1 else 0
  {
    assert marks[..k + 1][..k] == marks[..k];
  }

  lemma {:induction false} FreeCountZero(marks: seq<int>)
    ensures FreeCount(marks) == 0 <==> forall k :: 0 <= k < |marks| ==> marks[k] != 0
  {
    if marks != [] {
      var m := marks[..|marks| - 1];
      FreeCountZero(m);
      forall k | 0 <= k < |m| ensures m[k] == marks[k] {}
    }
  }

  // FindRandom: the free register with exactly rand % (number of free ones) free
  // registers before it, or -1 when none is free.
  method FindRandom(marks: seq<int>, rand: nat) returns (r: int)
    requires Marks(marks)
    ensures r == -1 <==> forall k :: 0 <= k < |marks| ==> marks[k] == 1
    ensures r != -1 ==> 0 <= r < |marks| && marks[r] == 0 && FreeCount(marks) > 0 &&
                        FreeCount(marks[..r]) == rand % FreeCount(marks)
  {
    var cnt := |marks|;
    for i := 0 to |marks|
      invariant cnt == |marks| - i + FreeCount(marks[..i])
    {
      FreeCountNext(marks, i);
      cnt := cnt - marks[i];
    }
    assert marks[..|marks|] == marks;
    FreeCountZero(marks);
    if cnt == 0 {
      return -1;
    }
    cnt := 1 + rand % cnt;
    ghost var wanted := cnt;
    for i := 0 to |marks|
      invariant cnt == wanted - FreeCount(marks[..i]) && cnt > 0
    {
      FreeCountNext(marks, i);
      cnt := cnt - (1 - marks[i]);
      if cnt == 0 {
        return i;
      }
    }
    assert false;
    return -1;
  }

  ghost predicate Symmetric(overlaps: map<Var, set<Var>>)
  {
    forall i, j :: Has(overlaps, i, j) ==> Has(overlaps, j, i) && i != j
  }

  // Coloured variables have registers, and neighbours different ones.
  ghost predicate ColoredSoFar(overlaps: map<Var, set<Var>>, res: map<Var, int>, registers: nat)
  {
    (forall v :: v in res ==> 0 <= res[v] < registers) &&
    forall i, j :: Has(overlaps, i, j) && i in res && j in res ==> res[i] != res[j]
  }

  // Some coloured neighbour has register c.
  ghost predicate Taken(res: map<Var, int>, neighbours: set<Var>, c: int)
  {
    exists i :: i in neighbours && i in res && res[i] == c
  }

  // The registers taken by coloured neighbours of v.
  ghost predicate MarksNeighbours(res: map<Var, int>, neighbours: set<Var>, marks: seq<int>)
  {
    Marks(marks) && forall c :: 0 <= c < |marks| ==> (marks[c] == 1 <==> Taken(res, neighbours, c))
  }

  method MarkNeighbours(res: map<Var, int>, neighbours: set<Var>, registers: nat) returns (marks: seq<int>)
    requires forall v :: v in res ==> 0 <= res[v] < registers
    ensures |marks| == registers && MarksNeighbours(res, neighbours, marks)
  {
    marks := seq(registers, _ => 0);
    var rest := neighbours;
    while rest != {}
      invariant rest <= neighbours && |marks| == registers && MarksNeighbours(res, neighbours - rest, marks)
      decreases rest
    {
      var i := AnyOf(rest);
      ghost var before := marks;
      if i in res {
        marks := marks[res[i] := 1];
      }
      MarkOne(res, neighbours - rest, i, before, marks);
      assert neighbours - (rest - {i}) == (neighbours - rest) + {i};
      rest := rest - {i};
    }
    assert neighbours - rest == neighbours;
  }

  lemma MarkOne(res: map<Var, int>, seen: set<Var>, i: Var, before: seq<int>, after: seq<int>)
    requires MarksNeighbours(res, seen, before)
    requires i in res ==> 0 <= res[i] < |before|
    requires after == if i in res then before[res[i] := 1] else before
    ensures MarksNeighbours(res, seen + {i}, after)
  {
  }

  // trySpreadRegisters, up to choosing what to split: every variable gets a free
  // register in turn, or some variable has neighbours in every register.
  method Colour(overlaps: map<Var, set<Var>>, registers: nat) returns (ok: bool, res: map<Var, int>, bad: Var)
    requires Symmetric(overlaps)
    ensures ok ==> res.Keys == overlaps.Keys && ColoredSoFar(overlaps, res, registers)
    ensures !ok ==> bad in overlaps && forall c :: 0 <= c < registers ==> Taken(res, overlaps[bad], c)
  {
    ok, res, bad := true, map[], 0;
    var todo := overlaps.Keys;
    while todo != {}
      invariant todo <= overlaps.Keys && res.Keys == overlaps.Keys - todo && ColoredSoFar(overlaps, res, registers)
      decreases todo
    {
      var v := AnyOf(todo);
      var marks := MarkNeighbours(res, overlaps[v], registers);
      var rand: nat := *;
      var freeColor := FindRandom(marks, rand);
      if freeColor == -1 {
        assert forall c :: 0 <= c < registers ==> marks[c] == 1 && Taken(res, overlaps[v], c);
        return false, res, v;
      }
      ColourOne(overlaps, res, registers, v, freeColor, marks);
      res := res[v := freeColor];
      todo := todo - {v};
    }
  }

  lemma ColourOne(overlaps: map<Var, set<Var>>, res: map<Var, int>, registers: nat, v: Var, c: int, marks: seq<int>)
    requires Symmetric(overlaps) && ColoredSoFar(overlaps, res, registers) && v in overlaps && v !in res
    requires |marks| == registers && MarksNeighbours(res, overlaps[v], marks) && 0 <= c < registers && marks[c] == 0
    ensures ColoredSoFar(overlaps, res[v := c], registers)
  {
  }

  // ---------------------------------------------------------------- the whole allocation

  lemma ConflictsSymmetric(g: Graph, n: Id, i: Var, j: Var)
    ensures ConflictAt(g, n, i, j) <==> ConflictAt(g, n, j, i)
  {
  }

  lemma LiveInside(g: Graph, n: Id, v: Var)
    requires LiveAt(g, n, v)
    ensures n in g.code
  {
  }

  lemma ColouringIsProper(g: Graph, overlaps: map<Var, set<Var>>, res: map<Var, int>, registers: nat)
    requires forall v :: v in overlaps <==> SomewhereLive(g, g.code.Keys, v)
    requires forall i, j :: Has(overlaps, i, j) <==> SomeConflict(g, g.code.Keys, i, j)
    requires res.Keys == overlaps.Keys && ColoredSoFar(overlaps, res, registers)
    ensures ProperColoring(g, res)
  {
    forall n, v {:trigger LiveAt(g, n, v)} | LiveAt(g, n, v) ensures v in res {
      LiveInside(g, n, v);
      assert SomewhereLive(g, g.code.Keys, v);
    }
    forall n, i, j {:trigger ConflictAt(g, n, i, j)} | ConflictAt(g, n, i, j) && i in res && j in res ensures res[i] != res[j] {
      assert SomeConflict(g, g.code.Keys, i, j);
      assert Has(overlaps, i, j);
    }
  }

  // The variable v has neighbours in every register.
  ghost predicate Crowded(g: Graph, res: map<Var, int>, v: Var, registers: nat)
  {
    SomewhereLive(g, g.code.Keys, v) && forall c :: 0 <= c < registers ==> TakenAround(g, res, v, c)
  }

  ghost predicate TakenAround(g: Graph, res: map<Var, int>, v: Var, c: int)
  {
    exists w :: w in res && res[w] == c && SomeConflict(g, g.code.Keys, v, w)
  }

  lemma BadIsCrowded(g: Graph, overlaps: map<Var, set<Var>>, res: map<Var, int>, bad: Var, registers: nat)
    requires forall v :: v in overlaps <==> SomewhereLive(g, g.code.Keys, v)
    requires forall i, j :: Has(overlaps, i, j) <==> SomeConflict(g, g.code.Keys, i, j)
    requires bad in overlaps && forall c :: 0 <= c < registers ==> Taken(res, overlaps[bad], c)
    ensures Crowded(g, res, bad, registers)
  {
    forall c | 0 <= c < registers ensures TakenAround(g, res, bad, c) {
      assert Taken(res, overlaps[bad], c);
      var w :| w in overlaps[bad] && w in res && res[w] == c;
      assert Has(overlaps, bad, w);
    }
  }

  // One round of the allocator. When it succeeds, running with its registers is running
  // the program; when it fails, it is for a variable with neighbours in every register.
  method TryAllocate(g: Graph, registers: nat) returns (ok: bool, res: map<Var, int>, overlaps: map<Var, set<Var>>, bad: Var)
    requires Linked(g) && PrevInside(g)
    ensures forall v :: v in overlaps <==> SomewhereLive(g, g.code.Keys, v)
    ensures ok ==> forall v :: v in res ==> 0 <= res[v] < registers
    ensures ok ==> AllColored(g, res) && forall mem, world, n :: SameRun(g, res, mem, world, n)
    ensures !ok ==> Crowded(g, res, bad, registers)
  {
    overlaps := BuildMainConflictGraph(g);
    forall i, j | Has(overlaps, i, j) ensures Has(overlaps, j, i) && i != j {
      var n :| n in g.code.Keys && ConflictAt(g, n, i, j);
      ConflictsSymmetric(g, n, i, j);
      assert SomeConflict(g, g.code.Keys, j, i);
    }
    ok, res, bad := Colour(overlaps, registers);
    if !ok {
      BadIsCrowded(g, overlaps, res, bad, registers);
    } else {
      ColouringIsProper(g, overlaps, res, registers);
      ProperColorsAll(g, res);
      forall mem, world, n ensures SameRun(g, res, mem, world, n) {
        AllocationPreservesRuns(g, res, mem, world, n);
      }
    }
  }
}
