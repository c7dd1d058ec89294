// RegisterAnalizator: the two marking walks that find the live zones, and the
// interference graph built from them.
module RegisterAnalysis {
  import opened Wrappers
  import opened Ir
  import opened RegisterMachine

  // Following next links forwards, or prev links backwards.
  function Links(g: Graph, forward: bool, n: Id): set<Id>
  {
    if n !in g.code then {}
    else if forward then set m | m in g.code[n].next && m != NULL
    else g.code[n].prev
  }

  // prev is the exact inverse of next.
  ghost predicate Linked(g: Graph)
  {
    g.Valid() && forall n, m :: n in g.code && m in g.code ==> (m in g.code[n].prev <==> n in g.code[m].next)
  }

  ghost predicate PrevInside(g: Graph)
  {
    forall n :: n in g.code ==> g.code[n].prev <= g.code.Keys
  }

  function Stops(g: Graph, n: Id, v: Var): bool
  {
    n in g.code && g.code[n].instr == Free(v)
  }

  // A walk in the given direction through operations that do not free v.
  ghost predicate Walk(g: Graph, forward: bool, v: Var, p: seq<Id>)
  {
    |p| > 0 && (forall k :: 0 <= k < |p| ==> p[k] in g.code && !Stops(g, p[k], v)) &&
    forall k :: 0 < k < |p| ==> p[k] in Links(g, forward, p[k - 1])
  }

  ghost predicate MarkReaches(g: Graph, forward: bool, n: Id, v: Var)
  {
    exists p :: Walk(g, forward, v, p) && Uses(g, p[0], v) && p[|p| - 1] == n
  }

  lemma WalkSnoc(g: Graph, forward: bool, v: Var, p: seq<Id>, m: Id)
    requires Walk(g, forward, v, p) && m in Links(g, forward, p[|p| - 1]) && m in g.code && !Stops(g, m, v)
    ensures Walk(g, forward, v, p + [m])
  {
  }

  lemma MarkExtends(g: Graph, forward: bool, n: Id, m: Id, v: Var)
    requires MarkReaches(g, forward, n, v) && m in Links(g, forward, n) && m in g.code && !Stops(g, m, v)
    ensures MarkReaches(g, forward, m, v)
  {
    var p :| Walk(g, forward, v, p) && Uses(g, p[0], v) && p[|p| - 1] == n;
    WalkSnoc(g, forward, v, p, m);
    var q := p + [m];
    assert Walk(g, forward, v, q) && Uses(g, q[0], v) && q[|q| - 1] == m;
  }

  // One of the two walks: `used` holds every (operation, variable) visited,
  // `access` those that were not stopped by a free.
  class Marking {
    const g: Graph
    const forward: bool
    var used: set<(Id, Var)>
    var access: set<(Id, Var)>

    constructor (g: Graph, forward: bool)
      ensures this.g == g && this.forward == forward && used == {} && access == {}
    {
      this.g, this.forward, used, access := g, forward, {}, {};
    }

    ghost function Unvisited(v: Var): set<Id>
      reads this
    {
      set n | n in g.code && (n, v) !in used
    }

    ghost predicate Valid()
      reads this
    {
      access <= used && NULL !in g.code && forall n :: n in g.code ==> Links(g, forward, n) <= g.code.Keys
    }

    ghost predicate Startable(node: Id, v: Var)
    {
      node in g.code && (!Stops(g, node, v) ==> MarkReaches(g, forward, node, v))
    }

    // updateCanFrom / updateCanTo
    method Update(node: Id, v: Var)
      requires Valid() && (node == NULL || Startable(node, v))
      modifies this
      ensures Valid() && MarkedFrom(g, forward, old(used), used, old(access), access, v)
      ensures node != NULL ==> (node, v) in used
      decreases Unvisited(v), 0
    {
      if node == NULL || (node, v) in used {
        return;
      }
      used := used + {(node, v)};
      if Stops(g, node, v) {
        return;
      }
      access := access + {(node, v)};
      Shrinks(g, old(used), used, v, node);
      FollowLinks(old(used), old(access), node, v);
    }

    method FollowLinks(ghost used0: set<(Id, Var)>, ghost access0: set<(Id, Var)>, node: Id, v: Var)
      requires Valid() && node in g.code && MarkReaches(g, forward, node, v)
      requires Partway(g, forward, used0, used, access0, access, v, node)
      modifies this
      ensures Valid() && MarkedFrom(g, forward, used0, used, access0, access, v) && (node, v) in used
      decreases Unvisited(v), 2
    {
      var rest := Links(g, forward, node);
      while rest != {}
        invariant Valid() && rest <= Links(g, forward, node) && old(used) <= used
        invariant Partway(g, forward, used0, used, access0, access, v, node)
        invariant forall m :: m in Links(g, forward, node) - rest ==> (m, v) in used
        decreases rest
      {
        var m := AnyOf(rest);
        FollowLink(used0, access0, node, m, v);
        rest := rest - {m};
      }
      PartwayEnd(g, forward, used0, used, access0, access, v, node);
    }

    method FollowLink(ghost used0: set<(Id, Var)>, ghost access0: set<(Id, Var)>, node: Id, m: Id, v: Var)
      requires Valid() && node in g.code && MarkReaches(g, forward, node, v) && m in Links(g, forward, node)
      requires Partway(g, forward, used0, used, access0, access, v, node)
      modifies this
      ensures Valid() && old(used) <= used && (m, v) in used
      ensures Partway(g, forward, used0, used, access0, access, v, node)
      decreases Unvisited(v), 1
    {
      if !Stops(g, m, v) { MarkExtends(g, forward, node, m, v); }
      ghost var used1, access1 := used, access;
      Update(m, v);
      PartwayStep(g, forward, used0, used1, used, access0, access1, access, v, node);
    }
  }

  // Everything visited so far is settled: marked unless freed, reached from a use,
  // and with every link of a marked operation visited.
  ghost predicate Settled(g: Graph, forward: bool, used: set<(Id, Var)>, access: set<(Id, Var)>)
  {
    (forall n, v :: (n, v) in used ==> n in g.code && ((n, v) in access <==> !Stops(g, n, v))) &&
    (forall n, v :: (n, v) in access ==> (n, v) in used && MarkReaches(g, forward, n, v)) &&
    (forall n, v, m :: (n, v) in access && m in Links(g, forward, n) ==> (m, v) in used)
  }

  lemma StillSettled(g: Graph, forward: bool, used0: set<(Id, Var)>, used: set<(Id, Var)>,
                     access0: set<(Id, Var)>, access: set<(Id, Var)>, v: Var)
    requires Settled(g, forward, used0, access0) && MarkedFrom(g, forward, used0, used, access0, access, v)
    ensures Settled(g, forward, used, access)
  {
    forall n, w | (n, w) in used ensures n in g.code && ((n, w) in access <==> !Stops(g, n, w)) {
      if (n, w) !in used0 {
        assert Fresh(used0, used, n, w);
      } else {
        assert !Fresh(access0, access, n, w);
      }
    }
    forall n, w | (n, w) in access ensures (n, w) in used && MarkReaches(g, forward, n, w) {
      if (n, w) !in access0 { assert Fresh(access0, access, n, w); }
    }
    forall n, w, m | (n, w) in access && m in Links(g, forward, n) ensures (m, w) in used {
      if (n, w) !in access0 { assert Fresh(access0, access, n, w) && Fresh(used0, used, n, w); }
    }
  }

  // All uses of these operations have been marked.
  ghost predicate UsesMarked(g: Graph, used: set<(Id, Var)>, ops: set<Id>)
  {
    forall n, v :: n in ops && Uses(g, n, v) ==> (n, v) in used
  }

  // Settled marks that cover every use are exactly what the uses reach.
  lemma {:induction false} WalkIsMarked(g: Graph, forward: bool, used: set<(Id, Var)>, access: set<(Id, Var)>, v: Var, p: seq<Id>)
    requires Settled(g, forward, used, access) && UsesMarked(g, used, g.code.Keys)
    requires Walk(g, forward, v, p) && Uses(g, p[0], v)
    ensures (p[|p| - 1], v) in access
    decreases |p|
  {
    if |p| > 1 {
      var q := p[..|p| - 1];
      WalkInit(g, forward, v, p);
      WalkIsMarked(g, forward, used, access, v, q);
      assert q[|q| - 1] == p[|p| - 2];
    }
  }

  lemma WalkInit(g: Graph, forward: bool, v: Var, p: seq<Id>)
    requires Walk(g, forward, v, p) && |p| > 1
    ensures Walk(g, forward, v, p[..|p| - 1]) && p[|p| - 1] in Links(g, forward, p[|p| - 2])
  {
  }

  lemma MarksComplete(g: Graph, forward: bool, used: set<(Id, Var)>, access: set<(Id, Var)>)
    requires Settled(g, forward, used, access) && UsesMarked(g, used, g.code.Keys)
    ensures forall n, v :: (n, v) in access <==> MarkReaches(g, forward, n, v)
  {
    forall n, v | MarkReaches(g, forward, n, v) ensures (n, v) in access {
      var p :| Walk(g, forward, v, p) && Uses(g, p[0], v) && p[|p| - 1] == n;
      WalkIsMarked(g, forward, used, access, v, p);
    }
  }

  // The loop over all operations in updateOpVars.
  method MarkAll(g: Graph, forward: bool) returns (access: set<(Id, Var)>)
    requires NULL !in g.code && forall n :: n in g.code ==> Links(g, forward, n) <= g.code.Keys
    ensures forall n, v :: (n, v) in access <==> MarkReaches(g, forward, n, v)
  {
    var marking := new Marking(g, forward);
    var rest := g.code.Keys;
    while rest != {}
      invariant rest <= g.code.Keys && marking.g == g && marking.forward == forward && marking.Valid()
      invariant Settled(g, forward, marking.used, marking.access)
      invariant UsesMarked(g, marking.used, g.code.Keys - rest)
      decreases rest
    {
      var op := AnyOf(rest);
      MarkUses(marking, op, g.code.Keys - rest);
      rest := rest - {op};
    }
    MarksComplete(g, forward, marking.used, marking.access);
    access := marking.access;
  }

  method MarkUses(marking: Marking, op: Id, ghost done: set<Id>)
    requires marking.Valid() && op in marking.g.code
    requires Settled(marking.g, marking.forward, marking.used, marking.access)
    requires UsesMarked(marking.g, marking.used, done)
    modifies marking
    ensures marking.Valid() && Settled(marking.g, marking.forward, marking.used, marking.access)
    ensures UsesMarked(marking.g, marking.used, done + {op})
  {
    var vars := UsedVars(marking.g.code[op].instr);
    var k := 0;
    ghost var marked := {};
    while k < |vars|
      invariant 0 <= k <= |vars| && marked == MarksOf(op, vars[..k])
      invariant marking.Valid() && Settled(marking.g, marking.forward, marking.used, marking.access)
      invariant old(marking.used) + marked <= marking.used
    {
      MarkUse(marking, op, vars[k]);
      marked := marked + {(op, vars[k])};
      k := k + 1;
      MarksOfNext(op, vars, k);
    }
    assert vars[..k] == vars;
    OneMoreMarked(marking.g, old(marking.used), marking.used, done, op);
  }

  ghost function MarksOf(op: Id, vs: seq<Var>): set<(Id, Var)>
  {
    if vs == [] then {} else MarksOf(op, vs[..|vs| - 1]) + {(op, vs[|vs| - 1])}
  }

  lemma MarksOfNext(op: Id, vs: seq<Var>, k: nat)
    requires 1 <= k <= |vs|
    ensures MarksOf(op, vs[..k]) == MarksOf(op, vs[..k - 1]) + {(op, vs[k - 1])}
  {
    assert vs[..k][..k - 1] == vs[..k - 1];
  }

  lemma {:induction false} MarksOfEach(op: Id, vs: seq<Var>, v: Var)
    requires v in vs
    ensures (op, v) in MarksOf(op, vs)
  {
    if v != vs[|vs| - 1] { MarksOfEach(op, vs[..|vs| - 1], v); }
  }

  lemma OneMoreMarked(g: Graph, used0: set<(Id, Var)>, used: set<(Id, Var)>, done: set<Id>, op: Id)
    requires UsesMarked(g, used0, done) && used0 <= used && op in g.code
    requires MarksOf(op, UsedVars(g.code[op].instr)) <= used
    ensures UsesMarked(g, used, done + {op})
  {
    forall v | Uses(g, op, v) ensures (op, v) in used {
      MarksOfEach(op, UsedVars(g.code[op].instr), v);
    }
  }

  method MarkUse(marking: Marking, op: Id, v: Var)
    requires marking.Valid() && Uses(marking.g, op, v)
    requires Settled(marking.g, marking.forward, marking.used, marking.access)
    modifies marking
    ensures marking.Valid() && Settled(marking.g, marking.forward, marking.used, marking.access)
    ensures old(marking.used) <= marking.used && (op, v) in marking.used
  {
    UseIsReached(marking.g, marking.forward, op, v);
    ghost var used0, access0 := marking.used, marking.access;
    marking.Update(op, v);
    StillSettled(marking.g, marking.forward, used0, marking.used, access0, marking.access, v);
  }

  lemma UseIsReached(g: Graph, forward: bool, op: Id, v: Var)
    requires Uses(g, op, v)
    ensures !Stops(g, op, v) ==> MarkReaches(g, forward, op, v)
  {
    if !Stops(g, op, v) {
      assert Walk(g, forward, v, [op]) && [op][0] == op && [op][|[op]| - 1] == op;
    }
  }

  ghost predicate Fresh(used0: set<(Id, Var)>, used: set<(Id, Var)>, n: Id, v: Var)
  {
    (n, v) in used && (n, v) !in used0
  }

  // What one walk adds: only pairs of v, each marked unless freed, each reached,
  // and every link of a marked operation visited.
  ghost predicate MarkedFrom(g: Graph, forward: bool, used0: set<(Id, Var)>, used: set<(Id, Var)>,
                             access0: set<(Id, Var)>, access: set<(Id, Var)>, v: Var)
  {
    used0 <= used && access0 <= access &&
    (forall n, w :: Fresh(used0, used, n, w) ==> n in g.code && w == v && ((n, w) in access <==> !Stops(g, n, v))) &&
    (forall n, w :: Fresh(access0, access, n, w) ==> Fresh(used0, used, n, w) && MarkReaches(g, forward, n, v)) &&
    (forall n, m :: Fresh(used0, used, n, v) && !Stops(g, n, v) && m in Links(g, forward, n) ==> (m, v) in used)
  }

  // The same while the links of `open` are still being followed.
  ghost predicate Partway(g: Graph, forward: bool, used0: set<(Id, Var)>, used: set<(Id, Var)>,
                          access0: set<(Id, Var)>, access: set<(Id, Var)>, v: Var, open: Id)
  {
    used0 <= used && access0 <= access && Fresh(used0, used, open, v) &&
    (forall n, w :: Fresh(used0, used, n, w) ==> n in g.code && w == v && ((n, w) in access <==> !Stops(g, n, v))) &&
    (forall n, w :: Fresh(access0, access, n, w) ==> Fresh(used0, used, n, w) && MarkReaches(g, forward, n, v)) &&
    (forall n, m :: Fresh(used0, used, n, v) && n != open && !Stops(g, n, v) && m in Links(g, forward, n) ==> (m, v) in used)
  }

  lemma PartwayStep(g: Graph, forward: bool, used0: set<(Id, Var)>, used1: set<(Id, Var)>, used2: set<(Id, Var)>,
                    access0: set<(Id, Var)>, access1: set<(Id, Var)>, access2: set<(Id, Var)>, v: Var, open: Id)
    requires Partway(g, forward, used0, used1, access0, access1, v, open)
    requires MarkedFrom(g, forward, used1, used2, access1, access2, v)
    ensures Partway(g, forward, used0, used2, access0, access2, v, open)
  {
    forall n, w | Fresh(used0, used2, n, w) ensures n in g.code && w == v && ((n, w) in access2 <==> !Stops(g, n, v)) {
      assert Fresh(used0, used1, n, w) || Fresh(used1, used2, n, w);
      if Fresh(used0, used1, n, w) && (n, w) in access2 && (n, w) !in access1 { assert Fresh(access1, access2, n, w); }
    }
    forall n, w | Fresh(access0, access2, n, w) ensures Fresh(used0, used2, n, w) && MarkReaches(g, forward, n, v) {
      assert Fresh(access0, access1, n, w) || Fresh(access1, access2, n, w);
    }
    forall n, m | Fresh(used0, used2, n, v) && n != open && !Stops(g, n, v) && m in Links(g, forward, n) ensures (m, v) in used2 {
      assert Fresh(used0, used1, n, v) || Fresh(used1, used2, n, v);
    }
  }

  lemma PartwayEnd(g: Graph, forward: bool, used0: set<(Id, Var)>, used: set<(Id, Var)>,
                   access0: set<(Id, Var)>, access: set<(Id, Var)>, v: Var, open: Id)
    requires Partway(g, forward, used0, used, access0, access, v, open)
    requires forall m :: m in Links(g, forward, open) ==> (m, v) in used
    ensures MarkedFrom(g, forward, used0, used, access0, access, v)
  {
  }

  lemma Shrinks(g: Graph, used0: set<(Id, Var)>, used: set<(Id, Var)>, v: Var, node: Id)
    requires used0 <= used && node in g.code && (node, v) !in used0 && (node, v) in used
    ensures (set n | n in g.code && (n, v) !in used) < (set n | n in g.code && (n, v) !in used0)
  {
    var a, b := (set n | n in g.code && (n, v) !in used), (set n | n in g.code && (n, v) !in used0);
    assert node in b && node !in a;
  }

  // ---------------------------------------------------------------- the walks find the live zones

  lemma LinksInside(g: Graph, forward: bool)
    requires Linked(g) && PrevInside(g)
    ensures forall n :: n in g.code ==> Links(g, forward, n) <= g.code.Keys
  {
  }

  function Reversed(p: seq<Id>): (r: seq<Id>)
    ensures |r| == |p|
  {
    seq(|p|, k requires 0 <= k < |p| => p[|p| - 1 - k])
  }

  lemma BackwardIsZone(g: Graph, v: Var, p: seq<Id>)
    requires Linked(g)
    ensures Walk(g, false, v, p) <==> Zone(g, v, Reversed(p))
  {
    var q := Reversed(p);
    if Walk(g, false, v, p) {
      forall k | 0 < k < |q| ensures g.Edge(q[k - 1], q[k]) {
        assert p[|p| - k] in Links(g, false, p[|p| - k - 1]);
      }
    }
    if Zone(g, v, q) {
      forall k | 0 <= k < |p| ensures p[k] in g.code && !Stops(g, p[k], v) {
        assert p[k] == q[|p| - 1 - k];
      }
      forall k | 0 < k < |p| ensures p[k] in Links(g, false, p[k - 1]) {
        var j := |p| - k;
        assert g.Edge(q[j - 1], q[j]) && q[j - 1] == p[k] && q[j] == p[k - 1];
      }
    }
  }

  lemma ForwardMarks(g: Graph, n: Id, v: Var)
    requires NULL !in g.code
    ensures MarkReaches(g, true, n, v) <==> CanFrom(g, n, v)
  {
  }

  lemma BackwardMarks(g: Graph, n: Id, v: Var)
    requires Linked(g)
    ensures MarkReaches(g, false, n, v) <==> CanTo(g, n, v)
  {
    if MarkReaches(g, false, n, v) {
      var p :| Walk(g, false, v, p) && Uses(g, p[0], v) && p[|p| - 1] == n;
      BackwardIsZone(g, v, p);
      var q := Reversed(p);
      assert Zone(g, v, q) && q[0] == n && Uses(g, q[|q| - 1], v);
    }
    if CanTo(g, n, v) {
      var q :| Zone(g, v, q) && q[0] == n && Uses(g, q[|q| - 1], v);
      var p := Reversed(q);
      assert Reversed(p) == q;
      BackwardIsZone(g, v, p);
      assert Walk(g, false, v, p) && Uses(g, p[0], v) && p[|p| - 1] == n;
    }
  }

  // updateOpVars: op_vars[n] is exactly the set of variables live at n.
  method UpdateOpVars(g: Graph) returns (opVars: map<Id, set<Var>>)
    requires Linked(g) && PrevInside(g)
    ensures opVars.Keys == g.code.Keys
    ensures forall n, v :: n in g.code ==> (v in opVars[n] <==> LiveAt(g, n, v))
  {
    LinksInside(g, true);
    LinksInside(g, false);
    var from := MarkAll(g, true);
    var to := MarkAll(g, false);
    opVars := map n | n in g.code :: set p | p in from && p.0 == n && p in to :: p.1;
    forall n, v | n in g.code ensures v in opVars[n] <==> LiveAt(g, n, v) {
      ForwardMarks(g, n, v);
      BackwardMarks(g, n, v);
      if (n, v) in from && (n, v) in to { assert (n, v).1 == v; }
    }
  }
}
