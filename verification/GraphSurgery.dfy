// In-place edits of the operation graph: inserting an operation after or before
// another. Each edit is a method on the worker, proved against the edit of the
// graph as a value, and the values are proved to keep prev the inverse of next.
module GraphSurgery {
  import opened Ir
  import opened RegisterAnalysis

  ghost predicate LinkOk(g: Graph, m: Id, n: Id)
    requires n in g.code && m in g.code
  {
    m in g.code[n].prev <==> n in g.code[m].next
  }

  lemma LinkedByPairs(g: Graph)
    requires g.Valid() && PrevInside(g) && forall n, m :: n in g.code && m in g.code ==> LinkOk(g, m, n)
    ensures WellLinked(g)
  {
    forall n, m | n in g.code && m in g.code ensures m in g.code[n].prev <==> n in g.code[m].next {
      assert LinkOk(g, m, n);
    }
  }

  // prev mentions only operations of the graph.
  ghost predicate WellLinked(g: Graph)
  {
    Linked(g) && PrevInside(g)
  }

  // The code vector lists the operations of the graph.
  ghost predicate Lists(order: seq<Id>, code: map<Id, Block>)
  {
    forall n :: n in order <==> n in code
  }

  // The new operation f takes over link k of c.
  function InsertAfter(g: Graph, c: Id, f: Id, instr: Instr, k: nat): Graph
    requires c in g.code && k < |g.code[c].next| && f !in g.code
  {
    var t := g.code[c].next[k];
    var code1 := g.code[f := Block(instr, [t], {c})];
    var code2 := if t in code1 then code1[t := code1[t].(prev := code1[t].prev - {c} + {f})] else code1;
    g.(code := code2[c := code2[c].(next := code2[c].next[k := f])])
  }

  function Redirected(next: seq<Id>, c: Id, f: Id): (r: seq<Id>)
    ensures |r| == |next|
  {
    seq(|next|, j requires 0 <= j < |next| => if next[j] == c then f else next[j])
  }

  // The loop over the links of one operation.
  method RedirectLinks(links: seq<Id>, c: Id, f: Id) returns (next: seq<Id>, found: bool)
    ensures next == Redirected(links, c, f) && (found <==> c in links)
  {
    next, found := links, false;
    for j := 0 to |links|
      invariant |next| == |links| && (found <==> c in links[..j])
      invariant forall i :: 0 <= i < |next| ==> next[i] == if i < j && links[i] == c then f else links[i]
    {
      if next[j] == c {
        next := next[j := f];
        found := true;
      }
    }
    assert links[..|links|] == links;
  }

  // All links to c now go to the new operation f, which leads to c.
  function InsertBefore(g: Graph, c: Id, f: Id, instr: Instr): Graph
    requires c in g.code && f !in g.code && g.code[c].prev <= g.code.Keys
  {
    var code1 := map n | n in g.code ::
      if n in g.code[c].prev then g.code[n].(next := Redirected(g.code[n].next, c, f)) else g.code[n];
    var preds := set p | p in g.code[c].prev && c in g.code[p].next;
    Graph(if g.entry == c then f else g.entry,
          code1[c := code1[c].(prev := {f})][f := Block(instr, [c], preds)])
  }

  // applyNamesTranslition on one operation.
  function Rewrite(g: Graph, c: Id, instr: Instr): Graph
    requires c in g.code
  {
    g.(code := g.code[c := g.code[c].(instr := instr)])
  }

  // Every jump, conditional or not, has an operation to jump to.
  ghost predicate Targeted(g: Graph)
  {
    forall n :: n in g.code ==> TargetAt(g.code[n])
  }

  ghost predicate TargetAt(b: Block)
  {
    b.instr.Jump? || b.instr.Branch? ==> b.next != [] && b.next[|b.next| - 1] != NULL
  }

  // ---------------------------------------------------------------- what the edits do, operation by operation

  // A fresh operation identity.
  ghost predicate New(g: Graph, f: Id)
  {
    f !in g.code && f != NULL
  }

  // Only link k of c moves, and only the old target's prev changes.
  lemma InsertAfterAt(g: Graph, c: Id, f: Id, instr: Instr, k: nat, n: Id)
    requires g.Valid() && c in g.code && k < |g.code[c].next| && New(g, f)
    ensures var g', t := InsertAfter(g, c, f, instr, k), g.code[c].next[k];
            g'.entry == g.entry && g'.code.Keys == g.code.Keys + {f} && g'.code[f] == Block(instr, [t], {c}) &&
            (n in g.code ==>
              g'.code[n].instr == g.code[n].instr &&
              g'.code[n].next == (if n == c then g.code[c].next[k := f] else g.code[n].next) &&
              g'.code[n].prev == if n == t then g.code[n].prev - {c} + {f} else g.code[n].prev)
  {
    assert g.BlockOk(c);
  }

  lemma InsertAfterValid(g: Graph, c: Id, f: Id, instr: Instr, k: nat)
    requires g.Valid() && PrevInside(g) && c in g.code && k < |g.code[c].next| && New(g, f) && !instr.Branch?
    ensures InsertAfter(g, c, f, instr, k).Valid() && PrevInside(InsertAfter(g, c, f, instr, k))
  {
    var g' := InsertAfter(g, c, f, instr, k);
    InsertAfterAt(g, c, f, instr, k, c);
    assert g.BlockOk(c);
    forall n | n in g'.code ensures g'.BlockOk(n) && g'.code[n].prev <= g'.code.Keys {
      InsertAfterAt(g, c, f, instr, k, n);
      if n != f { assert g.BlockOk(n); }
    }
  }

  // Every pair of operations stays linked both ways or not at all, if it was; and
  // c and its old target become so, if c has no other link to it.
  lemma InsertAfterLinks(g: Graph, c: Id, f: Id, instr: Instr, k: nat, m: Id, n: Id)
    requires g.Valid() && PrevInside(g) && c in g.code && k < |g.code[c].next| && New(g, f)
    requires m in g.code + map[f := Block(instr, [], {})] && n in g.code + map[f := Block(instr, [], {})]
    requires m in g.code && n in g.code && (m, n) != (c, g.code[c].next[k]) ==> LinkOk(g, m, n)
    requires (m, n) == (c, g.code[c].next[k]) ==> forall j :: 0 <= j < |g.code[c].next| && j != k ==> g.code[c].next[j] != n
    ensures m in InsertAfter(g, c, f, instr, k).code && n in InsertAfter(g, c, f, instr, k).code
    ensures LinkOk(InsertAfter(g, c, f, instr, k), m, n)
  {
    InsertAfterAt(g, c, f, instr, k, m);
    InsertAfterAt(g, c, f, instr, k, n);
    var t, next := g.code[c].next[k], g.code[c].next;
    assert g.BlockOk(c);
    if m == c {
      NextWithout(next, k, f, n);
    } else if m != f {
      assert g.BlockOk(m);
    }
  }

  lemma NextWithout(next: seq<Id>, k: nat, f: Id, n: Id)
    requires k < |next|
    ensures f in next[k := f]
    ensures n != f ==> (n in next[k := f] <==> exists j :: 0 <= j < |next| && j != k && next[j] == n)
  {
    var r := next[k := f];
    assert r[k] == f;
    if n in r && n != f {
      var j :| 0 <= j < |r| && r[j] == n;
      assert j != k && next[j] == n;
    }
    if j :| 0 <= j < |next| && j != k && next[j] == n {
      assert r[j] == n;
    }
  }

  lemma InsertBeforeAt(g: Graph, c: Id, f: Id, instr: Instr, n: Id)
    requires WellLinked(g) && c in g.code && New(g, f)
    ensures var g' := InsertBefore(g, c, f, instr);
            g'.entry == (if g.entry == c then f else g.entry) && g'.code.Keys == g.code.Keys + {f} &&
            g'.code[f] == Block(instr, [c], g.code[c].prev) &&
            (n in g.code ==>
              g'.code[n].instr == g.code[n].instr && g'.code[n].next == Redirected(g.code[n].next, c, f) &&
              g'.code[n].prev == if n == c then {f} else g.code[n].prev)
  {
    var g' := InsertBefore(g, c, f, instr);
    forall p | p in g.code[c].prev ensures c in g.code[p].next {
      assert LinkOk(g, p, c);
    }
    if n in g.code && n !in g.code[c].prev {
      assert LinkOk(g, n, c);
      assert Redirected(g.code[n].next, c, f) == g.code[n].next;
    }
  }

  lemma RedirectedHas(next: seq<Id>, c: Id, f: Id, n: Id)
    requires f !in next && c != f
    ensures f in Redirected(next, c, f) <==> c in next
    ensures c !in Redirected(next, c, f)
    ensures n != c && n != f ==> (n in Redirected(next, c, f) <==> n in next)
  {
    var r := Redirected(next, c, f);
    if c in next {
      var j :| 0 <= j < |next| && next[j] == c;
      assert r[j] == f;
    }
    if n in next && n != c {
      var j :| 0 <= j < |next| && next[j] == n;
      assert r[j] == n;
    }
  }

  lemma InsertBeforeLinked(g: Graph, c: Id, f: Id, instr: Instr)
    requires WellLinked(g) && c in g.code && New(g, f) && !instr.Branch?
    ensures WellLinked(InsertBefore(g, c, f, instr))
  {
    var g' := InsertBefore(g, c, f, instr);
    InsertBeforeAt(g, c, f, instr, c);
    forall n | n in g'.code ensures g'.BlockOk(n) && g'.code[n].prev <= g'.code.Keys {
      InsertBeforeAt(g, c, f, instr, n);
      if n != f { assert g.BlockOk(n); }
    }
    forall n, m | n in g'.code && m in g'.code ensures LinkOk(g', m, n) {
      InsertBeforeLink(g, c, f, instr, m, n);
    }
  }

  lemma InsertBeforeLink(g: Graph, c: Id, f: Id, instr: Instr, m: Id, n: Id)
    requires WellLinked(g) && c in g.code && New(g, f)
    requires m in InsertBefore(g, c, f, instr).code && n in InsertBefore(g, c, f, instr).code
    ensures LinkOk(InsertBefore(g, c, f, instr), m, n)
  {
    InsertBeforeAt(g, c, f, instr, m);
    InsertBeforeAt(g, c, f, instr, n);
    if m in g.code {
      assert g.BlockOk(m);
      assert f !in g.code[m].next;
      RedirectedHas(g.code[m].next, c, f, n);
      assert LinkOk(g, m, c);
      if n in g.code { assert LinkOk(g, m, n); }
    }
  }

  lemma RewriteLinked(g: Graph, c: Id, instr: Instr)
    requires WellLinked(g) && c in g.code && instr.Branch? == g.code[c].instr.Branch?
    ensures WellLinked(Rewrite(g, c, instr))
  {
    var g' := Rewrite(g, c, instr);
    forall n | n in g'.code ensures g'.BlockOk(n) && g'.code[n].prev <= g'.code.Keys { assert g.BlockOk(n); }
    forall n, m | n in g'.code && m in g'.code ensures LinkOk(g', m, n) { assert LinkOk(g, m, n); }
  }
}
