// Splitting a variable: every operation that uses it gets its own short-lived
// temporary, loaded before and stored after, and the variable lives in memory.
module Spill {
  import opened Ir
  import opened RegisterAnalysis
  import opened GraphSurgery

  // The operations made for one split operation, and its temporary.
  datatype Parts = Parts(temp: Var, load: Id, store: Id, free0: Id, free1: Id)

  ghost predicate PartsNew(g: Graph, k: Parts)
  {
    New(g, k.load) && New(g, k.store) && New(g, k.free0) && New(g, k.free1) &&
    k.load != k.store && k.load != k.free0 && k.load != k.free1 && k.store != k.free0 && k.store != k.free1 && k.free0 != k.free1
  }

  predicate ReadsVar(i: Instr, x: Var) { x in ReadVars(i) }
  predicate WritesVar(i: Instr, x: Var) { x in WrittenVars(i) }
  predicate UsesVar(i: Instr, x: Var) { x in UsedVars(i) }

  // ---------------------------------------------------------------- splitting one operation

  ghost function WithLoad(g: Graph, n: Id, x: Var, k: Parts): Graph
    requires WellLinked(g) && n in g.code && New(g, k.load)
  {
    if ReadsVar(g.code[n].instr, x) then InsertBefore(g, n, k.load, Load(k.temp, x)) else g
  }

  ghost function WithFrees(g: Graph, n: Id, k: Parts): Graph
    requires g.Valid() && n in g.code && New(g, k.free0) && New(g, k.free1) && k.free0 != k.free1
  {
    assert g.BlockOk(n);
    var g' := InsertAfter(g, n, k.free0, Free(k.temp), 0);
    InsertAfterAt(g, n, k.free0, Free(k.temp), 0, n);
    if g.code[n].instr.Branch? then InsertAfter(g', n, k.free1, Free(k.temp), 1) else g'
  }

  lemma WithLoadLinked(g: Graph, n: Id, x: Var, k: Parts)
    requires WellLinked(g) && n in g.code && New(g, k.load)
    ensures var g' := WithLoad(g, n, x, k);
            WellLinked(g') && g.code.Keys <= g'.code.Keys <= g.code.Keys + {k.load} && g'.code[n].instr == g.code[n].instr
  {
    InsertBeforeAt(g, n, k.load, Load(k.temp, x), n);
    InsertBeforeLinked(g, n, k.load, Load(k.temp, x));
  }

  // The frees on all links of n.
  lemma WithFreesAt(g: Graph, n: Id, k: Parts, m: Id)
    requires WellLinked(g) && n in g.code && New(g, k.free0) && New(g, k.free1) && k.free0 != k.free1
    ensures var g' := WithFrees(g, n, k);
            var branch := g.code[n].instr.Branch?;
            g.BlockOk(n) && g'.entry == g.entry && g'.code.Keys == g.code.Keys + {k.free0} + (if branch then {k.free1} else {}) &&
            g'.code[k.free0].instr == Free(k.temp) && g'.code[k.free0].next == [g.code[n].next[0]] &&
            (branch ==> g'.code[k.free1].instr == Free(k.temp) && g'.code[k.free1].next == [g.code[n].next[1]]) &&
            (m in g.code ==>
              g'.code[m].instr == g.code[m].instr &&
              g'.code[m].next == if m != n then g.code[m].next else if branch then [k.free0, k.free1] else [k.free0])
  {
    assert g.BlockOk(n);
    var free := Free(k.temp);
    var g1 := InsertAfter(g, n, k.free0, free, 0);
    InsertAfterAt(g, n, k.free0, free, 0, n);
    InsertAfterAt(g, n, k.free0, free, 0, m);
    InsertAfterValid(g, n, k.free0, free, 0);
    if g.code[n].instr.Branch? {
      InsertAfterAt(g1, n, k.free1, free, 1, n);
      InsertAfterAt(g1, n, k.free1, free, 1, m);
      InsertAfterAt(g1, n, k.free1, free, 1, k.free0);
    }
  }

  lemma WithFreesLinked(g: Graph, n: Id, k: Parts)
    requires WellLinked(g) && n in g.code && New(g, k.free0) && New(g, k.free1) && k.free0 != k.free1
    ensures WellLinked(WithFrees(g, n, k))
  {
    assert g.BlockOk(n);
    if g.code[n].instr.Branch? {
      BranchFreesLinked(g, n, k);
    } else {
      InsertAfterLinked(g, n, k.free0, Free(k.temp));
    }
  }

  lemma BranchFreesLinked(g: Graph, n: Id, k: Parts)
    requires WellLinked(g) && n in g.code && New(g, k.free0) && New(g, k.free1) && k.free0 != k.free1
    requires g.BlockOk(n) && g.code[n].instr.Branch?
    ensures WellLinked(WithFrees(g, n, k))
  {
    BranchFreesValid(g, n, k);
    var g', keys := WithFrees(g, n, k), g.code.Keys + {k.free0, k.free1};
    WithFreesAt(g, n, k, n);
    assert g'.code.Keys == keys;
    forall m, t | m in keys && t in keys ensures m in g'.code && t in g'.code && LinkOk(g', m, t) {
      BranchLink(g, n, k, m, t);
    }
    AllLinked(g', keys);
  }

  lemma AllLinked(g: Graph, keys: set<Id>)
    requires g.Valid() && PrevInside(g) && g.code.Keys == keys
    requires forall m, t :: m in keys && t in keys ==> m in g.code && t in g.code && LinkOk(g, m, t)
    ensures WellLinked(g)
  {
    forall n, m | n in g.code && m in g.code ensures m in g.code[n].prev <==> n in g.code[m].next {
      assert LinkOk(g, m, n);
    }
  }

  // Inserting after an operation with one link.
  lemma InsertedLink(g: Graph, n: Id, f: Id, instr: Instr, m: Id, t: Id)
    requires WellLinked(g) && n in g.code && |g.code[n].next| == 1 && New(g, f)
    requires var g' := InsertAfter(g, n, f, instr, 0); m in g'.code && t in g'.code
    ensures LinkOk(InsertAfter(g, n, f, instr, 0), m, t)
  {
    InsertAfterAt(g, n, f, instr, 0, n);
    if m in g.code && t in g.code { assert LinkOk(g, m, t); }
    InsertAfterLinks(g, n, f, instr, 0, m, t);
  }

  lemma InsertedPrev(g: Graph, n: Id, f: Id, instr: Instr)
    requires WellLinked(g) && n in g.code && |g.code[n].next| == 1 && New(g, f)
    ensures PrevInside(InsertAfter(g, n, f, instr, 0))
  {
    InsertAfterAt(g, n, f, instr, 0, n);
  }

  lemma InsertAfterLinked(g: Graph, n: Id, f: Id, instr: Instr)
    requires WellLinked(g) && n in g.code && |g.code[n].next| == 1 && New(g, f) && !instr.Branch?
    ensures WellLinked(InsertAfter(g, n, f, instr, 0))
  {
    var g' := InsertAfter(g, n, f, instr, 0);
    InsertAfterValid(g, n, f, instr, 0);
    InsertedPrev(g, n, f, instr);
    forall m, t | m in g'.code && t in g'.code ensures LinkOk(g', m, t) {
      InsertedLink(g, n, f, instr, m, t);
    }
    LinkedByPairs(g');
  }

  lemma BranchFreesValid(g: Graph, n: Id, k: Parts)
    requires WellLinked(g) && n in g.code && New(g, k.free0) && New(g, k.free1) && k.free0 != k.free1
    requires g.BlockOk(n) && g.code[n].instr.Branch?
    ensures WithFrees(g, n, k).Valid() && PrevInside(WithFrees(g, n, k))
  {
    InsertAfterAt(g, n, k.free0, Free(k.temp), 0, n);
    InsertAfterValid(g, n, k.free0, Free(k.temp), 0);
    InsertAfterValid(InsertAfter(g, n, k.free0, Free(k.temp), 0), n, k.free1, Free(k.temp), 1);
  }

  lemma BranchLink(g: Graph, n: Id, k: Parts, m: Id, t: Id)
    requires WellLinked(g) && n in g.code && New(g, k.free0) && New(g, k.free1) && k.free0 != k.free1
    requires g.BlockOk(n) && g.code[n].instr.Branch?
    requires m in g.code || m == k.free0 || m == k.free1
    requires t in g.code || t == k.free0 || t == k.free1
    ensures m in WithFrees(g, n, k).code && t in WithFrees(g, n, k).code && LinkOk(WithFrees(g, n, k), m, t)
  {
    var free := Free(k.temp);
    var g1 := InsertAfter(g, n, k.free0, free, 0);
    InsertAfterAt(g, n, k.free0, free, 0, n);
    InsertAfterValid(g, n, k.free0, free, 0);
    if m in g.code && t in g.code { assert LinkOk(g, m, t); }
    var next := g.code[n].next;
    if m != k.free1 && t != k.free1 && !((m, t) == (n, next[0]) && next[0] == next[1]) {
      InsertAfterLinks(g, n, k.free0, free, 0, m, t);
    }
    assert g1.code[n].next == [k.free0, next[1]];
    InsertAfterLinks(g1, n, k.free1, free, 1, m, t);
  }

  // Everything SplitVariable does for one operation n that uses x.
  ghost function SplitOp(g: Graph, n: Id, x: Var, k: Parts): Graph
    requires WellLinked(g) && n in g.code && PartsNew(g, k)
  {
    var g1 := WithLoad(g, n, x, k);
    WithLoadLinked(g, n, x, k);
    var g2 := WithFrees(g1, n, k);
    WithFreesAt(g1, n, k, n);
    var g3 := if WritesVar(g.code[n].instr, x) then InsertAfter(g2, n, k.store, Store(k.temp, x), 0) else g2;
    Rewrite(g3, n, Rename(g.code[n].instr, map[x := k.temp]))
  }

  ghost predicate IsOp(g: Graph, n: Id, instr: Instr, next: seq<Id>)
  {
    n in g.code && g.code[n].instr == instr && g.code[n].next == next
  }

  // Where a link to n leads once n has been split.
  ghost function Moved(n: Id, m: Id, isRead: bool, k: Parts): Id
  {
    if m == n && isRead then k.load else m
  }

  ghost function MovedAll(next: seq<Id>, n: Id, isRead: bool, k: Parts): seq<Id>
  {
    if isRead then Redirected(next, n, k.load) else next
  }

  // Splitting n leaves every other operation as it was, but for links to n.
  lemma SplitOpOthers(g: Graph, n: Id, x: Var, k: Parts, m: Id)
    requires WellLinked(g) && n in g.code && PartsNew(g, k) && m in g.code && m != n
    ensures IsOp(SplitOp(g, n, x, k), m, g.code[m].instr, MovedAll(g.code[m].next, n, ReadsVar(g.code[n].instr, x), k))
  {
    var g1 := WithLoad(g, n, x, k);
    InsertBeforeAt(g, n, k.load, Load(k.temp, x), m);
    WithLoadLinked(g, n, x, k);
    var g2 := WithFrees(g1, n, k);
    WithFreesAt(g1, n, k, n);
    WithFreesAt(g1, n, k, m);
    WithFreesLinked(g1, n, k);
    if WritesVar(g.code[n].instr, x) {
      InsertAfterAt(g2, n, k.store, Store(k.temp, x), 0, m);
    }
  }

  lemma SplitOpEntry(g: Graph, n: Id, x: Var, k: Parts)
    requires WellLinked(g) && n in g.code && PartsNew(g, k)
    ensures SplitOp(g, n, x, k).entry == Moved(n, g.entry, ReadsVar(g.code[n].instr, x), k)
  {
    var g1 := WithLoad(g, n, x, k);
    InsertBeforeAt(g, n, k.load, Load(k.temp, x), n);
    WithLoadLinked(g, n, x, k);
    var g2 := WithFrees(g1, n, k);
    WithFreesAt(g1, n, k, n);
    WithFreesLinked(g1, n, k);
    if WritesVar(g.code[n].instr, x) {
      InsertAfterAt(g2, n, k.store, Store(k.temp, x), 0, n);
    }
  }

  lemma WriterHasOneLink(i: Instr, x: Var)
    requires WritesVar(i, x)
    ensures !i.Branch? && UsesVar(i, x)
  {
  }

  // The split operation and the operations made for it.
  // With the load and the frees there.
  lemma FreedParts(g: Graph, n: Id, x: Var, k: Parts)
    requires WellLinked(g) && n in g.code && PartsNew(g, k)
    ensures var i, g1 := g.code[n].instr, WithLoad(g, n, x, k);
            var next := MovedAll(g.code[n].next, n, ReadsVar(i, x), k);
            g.BlockOk(n) && WellLinked(g1) && n in g1.code && New(g1, k.free0) && New(g1, k.free1) &&
            var g2 := WithFrees(g1, n, k);
            WellLinked(g2) && New(g2, k.store) && IsOp(g2, n, i, if i.Branch? then [k.free0, k.free1] else [k.free0]) &&
            (ReadsVar(i, x) ==> IsOp(g2, k.load, Load(k.temp, x), [n])) &&
            IsOp(g2, k.free0, Free(k.temp), [next[0]]) && (i.Branch? ==> IsOp(g2, k.free1, Free(k.temp), [next[1]]))
  {
    assert g.BlockOk(n);
    var g1 := WithLoad(g, n, x, k);
    InsertBeforeAt(g, n, k.load, Load(k.temp, x), n);
    WithLoadLinked(g, n, x, k);
    WithFreesAt(g1, n, k, n);
    WithFreesAt(g1, n, k, k.load);
    WithFreesLinked(g1, n, k);
  }

  lemma SplitOpParts(g: Graph, n: Id, x: Var, k: Parts)
    requires WellLinked(g) && n in g.code && PartsNew(g, k)
    ensures var g', i := SplitOp(g, n, x, k), g.code[n].instr;
            var next := MovedAll(g.code[n].next, n, ReadsVar(i, x), k);
            var first := if WritesVar(i, x) then k.store else k.free0;
            g.BlockOk(n) &&
            IsOp(g', n, Rename(i, map[x := k.temp]), if i.Branch? then [first, k.free1] else [first]) &&
            (ReadsVar(i, x) ==> IsOp(g', k.load, Load(k.temp, x), [n])) &&
            (WritesVar(i, x) ==> IsOp(g', k.store, Store(k.temp, x), [k.free0])) &&
            IsOp(g', k.free0, Free(k.temp), [next[0]]) &&
            (i.Branch? ==> IsOp(g', k.free1, Free(k.temp), [next[1]]))
  {
    FreedParts(g, n, x, k);
    if WritesVar(g.code[n].instr, x) {
      StoredParts(WithFrees(WithLoad(g, n, x, k), n, k), n, x, k);
    }
  }

  // The store moves nothing but the operation's own first link.
  lemma StoredParts(g2: Graph, n: Id, x: Var, k: Parts)
    requires WellLinked(g2) && n in g2.code && New(g2, k.store) && g2.BlockOk(n)
    ensures var g3 := InsertAfter(g2, n, k.store, Store(k.temp, x), 0);
            IsOp(g3, n, g2.code[n].instr, g2.code[n].next[0 := k.store]) &&
            IsOp(g3, k.store, Store(k.temp, x), [g2.code[n].next[0]]) &&
            forall m :: m in {k.load, k.free0, k.free1} && m in g2.code && m != n ==> IsOp(g3, m, g2.code[m].instr, g2.code[m].next)
  {
    InsertAfterAt(g2, n, k.store, Store(k.temp, x), 0, n);
    forall m | m in {k.load, k.free0, k.free1} && m in g2.code && m != n
      ensures IsOp(InsertAfter(g2, n, k.store, Store(k.temp, x), 0), m, g2.code[m].instr, g2.code[m].next)
    {
      InsertAfterAt(g2, n, k.store, Store(k.temp, x), 0, m);
    }
  }

  lemma SplitOpLinked(g: Graph, n: Id, x: Var, k: Parts)
    requires WellLinked(g) && n in g.code && PartsNew(g, k)
    ensures WellLinked(SplitOp(g, n, x, k))
    ensures SplitOp(g, n, x, k).code.Keys <= g.code.Keys + {k.load, k.store, k.free0, k.free1}
  {
    var g1 := WithLoad(g, n, x, k);
    WithLoadLinked(g, n, x, k);
    var g2 := WithFrees(g1, n, k);
    WithFreesLinked(g1, n, k);
    WithFreesAt(g1, n, k, n);
    if WritesVar(g.code[n].instr, x) {
      WriterHasOneLink(g.code[n].instr, x);
      InsertAfterLinked(g2, n, k.store, Store(k.temp, x));
      InsertAfterAt(g2, n, k.store, Store(k.temp, x), 0, n);
    }
    var g3 := if WritesVar(g.code[n].instr, x) then InsertAfter(g2, n, k.store, Store(k.temp, x), 0) else g2;
    RewriteLinked(g3, n, Rename(g.code[n].instr, map[x := k.temp]));
  }
}
