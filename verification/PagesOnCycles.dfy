// Why pages are claimed on networks without cycles only: on a triangle the handler confirms
// one request twice, a hive counts both confirmations, and the broadcast is finished before
// it has reached everyone. Two hives that do so at once get the same page.
module PagesOnCycles {
  import opened Wrappers
  import opened Network
  import opened Echo
  import opened Pages

  // A triangle o, x, y of which y has one more neighbour, z.
  datatype Corner = Corner(o: Hive, x: Hive, y: Hive, z: Hive)

  ghost predicate IsCorner(g: Graph, c: Corner)
  {
    c.o in g.nbrs && c.x in g.nbrs && c.y in g.nbrs && c.o != c.x && c.o != c.y && c.x != c.y && c.z !in {c.o, c.x, c.y} &&
    g.nbrs[c.o] == {c.x, c.y} && g.nbrs[c.x] == {c.o, c.y} && g.nbrs[c.y] == {c.o, c.x, c.z}
  }

  // The page is not in use at the hive, which knows no other broadcast that asks for it.
  ghost predicate Unclaimed(s: System, m: Hive, b: Broadcast, page: int)
  {
    m in s.pages && (forall i :: 0 <= i < |s.pages[m]| ==> s.pages[m][i].id != page) &&
    forall b' :: b' in s.claims && b' != b && m in s.claims[b'].flow.recs ==> s.claims[b'].page != page
  }

  ghost predicate UnclaimedAround(s: System, c: Corner, b: Broadcast, page: int)
  {
    c.o in s.pages && Unclaimed(s, c.x, b, page) && Unclaimed(s, c.y, b, page)
  }

  // ---------------------------------------------------------------- runs, one event more

  ghost predicate Ran(g: Graph, s: System, es: seq<Event>, t: System)
  {
    Runs(g, s, es) && After(g, s, es) == t
  }

  lemma RanFirst(g: Graph, s: System, e: Event, es: seq<Event>, t: System)
    ensures Ran(g, s, [e] + es, t) <==> Enabled(g, s, e) && Ran(g, Step(g, s, e), es, t)
  {
    var all := [e] + es;
    assert all[0] == e && all[1..] == es;
  }

  lemma {:induction false} RunsJoin(g: Graph, s: System, es: seq<Event>, t: System, more: seq<Event>, u: System)
    requires Ran(g, s, es, t) && Ran(g, t, more, u)
    ensures Ran(g, s, es + more, u)
    decreases |es|
  {
    if es == [] {
      assert es + more == more;
    } else {
      var e, rest := es[0], es[1..];
      assert es == [e] + rest && es + more == [e] + (rest + more);
      RanFirst(g, s, e, rest, t);
      RunsJoin(g, Step(g, s, e), rest, t, more, u);
      RanFirst(g, s, e, rest + more, u);
    }
  }

  lemma OneMore(g: Graph, s: System, es: seq<Event>, t: System, e: Event)
    requires Ran(g, s, es, t) && Enabled(g, t, e)
    ensures Ran(g, s, es + [e], Step(g, t, e))
  {
    var u := Step(g, t, e);
    assert Ran(g, u, [], u);
    RanFirst(g, t, e, [], u);
    assert [e] + [] == [e];
    RunsJoin(g, s, es, t, [e], u);
  }

  // From s the broadcast has come this far, and nothing else has happened.
  ghost predicate Broadcasting(g: Graph, s: System, c: Corner, b: Broadcast, page: int, es: seq<Event>, t: System, f: Flow)
  {
    Ran(g, s, es, t) && b !in s.claims && t == System(s.pages, s.claims[b := Claim(c.o, page, s.clock, f)], t.clock, s.issued)
  }

  lemma Handled(g: Graph, s: System, c: Corner, b: Broadcast, page: int, es: seq<Event>, t: System, f: Flow, q: Hive, m: Hive, next: Flow)
    returns (es': seq<Event>, t': System)
    requires Broadcasting(g, s, c, b, page, es, t, f) && Unclaimed(s, m, b, page) && m in g.nbrs && (q, m) in f.requests
    requires next == React(f, q, m, OnPageRequest(g.nbrs[m], Known(f, m), q))
    ensures Broadcasting(g, s, c, b, page, es', t', next)
  {
    var e := HandleRequest(b, q, m);
    assert !Refused(t, m, b);
    OneMore(g, s, es, t, e);
    es', t' := es + [e], Step(g, t, e);
  }

  lemma Answered(g: Graph, s: System, c: Corner, b: Broadcast, page: int, es: seq<Event>, t: System, f: Flow, m: Hive, n: Hive, next: Flow)
    returns (es': seq<Event>, t': System)
    requires Broadcasting(g, s, c, b, page, es, t, f) && (m, n) in f.answers && next == Confirmed(f, m, n)
    requires n in next.recs && !(Done(next.recs[n]) && next.recs[n].parent == Self)
    ensures Broadcasting(g, s, c, b, page, es', t', next)
  {
    var e := HandleAnswer(b, m, n);
    OneMore(g, s, es, t, e);
    es', t' := es + [e], Step(g, t, e);
  }

  // ---------------------------------------------------------------- the broadcast from the corner

  function FlowAt(c: Corner, x: nat, y: nat, o: nat, requests: multiset<(Hive, Hive)>, answers: multiset<(Hive, Hive)>): Flow
  {
    Flow(map[c.o := Record(Self, o, 2), c.x := Record(From(c.o), x, 1), c.y := Record(From(c.o), y, 2)], requests, answers)
  }

  lemma TwoOf(h: Hive, k: Hive)
    requires h != k
    ensures |{h, k}| == 2
  {
    assert {h, k} - {h} == {k};
  }

  lemma SentTwo(h: Hive, k: Hive, l: Hive)
    requires k != l
    ensures Sent(h, {k, l}) == multiset{(h, k), (h, l)}
  {
    forall x, y ensures Sent(h, {k, l})[(x, y)] == multiset{(h, k), (h, l)}[(x, y)] {
      SentCount(h, {k, l}, x, y);
    }
  }

  lemma SentOne(h: Hive, k: Hive)
    ensures Sent(h, {k}) == multiset{(h, k)}
  {
    forall x, y ensures Sent(h, {k})[(x, y)] == multiset{(h, k)}[(x, y)] {
      SentCount(h, {k}, x, y);
    }
  }

  lemma SentNone(h: Hive)
    ensures Sent(h, {}) == multiset{}
  {
    forall x, y ensures Sent(h, {})[(x, y)] == 0 {
      SentCount(h, {}, x, y);
    }
  }

  // o asks x and y; x asks y.
  lemma ReachX(g: Graph, c: Corner) returns (f: Flow)
    requires IsCorner(g, c)
    ensures (c.o, c.x) in Start(g, c.o).requests
    ensures f == React(Start(g, c.o), c.o, c.x, OnPageRequest(g.nbrs[c.x], None, c.o))
    ensures f == Flow(map[c.o := Record(Self, 0, 2), c.x := Record(From(c.o), 0, 1)], multiset{(c.o, c.y), (c.x, c.y)}, multiset{})
    ensures Known(Start(g, c.o), c.x) == None
  {
    TwoOf(c.x, c.y);
    SentTwo(c.o, c.x, c.y);
    assert g.nbrs[c.x] - {c.o} == {c.y};
    SentOne(c.x, c.y);
    f := React(Start(g, c.o), c.o, c.x, OnPageRequest(g.nbrs[c.x], None, c.o));
  }

  // y asks x and z.
  lemma ReachY(g: Graph, c: Corner, f: Flow) returns (next: Flow)
    requires IsCorner(g, c)
    requires f == Flow(map[c.o := Record(Self, 0, 2), c.x := Record(From(c.o), 0, 1)], multiset{(c.o, c.y), (c.x, c.y)}, multiset{})
    ensures next == React(f, c.o, c.y, OnPageRequest(g.nbrs[c.y], Known(f, c.y), c.o))
    ensures next == FlowAt(c, 0, 0, 0, multiset{(c.x, c.y), (c.y, c.x), (c.y, c.z)}, multiset{})
  {
    assert g.nbrs[c.y] - {c.o} == {c.x, c.z};
    TwoOf(c.x, c.z);
    SentTwo(c.y, c.x, c.z);
    next := React(f, c.o, c.y, OnPageRequest(g.nbrs[c.y], Known(f, c.y), c.o));
  }

  // y has asked x already, and confirms.
  lemma AtY(g: Graph, c: Corner, f: Flow) returns (next: Flow)
    requires IsCorner(g, c) && f == FlowAt(c, 0, 0, 0, multiset{(c.x, c.y), (c.y, c.x), (c.y, c.z)}, multiset{})
    ensures next == React(f, c.x, c.y, OnPageRequest(g.nbrs[c.y], Known(f, c.y), c.x))
    ensures next == FlowAt(c, 0, 0, 0, multiset{(c.y, c.x), (c.y, c.z)}, multiset{(c.y, c.x)})
  {
    SentNone(c.y);
    next := React(f, c.x, c.y, OnPageRequest(g.nbrs[c.y], Known(f, c.y), c.x));
  }

  lemma XDone(c: Corner, f: Flow) returns (next: Flow)
    requires c.o != c.x && c.o != c.y && c.x != c.y
    requires f == FlowAt(c, 0, 0, 0, multiset{(c.y, c.x), (c.y, c.z)}, multiset{(c.y, c.x)})
    ensures next == Confirmed(f, c.y, c.x) == FlowAt(c, 1, 0, 0, multiset{(c.y, c.x), (c.y, c.z)}, multiset{(c.x, c.o)})
  {
    next := Confirmed(f, c.y, c.x);
  }

  // x has all its confirmations, and another neighbour asks: it confirms twice.
  lemma AtX(g: Graph, c: Corner, f: Flow) returns (next: Flow)
    requires IsCorner(g, c) && f == FlowAt(c, 1, 0, 0, multiset{(c.y, c.x), (c.y, c.z)}, multiset{(c.x, c.o)})
    ensures next == React(f, c.y, c.x, OnPageRequest(g.nbrs[c.x], Known(f, c.x), c.y))
    ensures next == FlowAt(c, 1, 0, 0, multiset{(c.y, c.z)}, multiset{(c.x, c.o), (c.x, c.y), (c.x, c.y)})
  {
    SentNone(c.x);
    next := React(f, c.y, c.x, OnPageRequest(g.nbrs[c.x], Known(f, c.x), c.y));
  }

  // y counts both, and is done without z.
  lemma YCounts(c: Corner, f: Flow) returns (next: Flow)
    requires c.o != c.x && c.o != c.y && c.x != c.y
    requires f == FlowAt(c, 1, 0, 0, multiset{(c.y, c.z)}, multiset{(c.x, c.o), (c.x, c.y), (c.x, c.y)})
    ensures next == Confirmed(f, c.x, c.y) == FlowAt(c, 1, 1, 0, multiset{(c.y, c.z)}, multiset{(c.x, c.o), (c.x, c.y)})
  {
    next := Confirmed(f, c.x, c.y);
  }

  lemma YDone(c: Corner, f: Flow) returns (next: Flow)
    requires c.o != c.x && c.o != c.y && c.x != c.y
    requires f == FlowAt(c, 1, 1, 0, multiset{(c.y, c.z)}, multiset{(c.x, c.o), (c.x, c.y)})
    ensures next == Confirmed(f, c.x, c.y) == FlowAt(c, 1, 2, 0, multiset{(c.y, c.z)}, multiset{(c.x, c.o), (c.y, c.o)})
  {
    next := Confirmed(f, c.x, c.y);
  }

  lemma OCounts(c: Corner, f: Flow) returns (next: Flow)
    requires c.o != c.x && c.o != c.y && c.x != c.y
    requires f == FlowAt(c, 1, 2, 0, multiset{(c.y, c.z)}, multiset{(c.x, c.o), (c.y, c.o)})
    ensures next == Confirmed(f, c.x, c.o) == FlowAt(c, 1, 2, 1, multiset{(c.y, c.z)}, multiset{(c.y, c.o)})
  {
    next := Confirmed(f, c.x, c.o);
  }

  lemma ODone(c: Corner, f: Flow) returns (next: Flow)
    requires c.o != c.x && c.o != c.y && c.x != c.y
    requires f == FlowAt(c, 1, 2, 1, multiset{(c.y, c.z)}, multiset{(c.y, c.o)})
    ensures next == Confirmed(f, c.y, c.o) == FlowAt(c, 1, 2, 2, multiset{(c.y, c.z)}, multiset{})
  {
    next := Confirmed(f, c.y, c.o);
  }

  // ---------------------------------------------------------------- its run

  lemma Begun(g: Graph, s: System, c: Corner, b: Broadcast, page: int) returns (es: seq<Event>, t: System)
    requires IsCorner(g, c) && 0 <= page < PAGE_LIMIT && b !in s.claims
    ensures Broadcasting(g, s, c, b, page, es, t, Start(g, c.o))
  {
    var e := RequestMemoryPage(c.o, page, b);
    TwoOf(c.x, c.y);
    OneMore(g, s, [], s, e);
    es, t := [] + [e], Step(g, s, e);
  }

  lemma Reached(g: Graph, s: System, c: Corner, b: Broadcast, page: int) returns (es: seq<Event>, t: System, f: Flow)
    requires IsCorner(g, c) && 0 <= page < PAGE_LIMIT && b !in s.claims && UnclaimedAround(s, c, b, page)
    ensures Broadcasting(g, s, c, b, page, es, t, f) && f == FlowAt(c, 0, 0, 0, multiset{(c.x, c.y), (c.y, c.x), (c.y, c.z)}, multiset{})
  {
    es, t := Begun(g, s, c, b, page);
    f := ReachX(g, c);
    es, t := Handled(g, s, c, b, page, es, t, Start(g, c.o), c.o, c.x, f);
    var f0 := f;
    f := ReachY(g, c, f0);
    es, t := Handled(g, s, c, b, page, es, t, f0, c.o, c.y, f);
  }

  lemma ConfirmedTwice(g: Graph, s: System, c: Corner, b: Broadcast, page: int, es0: seq<Event>, t0: System, f0: Flow)
    returns (es: seq<Event>, t: System, f: Flow)
    requires IsCorner(g, c) && UnclaimedAround(s, c, b, page) && Broadcasting(g, s, c, b, page, es0, t0, f0)
    requires f0 == FlowAt(c, 0, 0, 0, multiset{(c.x, c.y), (c.y, c.x), (c.y, c.z)}, multiset{})
    ensures Broadcasting(g, s, c, b, page, es, t, f)
    ensures f == FlowAt(c, 1, 0, 0, multiset{(c.y, c.z)}, multiset{(c.x, c.o), (c.x, c.y), (c.x, c.y)})
  {
    var f1 := AtY(g, c, f0);
    es, t := Handled(g, s, c, b, page, es0, t0, f0, c.x, c.y, f1);
    var f2 := XDone(c, f1);
    es, t := Answered(g, s, c, b, page, es, t, f1, c.y, c.x, f2);
    f := AtX(g, c, f2);
    es, t := Handled(g, s, c, b, page, es, t, f2, c.y, c.x, f);
  }

  lemma CountedTwice(g: Graph, s: System, c: Corner, b: Broadcast, page: int, es0: seq<Event>, t0: System, f0: Flow)
    returns (es: seq<Event>, t: System, f: Flow)
    requires IsCorner(g, c) && Broadcasting(g, s, c, b, page, es0, t0, f0)
    requires f0 == FlowAt(c, 1, 0, 0, multiset{(c.y, c.z)}, multiset{(c.x, c.o), (c.x, c.y), (c.x, c.y)})
    ensures Broadcasting(g, s, c, b, page, es, t, f) && f == FlowAt(c, 1, 2, 1, multiset{(c.y, c.z)}, multiset{(c.y, c.o)})
  {
    var f1 := YCounts(c, f0);
    es, t := Answered(g, s, c, b, page, es0, t0, f0, c.x, c.y, f1);
    var f2 := YDone(c, f1);
    es, t := Answered(g, s, c, b, page, es, t, f1, c.x, c.y, f2);
    f := OCounts(c, f2);
    es, t := Answered(g, s, c, b, page, es, t, f2, c.x, c.o, f);
  }

  // Finished, with the request to z still on its way and only the three hives of the
  // triangle taking part.
  ghost predicate Finished(s: System, t: System, c: Corner, b: Broadcast, page: int)
  {
    c.o in s.pages && t.pages == s.pages[c.o := s.pages[c.o] + [Page(page, 0)]] && b in t.claims && t.claims == s.claims[b := t.claims[b]] &&
    t.claims[b].page == page && Settled(t.claims[b]) && (c.y, c.z) in t.claims[b].flow.requests &&
    t.claims[b].flow.recs.Keys == {c.o, c.x, c.y}
  }

  lemma LastConfirmation(g: Graph, s: System, c: Corner, b: Broadcast, page: int, es0: seq<Event>, t0: System, f: Flow) returns (es: seq<Event>)
    requires IsCorner(g, c) && c.o in s.pages && Broadcasting(g, s, c, b, page, es0, t0, f)
    requires f == FlowAt(c, 1, 2, 1, multiset{(c.y, c.z)}, multiset{(c.y, c.o)})
    ensures Runs(g, s, es) && Finished(s, After(g, s, es), c, b, page)
  {
    var e := HandleAnswer(b, c.y, c.o);
    var next := ODone(c, f);
    OneMore(g, s, es0, t0, e);
    es := es0 + [e];
    assert Step(g, t0, e).claims == s.claims[b := Claim(c.o, page, s.clock, next)];
  }

  // From any corner, whatever goes on elsewhere, the page can be claimed without z.
  lemma CornerClaims(g: Graph, s: System, c: Corner, b: Broadcast, page: int) returns (es: seq<Event>)
    requires IsCorner(g, c) && 0 <= page < PAGE_LIMIT && b !in s.claims && UnclaimedAround(s, c, b, page)
    ensures Runs(g, s, es) && Finished(s, After(g, s, es), c, b, page)
  {
    var t, f;
    es, t, f := Reached(g, s, c, b, page);
    es, t, f := ConfirmedTwice(g, s, c, b, page, es, t, f);
    es, t, f := CountedTwice(g, s, c, b, page, es, t, f);
    es := LastConfirmation(g, s, c, b, page, es, t, f);
  }

  // ---------------------------------------------------------------- two corners

  // Two triangles with a bridge between them.
  function TwoTriangles(): Graph
  {
    Graph(map[0 := {1, 2}, 1 := {0, 2}, 2 := {0, 1, 3}, 3 := {2, 4, 5}, 4 := {3, 5}, 5 := {4, 3}])
  }

  lemma TrianglesConnected()
    ensures TwoTriangles().Valid() && TwoTriangles().Connected() && !TwoTriangles().Acyclic()
  {
    var g := TwoTriangles();
    forall s: set<Hive> | s != {} && g.ClosedUnderNeighbours(s) ensures s == g.nbrs.Keys {
      var h :| h in s;
      assert 2 in s && 3 in s by {
        assert h in g.nbrs;
      }
      assert g.nbrs[2] <= s && g.nbrs[3] <= s;
      assert g.nbrs[4] <= s;
    }
    assert g.IsCycle([0, 1, 2]);
  }

  // So acyclicity cannot be dropped: on this network any page can end up with two hives.
  lemma PageTwiceOnCycles(page: int) returns (g: Graph, es: seq<Event>)
    requires 0 <= page < PAGE_LIMIT
    ensures g.Valid() && g.Connected() && Runs(g, Initial(g), es)
    ensures var s := After(g, Initial(g), es);
            PageAt(s, 0, 0) && PageAt(s, 5, 0) && s.pages[0][0].id == page && s.pages[5][0].id == page
  {
    g := TwoTriangles();
    TrianglesConnected();
    var s := Initial(g);
    var first := CornerClaims(g, s, Corner(0, 1, 2, 3), 0, page);
    var t := After(g, s, first);
    SecondUnclaimed(s, t, page);
    var second := CornerClaims(g, t, Corner(5, 4, 3, 2), 1, page);
    es := first + second;
    RunsJoin(g, s, first, t, second, After(g, t, second));
  }

  lemma SecondUnclaimed(s: System, t: System, page: int)
    requires s == Initial(TwoTriangles()) && Finished(s, t, Corner(0, 1, 2, 3), 0, page)
    ensures 1 !in t.claims && UnclaimedAround(t, Corner(5, 4, 3, 2), 1, page)
    ensures t.pages[0] == [Page(page, 0)] && t.pages[5] == []
  {
    assert t.claims.Keys == {0};
  }
}
