// What a refusal does to a broadcast, and that a broadcast nobody refuses finishes.
module EchoProgress {
  import opened Network
  import opened Echo

  // ---------------------------------------------------------------- refusals leave a gap

  // The confirmation of m for h may still come: m has not been reached, waits for its
  // own neighbours, or its confirmation is on the way.
  ghost predicate Pending(f: Flow, m: Hive, h: Hive)
  {
    (h, m) in f.requests || (m, h) in f.answers || (m in f.recs && f.recs[m].parent == From(h) && !Done(f.recs[m]))
  }

  // The neighbours h asked that have confirmed, or never will.
  ghost function Closed(g: Graph, f: Flow, h: Hive): set<Hive>
    requires h in f.recs && h in g.nbrs
  {
    set m | m in Targets(g, f, h) && !Pending(f, m, h)
  }

  // Every neighbour that is no longer expected to confirm to h has done so.
  ghost predicate WholeAt(g: Graph, f: Flow, h: Hive)
    requires h in f.recs
  {
    h in g.nbrs && f.recs[h].answered == |Closed(g, f, h)|
  }

  // No request of the broadcast has been refused.
  ghost predicate Whole(g: Graph, f: Flow)
  {
    forall h :: h in f.recs ==> WholeAt(g, f, h)
  }

  lemma AnsweredAreClosed(g: Graph, f: Flow, h: Hive)
    requires h in f.recs && h in g.nbrs && CountsOk(g, f, h)
    ensures f.recs[h].answered <= |Closed(g, f, h)| <= f.recs[h].requested
  {
    assert Replied(g, f, h) <= Closed(g, f, h) <= Targets(g, f, h);
    SubsetCardinality(Replied(g, f, h), Closed(g, f, h));
    SubsetCardinality(Closed(g, f, h), Targets(g, f, h));
  }

  lemma StartWhole(g: Graph, h: Hive)
    requires h in g.nbrs
    ensures Whole(g, Start(g, h))
  {
    var f := Start(g, h);
    forall m | m in g.nbrs[h] ensures Pending(f, m, h) {
      SentCount(h, g.nbrs[h], h, m);
    }
    assert Closed(g, f, h) == {};
  }

  // A refused request is never made up for.
  lemma RefusedIsNotWhole(g: Graph, f: Flow, q: Hive, m: Hive)
    requires MessagesOk(g, f) && RecordsOk(g, f) && (q, m) in f.requests
    ensures !Whole(g, Refuse(f, q, m))
  {
    var f' := Refuse(f, q, m);
    assert RequestOk(g, f, q, m) && ParentOk(g, f, q);
    forall x | x in Closed(g, f, q) ensures x in Closed(g, f', q) {
    }
    assert m in Closed(g, f', q) && m !in Closed(g, f, q);
    AnsweredAreClosed(g, f, q);
    assert Closed(g, f, q) + {m} <= Closed(g, f', q);
    SubsetCardinality(Closed(g, f, q) + {m}, Closed(g, f', q));
    assert !WholeAt(g, f', q);
  }

  lemma SameClosed(g: Graph, f: Flow, f': Flow, h: Hive)
    requires h in f.recs && h in f'.recs && f'.recs[h] == f.recs[h] && h in g.nbrs
    requires forall m :: m in Targets(g, f, h) ==> (Pending(f', m, h) <==> Pending(f, m, h))
    ensures WholeAt(g, f', h) <==> WholeAt(g, f, h)
  {
    assert Closed(g, f', h) == Closed(g, f, h);
  }

  lemma RepeatWhole(g: Graph, f: Flow, q: Hive, m: Hive)
    requires MessagesOk(g, f) && RecordsOk(g, f) && (q, m) in f.requests && m in f.recs && m in g.nbrs
    ensures Whole(g, React(f, q, m, OnRequest(g.nbrs[m], Known(f, m), q))) <==> Whole(g, f)
  {
    assert RequestOk(g, f, q, m);
    ReactRepeats(g, f, q, m);
    var f' := React(f, q, m, OnRequest(g.nbrs[m], Known(f, m), q));
    forall h | h in f.recs ensures WholeAt(g, f', h) <==> WholeAt(g, f, h) {
      assert ParentOk(g, f, h);
      forall x | x in Targets(g, f, h) ensures Pending(f', x, h) <==> Pending(f, x, h) {
      }
      SameClosed(g, f, f', h);
    }
  }

  lemma AcceptedPending(g: Graph, f: Flow, f': Flow, q: Hive, m: Hive, x: Hive, h: Hive)
    requires MessagesOk(g, f) && RequestOk(g, f, q, m) && m !in f.recs && m in g.nbrs && Accepted(g, f, f', q, m)
    requires h in f.recs
    ensures Pending(f', x, h) <==> Pending(f, x, h)
  {
    NoTraffic(g, f, m, h);
    NoTraffic(g, f, m, x);
  }

  lemma AcceptWhole(g: Graph, f: Flow, q: Hive, m: Hive)
    requires g.Valid() && MessagesOk(g, f) && RecordsOk(g, f) && (q, m) in f.requests && m !in f.recs && m in g.nbrs
    ensures Whole(g, React(f, q, m, OnRequest(g.nbrs[m], Known(f, m), q))) <==> Whole(g, f)
  {
    assert RequestOk(g, f, q, m);
    ReactAccepts(g, f, q, m);
    var f' := React(f, q, m, OnRequest(g.nbrs[m], Known(f, m), q));
    forall x | x in Targets(g, f', m) ensures Pending(f', x, m) {
      assert f'.requests[(m, x)] == 1;
    }
    assert Closed(g, f', m) == {};
    assert WholeAt(g, f', m);
    forall h | h in f.recs ensures WholeAt(g, f', h) <==> WholeAt(g, f, h) {
      assert ParentOk(g, f, h);
      forall x | x in Targets(g, f, h) ensures Pending(f', x, h) <==> Pending(f, x, h) {
        AcceptedPending(g, f, f', q, m, x, h);
      }
      SameClosed(g, f, f', h);
    }
  }

  lemma CountedPending(g: Graph, f: Flow, f': Flow, m: Hive, n: Hive, x: Hive, h: Hive)
    requires MessagesOk(g, f) && AnswerOk(g, f, m, n) && Counted(f, f', m, n) && h in f.recs
    ensures Pending(f', x, h) <==> Pending(f, x, h) && (x, h) != (m, n)
  {
    assert (n, m) in f.requests ==> RequestOk(g, f, n, m);
  }

  lemma CountedWholeAt(g: Graph, f: Flow, f': Flow, m: Hive, n: Hive, h: Hive)
    requires MessagesOk(g, f) && AnswerOk(g, f, m, n) && Counted(f, f', m, n) && h in f.recs && h in g.nbrs
    ensures WholeAt(g, f', h) <==> WholeAt(g, f, h)
  {
    forall x ensures Pending(f', x, h) <==> Pending(f, x, h) && (x, h) != (m, n) {
      CountedPending(g, f, f', m, n, x, h);
    }
    if h == n {
      assert Closed(g, f', h) == Closed(g, f, h) + {m} && m !in Closed(g, f, h);
    } else {
      SameClosed(g, f, f', h);
    }
  }

  lemma ConfirmedWhole(g: Graph, f: Flow, m: Hive, n: Hive)
    requires g.Valid() && MessagesOk(g, f) && RecordsOk(g, f) && (m, n) in f.answers
    ensures Whole(g, Confirmed(f, m, n)) <==> Whole(g, f)
  {
    assert AnswerOk(g, f, m, n) && ParentOk(g, f, n);
    ConfirmedCounts(g, f, m, n);
    var f' := Confirmed(f, m, n);
    forall h | h in f.recs ensures WholeAt(g, f', h) <==> WholeAt(g, f, h) {
      assert ParentOk(g, f, h);
      CountedWholeAt(g, f, f', m, n, h);
    }
  }

  // ---------------------------------------------------------------- finished means nobody refused

  lemma FinishedIsWhole(g: Graph, f: Flow, origin: Hive, rank: map<Hive, nat>)
    requires Inv(g, f, origin, rank) && Done(f.recs[origin])
    ensures Whole(g, f)
  {
    forall h | h in f.recs ensures WholeAt(g, f, h) {
      assert ParentOk(g, f, h) && CountsOk(g, f, h);
      AllDone(g, f, origin, rank, h);
      AnsweredAreClosed(g, f, h);
    }
  }

  // ---------------------------------------------------------------- nobody refuses, so it finishes

  // The deepest of some hives.
  lemma {:induction false} Deepest(s: set<Hive>, rank: map<Hive, nat>) returns (d: Hive)
    requires s != {} && s <= rank.Keys
    ensures d in s && forall h :: h in s ==> rank[h] <= rank[d]
    decreases s
  {
    assert (forall v :: v !in s) ==> s == {};
    var h :| h in s;
    var rest := s - {h};
    d := h;
    if rest != {} {
      var e := Deepest(rest, rank);
      d := if rank[h] <= rank[e] then e else h;
    }
    forall k | k in s ensures rank[k] <= rank[d] {
      assert k == h || k in rest;
    }
  }

  lemma OneMore(a: set<Hive>, b: set<Hive>) returns (x: Hive)
    requires a <= b && |a| < |b|
    ensures x in b && x !in a
  {
    assert b == a + (b - a);
    var rest := b - a;
    assert (forall y :: y !in rest) ==> rest == {};
    x :| x in rest;
  }

  // With nothing in flight, who waits does so for a hive below that waits too.
  lemma WaitsBelow(g: Graph, f: Flow, origin: Hive, rank: map<Hive, nat>, h: Hive) returns (m: Hive)
    requires Inv(g, f, origin, rank) && Whole(g, f) && f.requests == multiset{} && f.answers == multiset{}
    requires h in f.recs && !Done(f.recs[h])
    ensures m in f.recs && !Done(f.recs[m]) && m in rank && h in rank && rank[m] == rank[h] + 1
  {
    assert WholeAt(g, f, h) && CountsOk(g, f, h);
    AnsweredAreClosed(g, f, h);
    m := OneMore(Closed(g, f, h), Targets(g, f, h));
    assert Pending(f, m, h);
    assert RankOk(f, origin, rank, m) && RankOk(f, origin, rank, h);
  }

  // So a broadcast with nothing in flight, and nothing refused, is finished.
  lemma QuietIsFinished(g: Graph, f: Flow, origin: Hive, rank: map<Hive, nat>)
    requires Inv(g, f, origin, rank) && Whole(g, f) && f.requests == multiset{} && f.answers == multiset{}
    ensures Done(f.recs[origin])
  {
    if !Done(f.recs[origin]) {
      var waiting := set h | h in f.recs && !Done(f.recs[h]);
      forall h | h in waiting ensures h in rank { assert RankOk(f, origin, rank, h); }
      assert origin in waiting;
      var d := Deepest(waiting, rank);
      var m := WaitsBelow(g, f, origin, rank, d);
    }
  }
}
