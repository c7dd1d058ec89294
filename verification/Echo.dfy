// One broadcast of the flood/echo protocol that hives use to claim ids and
// memory pages: the tables of all hives for one broadcast id, and the
// messages in flight that carry it.
module Network {
  type Hive = int

  // A fixed network: the open connections of every hive.
  datatype Graph = Graph(nbrs: map<Hive, set<Hive>>) {
    ghost predicate Valid()
    {
      forall h :: h in nbrs ==>
        h !in nbrs[h] && forall k :: k in nbrs[h] ==> k in nbrs && h in nbrs[k]
    }

    ghost predicate ClosedUnderNeighbours(s: set<Hive>)
    {
      s <= nbrs.Keys && forall h :: h in s ==> nbrs[h] <= s
    }

    ghost predicate Connected()
    {
      forall s: set<Hive> {:trigger ClosedUnderNeighbours(s)} ::
        s != {} && ClosedUnderNeighbours(s) ==> s == nbrs.Keys
    }

    ghost predicate Adjacent(a: Hive, b: Hive)
    {
      a in nbrs && b in nbrs[a]
    }

    // A closed simple walk through at least three hives.
    ghost predicate IsCycle(c: seq<Hive>)
    {
      |c| >= 3 && IsSimplePath(c) && Adjacent(c[|c| - 1], c[0])
    }

    ghost predicate IsSimplePath(c: seq<Hive>)
    {
      (forall i, j :: 0 <= i < j < |c| ==> c[i] != c[j]) &&
      forall i :: 0 < i < |c| ==> Adjacent(c[i - 1], c[i])
    }

    ghost predicate Acyclic()
    {
      forall c: seq<Hive> {:trigger IsCycle(c)} :: !IsCycle(c)
    }
  }

  lemma SubsetCardinality<T>(a: set<T>, b: set<T>)
    requires a <= b
    ensures |a| <= |b|
    ensures |a| == |b| ==> a == b
  {
    assert b == a + (b - a);
    assert |b| == |a| + |b - a|;
  }
}

module Echo {
  import opened Wrappers
  import opened Network

  // local_redirect_id: -1 on the hive that started the broadcast.
  datatype Parent = Self | From(hive: Hive)

  // struct get_id_broadcasts_value / memory_page_request, without the id it carries.
  datatype Record = Record(parent: Parent, answered: nat, requested: nat)

  // Requests and confirmations in flight, as (sender, receiver) pairs.
  datatype Flow = Flow(recs: map<Hive, Record>, requests: multiset<(Hive, Hive)>, answers: multiset<(Hive, Hive)>)

  // What one message makes a hive do: its new record, the neighbours the request
  // is passed on to, and how many confirmations it returns to the sender.
  datatype Reaction = Reaction(rec: Record, forward: set<Hive>, confirms: nat)

  predicate Done(r: Record) { r.answered == r.requested }

  function Except(nbrs: set<Hive>, p: Parent): set<Hive>
  {
    if p.From? then nbrs - {p.hive} else nbrs
  }

  function NewRecord(nbrs: set<Hive>, p: Parent): Record
  {
    Record(p, 0, |Except(nbrs, p)|)
  }

  // The request each of `targets` is sent by h.
  function Sent(h: Hive, targets: set<Hive>): multiset<(Hive, Hive)>
  {
    multiset(set t | t in targets :: (h, t))
  }

  lemma SentCount(h: Hive, targets: set<Hive>, x: Hive, y: Hive)
    ensures Sent(h, targets)[(x, y)] == if x == h && y in targets then 1 else 0
  {
  }

  // The hives h asked, which must all confirm before h does.
  ghost function Targets(g: Graph, f: Flow, h: Hive): set<Hive>
    requires h in f.recs && h in g.nbrs
  {
    Except(g.nbrs[h], f.recs[h].parent)
  }

  // ---------------------------------------------------------------- steps

  function Start(g: Graph, h: Hive): Flow
    requires h in g.nbrs
  {
    Flow(map[h := NewRecord(g.nbrs[h], Self)], Sent(h, g.nbrs[h]), multiset{})
  }

  // The request q -> m is handled with the given reaction, or is refused.
  function Refuse(f: Flow, q: Hive, m: Hive): Flow
  {
    f.(requests := f.requests - multiset{(q, m)})
  }

  function React(f: Flow, q: Hive, m: Hive, r: Reaction): Flow
  {
    Flow(f.recs[m := r.rec],
         f.requests - multiset{(q, m)} + Sent(m, r.forward),
         f.answers[(m, q) := f.answers[(m, q)] + r.confirms])
  }

  function Known(f: Flow, h: Hive): Option<Record>
  {
    if h in f.recs then Some(f.recs[h]) else None
  }

  // API_REQUEST_ID: the reaction of a hive that does not refuse.
  function OnRequest(nbrs: set<Hive>, known: Option<Record>, q: Hive): Reaction
  {
    match known
    case None =>
      var rec := NewRecord(nbrs, From(q));
      Reaction(rec, Except(nbrs, From(q)), if rec.requested == 0 then 1 else 0)
    case Some(rec) =>
      if rec.parent != From(q) then Reaction(rec, {}, 1)
      else Reaction(rec, {}, if Done(rec) then 1 else 0)
  }

  // API_ANSWER_REQUEST_ID: one more confirmation; the last one is passed to the parent.
  function Confirmed(f: Flow, m: Hive, n: Hive): Flow
  {
    var f' := f.(answers := f.answers - multiset{(m, n)});
    if n !in f.recs then f'
    else
      var rec := f.recs[n].(answered := f.recs[n].answered + 1);
      var f'' := f'.(recs := f.recs[n := rec]);
      if Done(rec) && rec.parent.From? then
        f''.(answers := f''.answers + multiset{(n, rec.parent.hive)})
      else f''
  }

  // ---------------------------------------------------------------- invariant

  // Parents were recorded before their children.
  ghost predicate RankOk(f: Flow, origin: Hive, rank: map<Hive, nat>, h: Hive)
    requires h in f.recs
  {
    h in rank &&
    match f.recs[h].parent
    case Self => h == origin && rank[h] == 0
    case From(p) => p in f.recs && p in rank && rank[h] == rank[p] + 1
  }

  ghost predicate Ranked(f: Flow, origin: Hive, rank: map<Hive, nat>)
  {
    forall h :: h in f.recs ==> RankOk(f, origin, rank, h)
  }

  // The neighbours of n whose confirmation n has counted.
  ghost function Replied(g: Graph, f: Flow, n: Hive): set<Hive>
    requires n in f.recs && n in g.nbrs
  {
    set m | m in Targets(g, f, n) && HasReplied(f, m, n)
  }

  ghost predicate HasReplied(f: Flow, m: Hive, n: Hive)
  {
    m in f.recs && (n, m) !in f.requests && (m, n) !in f.answers && Answerable(f, m, n)
  }

  // m would confirm to n: n is not its parent, or all of its own requests are confirmed.
  ghost predicate Answerable(f: Flow, m: Hive, n: Hive)
  {
    m in f.recs && (f.recs[m].parent != From(n) || Done(f.recs[m]))
  }

  ghost predicate RequestOk(g: Graph, f: Flow, n: Hive, m: Hive)
  {
    f.requests[(n, m)] == 1 && n in f.recs && n in g.nbrs && m in Targets(g, f, n) && (m, n) !in f.answers &&
    (m in f.recs ==> f.recs[m].parent != From(n))
  }

  ghost predicate AnswerOk(g: Graph, f: Flow, m: Hive, n: Hive)
  {
    f.answers[(m, n)] == 1 && n in f.recs && n in g.nbrs && m in Targets(g, f, n) && Answerable(f, m, n)
  }

  ghost predicate MessagesOk(g: Graph, f: Flow)
  {
    (forall n, m :: (n, m) in f.requests ==> RequestOk(g, f, n, m)) &&
    (forall m, n :: (m, n) in f.answers ==> AnswerOk(g, f, m, n))
  }

  ghost predicate ParentOk(g: Graph, f: Flow, h: Hive)
    requires h in f.recs
  {
    h in g.nbrs &&
    match f.recs[h].parent
    case Self => true
    case From(p) => p in f.recs && p in g.nbrs && h in Targets(g, f, p)
  }

  ghost predicate CountsOk(g: Graph, f: Flow, h: Hive)
    requires h in f.recs && h in g.nbrs
  {
    f.recs[h].requested == |Targets(g, f, h)| && f.recs[h].answered <= |Replied(g, f, h)|
  }

  ghost predicate RecordsOk(g: Graph, f: Flow)
  {
    forall h :: h in f.recs ==> ParentOk(g, f, h) && CountsOk(g, f, h)
  }

  ghost predicate Inv(g: Graph, f: Flow, origin: Hive, rank: map<Hive, nat>)
  {
    origin in f.recs && f.recs[origin].parent == Self &&
    Ranked(f, origin, rank) && MessagesOk(g, f) && RecordsOk(g, f)
  }

  // ---------------------------------------------------------------- every step keeps it

  lemma StartInv(g: Graph, h: Hive)
    requires g.Valid() && h in g.nbrs
    ensures Inv(g, Start(g, h), h, map[h := 0])
  {
    var f := Start(g, h);
    forall n, m | (n, m) in f.requests ensures RequestOk(g, f, n, m) {
      SentCount(h, g.nbrs[h], n, m);
    }
  }

  // A larger set of confirmed neighbours keeps a record in order.
  lemma CountsKept(g: Graph, f: Flow, f': Flow, h: Hive)
    requires h in f.recs && h in f'.recs && h in g.nbrs && CountsOk(g, f, h)
    requires f'.recs[h] == f.recs[h]
    requires forall m :: m in Targets(g, f, h) && HasReplied(f, m, h) ==> HasReplied(f', m, h)
    ensures CountsOk(g, f', h)
  {
    assert Replied(g, f, h) <= Replied(g, f', h);
    SubsetCardinality(Replied(g, f, h), Replied(g, f', h));
  }

  // The request q -> m has left the network; answers from m to q may have been added.
  ghost predicate Consumed(f: Flow, f': Flow, q: Hive, m: Hive, answer: bool)
  {
    f'.recs == f.recs && f.requests[(q, m)] == 1 &&
    (forall x, y :: f'.requests[(x, y)] == if (x, y) == (q, m) then 0 else f.requests[(x, y)]) &&
    (forall x, y :: f'.answers[(x, y)] == f.answers[(x, y)] + if answer && (x, y) == (m, q) then 1 else 0)
  }

  lemma ConsumedInv(g: Graph, f: Flow, f': Flow, origin: Hive, rank: map<Hive, nat>, q: Hive, m: Hive, answer: bool)
    requires Inv(g, f, origin, rank) && Consumed(f, f', q, m, answer)
    requires answer ==> m in f.recs
    ensures Inv(g, f', origin, rank)
  {
    assert RequestOk(g, f, q, m);
    ConsumedMessages(g, f, f', q, m, answer);
    forall h | h in f'.recs ensures ParentOk(g, f', h) && CountsOk(g, f', h) {
      assert ParentOk(g, f, h);
      CountsKept(g, f, f', h);
    }
  }

  lemma ConsumedMessages(g: Graph, f: Flow, f': Flow, q: Hive, m: Hive, answer: bool)
    requires MessagesOk(g, f) && RequestOk(g, f, q, m) && Consumed(f, f', q, m, answer)
    requires answer ==> m in f.recs
    ensures MessagesOk(g, f')
  {
    forall x, y | (x, y) in f'.requests ensures RequestOk(g, f', x, y) {
      assert (x, y) in f.requests && RequestOk(g, f, x, y);
      assert f'.answers[(y, x)] == 0;
    }
    forall x, y | (x, y) in f'.answers ensures AnswerOk(g, f', x, y) {
      if (x, y) != (m, q) { assert (x, y) in f.answers && AnswerOk(g, f, x, y); }
    }
  }

  lemma RefuseInv(g: Graph, f: Flow, origin: Hive, rank: map<Hive, nat>, q: Hive, m: Hive)
    requires Inv(g, f, origin, rank) && (q, m) in f.requests
    ensures Inv(g, Refuse(f, q, m), origin, rank)
  {
    assert RequestOk(g, f, q, m);
    ConsumedInv(g, f, Refuse(f, q, m), origin, rank, q, m, false);
  }

  // A hive that already has a record, from another neighbour, just confirms.
  lemma RepeatInv(g: Graph, f: Flow, origin: Hive, rank: map<Hive, nat>, q: Hive, m: Hive)
    requires Inv(g, f, origin, rank) && (q, m) in f.requests && m in f.recs && m in g.nbrs
    ensures Inv(g, React(f, q, m, OnRequest(g.nbrs[m], Known(f, m), q)), origin, rank)
  {
    assert RequestOk(g, f, q, m);
    ReactRepeats(g, f, q, m);
    ConsumedInv(g, f, React(f, q, m, OnRequest(g.nbrs[m], Known(f, m), q)), origin, rank, q, m, true);
  }

  lemma ReactRepeats(g: Graph, f: Flow, q: Hive, m: Hive)
    requires RequestOk(g, f, q, m) && m in f.recs && m in g.nbrs
    ensures Consumed(f, React(f, q, m, OnRequest(g.nbrs[m], Known(f, m), q)), q, m, true)
  {
    var f' := React(f, q, m, OnRequest(g.nbrs[m], Known(f, m), q));
    assert f'.recs == f.recs;
    assert f'.requests == f.requests - multiset{(q, m)};
  }

  // m has accepted the request of q and passed it on.
  ghost predicate Accepted(g: Graph, f: Flow, f': Flow, q: Hive, m: Hive)
    requires m in g.nbrs
  {
    f'.recs == f.recs[m := NewRecord(g.nbrs[m], From(q))] &&
    (forall x, y :: f'.requests[(x, y)] ==
      if (x, y) == (q, m) then 0 else if x == m then (if y in g.nbrs[m] && y != q then 1 else 0) else f.requests[(x, y)]) &&
    (forall x, y :: f'.answers[(x, y)] ==
      if (x, y) == (m, q) then (if Done(f'.recs[m]) then 1 else 0) else f.answers[(x, y)])
  }

  lemma NoTraffic(g: Graph, f: Flow, m: Hive, x: Hive)
    requires MessagesOk(g, f) && m !in f.recs
    ensures f.requests[(m, x)] == 0 && f.answers[(m, x)] == 0 && f.answers[(x, m)] == 0
  {
    assert (m, x) in f.requests ==> RequestOk(g, f, m, x);
    assert (m, x) in f.answers ==> AnswerOk(g, f, m, x);
    assert (x, m) in f.answers ==> AnswerOk(g, f, x, m);
  }

  lemma ReactAccepts(g: Graph, f: Flow, q: Hive, m: Hive)
    requires g.Valid() && MessagesOk(g, f) && RequestOk(g, f, q, m) && m !in f.recs && m in g.nbrs
    ensures Accepted(g, f, React(f, q, m, OnRequest(g.nbrs[m], Known(f, m), q)), q, m)
  {
    var f' := React(f, q, m, OnRequest(g.nbrs[m], Known(f, m), q));
    assert f'.recs == f.recs[m := NewRecord(g.nbrs[m], From(q))];
    forall x, y
      ensures f'.requests[(x, y)] ==
        if (x, y) == (q, m) then 0 else if x == m then (if y in g.nbrs[m] && y != q then 1 else 0) else f.requests[(x, y)]
    {
      SentCount(m, g.nbrs[m] - {q}, x, y);
      NoTraffic(g, f, m, y);
    }
    NoTraffic(g, f, m, q);
    assert f'.answers == f.answers[(m, q) := if Done(f'.recs[m]) then 1 else 0];
  }

  lemma AcceptedMessages(g: Graph, f: Flow, f': Flow, q: Hive, m: Hive)
    requires g.Valid() && MessagesOk(g, f) && RequestOk(g, f, q, m) && m !in f.recs && m in g.nbrs
    requires RecordsOk(g, f) && Accepted(g, f, f', q, m)
    ensures MessagesOk(g, f')
  {
    forall x, y | (x, y) in f'.requests ensures RequestOk(g, f', x, y) {
      AcceptedRequest(g, f, f', q, m, x, y);
    }
    forall x, y | (x, y) in f'.answers ensures AnswerOk(g, f', x, y) {
      NoTraffic(g, f, m, x);
      NoTraffic(g, f, m, y);
      if (x, y) != (m, q) { assert (x, y) in f.answers && AnswerOk(g, f, x, y); }
    }
  }

  lemma AcceptedRequest(g: Graph, f: Flow, f': Flow, q: Hive, m: Hive, x: Hive, y: Hive)
    requires g.Valid() && MessagesOk(g, f) && RequestOk(g, f, q, m) && m !in f.recs && m in g.nbrs
    requires RecordsOk(g, f) && Accepted(g, f, f', q, m) && (x, y) in f'.requests
    ensures RequestOk(g, f', x, y)
  {
    NoTraffic(g, f, m, x);
    NoTraffic(g, f, m, y);
    if x == m {
      if y in f.recs { assert ParentOk(g, f, y); }
    } else {
      assert (x, y) in f.requests && RequestOk(g, f, x, y);
    }
  }

  lemma AcceptedRecords(g: Graph, f: Flow, f': Flow, q: Hive, m: Hive)
    requires g.Valid() && MessagesOk(g, f) && RequestOk(g, f, q, m) && m !in f.recs && m in g.nbrs
    requires RecordsOk(g, f) && Accepted(g, f, f', q, m)
    ensures RecordsOk(g, f')
  {
    forall h | h in f'.recs ensures ParentOk(g, f', h) && CountsOk(g, f', h) {
      if h != m {
        assert ParentOk(g, f, h);
        forall x | x in Targets(g, f, h) && HasReplied(f, x, h) ensures HasReplied(f', x, h) {
          assert x != m && h != m;
        }
        CountsKept(g, f, f', h);
      }
    }
  }

  lemma AcceptInv(g: Graph, f: Flow, origin: Hive, rank: map<Hive, nat>, q: Hive, m: Hive)
    requires g.Valid() && Inv(g, f, origin, rank) && (q, m) in f.requests && m !in f.recs && m in g.nbrs
    ensures q in rank
    ensures Inv(g, React(f, q, m, OnRequest(g.nbrs[m], Known(f, m), q)), origin, rank[m := rank[q] + 1])
  {
    assert RequestOk(g, f, q, m) && RankOk(f, origin, rank, q);
    var f' := React(f, q, m, OnRequest(g.nbrs[m], Known(f, m), q));
    ReactAccepts(g, f, q, m);
    AcceptedMessages(g, f, f', q, m);
    AcceptedRecords(g, f, f', q, m);
    AcceptedRank(g, f, f', origin, rank, q, m);
  }

  lemma AcceptedRank(g: Graph, f: Flow, f': Flow, origin: Hive, rank: map<Hive, nat>, q: Hive, m: Hive)
    requires Ranked(f, origin, rank) && q in f.recs && q in rank && m !in f.recs && m in g.nbrs && Accepted(g, f, f', q, m)
    ensures Ranked(f', origin, rank[m := rank[q] + 1])
  {
    var rank' := rank[m := rank[q] + 1];
    assert RankOk(f, origin, rank, q);
    forall h | h in f'.recs ensures RankOk(f', origin, rank', h) {
      if h != m {
        assert RankOk(f, origin, rank, h) && f'.recs[h] == f.recs[h];
      }
    }
  }

  // ---------------------------------------------------------------- confirmations

  // An unfinished hive is waiting for each confirmation still in flight to it.
  lemma AwaitsAnswer(g: Graph, f: Flow, m: Hive, n: Hive)
    requires AnswerOk(g, f, m, n) && CountsOk(g, f, n)
    ensures m !in Replied(g, f, n) && f.recs[n].answered < f.recs[n].requested
  {
    assert Replied(g, f, n) <= Targets(g, f, n) - {m};
    SubsetCardinality(Replied(g, f, n), Targets(g, f, n) - {m});
  }

  // n has counted the confirmation of m, and passed on its own if that was the last.
  ghost predicate Counted(f: Flow, f': Flow, m: Hive, n: Hive)
  {
    n in f.recs && f.recs[n].answered < f.recs[n].requested &&
    f'.recs == f.recs[n := f.recs[n].(answered := f.recs[n].answered + 1)] &&
    f'.requests == f.requests &&
    forall x, y :: f'.answers[(x, y)] ==
      if (x, y) == (m, n) then 0
      else if x == n && f.recs[n].parent == From(y) && Done(f'.recs[n]) then 1
      else f.answers[(x, y)]
  }

  lemma ConfirmedCounts(g: Graph, f: Flow, m: Hive, n: Hive)
    requires g.Valid() && MessagesOk(g, f) && AnswerOk(g, f, m, n) && CountsOk(g, f, n)
    ensures Counted(f, Confirmed(f, m, n), m, n)
  {
    AwaitsAnswer(g, f, m, n);
    forall y | f.recs[n].parent == From(y) ensures f.answers[(n, y)] == 0 {
      assert (n, y) in f.answers ==> AnswerOk(g, f, n, y);
    }
  }

  lemma CountedMessages(g: Graph, f: Flow, f': Flow, m: Hive, n: Hive)
    requires MessagesOk(g, f) && AnswerOk(g, f, m, n) && ParentOk(g, f, n) && Counted(f, f', m, n)
    ensures MessagesOk(g, f')
  {
    forall x, y | (x, y) in f'.requests ensures RequestOk(g, f', x, y) {
      assert RequestOk(g, f, x, y);
      assert f'.answers[(y, x)] == 0;
    }
    forall x, y | (x, y) in f'.answers ensures AnswerOk(g, f', x, y) {
      if (x, y) in f.answers { assert AnswerOk(g, f, x, y); }
    }
  }

  lemma CountedRecord(g: Graph, f: Flow, f': Flow, m: Hive, n: Hive, h: Hive)
    requires MessagesOk(g, f) && AnswerOk(g, f, m, n) && CountsOk(g, f, n) && Counted(f, f', m, n)
    requires h in f.recs && h in g.nbrs && CountsOk(g, f, h)
    ensures CountsOk(g, f', h)
  {
    AwaitsAnswer(g, f, m, n);
    assert (n, m) in f.requests ==> RequestOk(g, f, n, m);
    forall x | x in Targets(g, f, h) && (HasReplied(f, x, h) || (x, h) == (m, n)) ensures HasReplied(f', x, h) {
    }
    var before := Replied(g, f, h) + if h == n then {m} else {};
    assert before <= Replied(g, f', h);
    SubsetCardinality(before, Replied(g, f', h));
  }

  lemma CountedRecords(g: Graph, f: Flow, f': Flow, m: Hive, n: Hive)
    requires MessagesOk(g, f) && RecordsOk(g, f) && AnswerOk(g, f, m, n) && Counted(f, f', m, n)
    ensures RecordsOk(g, f')
  {
    forall h | h in f'.recs ensures ParentOk(g, f', h) && CountsOk(g, f', h) {
      assert ParentOk(g, f, h);
      CountedRecord(g, f, f', m, n, h);
    }
  }

  lemma ConfirmedInv(g: Graph, f: Flow, origin: Hive, rank: map<Hive, nat>, m: Hive, n: Hive)
    requires g.Valid() && Inv(g, f, origin, rank) && (m, n) in f.answers
    ensures Inv(g, Confirmed(f, m, n), origin, rank)
  {
    assert AnswerOk(g, f, m, n) && ParentOk(g, f, n);
    var f' := Confirmed(f, m, n);
    ConfirmedCounts(g, f, m, n);
    CountedMessages(g, f, f', m, n);
    CountedRecords(g, f, f', m, n);
    CountedRank(f, f', origin, rank, m, n);
  }

  lemma CountedRank(f: Flow, f': Flow, origin: Hive, rank: map<Hive, nat>, m: Hive, n: Hive)
    requires Ranked(f, origin, rank) && Counted(f, f', m, n) && origin in f.recs
    ensures Ranked(f', origin, rank) && f'.recs[origin].parent == f.recs[origin].parent
  {
    forall h | h in f'.recs ensures RankOk(f', origin, rank, h) {
      assert RankOk(f, origin, rank, h) && f'.recs[h].parent == f.recs[h].parent;
    }
  }

  // ---------------------------------------------------------------- safety

  lemma DoneMeansReplied(g: Graph, f: Flow, h: Hive)
    requires h in f.recs && h in g.nbrs && CountsOk(g, f, h) && Done(f.recs[h])
    ensures Replied(g, f, h) == Targets(g, f, h)
  {
    SubsetCardinality(Replied(g, f, h), Targets(g, f, h));
  }

  // Once the hive that started the broadcast has all its confirmations, so has
  // every hive that took part, down the tree of parents.
  lemma {:induction false} AllDone(g: Graph, f: Flow, origin: Hive, rank: map<Hive, nat>, h: Hive)
    requires Ranked(f, origin, rank) && RecordsOk(g, f) && origin in f.recs && Done(f.recs[origin]) && h in f.recs
    ensures Done(f.recs[h])
    decreases if h in rank then rank[h] else 0
  {
    assert RankOk(f, origin, rank, h);
    if h != origin {
      var p := f.recs[h].parent.hive;
      AllDone(g, f, origin, rank, p);
      assert ParentOk(g, f, h) && ParentOk(g, f, p);
      DoneMeansReplied(g, f, p);
      assert h in Replied(g, f, p);
    }
  }

  // Echo safety: a finished broadcast has been accepted by every hive.
  lemma FinishedReachesAll(g: Graph, f: Flow, origin: Hive, rank: map<Hive, nat>)
    requires g.Connected() && Inv(g, f, origin, rank) && Done(f.recs[origin])
    ensures f.recs.Keys == g.nbrs.Keys
  {
    forall h | h in f.recs ensures h in g.nbrs && g.nbrs[h] <= f.recs.Keys {
      AllDone(g, f, origin, rank, h);
      assert ParentOk(g, f, h);
      DoneMeansReplied(g, f, h);
      forall k | k in g.nbrs[h] ensures k in f.recs {
        if k in Targets(g, f, h) { assert k in Replied(g, f, h); }
      }
    }
    assert g.ClosedUnderNeighbours(f.recs.Keys);
  }

  // ---------------------------------------------------------------- acyclic networks

  ghost predicate Climbing(f: Flow, rank: map<Hive, nat>, c: seq<Hive>)
  {
    |c| >= 2 &&
    (forall i :: 0 <= i < |c| ==> c[i] in f.recs && c[i] in rank) &&
    (forall i :: 0 < i < |c| - 1 ==> rank[c[i]] >= rank[c[0]] && rank[c[i]] >= rank[c[|c| - 1]]) &&
    f.recs[c[0]].parent != From(c[1]) && f.recs[c[|c| - 1]].parent != From(c[|c| - 2])
  }

  lemma ExtendLeft(g: Graph, f: Flow, origin: Hive, rank: map<Hive, nat>, c: seq<Hive>, p: Hive)
    requires Climbing(f, rank, c) && g.IsSimplePath(c) && p !in c && g.Adjacent(p, c[0])
    requires p in f.recs && RankOk(f, origin, rank, p) && rank[c[|c| - 1]] <= rank[c[0]] == rank[p] + 1
    ensures Climbing(f, rank, [p] + c) && g.IsSimplePath([p] + c)
  {
    var d := [p] + c;
    forall i | 0 < i < |d| ensures g.Adjacent(d[i - 1], d[i]) {
      if i > 1 { assert g.Adjacent(c[i - 2], c[i - 1]); }
    }
    assert f.recs[p].parent != From(c[0]);
  }

  lemma ExtendRight(g: Graph, f: Flow, origin: Hive, rank: map<Hive, nat>, c: seq<Hive>, p: Hive)
    requires Climbing(f, rank, c) && g.IsSimplePath(c) && p !in c && g.Adjacent(c[|c| - 1], p)
    requires p in f.recs && RankOk(f, origin, rank, p) && rank[c[0]] <= rank[c[|c| - 1]] == rank[p] + 1
    ensures Climbing(f, rank, c + [p]) && g.IsSimplePath(c + [p])
  {
    var d := c + [p];
    forall i | 0 < i < |d| ensures g.Adjacent(d[i - 1], d[i]) {
      if i < |c| { assert g.Adjacent(c[i - 1], c[i]); }
    }
    assert f.recs[p].parent != From(c[|c| - 1]);
  }

  // The parent of the deeper end is the other end, if it is on the path at all.
  lemma MeetsAtEnd(f: Flow, rank: map<Hive, nat>, c: seq<Hive>, p: Hive, left: bool)
    requires Climbing(f, rank, c) && p in c
    requires var z := if left then c[0] else c[|c| - 1];
             f.recs[z].parent == From(p) && p in rank && rank[z] == rank[p] + 1
    ensures |c| >= 3 && p == if left then c[|c| - 1] else c[0]
  {
    var j :| 0 <= j < |c| && c[j] == p;
    assert j == 0 || j == |c| - 1;
  }

  lemma ClosesHere(g: Graph, f: Flow, rank: map<Hive, nat>, c: seq<Hive>, p: Hive, left: bool)
    requires g.IsSimplePath(c) && Climbing(f, rank, c) && p in c
    requires var z := if left then c[0] else c[|c| - 1];
             f.recs[z].parent == From(p) && p in rank && rank[z] == rank[p] + 1 && g.Adjacent(p, z) && g.Adjacent(z, p)
    ensures g.IsCycle(c)
  {
    MeetsAtEnd(f, rank, c, p, left);
  }

  // The end of the path that is deeper, and its parent.
  lemma DeeperEnd(g: Graph, f: Flow, origin: Hive, rank: map<Hive, nat>, c: seq<Hive>) returns (left: bool, p: Hive)
    requires g.Valid() && Ranked(f, origin, rank) && RecordsOk(g, f) && g.IsSimplePath(c) && Climbing(f, rank, c)
    ensures left == (rank[c[0]] >= rank[c[|c| - 1]]) && p in f.recs && RankOk(f, origin, rank, p)
    ensures var z := if left then c[0] else c[|c| - 1];
            f.recs[z].parent == From(p) && rank[z] == rank[p] + 1 && g.Adjacent(p, z) && g.Adjacent(z, p)
  {
    var x, y := c[0], c[|c| - 1];
    left := rank[x] >= rank[y];
    var z := if left then x else y;
    assert RankOk(f, origin, rank, x) && RankOk(f, origin, rank, y) && ParentOk(g, f, z);
    assert x != y;
    p := f.recs[z].parent.hive;
    assert RankOk(f, origin, rank, p);
  }

  // A path between two hives that took part, climbing to parents from its deeper
  // end, closes into a cycle.
  lemma {:induction false} ClimbingCloses(g: Graph, f: Flow, origin: Hive, rank: map<Hive, nat>, c: seq<Hive>)
    requires g.Valid() && Ranked(f, origin, rank) && RecordsOk(g, f)
    requires g.IsSimplePath(c) && Climbing(f, rank, c)
    ensures !g.Acyclic()
    decreases if Climbing(f, rank, c) then rank[c[0]] + rank[c[|c| - 1]] else 0
  {
    var left, p := DeeperEnd(g, f, origin, rank, c);
    if p in c {
      ClosesHere(g, f, rank, c, p, left);
    } else if left {
      var d := [p] + c;
      ExtendLeft(g, f, origin, rank, c, p);
      ClimbingCloses(g, f, origin, rank, d);
    } else {
      var d := c + [p];
      ExtendRight(g, f, origin, rank, c, p);
      ClimbingCloses(g, f, origin, rank, d);
    }
  }

  // On an acyclic network no request ever reaches a hive that already has a record.
  lemma RequestsReachNewHives(g: Graph, f: Flow, origin: Hive, rank: map<Hive, nat>, q: Hive, m: Hive)
    requires g.Valid() && g.Acyclic() && Inv(g, f, origin, rank) && (q, m) in f.requests
    ensures m !in f.recs
  {
    assert RequestOk(g, f, q, m);
    if m in f.recs {
      assert RankOk(f, origin, rank, q) && RankOk(f, origin, rank, m);
      PairClimbs(g, f, rank, q, m);
      ClimbingCloses(g, f, origin, rank, [q, m]);
    }
  }

  lemma PairClimbs(g: Graph, f: Flow, rank: map<Hive, nat>, q: Hive, m: Hive)
    requires g.Valid() && RequestOk(g, f, q, m) && m in f.recs && q in rank && m in rank
    ensures Climbing(f, rank, [q, m]) && g.IsSimplePath([q, m])
  {
    assert q != m && g.Adjacent(q, m);
  }
}
