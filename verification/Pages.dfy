// Claiming memory pages in the 0.2 runtime, and handing out object ids from
// them: the whole network, every handler one atomic step, any number of page
// requests running at once.
module Pages {
  import opened Wrappers
  import opened Network
  import opened Echo

  type Broadcast = int

  const OBJECTS_PER_PAGE := 0x100_0000
  const PAGE_LIMIT := 0x100_0000_0000

  // struct memory_page
  datatype Page = Page(id: int, next: nat)

  // One broadcast: the page it asks for, when it started, its records and messages.
  datatype Claim = Claim(origin: Hive, page: int, started: nat, flow: Flow)

  // The page table of every hive, everything about each broadcast id, the
  // number of broadcasts so far, and every object id handed out so far.
  datatype System = System(pages: map<Hive, seq<Page>>, claims: map<Broadcast, Claim>, clock: nat, issued: seq<int>)

  datatype Event =
    | RequestMemoryPage(hive: Hive, page: int, broadcast: Broadcast)
    | HandleRequest(broadcast: Broadcast, sender: Hive, receiver: Hive)
    | HandleAnswer(broadcast: Broadcast, sender: Hive, receiver: Hive)
    | NewObject(hive: Hive)

  function Initial(g: Graph): System
  {
    System(map h | h in g.nbrs :: [], map[], 0, [])
  }

  // ---------------------------------------------------------------- object ids

  // (page << 24) | slot, as a signed 64-bit number.
  function ObjectId(page: int, slot: int): int
  {
    var id := page * OBJECTS_PER_PAGE + slot;
    if id < 0x8000_0000_0000_0000 then id else id - 0x1_0000_0000_0000_0000
  }

  lemma ObjectIdInjective(p: int, t: int, p': int, t': int)
    requires 0 <= p < PAGE_LIMIT && 0 <= t < OBJECTS_PER_PAGE && 0 <= p' < PAGE_LIMIT && 0 <= t' < OBJECTS_PER_PAGE
    requires ObjectId(p, t) == ObjectId(p', t')
    ensures p == p' && t == t'
  {
  }

  // The slot is in the low 24 bits, the page above them.
  lemma ObjectIdHolds(p: int, t: int)
    requires 0 <= p < 0x100_0000_0000 && 0 <= t < 0x100_0000
    ensures -0x8000_0000_0000_0000 <= ObjectId(p, t) < 0x8000_0000_0000_0000
    ensures var bits := if ObjectId(p, t) < 0 then ObjectId(p, t) + 0x1_0000_0000_0000_0000 else ObjectId(p, t);
            bits / 0x100_0000 == p && bits % 0x100_0000 == t
  {
    Parts(p, t, p * OBJECTS_PER_PAGE + t);
  }

  lemma Parts(p: int, t: int, id: int)
    requires id == p * 0x100_0000 + t && 0 <= t < 0x100_0000
    ensures id / 0x100_0000 == p && id % 0x100_0000 == t
  {
  }

  // The first page with a free slot.
  function FirstFree(ps: seq<Page>): (i: nat)
    ensures i <= |ps|
    ensures i < |ps| ==> ps[i].next < OBJECTS_PER_PAGE
    ensures forall j :: 0 <= j < i ==> ps[j].next >= OBJECTS_PER_PAGE
  {
    if ps == [] then 0 else if ps[0].next < OBJECTS_PER_PAGE then 0 else 1 + FirstFree(ps[1..])
  }

  // The allocator of one hive, over its page table.
  class PageTable {
    var pages: seq<Page>

    method GetNewObjectId() returns (found: bool, result: int)
      modifies this
      ensures found == (FirstFree(old(pages)) < |old(pages)|)
      ensures found ==> var i := FirstFree(old(pages));
                        result == ObjectId(old(pages)[i].id, old(pages)[i].next) &&
                        pages == Taken(old(pages), i)
      ensures !found ==> result == 0 && pages == old(pages)
    {
      found, result := false, 0;
      var i := 0;
      while i < |pages|
        invariant i <= FirstFree(pages) && i <= |pages| && pages == old(pages) && !found && result == 0
      {
        if pages[i].next < OBJECTS_PER_PAGE {
          var t := pages[i].next;
          pages := Taken(pages, i);
          found, result := true, ObjectId(pages[i].id, t);
          break;
        }
        i := i + 1;
      }
    }
  }

  function Taken(ps: seq<Page>, i: nat): (r: seq<Page>)
    requires i < |ps|
    ensures |r| == |ps|
  {
    ps[i := ps[i].(next := ps[i].next + 1)]
  }

  // ---------------------------------------------------------------- steps

  // API_REQUEST_MEM_PAGE, once not refused: create the record if there is none;
  // confirm if it came from another neighbour; confirm if nothing is awaited.
  function OnPageRequest(nbrs: set<Hive>, known: Option<Record>, q: Hive): Reaction
  {
    var rec := match known case None => NewRecord(nbrs, From(q)) case Some(r) => r;
    Reaction(rec,
             if known == None then Except(nbrs, From(q)) else {},
             (if known.Some? && rec.parent != From(q) then 1 else 0) + if Done(rec) then 1 else 0)
  }

  // The page is in use here, or some other broadcast known here asks for it.
  ghost predicate Refused(s: System, m: Hive, b: Broadcast)
    requires b in s.claims
  {
    (m in s.pages && exists i :: 0 <= i < |s.pages[m]| && s.pages[m][i].id == s.claims[b].page) ||
    exists b' :: b' in s.claims && b' != b && m in s.claims[b'].flow.recs && s.claims[b'].page == s.claims[b].page
  }

  ghost predicate Enabled(g: Graph, s: System, e: Event)
  {
    match e
    case RequestMemoryPage(h, page, b) => h in g.nbrs && 0 <= page < PAGE_LIMIT && b !in s.claims
    case HandleRequest(b, q, m) => b in s.claims && m in g.nbrs && (q, m) in s.claims[b].flow.requests
    case HandleAnswer(b, m, n) => b in s.claims && (m, n) in s.claims[b].flow.answers
    case NewObject(h) => h in s.pages && FirstFree(s.pages[h]) < |s.pages[h]|
  }

  ghost function NewClaim(g: Graph, s: System, e: Event): Claim
    requires Enabled(g, s, e) && !e.NewObject?
  {
    match e
    case RequestMemoryPage(h, page, b) => Claim(h, page, s.clock, Start(g, h))
    case HandleRequest(b, q, m) =>
      var c := s.claims[b];
      c.(flow := if Refused(s, m, b) then Refuse(c.flow, q, m)
                 else React(c.flow, q, m, OnPageRequest(g.nbrs[m], Known(c.flow, m), q)))
    case HandleAnswer(b, m, n) =>
      var c := s.claims[b];
      c.(flow := Confirmed(c.flow, m, n))
  }

  // The hive that gets its last confirmation in this step, if any.
  ghost function Confirming(g: Graph, s: System, e: Event): Option<Hive>
    requires Enabled(g, s, e) && !e.NewObject?
  {
    match e
    case RequestMemoryPage(h, _, b) =>
      if NewClaim(g, s, e).flow.recs[h].requested == 0 then Some(h) else None
    case HandleRequest(_, _, _) => None
    case HandleAnswer(b, m, n) =>
      var recs := NewClaim(g, s, e).flow.recs;
      if n in recs && Done(recs[n]) && recs[n].parent == Self then Some(n) else None
  }

  function ConfirmPage(pages: map<Hive, seq<Page>>, h: Hive, page: int): map<Hive, seq<Page>>
  {
    if h in pages then pages[h := pages[h] + [Page(page, 0)]] else pages
  }

  ghost function Step(g: Graph, s: System, e: Event): System
    requires Enabled(g, s, e)
  {
    if e.NewObject? then
      var ps := s.pages[e.hive];
      var i := FirstFree(ps);
      s.(pages := s.pages[e.hive := Taken(ps, i)], issued := s.issued + [ObjectId(ps[i].id, ps[i].next)])
    else
      var c := NewClaim(g, s, e);
      System(match Confirming(g, s, e)
             case Some(h) => ConfirmPage(s.pages, h, c.page)
             case None => s.pages,
             s.claims[e.broadcast := c],
             s.clock + 1,
             s.issued)
  }

  ghost predicate Runs(g: Graph, s: System, es: seq<Event>)
    decreases |es|
  {
    es == [] || (Enabled(g, s, es[0]) && Runs(g, Step(g, s, es[0]), es[1..]))
  }

  ghost function After(g: Graph, s: System, es: seq<Event>): System
    requires Runs(g, s, es)
    decreases |es|
  {
    if es == [] then s else After(g, Step(g, s, es[0]), es[1..])
  }

  // A network of two or more hives without cycles.
  ghost predicate Tree(g: Graph)
  {
    g.Valid() && g.Connected() && g.Acyclic() && exists h, k :: h in g.nbrs && k in g.nbrs && h != k
  }

  // ---------------------------------------------------------------- the invariant

  predicate Settled(c: Claim)
  {
    c.origin in c.flow.recs && Done(c.flow.recs[c.origin])
  }

  ghost predicate ClaimOk(g: Graph, s: System, c: Claim)
  {
    c.origin in g.nbrs && 0 <= c.page < PAGE_LIMIT && c.started < s.clock && exists rank :: Inv(g, c.flow, c.origin, rank)
  }

  // Two broadcasts for one page meet only at a hive that started the later of them.
  ghost predicate MeetOk(c: Claim, d: Claim, h: Hive)
  {
    c.page == d.page && h in c.flow.recs && h in d.flow.recs ==>
      c.started != d.started && (c.started > d.started ==> c.origin == h) && (c.started < d.started ==> d.origin == h)
  }

  ghost predicate ClaimsOk(g: Graph, s: System)
  {
    (forall b :: b in s.claims ==> ClaimOk(g, s, s.claims[b])) &&
    (forall b, b', h :: b in s.claims && b' in s.claims && b != b' ==> MeetOk(s.claims[b], s.claims[b'], h))
  }

  // Every page in use was claimed by a settled broadcast of the hive that has it.
  ghost predicate Owned(s: System, h: Hive, page: int)
  {
    exists b :: b in s.claims && Settled(s.claims[b]) && s.claims[b].origin == h && s.claims[b].page == page
  }

  ghost predicate PageAt(s: System, h: Hive, i: int)
  {
    h in s.pages && 0 <= i < |s.pages[h]|
  }

  ghost predicate PagesOk(g: Graph, s: System)
  {
    s.pages.Keys == g.nbrs.Keys &&
    (forall h, i :: PageAt(s, h, i) ==> Owned(s, h, s.pages[h][i].id)) &&
    (forall h, i, h', i' :: PageAt(s, h, i) && PageAt(s, h', i') && s.pages[h][i].id == s.pages[h'][i'].id ==> h == h' && i == i')
  }

  // The object id x is slot t of the i-th page of hive h, already handed out.
  ghost predicate IssuedAt(s: System, x: int, h: Hive, i: int, t: int)
  {
    PageAt(s, h, i) && 0 <= t < OBJECTS_PER_PAGE && t < s.pages[h][i].next && x == ObjectId(s.pages[h][i].id, t)
  }

  ghost predicate IssuedOk(s: System)
  {
    forall x :: x in s.issued ==> exists h, i, t :: IssuedAt(s, x, h, i, t)
  }

  ghost predicate SystemOk(g: Graph, s: System)
  {
    ClaimsOk(g, s) && PagesOk(g, s) && IssuedOk(s)
  }

  // ---------------------------------------------------------------- claims

  lemma NewHiveReaction(nbrs: set<Hive>, q: Hive)
    ensures OnPageRequest(nbrs, None, q) == OnRequest(nbrs, None, q)
  {
  }

  lemma HandledClaimOk(g: Graph, s: System, b: Broadcast, q: Hive, m: Hive)
    requires Tree(g) && Enabled(g, s, HandleRequest(b, q, m)) && ClaimOk(g, s, s.claims[b])
    ensures ClaimOk(g, s, NewClaim(g, s, HandleRequest(b, q, m)))
    ensures m !in s.claims[b].flow.recs
  {
    var c := s.claims[b];
    var rank :| Inv(g, c.flow, c.origin, rank);
    RequestsReachNewHives(g, c.flow, c.origin, rank, q, m);
    HandledFlow(g, s, b, q, m);
    if Refused(s, m, b) {
      RefuseInv(g, c.flow, c.origin, rank, q, m);
    } else {
      AcceptInv(g, c.flow, c.origin, rank, q, m);
    }
  }

  lemma HandledFlow(g: Graph, s: System, b: Broadcast, q: Hive, m: Hive)
    requires Enabled(g, s, HandleRequest(b, q, m)) && m !in s.claims[b].flow.recs
    ensures var c, c' := s.claims[b], NewClaim(g, s, HandleRequest(b, q, m));
            c'.origin == c.origin && c'.page == c.page && c'.started == c.started &&
            c'.flow == if Refused(s, m, b) then Refuse(c.flow, q, m)
                       else React(c.flow, q, m, OnRequest(g.nbrs[m], Known(c.flow, m), q))
  {
    NewHiveReaction(g.nbrs[m], q);
  }

  lemma NewClaimOk(g: Graph, s: System, e: Event)
    requires Tree(g) && ClaimsOk(g, s) && Enabled(g, s, e) && !e.NewObject?
    ensures ClaimOk(g, Step(g, s, e), NewClaim(g, s, e))
  {
    match e
    case RequestMemoryPage(h, _, _) =>
      StartInv(g, h);
    case HandleRequest(b, q, m) =>
      assert ClaimOk(g, s, s.claims[b]);
      HandledClaimOk(g, s, b, q, m);
    case HandleAnswer(b, m, n) =>
      var c := s.claims[b];
      assert ClaimOk(g, s, c);
      var rank :| Inv(g, c.flow, c.origin, rank);
      ConfirmedInv(g, c.flow, c.origin, rank, m, n);
  }

  lemma NewClaimMeets(g: Graph, s: System, e: Event, b': Broadcast, h: Hive)
    requires Tree(g) && ClaimsOk(g, s) && Enabled(g, s, e) && !e.NewObject?
    requires b' in s.claims && b' != e.broadcast
    ensures MeetOk(NewClaim(g, s, e), s.claims[b'], h)
  {
    var d := s.claims[b'];
    assert ClaimOk(g, s, d);
    match e
    case RequestMemoryPage(_, _, _) =>
    case HandleRequest(b, q, m) =>
      assert MeetOk(s.claims[b], d, h);
      HandledRecords(g, s, b, q, m);
    case HandleAnswer(b, m, n) =>
      assert MeetOk(s.claims[b], d, h);
      ConfirmedKeys(s.claims[b].flow, m, n);
  }

  lemma HandledRecords(g: Graph, s: System, b: Broadcast, q: Hive, m: Hive)
    requires Enabled(g, s, HandleRequest(b, q, m))
    ensures var c, c' := s.claims[b], NewClaim(g, s, HandleRequest(b, q, m));
            c'.flow.recs.Keys == c.flow.recs.Keys + if Refused(s, m, b) then {} else {m}
    ensures var c, c' := s.claims[b], NewClaim(g, s, HandleRequest(b, q, m));
            c'.origin == c.origin && c'.page == c.page && c'.started == c.started
    ensures forall b' :: b' in s.claims && b' != b && m in s.claims[b'].flow.recs && s.claims[b'].page == s.claims[b].page ==> Refused(s, m, b)
  {
  }

  lemma ConfirmedKeys(f: Flow, m: Hive, n: Hive)
    ensures Confirmed(f, m, n).recs.Keys == f.recs.Keys
  {
  }

  lemma StepKeepsClaims(g: Graph, s: System, e: Event)
    requires Tree(g) && ClaimsOk(g, s) && Enabled(g, s, e)
    ensures ClaimsOk(g, Step(g, s, e))
  {
    var s' := Step(g, s, e);
    forall b | b in s'.claims ensures ClaimOk(g, s', s'.claims[b]) {
      StepKeepsClaim(g, s, e, b);
    }
    forall b, b', h | b in s'.claims && b' in s'.claims && b != b' ensures MeetOk(s'.claims[b], s'.claims[b'], h) {
      StepKeepsMeeting(g, s, e, b, b', h);
    }
  }

  lemma StepKeepsClaim(g: Graph, s: System, e: Event, b: Broadcast)
    requires Tree(g) && ClaimsOk(g, s) && Enabled(g, s, e) && b in Step(g, s, e).claims
    ensures ClaimOk(g, Step(g, s, e), Step(g, s, e).claims[b])
  {
    if !e.NewObject? && b == e.broadcast {
      NewClaimOk(g, s, e);
    } else {
      assert ClaimOk(g, s, s.claims[b]);
    }
  }

  lemma StepKeepsMeeting(g: Graph, s: System, e: Event, b: Broadcast, b': Broadcast, h: Hive)
    requires Tree(g) && ClaimsOk(g, s) && Enabled(g, s, e) && b != b'
    requires b in Step(g, s, e).claims && b' in Step(g, s, e).claims
    ensures MeetOk(Step(g, s, e).claims[b], Step(g, s, e).claims[b'], h)
  {
    if !e.NewObject? && b == e.broadcast {
      NewClaimMeets(g, s, e, b', h);
    } else if !e.NewObject? && b' == e.broadcast {
      NewClaimMeets(g, s, e, b, h);
    } else {
      assert MeetOk(s.claims[b], s.claims[b'], h);
    }
  }

  // Two broadcasts for one page are never both settled: they would meet at every
  // hive, but only the hive that started the later one may have both.
  lemma OneSettledPerPage(g: Graph, s: System, b: Broadcast, b': Broadcast)
    requires Tree(g) && ClaimsOk(g, s) && b in s.claims && b' in s.claims && b != b'
    requires Settled(s.claims[b]) && Settled(s.claims[b'])
    ensures s.claims[b].page != s.claims[b'].page
  {
    var c, d := s.claims[b], s.claims[b'];
    SettledReachesAll(g, s, c);
    SettledReachesAll(g, s, d);
    var h, k :| h in g.nbrs && k in g.nbrs && h != k;
    assert MeetOk(c, d, h) && MeetOk(c, d, k);
  }

  lemma SettledReachesAll(g: Graph, s: System, c: Claim)
    requires g.Connected() && ClaimOk(g, s, c) && Settled(c)
    ensures c.flow.recs.Keys == g.nbrs.Keys
  {
    var rank :| Inv(g, c.flow, c.origin, rank);
    FinishedReachesAll(g, c.flow, c.origin, rank);
  }

  // ---------------------------------------------------------------- page tables

  lemma StaysSettled(g: Graph, s: System, e: Event, b: Broadcast)
    requires Tree(g) && ClaimsOk(g, s) && Enabled(g, s, e) && b in s.claims && Settled(s.claims[b])
    ensures var s' := Step(g, s, e);
            b in s'.claims && Settled(s'.claims[b]) && s'.claims[b].origin == s.claims[b].origin && s'.claims[b].page == s.claims[b].page
  {
    var c := s.claims[b];
    assert ClaimOk(g, s, c);
    if !e.NewObject? && e.broadcast == b {
      match e
      case HandleRequest(_, q, m) =>
        HandledClaimOk(g, s, b, q, m);
        OtherRecordsKept(g, s, b, q, m, c.origin);
      case HandleAnswer(_, m, n) =>
        NotYetSettled(g, s, b, m, n);
        ConfirmedOthers(c.flow, m, n, c.origin);
    }
  }

  lemma OtherRecordsKept(g: Graph, s: System, b: Broadcast, q: Hive, m: Hive, h: Hive)
    requires Enabled(g, s, HandleRequest(b, q, m)) && h in s.claims[b].flow.recs && h != m
    ensures var c, c' := s.claims[b], NewClaim(g, s, HandleRequest(b, q, m));
            c'.origin == c.origin && c'.page == c.page && h in c'.flow.recs && c'.flow.recs[h] == c.flow.recs[h]
  {
  }

  lemma ConfirmedOthers(f: Flow, m: Hive, n: Hive, h: Hive)
    requires h in f.recs && h != n
    ensures h in Confirmed(f, m, n).recs && Confirmed(f, m, n).recs[h] == f.recs[h]
  {
  }

  lemma NotYetSettled(g: Graph, s: System, b: Broadcast, m: Hive, n: Hive)
    requires b in s.claims && ClaimOk(g, s, s.claims[b]) && (m, n) in s.claims[b].flow.answers
    ensures n in s.claims[b].flow.recs && !Done(s.claims[b].flow.recs[n])
  {
    var c := s.claims[b];
    var rank :| Inv(g, c.flow, c.origin, rank);
    assert AnswerOk(g, c.flow, m, n);
    AwaitsAnswer(g, c.flow, m, n);
  }

  lemma OwnedStays(g: Graph, s: System, e: Event, h: Hive, page: int)
    requires Tree(g) && ClaimsOk(g, s) && Enabled(g, s, e) && Owned(s, h, page)
    ensures Owned(Step(g, s, e), h, page)
  {
    var b :| b in s.claims && Settled(s.claims[b]) && s.claims[b].origin == h && s.claims[b].page == page;
    StaysSettled(g, s, e, b);
  }

  // A step that confirms a page settles the claim of that hive, which was not
  // settled before.
  lemma ConfirmingSettles(g: Graph, s: System, e: Event, h: Hive)
    requires Tree(g) && ClaimsOk(g, s) && Enabled(g, s, e) && !e.NewObject? && Confirming(g, s, e) == Some(h)
    ensures var c := NewClaim(g, s, e); c.origin == h && Settled(c) && h in g.nbrs
    ensures e.broadcast in s.claims ==> !Settled(s.claims[e.broadcast])
  {
    NewClaimOk(g, s, e);
    var c := NewClaim(g, s, e);
    var rank :| Inv(g, c.flow, c.origin, rank);
    assert RankOk(c.flow, c.origin, rank, h);
    if e.HandleAnswer? {
      assert ClaimOk(g, s, s.claims[e.broadcast]);
      NotYetSettled(g, s, e.broadcast, e.sender, h);
    }
  }

  lemma NewPageIsNew(g: Graph, s: System, e: Event, h: Hive, k: Hive, i: int)
    requires Tree(g) && ClaimsOk(g, s) && PagesOk(g, s) && Enabled(g, s, e) && !e.NewObject? && Confirming(g, s, e) == Some(h)
    requires PageAt(s, k, i)
    ensures s.pages[k][i].id != NewClaim(g, s, e).page
  {
    var page := s.pages[k][i].id;
    assert Owned(s, k, page);
    var b :| b in s.claims && Settled(s.claims[b]) && s.claims[b].origin == k && s.claims[b].page == page;
    ConfirmingSettles(g, s, e, h);
    StaysSettled(g, s, e, b);
    StepKeepsClaims(g, s, e);
    OneSettledPerPage(g, Step(g, s, e), b, e.broadcast);
  }

  lemma StepOwned(g: Graph, s: System, e: Event, h: Hive, i: int)
    requires Tree(g) && ClaimsOk(g, s) && PagesOk(g, s) && Enabled(g, s, e) && PageAt(Step(g, s, e), h, i)
    ensures Owned(Step(g, s, e), h, Step(g, s, e).pages[h][i].id)
  {
    PageOrigin(g, s, e, h, i);
    if PageAt(s, h, i) {
      OwnedStays(g, s, e, h, s.pages[h][i].id);
    } else {
      ConfirmingSettles(g, s, e, h);
      assert e.broadcast in Step(g, s, e).claims;
    }
  }

  lemma StepOnePlace(g: Graph, s: System, e: Event, h: Hive, i: int, h': Hive, i': int)
    requires Tree(g) && ClaimsOk(g, s) && PagesOk(g, s) && Enabled(g, s, e)
    requires var s' := Step(g, s, e); PageAt(s', h, i) && PageAt(s', h', i') && s'.pages[h][i].id == s'.pages[h'][i'].id
    ensures h == h' && i == i'
  {
    PageOrigin(g, s, e, h, i);
    PageOrigin(g, s, e, h', i');
    if PageAt(s, h, i) && !PageAt(s, h', i') { NewPageIsNew(g, s, e, h', h, i); }
    if PageAt(s, h', i') && !PageAt(s, h, i) { NewPageIsNew(g, s, e, h, h', i'); }
  }

  lemma StepAllOwned(g: Graph, s: System, e: Event)
    requires Tree(g) && ClaimsOk(g, s) && PagesOk(g, s) && Enabled(g, s, e)
    ensures var s' := Step(g, s, e); forall h, i :: PageAt(s', h, i) ==> Owned(s', h, s'.pages[h][i].id)
  {
    var s' := Step(g, s, e);
    forall h, i | PageAt(s', h, i) ensures Owned(s', h, s'.pages[h][i].id) {
      StepOwned(g, s, e, h, i);
    }
  }

  lemma StepAllOnce(g: Graph, s: System, e: Event)
    requires Tree(g) && ClaimsOk(g, s) && PagesOk(g, s) && Enabled(g, s, e)
    ensures var s' := Step(g, s, e);
            forall h, i, h', i' :: PageAt(s', h, i) && PageAt(s', h', i') && s'.pages[h][i].id == s'.pages[h'][i'].id ==> h == h' && i == i'
  {
    var s' := Step(g, s, e);
    forall h, i, h', i' | PageAt(s', h, i) && PageAt(s', h', i') && s'.pages[h][i].id == s'.pages[h'][i'].id
      ensures h == h' && i == i'
    {
      StepOnePlace(g, s, e, h, i, h', i');
    }
  }

  lemma StepKeepsPages(g: Graph, s: System, e: Event)
    requires Tree(g) && ClaimsOk(g, s) && PagesOk(g, s) && Enabled(g, s, e)
    ensures PagesOk(g, Step(g, s, e))
  {
    StepAllOwned(g, s, e);
    StepAllOnce(g, s, e);
  }

  // An entry of a page table was there before, with the same page, or is the one
  // this step confirmed.
  lemma PageOrigin(g: Graph, s: System, e: Event, h: Hive, i: int)
    requires Enabled(g, s, e) && PageAt(Step(g, s, e), h, i)
    ensures PageAt(s, h, i) ==>
              Step(g, s, e).pages[h][i].id == s.pages[h][i].id && Step(g, s, e).pages[h][i].next >= s.pages[h][i].next
    ensures !PageAt(s, h, i) ==>
              !e.NewObject? && Confirming(g, s, e) == Some(h) && i == |s.pages[h]| && h in s.pages &&
              Step(g, s, e).pages[h][i].id == NewClaim(g, s, e).page
  {
  }

  // ---------------------------------------------------------------- object ids

  lemma IssuedStays(g: Graph, s: System, e: Event, x: int)
    requires Enabled(g, s, e) && IssuedOk(s) && x in s.issued
    ensures exists h, i, t :: IssuedAt(Step(g, s, e), x, h, i, t)
  {
    var h, i, t :| IssuedAt(s, x, h, i, t);
    PageStays(g, s, e, h, i);
    PageOrigin(g, s, e, h, i);
    assert IssuedAt(Step(g, s, e), x, h, i, t);
  }

  lemma PageStays(g: Graph, s: System, e: Event, h: Hive, i: int)
    requires Enabled(g, s, e) && PageAt(s, h, i)
    ensures PageAt(Step(g, s, e), h, i)
  {
  }

  lemma StepKeepsIssued(g: Graph, s: System, e: Event)
    requires Enabled(g, s, e) && IssuedOk(s)
    ensures IssuedOk(Step(g, s, e))
  {
    var s' := Step(g, s, e);
    forall x | x in s'.issued ensures exists h, i, t :: IssuedAt(s', x, h, i, t) {
      if x in s.issued {
        IssuedStays(g, s, e, x);
      } else {
        var i := FirstFree(s.pages[e.hive]);
        assert IssuedAt(s', x, e.hive, i, s.pages[e.hive][i].next);
      }
    }
  }

  lemma InitialOk(g: Graph)
    ensures SystemOk(g, Initial(g))
  {
  }

  lemma {:induction false} RunKeepsOk(g: Graph, s: System, es: seq<Event>)
    requires Tree(g) && SystemOk(g, s) && Runs(g, s, es)
    ensures SystemOk(g, After(g, s, es))
    decreases |es|
  {
    if es != [] {
      StepKeepsClaims(g, s, es[0]);
      StepKeepsPages(g, s, es[0]);
      StepKeepsIssued(g, s, es[0]);
      RunKeepsOk(g, Step(g, s, es[0]), es[1..]);
    }
  }

  // ---------------------------------------------------------------- safety of every run

  // No page is confirmed twice, on one hive or on two.
  lemma NoPageTwice(g: Graph, es: seq<Event>, h: Hive, i: int, h': Hive, i': int)
    requires Tree(g) && Runs(g, Initial(g), es)
    requires var s := After(g, Initial(g), es); PageAt(s, h, i) && PageAt(s, h', i') && (h != h' || i != i')
    ensures var s := After(g, Initial(g), es); s.pages[h][i].id != s.pages[h'][i'].id
  {
    InitialOk(g);
    RunKeepsOk(g, Initial(g), es);
  }

  // No object id is handed out twice, anywhere in the network.
  lemma NoObjectIdTwice(g: Graph, es: seq<Event>, h: Hive)
    requires Tree(g) && Runs(g, Initial(g), es) && Enabled(g, After(g, Initial(g), es), NewObject(h))
    ensures var s := After(g, Initial(g), es);
            var s' := Step(g, s, NewObject(h));
            |s'.issued| == |s.issued| + 1 && s'.issued[..|s.issued|] == s.issued && s'.issued[|s.issued|] !in s.issued
  {
    InitialOk(g);
    RunKeepsOk(g, Initial(g), es);
    NewIdIsNew(g, After(g, Initial(g), es), h);
  }

  lemma NewIdIsNew(g: Graph, s: System, h: Hive)
    requires SystemOk(g, s) && Enabled(g, s, NewObject(h))
    ensures var p := s.pages[h][FirstFree(s.pages[h])]; ObjectId(p.id, p.next) !in s.issued
  {
    var i := FirstFree(s.pages[h]);
    var x := ObjectId(s.pages[h][i].id, s.pages[h][i].next);
    if x in s.issued {
      var k, j, t :| IssuedAt(s, x, k, j, t);
      PageInRange(g, s, h, i);
      PageInRange(g, s, k, j);
      ObjectIdInjective(s.pages[h][i].id, s.pages[h][i].next, s.pages[k][j].id, t);
    }
  }

  lemma PageInRange(g: Graph, s: System, h: Hive, i: int)
    requires ClaimsOk(g, s) && PagesOk(g, s) && PageAt(s, h, i)
    ensures 0 <= s.pages[h][i].id < PAGE_LIMIT
  {
    var page := s.pages[h][i].id;
    assert Owned(s, h, page);
    var b :| b in s.claims && Settled(s.claims[b]) && s.claims[b].origin == h && s.claims[b].page == page;
    assert ClaimOk(g, s, s.claims[b]);
  }
}
