// That claimed pages arrive: a settled broadcast has left its page in the table of the
// hive that started it, a broadcast that comes to rest is settled exactly if nobody
// refused it, and nobody refuses the only broadcast that asks for a page.
module PageProgress {
  import opened Wrappers
  import opened Network
  import opened Echo
  import opened EchoProgress
  import opened Pages

  // ---------------------------------------------------------------- settled broadcasts have their page

  ghost predicate HasPage(s: System, h: Hive, page: int)
  {
    exists i :: PageAt(s, h, i) && s.pages[h][i].id == page
  }

  ghost predicate Entered(s: System, b: Broadcast)
    requires b in s.claims
  {
    Settled(s.claims[b]) ==> HasPage(s, s.claims[b].origin, s.claims[b].page)
  }

  ghost predicate AllEntered(s: System)
  {
    forall b :: b in s.claims ==> Entered(s, b)
  }

  lemma HasPageStays(g: Graph, s: System, e: Event, h: Hive, page: int)
    requires Enabled(g, s, e) && HasPage(s, h, page)
    ensures HasPage(Step(g, s, e), h, page)
  {
    var i :| PageAt(s, h, i) && s.pages[h][i].id == page;
    PageStays(g, s, e, h, i);
    PageOrigin(g, s, e, h, i);
    assert PageAt(Step(g, s, e), h, i);
  }

  // The confirming step puts the page behind the others of the hive's table, with none of
  // its slots used, so that the hive can take an object id next.
  lemma ConfirmedPageIsFree(g: Graph, s: System, e: Event, h: Hive)
    requires Tree(g) && ClaimsOk(g, s) && PagesOk(g, s) && Enabled(g, s, e) && !e.NewObject? && Confirming(g, s, e) == Some(h)
    ensures h in s.pages && Step(g, s, e).pages == s.pages[h := s.pages[h] + [Page(NewClaim(g, s, e).page, 0)]]
    ensures Enabled(g, Step(g, s, e), NewObject(h))
  {
    ConfirmingSettles(g, s, e, h);
    assert h in s.pages.Keys;
    var ps := Step(g, s, e).pages[h];
    assert ps[|s.pages[h]|].next == 0;
  }

  lemma ConfirmedIsEntered(g: Graph, s: System, e: Event, h: Hive)
    requires Tree(g) && ClaimsOk(g, s) && PagesOk(g, s) && Enabled(g, s, e) && !e.NewObject? && Confirming(g, s, e) == Some(h)
    ensures HasPage(Step(g, s, e), h, NewClaim(g, s, e).page)
  {
    ConfirmedPageIsFree(g, s, e, h);
    assert PageAt(Step(g, s, e), h, |s.pages[h]|);
  }

  // Only a confirming step settles a broadcast.
  lemma SettledByConfirming(g: Graph, s: System, e: Event)
    requires Tree(g) && ClaimsOk(g, s) && Enabled(g, s, e) && !e.NewObject? && Settled(NewClaim(g, s, e))
    requires e.broadcast in s.claims ==> !Settled(s.claims[e.broadcast])
    ensures Confirming(g, s, e) == Some(NewClaim(g, s, e).origin)
  {
    match e
    case RequestMemoryPage(h, _, _) =>
    case HandleRequest(b, q, m) =>
      var c := s.claims[b];
      assert ClaimOk(g, s, c);
      HandledClaimOk(g, s, b, q, m);
      OriginTakesPart(g, s, c);
      OtherRecordsKept(g, s, b, q, m, c.origin);
    case HandleAnswer(b, m, n) =>
      var c := s.claims[b];
      OriginTakesPart(g, s, c);
      if n != c.origin { ConfirmedOthers(c.flow, m, n, c.origin); }
  }

  lemma OriginTakesPart(g: Graph, s: System, c: Claim)
    requires ClaimOk(g, s, c)
    ensures c.origin in c.flow.recs && c.flow.recs[c.origin].parent == Self
  {
  }

  lemma StepEntered(g: Graph, s: System, e: Event, b: Broadcast)
    requires Tree(g) && SystemOk(g, s) && AllEntered(s) && Enabled(g, s, e) && b in Step(g, s, e).claims
    ensures Entered(Step(g, s, e), b)
  {
    if b in s.claims && Settled(s.claims[b]) {
      assert Entered(s, b);
      StaysSettled(g, s, e, b);
      HasPageStays(g, s, e, s.claims[b].origin, s.claims[b].page);
    } else if !e.NewObject? && b == e.broadcast && Settled(NewClaim(g, s, e)) {
      SettledByConfirming(g, s, e);
      ConfirmedIsEntered(g, s, e, NewClaim(g, s, e).origin);
    }
  }

  lemma StepKeepsOk(g: Graph, s: System, e: Event)
    requires Tree(g) && SystemOk(g, s) && Enabled(g, s, e)
    ensures SystemOk(g, Step(g, s, e))
  {
    StepKeepsClaims(g, s, e);
    StepKeepsPages(g, s, e);
    StepKeepsIssued(g, s, e);
  }

  lemma {:induction false} RunEntered(g: Graph, s: System, es: seq<Event>)
    requires Tree(g) && SystemOk(g, s) && AllEntered(s) && Runs(g, s, es)
    ensures AllEntered(After(g, s, es))
    decreases |es|
  {
    if es != [] {
      var t := Step(g, s, es[0]);
      StepKeepsOk(g, s, es[0]);
      forall b | b in t.claims ensures Entered(t, b) {
        StepEntered(g, s, es[0], b);
      }
      RunEntered(g, t, es[1..]);
    }
  }

  // In every run: the page of a settled broadcast is in the table of its hive.
  lemma SettledHasPage(g: Graph, es: seq<Event>, b: Broadcast)
    requires Tree(g) && Runs(g, Initial(g), es)
    requires var s := After(g, Initial(g), es); b in s.claims && Settled(s.claims[b])
    ensures var s := After(g, Initial(g), es); HasPage(s, s.claims[b].origin, s.claims[b].page)
  {
    InitialOk(g);
    RunEntered(g, Initial(g), es);
    assert Entered(After(g, Initial(g), es), b);
  }

  // ---------------------------------------------------------------- refusals

  ghost predicate Refuses(s: System, e: Event, b: Broadcast)
  {
    e.HandleRequest? && e.broadcast == b && b in s.claims && Refused(s, e.receiver, b)
  }

  // No request of the broadcast is refused in the run.
  ghost predicate NeverRefused(g: Graph, s: System, es: seq<Event>, b: Broadcast)
    requires Runs(g, s, es)
    decreases |es|
  {
    es == [] || (!Refuses(s, es[0], b) && NeverRefused(g, Step(g, s, es[0]), es[1..], b))
  }

  lemma HandledWhole(g: Graph, s: System, b: Broadcast, q: Hive, m: Hive)
    requires Tree(g) && Enabled(g, s, HandleRequest(b, q, m)) && ClaimOk(g, s, s.claims[b])
    ensures Whole(g, NewClaim(g, s, HandleRequest(b, q, m)).flow) <==> Whole(g, s.claims[b].flow) && !Refused(s, m, b)
  {
    var f := s.claims[b].flow;
    HandledClaimOk(g, s, b, q, m);
    HandledFlow(g, s, b, q, m);
    if Refused(s, m, b) { RefusedIsNotWhole(g, f, q, m); } else { AcceptWhole(g, f, q, m); }
  }

  // A broadcast stays whole until a request of it is refused, and never becomes so again.
  lemma StepWhole(g: Graph, s: System, e: Event, b: Broadcast)
    requires Tree(g) && ClaimsOk(g, s) && Enabled(g, s, e) && b in Step(g, s, e).claims
    ensures Whole(g, Step(g, s, e).claims[b].flow) <==> (b in s.claims ==> Whole(g, s.claims[b].flow)) && !Refuses(s, e, b)
  {
    if !e.NewObject? && b == e.broadcast {
      match e
      case RequestMemoryPage(h, _, _) => StartWhole(g, h);
      case HandleRequest(_, q, m) =>
        assert ClaimOk(g, s, s.claims[b]);
        HandledWhole(g, s, b, q, m);
      case HandleAnswer(_, m, n) =>
        assert ClaimOk(g, s, s.claims[b]);
        ConfirmedWhole(g, s.claims[b].flow, m, n);
    }
  }

  lemma {:induction false} RunWhole(g: Graph, s: System, es: seq<Event>, b: Broadcast)
    requires Tree(g) && SystemOk(g, s) && Runs(g, s, es) && b in After(g, s, es).claims
    ensures Whole(g, After(g, s, es).claims[b].flow) <==> (b in s.claims ==> Whole(g, s.claims[b].flow)) && NeverRefused(g, s, es, b)
    decreases |es|
  {
    if es != [] {
      var t := Step(g, s, es[0]);
      StepKeepsOk(g, s, es[0]);
      RunWhole(g, t, es[1..], b);
      if b in t.claims { StepWhole(g, s, es[0], b); }
    }
  }

  ghost predicate AtRest(f: Flow) { f.requests == multiset{} && f.answers == multiset{} }

  lemma RestIsSettled(g: Graph, s: System, c: Claim)
    requires ClaimOk(g, s, c) && AtRest(c.flow)
    ensures Settled(c) <==> Whole(g, c.flow)
  {
    var rank :| Inv(g, c.flow, c.origin, rank);
    if Whole(g, c.flow) { QuietIsFinished(g, c.flow, c.origin, rank); }
    if Settled(c) { FinishedIsWhole(g, c.flow, c.origin, rank); }
  }

  // A broadcast with no message left has got its page exactly if nobody refused it.
  lemma RestExactly(g: Graph, es: seq<Event>, b: Broadcast)
    requires Tree(g) && Runs(g, Initial(g), es)
    requires var s := After(g, Initial(g), es); b in s.claims && AtRest(s.claims[b].flow)
    ensures var s := After(g, Initial(g), es);
            (Settled(s.claims[b]) <==> NeverRefused(g, Initial(g), es, b)) &&
            (NeverRefused(g, Initial(g), es, b) ==> HasPage(s, s.claims[b].origin, s.claims[b].page))
  {
    var s := After(g, Initial(g), es);
    InitialOk(g);
    RunKeepsOk(g, Initial(g), es);
    RunWhole(g, Initial(g), es, b);
    assert ClaimOk(g, s, s.claims[b]);
    RestIsSettled(g, s, s.claims[b]);
    if Settled(s.claims[b]) { SettledHasPage(g, es, b); }
  }

  // ---------------------------------------------------------------- nobody refuses without a reason

  // No other broadcast asks for its page.
  ghost predicate Sole(s: System, b: Broadcast, page: int)
  {
    forall b' :: b' in s.claims && b' != b ==> s.claims[b'].page != page
  }

  lemma ClaimsStay(g: Graph, s: System, e: Event, b: Broadcast)
    requires Enabled(g, s, e) && b in s.claims
    ensures b in Step(g, s, e).claims && Step(g, s, e).claims[b].page == s.claims[b].page
  {
  }

  // A page in use has been claimed by a broadcast that is settled: not by this one, which
  // still has a hive to reach, but by another one.
  lemma SoleIsNotRefused(g: Graph, s: System, b: Broadcast, q: Hive, m: Hive)
    requires Tree(g) && SystemOk(g, s) && Enabled(g, s, HandleRequest(b, q, m)) && Sole(s, b, s.claims[b].page)
    ensures !Refused(s, m, b)
  {
    UnderWayIsNotSettled(g, s, b, q, m);
    forall i | PageAt(s, m, i) ensures s.pages[m][i].id != s.claims[b].page {
      assert Owned(s, m, s.pages[m][i].id);
    }
    forall i | m in s.pages && 0 <= i < |s.pages[m]| ensures s.pages[m][i].id != s.claims[b].page {
      assert PageAt(s, m, i);
    }
  }

  lemma UnderWayIsNotSettled(g: Graph, s: System, b: Broadcast, q: Hive, m: Hive)
    requires Tree(g) && ClaimsOk(g, s) && Enabled(g, s, HandleRequest(b, q, m))
    ensures !Settled(s.claims[b])
  {
    var c := s.claims[b];
    assert ClaimOk(g, s, c);
    HandledClaimOk(g, s, b, q, m);
    assert m !in c.flow.recs.Keys && m in g.nbrs.Keys;
    if Settled(c) { SettledReachesAll(g, s, c); }
  }

  lemma {:induction false} SoleRun(g: Graph, s: System, es: seq<Event>, b: Broadcast, page: int)
    requires Tree(g) && SystemOk(g, s) && Runs(g, s, es) && (b in s.claims ==> s.claims[b].page == page)
    requires b in After(g, s, es).claims && After(g, s, es).claims[b].page == page && Sole(After(g, s, es), b, page)
    ensures Sole(s, b, page) && NeverRefused(g, s, es, b)
    decreases |es|
  {
    if es != [] {
      var e, t := es[0], Step(g, s, es[0]);
      StepKeepsOk(g, s, e);
      if b in t.claims && t.claims[b].page != page { PagesOfClaims(g, t, es[1..], b); }
      SoleRun(g, t, es[1..], b, page);
      forall b' | b' in s.claims && b' != b ensures s.claims[b'].page != page {
        ClaimsStay(g, s, e, b');
      }
      if e.HandleRequest? && e.broadcast == b { SoleIsNotRefused(g, s, b, e.sender, e.receiver); }
    }
  }

  lemma {:induction false} PagesOfClaims(g: Graph, s: System, es: seq<Event>, b: Broadcast)
    requires Runs(g, s, es) && b in s.claims
    ensures b in After(g, s, es).claims && After(g, s, es).claims[b].page == s.claims[b].page
    decreases |es|
  {
    if es != [] {
      ClaimsStay(g, s, es[0], b);
      PagesOfClaims(g, Step(g, s, es[0]), es[1..], b);
    }
  }

  // The only broadcast for a page is never refused; once at rest it has left the page with
  // the hive that asked for it.
  lemma SoleClaimIsGranted(g: Graph, es: seq<Event>, b: Broadcast)
    requires Tree(g) && Runs(g, Initial(g), es)
    requires var s := After(g, Initial(g), es); b in s.claims && Sole(s, b, s.claims[b].page)
    ensures var s := After(g, Initial(g), es);
            NeverRefused(g, Initial(g), es, b) && (AtRest(s.claims[b].flow) ==> HasPage(s, s.claims[b].origin, s.claims[b].page))
  {
    var s := After(g, Initial(g), es);
    InitialOk(g);
    SoleRun(g, Initial(g), es, b, s.claims[b].page);
    if AtRest(s.claims[b].flow) { RestExactly(g, es, b); }
  }
}
