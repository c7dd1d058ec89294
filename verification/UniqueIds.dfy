// When server ids are unique: a request is safe exactly if no other hive without an id
// has a claim for the same one that is still open and that nobody has refused.
module UniqueIds {
  import opened Network
  import opened Echo
  import opened EchoProgress
  import opened ServerIds

  // ---------------------------------------------------------------- what a request has to look at

  ghost predicate Distinct(s: System)
  {
    forall h, k :: h in s.ids && k in s.ids && h != k && s.ids[h] == s.ids[k] ==> s.ids[h] == NO_ID
  }

  predicate Held(s: System, id: int) { exists h :: h in s.ids && s.ids[h] == id }

  // Another hive's claim for the id that can still be granted: the hive has no id yet, and
  // no request of the claim was refused.
  ghost predicate Rival(g: Graph, s: System, o: Hive, want: int, b: Broadcast)
  {
    b in s.claims &&
    var c := s.claims[b];
    c.origin != o && c.want == want && !Settled(c) && Whole(g, c.flow) && c.origin in s.ids && s.ids[c.origin] == NO_ID
  }

  // A request that can be granted: of a hive without an id, for one nobody holds.
  predicate Grantable(s: System, e: Event)
  {
    e.RequestServerId? && e.want != NO_ID && !Held(s, e.want) && e.hive in s.ids && s.ids[e.hive] == NO_ID
  }

  // Such a request has no rival.
  ghost predicate Clear(g: Graph, s: System, e: Event)
  {
    Grantable(s, e) ==> forall b :: !Rival(g, s, e.hive, e.want, b)
  }

  // The coarser condition: every other hive's claim for the id is settled.
  ghost predicate Alone(s: System, e: Event)
  {
    e.RequestServerId? ==>
      forall b :: b in s.claims && s.claims[b].want == e.want && s.claims[b].origin != e.hive ==> Settled(s.claims[b])
  }

  ghost predicate ClearRun(g: Graph, s: System, es: seq<Event>)
    requires Runs(g, s, es)
    decreases |es|
  {
    es == [] || (Clear(g, s, es[0]) && ClearRun(g, Step(g, s, es[0]), es[1..]))
  }

  ghost predicate AloneRun(g: Graph, s: System, es: seq<Event>)
    requires Runs(g, s, es)
    decreases |es|
  {
    es == [] || (Alone(s, es[0]) && AloneRun(g, Step(g, s, es[0]), es[1..]))
  }

  // ---------------------------------------------------------------- claims that can be granted

  ghost predicate Accepts(s: System, c: Claim)
  {
    forall h :: h in s.ids && s.ids[h] == c.want ==> h in c.flow.recs
  }

  ghost predicate Live(g: Graph, s: System, b: Broadcast)
    requires b in s.claims
  {
    var c := s.claims[b];
    c.want != NO_ID && !Settled(c) && Whole(g, c.flow) && c.origin in s.ids && s.ids[c.origin] == NO_ID && Accepts(s, c)
  }

  // Two claims for one id that can be granted are of one hive, and nobody holds the id.
  ghost predicate LiveApart(g: Graph, s: System)
  {
    (forall b, b' :: b in s.claims && b' in s.claims && Live(g, s, b) && Live(g, s, b') && s.claims[b].want == s.claims[b'].want ==>
       s.claims[b].origin == s.claims[b'].origin) &&
    forall b :: b in s.claims && Live(g, s, b) ==> !Held(s, s.claims[b].want)
  }

  ghost predicate Safe(g: Graph, s: System)
  {
    SystemOk(g, s) && Distinct(s) && LiveApart(g, s)
  }

  lemma RequestWhole(g: Graph, c: Claim, q: Hive, m: Hive, refuse: bool)
    requires g.Valid() && ClaimOk(g, c) && (q, m) in c.flow.requests && m in g.nbrs
    ensures var f := if refuse then Refuse(c.flow, q, m) else React(c.flow, q, m, OnRequest(g.nbrs[m], Known(c.flow, m), q));
            Whole(g, f) <==> !refuse && Whole(g, c.flow)
  {
    if refuse {
      RefusedIsNotWhole(g, c.flow, q, m);
    } else if m in c.flow.recs {
      RepeatWhole(g, c.flow, q, m);
    } else {
      AcceptWhole(g, c.flow, q, m);
    }
  }

  predicate Refuses(s: System, e: Event)
  {
    e.HandleRequest? && e.broadcast in s.claims && (e.busy || (e.receiver in s.ids && s.ids[e.receiver] == s.claims[e.broadcast].want))
  }

  // A claim stays whole until a request of it is refused, and never becomes so again.
  lemma StepWhole(g: Graph, s: System, e: Event)
    requires g.Valid() && SystemOk(g, s) && Enabled(g, s, e) && e.broadcast in s.claims
    ensures Whole(g, NewClaim(g, s, e).flow) <==> Whole(g, s.claims[e.broadcast].flow) && !Refuses(s, e)
  {
    var c := s.claims[e.broadcast];
    match e
    case RequestServerId(_, _, _) =>
    case HandleRequest(_, q, m, busy) => RequestWhole(g, c, q, m, s.ids[m] == c.want || busy);
    case HandleAnswer(_, m, n) => ConfirmedWhole(g, c.flow, m, n);
  }

  // A hive that takes part now and did not before does not hold the id.
  lemma NewcomersDoNotHold(g: Graph, s: System, e: Event, h: Hive)
    requires Enabled(g, s, e) && e.broadcast in s.claims && h in s.ids && s.ids[h] == s.claims[e.broadcast].want
    requires h in NewClaim(g, s, e).flow.recs
    ensures h in s.claims[e.broadcast].flow.recs
  {
  }

  lemma IdsStay(g: Graph, s: System, e: Event, h: Hive)
    requires Enabled(g, s, e) && h in s.ids
    ensures h in Step(g, s, e).ids && (s.ids[h] != NO_ID ==> Step(g, s, e).ids[h] == s.ids[h])
  {
  }

  lemma StaysSettled(g: Graph, s: System, e: Event)
    requires g.Valid() && SystemOk(g, s) && Enabled(g, s, e) && e.broadcast in s.claims && Settled(s.claims[e.broadcast])
    ensures Settled(NewClaim(g, s, e))
  {
    var c := s.claims[e.broadcast];
    match e
    case RequestServerId(_, _, _) =>
    case HandleRequest(_, q, m, _) => RecordsStay(g, c.flow, q, m, c.origin);
    case HandleAnswer(_, m, n) =>
      ReceiverWaits(g, c, m, n);
      OtherRecordStays(c.flow, m, n, c.origin);
  }

  lemma ReceiverWaits(g: Graph, c: Claim, m: Hive, n: Hive)
    requires g.Valid() && ClaimOk(g, c) && (m, n) in c.flow.answers
    ensures n in c.flow.recs && !Done(c.flow.recs[n])
  {
    var rank :| Inv(g, c.flow, c.origin, rank);
    assert AnswerOk(g, c.flow, m, n);
    AwaitsAnswer(g, c.flow, m, n);
  }

  lemma OtherRecordStays(f: Flow, m: Hive, n: Hive, h: Hive)
    requires h in f.recs && h != n
    ensures h in Confirmed(f, m, n).recs && Confirmed(f, m, n).recs[h] == f.recs[h]
  {
  }

  lemma RecordsStay(g: Graph, f: Flow, q: Hive, m: Hive, h: Hive)
    requires m in g.nbrs && h in f.recs
    ensures var f' := React(f, q, m, OnRequest(g.nbrs[m], Known(f, m), q)); h in f'.recs && f'.recs[h] == f.recs[h]
  {
  }

  // No claim becomes one that can be granted.
  lemma LiveBefore(g: Graph, s: System, e: Event, b: Broadcast)
    requires g.Valid() && SystemOk(g, s) && Enabled(g, s, e) && b in s.claims && Live(g, Step(g, s, e), b)
    ensures Live(g, s, b) && Step(g, s, e).claims[b].want == s.claims[b].want && Step(g, s, e).claims[b].origin == s.claims[b].origin
  {
    var s' := Step(g, s, e);
    IdsStay(g, s, e, s.claims[b].origin);
    if b == e.broadcast {
      StepWhole(g, s, e);
      if Settled(s.claims[b]) { StaysSettled(g, s, e); }
    }
    forall h | h in s.ids && s.ids[h] == s.claims[b].want ensures h in s.claims[b].flow.recs {
      IdsStay(g, s, e, h);
      if b == e.broadcast { NewcomersDoNotHold(g, s, e, h); }
    }
  }

  // ---------------------------------------------------------------- steps keep ids unique

  // The claim an id is granted to could be granted before: nobody has refused it.
  lemma GrantedWasLive(g: Graph, s: System, e: Event, h: Hive)
    requires g.Valid() && g.Connected() && SystemOk(g, s) && Enabled(g, s, e) && e.HandleAnswer?
    requires h in s.ids && Step(g, s, e).ids[h] != s.ids[h]
    ensures var c := s.claims[e.broadcast]; c.origin == h && c.want == Step(g, s, e).ids[h] && Live(g, s, e.broadcast)
  {
    var c, c' := s.claims[e.broadcast], NewClaim(g, s, e);
    GrantedByOrigin(g, s, e, h);
    NewClaimOk(g, s, e);
    var rank' :| Inv(g, c'.flow, c'.origin, rank');
    FinishedIsWhole(g, c'.flow, c'.origin, rank');
    FinishedReachesAll(g, c'.flow, c'.origin, rank');
    StepWhole(g, s, e);
    ReceiverWaits(g, c, e.sender, e.receiver);
  }

  // A hive that needs nobody's confirmation is alone.
  lemma GrantedAtOnce(g: Graph, s: System, e: Event, h: Hive)
    requires g.Valid() && g.Connected() && SystemOk(g, s) && Enabled(g, s, e) && !e.HandleAnswer?
    requires h in s.ids && Step(g, s, e).ids[h] != s.ids[h]
    ensures g.nbrs.Keys == {h}
  {
    assert e.RequestServerId? && e.hive == h && |g.nbrs[h]| == 0;
    assert g.ClosedUnderNeighbours({h});
  }

  // Whoever holds an id after the step and not before: nobody else does.
  lemma GrantIsUnique(g: Graph, s: System, e: Event, h: Hive, k: Hive)
    requires g.Valid() && g.Connected() && Safe(g, s) && Enabled(g, s, e)
    requires h in s.ids && k in s.ids && h != k && Step(g, s, e).ids[h] != s.ids[h]
    ensures Step(g, s, e).ids[k] != Step(g, s, e).ids[h]
  {
    if e.HandleAnswer? {
      GrantedWasLive(g, s, e, h);
      GrantedByOrigin(g, s, e, h);
      assert !Held(s, s.claims[e.broadcast].want);
    } else {
      GrantedAtOnce(g, s, e, h);
    }
  }

  lemma StepUnique(g: Graph, s: System, e: Event)
    requires g.Valid() && g.Connected() && Safe(g, s) && Enabled(g, s, e)
    ensures Distinct(Step(g, s, e))
  {
    var s' := Step(g, s, e);
    forall h, k | h in s'.ids && k in s'.ids && h != k && s'.ids[h] == s'.ids[k] ensures s'.ids[h] == NO_ID {
      if s'.ids[h] != s.ids[h] {
        GrantIsUnique(g, s, e, h, k);
      } else if s'.ids[k] != s.ids[k] {
        GrantIsUnique(g, s, e, k, h);
      }
    }
  }

  // Nobody comes to hold an id for which a claim can still be granted.
  lemma LiveNotHeld(g: Graph, s: System, e: Event, b: Broadcast, h: Hive)
    requires g.Valid() && g.Connected() && Safe(g, s) && Enabled(g, s, e)
    requires b in Step(g, s, e).claims && Live(g, Step(g, s, e), b) && h in Step(g, s, e).ids
    ensures Step(g, s, e).ids[h] != Step(g, s, e).claims[b].want
  {
    var s' := Step(g, s, e);
    if s'.ids[h] == s'.claims[b].want {
      if b in s.claims {
        LiveBefore(g, s, e, b);
        if s'.ids[h] != s.ids[h] {
          if e.HandleAnswer? {
            GrantedWasLive(g, s, e, h);
          } else {
            GrantedAtOnce(g, s, e, h);
          }
        }
      }
    }
  }

  // The claim of a clear request is apart from all others.
  // A request that leads to a claim that can be granted was one that can be granted.
  lemma LiveIsGrantable(g: Graph, s: System, e: Event)
    requires g.Valid() && SystemOk(g, s) && Enabled(g, s, e) && e.RequestServerId? && Live(g, Step(g, s, e), e.broadcast)
    ensures Grantable(s, e)
  {
    IdsStay(g, s, e, e.hive);
    forall h | h in s.ids && s.ids[h] == e.want ensures h == e.hive {
      IdsStay(g, s, e, h);
    }
  }

  lemma NewClaimApart(g: Graph, s: System, e: Event, b: Broadcast)
    requires g.Valid() && SystemOk(g, s) && Enabled(g, s, e) && Clear(g, s, e) && e.RequestServerId?
    requires b in s.claims && Live(g, Step(g, s, e), b) && Live(g, Step(g, s, e), e.broadcast)
    requires s.claims[b].want == e.want
    ensures s.claims[b].origin == e.hive
  {
    LiveBefore(g, s, e, b);
    LiveIsGrantable(g, s, e);
    assert !Rival(g, s, e.hive, e.want, b);
  }

  lemma StepApart(g: Graph, s: System, e: Event, b: Broadcast, b': Broadcast)
    requires g.Valid() && Safe(g, s) && Enabled(g, s, e) && Clear(g, s, e)
    requires var s' := Step(g, s, e);
             b in s'.claims && b' in s'.claims && Live(g, s', b) && Live(g, s', b') && s'.claims[b].want == s'.claims[b'].want
    ensures Step(g, s, e).claims[b].origin == Step(g, s, e).claims[b'].origin
  {
    if b in s.claims { LiveBefore(g, s, e, b); }
    if b' in s.claims { LiveBefore(g, s, e, b'); }
    if b in s.claims && b' !in s.claims {
      NewClaimApart(g, s, e, b);
    } else if b !in s.claims && b' in s.claims {
      NewClaimApart(g, s, e, b');
    }
  }

  lemma StepKeepsSafe(g: Graph, s: System, e: Event)
    requires g.Valid() && g.Connected() && Safe(g, s) && Enabled(g, s, e) && Clear(g, s, e)
    ensures Safe(g, Step(g, s, e))
  {
    var s' := Step(g, s, e);
    StepKeepsOk(g, s, e);
    StepUnique(g, s, e);
    forall b, b' | b in s'.claims && b' in s'.claims && Live(g, s', b) && Live(g, s', b') && s'.claims[b].want == s'.claims[b'].want
      ensures s'.claims[b].origin == s'.claims[b'].origin
    {
      StepApart(g, s, e, b, b');
    }
    forall b | b in s'.claims && Live(g, s', b) ensures !Held(s', s'.claims[b].want) {
      forall h | h in s'.ids ensures s'.ids[h] != s'.claims[b].want {
        LiveNotHeld(g, s, e, b, h);
      }
    }
  }

  lemma {:induction false} RunKeepsSafe(g: Graph, s: System, es: seq<Event>)
    requires g.Valid() && g.Connected() && Safe(g, s) && Runs(g, s, es) && ClearRun(g, s, es)
    ensures Safe(g, After(g, s, es))
    decreases |es|
  {
    if es != [] {
      StepKeepsSafe(g, s, es[0]);
      RunKeepsSafe(g, Step(g, s, es[0]), es[1..]);
    }
  }

  lemma InitialIsSafe(g: Graph)
    ensures Safe(g, Initial(g))
  {
  }

  // In every run all of whose requests are clear, no two hives hold the same id.
  lemma ClearRunsUnique(g: Graph, es: seq<Event>)
    requires g.Valid() && g.Connected() && Runs(g, Initial(g), es) && ClearRun(g, Initial(g), es)
    ensures Distinct(After(g, Initial(g), es))
  {
    InitialIsSafe(g);
    RunKeepsSafe(g, Initial(g), es);
  }

  lemma {:induction false} AloneIsClear(g: Graph, s: System, es: seq<Event>)
    requires Runs(g, s, es) && AloneRun(g, s, es)
    ensures ClearRun(g, s, es)
    decreases |es|
  {
    if es != [] { AloneIsClear(g, Step(g, s, es[0]), es[1..]); }
  }

  // So also if no hive asks for an id while another hive's claim for it is open.
  lemma AloneRunsUnique(g: Graph, es: seq<Event>)
    requires g.Valid() && g.Connected() && Runs(g, Initial(g), es) && AloneRun(g, Initial(g), es)
    ensures Distinct(After(g, Initial(g), es))
  {
    AloneIsClear(g, Initial(g), es);
    ClearRunsUnique(g, es);
  }
}
