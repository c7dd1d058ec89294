// That server ids arrive: a settled claim has left its hive with an id, and a claim that
// comes to rest is settled exactly if nobody refused it.
module IdProgress {
  import opened Wrappers
  import opened Network
  import opened Echo
  import opened EchoProgress
  import opened ServerIds
  import opened UniqueIds

  ghost predicate HasId(s: System, b: Broadcast)
    requires b in s.claims
  {
    Settled(s.claims[b]) ==> s.claims[b].origin in s.ids && (s.ids[s.claims[b].origin] == NO_ID ==> s.claims[b].want == NO_ID)
  }

  ghost predicate AllHaveIds(s: System)
  {
    forall b :: b in s.claims ==> HasId(s, b)
  }

  lemma OriginTakesPart(g: Graph, c: Claim)
    requires ClaimOk(g, c)
    ensures c.origin in c.flow.recs && c.flow.recs[c.origin].parent == Self
  {
  }

  // Handling a request leaves the record of the hive that started the claim as it is.
  lemma RequestSettlesNothing(g: Graph, s: System, e: Event)
    requires g.Valid() && SystemOk(g, s) && Enabled(g, s, e) && e.HandleRequest? && !Settled(s.claims[e.broadcast])
    ensures !Settled(NewClaim(g, s, e))
  {
    var c := s.claims[e.broadcast];
    assert ClaimOk(g, c);
    OriginTakesPart(g, c);
  }

  // Counting a confirmation changes the record of the hive that counts it, and no other.
  lemma AnswerSettlesItsHive(g: Graph, s: System, e: Event)
    requires g.Valid() && SystemOk(g, s) && Enabled(g, s, e) && e.HandleAnswer? && !Settled(s.claims[e.broadcast])
    requires Settled(NewClaim(g, s, e))
    ensures Confirming(g, s, e) == Some(NewClaim(g, s, e).origin)
  {
    var c := s.claims[e.broadcast];
    assert ClaimOk(g, c);
    OriginTakesPart(g, c);
    if e.receiver != c.origin { OtherRecordStays(c.flow, e.sender, e.receiver, c.origin); }
  }

  // Only a confirming step settles a claim.
  lemma SettledByConfirming(g: Graph, s: System, e: Event)
    requires g.Valid() && SystemOk(g, s) && Enabled(g, s, e) && Settled(NewClaim(g, s, e))
    requires e.broadcast in s.claims ==> !Settled(s.claims[e.broadcast])
    ensures Confirming(g, s, e) == Some(NewClaim(g, s, e).origin)
  {
    if e.HandleRequest? { RequestSettlesNothing(g, s, e); }
    if e.HandleAnswer? { AnswerSettlesItsHive(g, s, e); }
  }

  lemma OriginHasRow(g: Graph, s: System, e: Event)
    requires g.Valid() && SystemOk(g, s) && Enabled(g, s, e)
    ensures NewClaim(g, s, e).origin in s.ids
  {
    NewClaimOk(g, s, e);
    assert NewClaim(g, s, e).origin in g.nbrs.Keys;
  }

  lemma StepHasId(g: Graph, s: System, e: Event, b: Broadcast)
    requires g.Valid() && SystemOk(g, s) && AllHaveIds(s) && Enabled(g, s, e) && b in Step(g, s, e).claims
    ensures HasId(Step(g, s, e), b)
  {
    if b in s.claims && Settled(s.claims[b]) {
      assert HasId(s, b);
      IdsStay(g, s, e, s.claims[b].origin);
      ClaimStays(g, s, e, b);
    } else if b == e.broadcast {
      if Settled(NewClaim(g, s, e)) { SettlingGrants(g, s, e); }
    }
  }

  lemma SettlingGrants(g: Graph, s: System, e: Event)
    requires g.Valid() && SystemOk(g, s) && Enabled(g, s, e) && Settled(NewClaim(g, s, e))
    requires e.broadcast in s.claims ==> !Settled(s.claims[e.broadcast])
    ensures HasId(Step(g, s, e), e.broadcast)
  {
    SettledByConfirming(g, s, e);
    OriginHasRow(g, s, e);
  }

  lemma ClaimStays(g: Graph, s: System, e: Event, b: Broadcast)
    requires Enabled(g, s, e) && b in s.claims
    ensures b in Step(g, s, e).claims
    ensures Step(g, s, e).claims[b].origin == s.claims[b].origin && Step(g, s, e).claims[b].want == s.claims[b].want
  {
  }

  lemma {:induction false} RunHasIds(g: Graph, s: System, es: seq<Event>)
    requires g.Valid() && SystemOk(g, s) && AllHaveIds(s) && Runs(g, s, es)
    ensures AllHaveIds(After(g, s, es))
    decreases |es|
  {
    if es != [] {
      var t := Step(g, s, es[0]);
      StepKeepsOk(g, s, es[0]);
      forall b | b in t.claims ensures HasId(t, b) {
        StepHasId(g, s, es[0], b);
      }
      RunHasIds(g, t, es[1..]);
    }
  }

  // In every run: the hive of a settled claim has an id, unless it asked for none.
  lemma SettledHasId(g: Graph, es: seq<Event>, b: Broadcast)
    requires g.Valid() && Runs(g, Initial(g), es)
    requires var s := After(g, Initial(g), es); b in s.claims && Settled(s.claims[b]) && s.claims[b].want != NO_ID
    ensures var s := After(g, Initial(g), es); s.claims[b].origin in s.ids && s.ids[s.claims[b].origin] != NO_ID
  {
    RunHasIds(g, Initial(g), es);
    assert HasId(After(g, Initial(g), es), b);
  }

  // No request of the claim is refused in the run.
  ghost predicate NeverRefused(g: Graph, s: System, es: seq<Event>, b: Broadcast)
    requires Runs(g, s, es)
    decreases |es|
  {
    es == [] || (!(es[0].broadcast == b && Refuses(s, es[0])) && NeverRefused(g, Step(g, s, es[0]), es[1..], b))
  }

  lemma StepOfClaim(g: Graph, s: System, e: Event, b: Broadcast)
    requires g.Valid() && SystemOk(g, s) && Enabled(g, s, e) && b in Step(g, s, e).claims
    ensures Whole(g, Step(g, s, e).claims[b].flow) <==>
              (b in s.claims ==> Whole(g, s.claims[b].flow)) && !(e.broadcast == b && Refuses(s, e))
  {
    if e.broadcast == b {
      if b in s.claims { UniqueIds.StepWhole(g, s, e); } else { StartWhole(g, e.hive); }
    }
  }

  lemma {:induction false} RunWhole(g: Graph, s: System, es: seq<Event>, b: Broadcast)
    requires g.Valid() && SystemOk(g, s) && Runs(g, s, es) && b in After(g, s, es).claims
    ensures Whole(g, After(g, s, es).claims[b].flow) <==> (b in s.claims ==> Whole(g, s.claims[b].flow)) && NeverRefused(g, s, es, b)
    decreases |es|
  {
    if es != [] {
      var t := Step(g, s, es[0]);
      StepKeepsOk(g, s, es[0]);
      RunWhole(g, t, es[1..], b);
      if b in t.claims { StepOfClaim(g, s, es[0], b); }
    }
  }

  // On any network: a claim with no message left is settled exactly if nobody refused it,
  // and then its hive has an id.
  lemma RestExactly(g: Graph, es: seq<Event>, b: Broadcast)
    requires g.Valid() && Runs(g, Initial(g), es)
    requires var s := After(g, Initial(g), es);
             b in s.claims && s.claims[b].flow.requests == multiset{} && s.claims[b].flow.answers == multiset{}
    ensures var s := After(g, Initial(g), es);
            (Settled(s.claims[b]) <==> NeverRefused(g, Initial(g), es, b)) &&
            (NeverRefused(g, Initial(g), es, b) && s.claims[b].want != NO_ID ==>
               s.claims[b].origin in s.ids && s.ids[s.claims[b].origin] != NO_ID)
  {
    var s := After(g, Initial(g), es);
    RunKeepsOk(g, Initial(g), es);
    RunWhole(g, Initial(g), es, b);
    var c := s.claims[b];
    assert ClaimOk(g, c);
    RestIsSettled(g, c);
    if Settled(c) && c.want != NO_ID { SettledHasId(g, es, b); }
  }

  lemma RestIsSettled(g: Graph, c: Claim)
    requires ClaimOk(g, c) && c.flow.requests == multiset{} && c.flow.answers == multiset{}
    ensures Settled(c) <==> Whole(g, c.flow)
  {
    var rank :| Inv(g, c.flow, c.origin, rank);
    if Whole(g, c.flow) { QuietIsFinished(g, c.flow, c.origin, rank); }
    if Settled(c) { FinishedIsWhole(g, c.flow, c.origin, rank); }
  }
}
