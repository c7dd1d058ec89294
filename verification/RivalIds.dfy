// A request that has a rival can lead to two hives with one id: the messages of both
// claims can be handled in such an order that both are granted.
module RivalIds {
  import opened Wrappers
  import opened Network
  import opened Echo
  import opened EchoProgress
  import opened ServerIds
  import opened UniqueIds

  // ---------------------------------------------------------------- continuations without requests

  ghost predicate QuietRun(g: Graph, s: System, es: seq<Event>, t: System)
  {
    Runs(g, s, es) && After(g, s, es) == t && forall i :: 0 <= i < |es| ==> !es[i].RequestServerId?
  }

  // t comes from s without any new request.
  ghost predicate Quietly(g: Graph, s: System, t: System)
  {
    exists es :: QuietRun(g, s, es, t)
  }

  lemma QuietNothing(g: Graph, s: System)
    ensures Quietly(g, s, s)
  {
    assert QuietRun(g, s, [], s);
  }

  lemma Prepend(g: Graph, s: System, e: Event, es: seq<Event>)
    requires Enabled(g, s, e) && Runs(g, Step(g, s, e), es)
    ensures Runs(g, s, [e] + es) && After(g, s, [e] + es) == After(g, Step(g, s, e), es)
  {
    assert ([e] + es)[1..] == es;
  }

  lemma QuietStep(g: Graph, s: System, e: Event, t: System)
    requires Enabled(g, s, e) && !e.RequestServerId? && Quietly(g, Step(g, s, e), t)
    ensures Quietly(g, s, t)
  {
    var es :| QuietRun(g, Step(g, s, e), es, t);
    Prepend(g, s, e, es);
    assert QuietRun(g, s, [e] + es, t);
  }

  lemma {:induction false} QuietTwice(g: Graph, s: System, es: seq<Event>, t: System, u: System)
    requires QuietRun(g, s, es, t) && Quietly(g, t, u)
    ensures Quietly(g, s, u)
    decreases |es|
  {
    if es != [] {
      assert QuietRun(g, Step(g, s, es[0]), es[1..], t);
      QuietTwice(g, Step(g, s, es[0]), es[1..], t, u);
      QuietStep(g, s, es[0], u);
    }
  }

  lemma QuietChain(g: Graph, s: System, t: System, u: System)
    requires Quietly(g, s, t) && Quietly(g, t, u)
    ensures Quietly(g, s, u)
  {
    var es :| QuietRun(g, s, es, t);
    QuietTwice(g, s, es, t, u);
  }

  // ---------------------------------------------------------------- a claim nobody refuses is granted

  // The claim can still be granted to its hive.
  ghost predicate Open(g: Graph, s: System, b: Broadcast)
  {
    b in s.claims &&
    var c := s.claims[b];
    !Settled(c) && Whole(g, c.flow) && c.origin in s.ids && s.ids[c.origin] == NO_ID != c.want
  }

  // Only the messages and records of claim b are different.
  ghost predicate OnlyFlow(s: System, t: System, b: Broadcast)
  {
    b in s.claims && t.claims.Keys == s.claims.Keys && SameClaim(s, t, b) &&
    forall d :: d in s.claims && d != b ==> t.claims[d] == s.claims[d]
  }

  ghost predicate SameClaim(s: System, t: System, b: Broadcast)
  {
    b in s.claims && b in t.claims && t.claims[b].origin == s.claims[b].origin && t.claims[b].want == s.claims[b].want
  }

  lemma OnlyFlowTwice(s: System, t: System, u: System, b: Broadcast)
    requires OnlyFlow(s, t, b) && OnlyFlow(t, u, b)
    ensures OnlyFlow(s, u, b)
  {
  }

  lemma StepOnlyFlow(g: Graph, s: System, e: Event)
    requires Enabled(g, s, e) && !e.RequestServerId?
    ensures OnlyFlow(s, Step(g, s, e), e.broadcast)
  {
  }

  lemma RequestHandled(g: Graph, s: System, b: Broadcast, q: Hive, m: Hive)
    requires g.Valid() && SystemOk(g, s) && Open(g, s, b) && !Held(s, s.claims[b].want) && (q, m) in s.claims[b].flow.requests
    ensures m in g.nbrs && Enabled(g, s, HandleRequest(b, q, m, false))
    ensures var t := Step(g, s, HandleRequest(b, q, m, false));
            SystemOk(g, t) && Open(g, t, b) && t.ids == s.ids && OnlyFlow(s, t, b)
  {
    var c, e := s.claims[b], HandleRequest(b, q, m, false);
    ReceiverKnown(g, c, q, m);
    StepKeepsOk(g, s, e);
    StepWhole(g, s, e);
    StepOnlyFlow(g, s, e);
    RecordsStay(g, c.flow, q, m, c.origin);
  }

  lemma ReceiverKnown(g: Graph, c: Claim, q: Hive, m: Hive)
    requires g.Valid() && ClaimOk(g, c) && (q, m) in c.flow.requests
    ensures m in g.nbrs && c.origin in c.flow.recs
  {
    var rank :| Inv(g, c.flow, c.origin, rank);
    assert RequestOk(g, c.flow, q, m) && ParentOk(g, c.flow, q);
  }

  lemma FewerRequests(g: Graph, f: Flow, q: Hive, m: Hive)
    requires (q, m) in f.requests && m in g.nbrs
    ensures var f' := React(f, q, m, OnRequest(g.nbrs[m], Known(f, m), q));
            if m in f.recs then f'.recs == f.recs && |f'.requests| < |f.requests|
            else g.nbrs.Keys - f'.recs.Keys < g.nbrs.Keys - f.recs.Keys
  {
    var f' := React(f, q, m, OnRequest(g.nbrs[m], Known(f, m), q));
    if m in f.recs {
      assert f'.requests == f.requests - multiset{(q, m)};
    } else {
      assert m in g.nbrs.Keys - f.recs.Keys && m !in g.nbrs.Keys - f'.recs.Keys;
    }
  }

  // Every request is handled, and what comes of it, while nobody holds the id.
  lemma {:induction false} DrainRequests(g: Graph, s: System, b: Broadcast) returns (t: System)
    requires g.Valid() && SystemOk(g, s) && Open(g, s, b) && !Held(s, s.claims[b].want)
    ensures Quietly(g, s, t) && SystemOk(g, t) && Open(g, t, b) && t.ids == s.ids && OnlyFlow(s, t, b)
    ensures t.claims[b].flow.requests == multiset{}
    decreases g.nbrs.Keys - s.claims[b].flow.recs.Keys, |s.claims[b].flow.requests|
  {
    var f := s.claims[b].flow;
    if f.requests == multiset{} {
      t := s;
      QuietNothing(g, s);
    } else {
      var r :| r in f.requests;
      RequestHandled(g, s, b, r.0, r.1);
      FewerRequests(g, f, r.0, r.1);
      var e := HandleRequest(b, r.0, r.1, false);
      t := DrainRequests(g, Step(g, s, e), b);
      QuietStep(g, s, e, t);
      OnlyFlowTwice(s, Step(g, s, e), t, b);
    }
  }

  ghost function Unfinished(f: Flow): set<Hive> { set h | h in f.recs && !Done(f.recs[h]) }

  lemma FewerAnswers(g: Graph, c: Claim, m: Hive, n: Hive)
    requires g.Valid() && ClaimOk(g, c) && (m, n) in c.flow.answers
    ensures var f' := Confirmed(c.flow, m, n);
            f'.requests == c.flow.requests &&
            (Unfinished(f') < Unfinished(c.flow) || (Unfinished(f') == Unfinished(c.flow) && |f'.answers| < |c.flow.answers|))
  {
    ReceiverWaits(g, c, m, n);
    AnswerTaken(c.flow, m, n);
  }

  lemma AnswerTaken(f: Flow, m: Hive, n: Hive)
    requires n in f.recs && !Done(f.recs[n]) && (m, n) in f.answers
    ensures var f' := Confirmed(f, m, n);
            f'.requests == f.requests &&
            (Unfinished(f') < Unfinished(f) || (Unfinished(f') == Unfinished(f) && |f'.answers| < |f.answers|))
  {
    var f' := Confirmed(f, m, n);
    forall h | h in f.recs && h != n ensures h in Unfinished(f') <==> h in Unfinished(f) {
    }
    if Done(f'.recs[n]) {
      assert n in Unfinished(f) && n !in Unfinished(f');
    } else {
      assert f'.answers == f.answers - multiset{(m, n)};
      assert Unfinished(f') == Unfinished(f);
    }
  }

  // The confirmation the hive that made the claim waits for last, or another one.
  lemma AnswerCounted(g: Graph, c: Claim, m: Hive, n: Hive)
    requires g.Valid() && ClaimOk(g, c) && !Settled(c) && (m, n) in c.flow.answers
    ensures var recs := Confirmed(c.flow, m, n).recs;
            n in recs && c.origin in recs && (Done(recs[c.origin]) <==> Done(recs[n]) && recs[n].parent == Self) &&
            (recs[n].parent == Self ==> n == c.origin)
  {
    ReceiverWaits(g, c, m, n);
    var rank :| Inv(g, c.flow, c.origin, rank);
    assert RankOk(c.flow, c.origin, rank, n);
    if n != c.origin { OtherRecordStays(c.flow, m, n, c.origin); }
  }

  lemma AnswerConfirms(g: Graph, s: System, b: Broadcast, m: Hive, n: Hive)
    requires g.Valid() && SystemOk(g, s) && Open(g, s, b) && (m, n) in s.claims[b].flow.answers
    ensures var e, c := HandleAnswer(b, m, n), s.claims[b];
            Confirming(g, s, e) == if Settled(NewClaim(g, s, e)) then Some(c.origin) else None
  {
    assert ClaimOk(g, s.claims[b]);
    AnswerCounted(g, s.claims[b], m, n);
  }

  lemma AnswerIds(g: Graph, s: System, b: Broadcast, m: Hive, n: Hive)
    requires g.Valid() && SystemOk(g, s) && Open(g, s, b) && (m, n) in s.claims[b].flow.answers
    ensures var e, c := HandleAnswer(b, m, n), s.claims[b];
            Step(g, s, e).ids == if Settled(NewClaim(g, s, e)) then s.ids[c.origin := c.want] else s.ids
  {
    AnswerConfirms(g, s, b, m, n);
  }

  lemma AnswerHandled(g: Graph, s: System, b: Broadcast, m: Hive, n: Hive)
    requires g.Valid() && SystemOk(g, s) && Open(g, s, b) && (m, n) in s.claims[b].flow.answers
    ensures Enabled(g, s, HandleAnswer(b, m, n))
    ensures var t, c := Step(g, s, HandleAnswer(b, m, n)), s.claims[b];
            SystemOk(g, t) && OnlyFlow(s, t, b) && Whole(g, t.claims[b].flow) &&
            t.ids == if Settled(t.claims[b]) then s.ids[c.origin := c.want] else s.ids
  {
    var e := HandleAnswer(b, m, n);
    AnswerIds(g, s, b, m, n);
    StepKeepsOk(g, s, e);
    StepWhole(g, s, e);
    StepOnlyFlow(g, s, e);
  }

  // A claim with nothing in flight that nobody refused is settled.
  lemma QuietClaimSettled(g: Graph, c: Claim)
    requires g.Valid() && ClaimOk(g, c) && Whole(g, c.flow) && c.flow.requests == multiset{} && c.flow.answers == multiset{}
    ensures Settled(c)
  {
    var rank :| Inv(g, c.flow, c.origin, rank);
    QuietIsFinished(g, c.flow, c.origin, rank);
  }

  // Every confirmation is counted, until the claim is settled.
  lemma {:induction false} DrainAnswers(g: Graph, s: System, b: Broadcast) returns (t: System)
    requires g.Valid() && SystemOk(g, s) && Open(g, s, b) && s.claims[b].flow.requests == multiset{}
    ensures Quietly(g, s, t) && SystemOk(g, t) && OnlyFlow(s, t, b)
    ensures t.ids == s.ids[s.claims[b].origin := s.claims[b].want]
    decreases Unfinished(s.claims[b].flow), |s.claims[b].flow.answers|
  {
    var c := s.claims[b];
    if c.flow.answers == multiset{} { QuietClaimSettled(g, c); }
    var r :| r in c.flow.answers;
    AnswerHandled(g, s, b, r.0, r.1);
    FewerAnswers(g, c, r.0, r.1);
    var e := HandleAnswer(b, r.0, r.1);
    var u := Step(g, s, e);
    if Settled(u.claims[b]) {
      t := u;
      QuietNothing(g, u);
    } else {
      t := DrainAnswers(g, u, b);
      OnlyFlowTwice(s, u, t, b);
    }
    QuietStep(g, s, e, t);
  }

  // ---------------------------------------------------------------- both are granted

  // A hive that is not alone has neighbours to ask.
  lemma HasNeighbours(g: Graph, o: Hive, k: Hive)
    requires g.Valid() && g.Connected() && o in g.nbrs && k in g.nbrs && o != k
    ensures |g.nbrs[o]| > 0
  {
    if g.nbrs[o] == {} { assert g.ClosedUnderNeighbours({o}); }
  }

  lemma AskedIsOpen(g: Graph, s: System, o: Hive, want: int, b: Broadcast, k: Hive)
    requires g.Valid() && g.Connected() && SystemOk(g, s) && k in g.nbrs && o != k && want != NO_ID
    requires Enabled(g, s, RequestServerId(o, want, b)) && s.ids[o] == NO_ID
    ensures var t := Step(g, s, RequestServerId(o, want, b));
            SystemOk(g, t) && Open(g, t, b) && t.ids == s.ids && t.claims == s.claims[b := Claim(o, want, Start(g, o))]
  {
    HasNeighbours(g, o, k);
    StartWhole(g, o);
    StepKeepsOk(g, s, RequestServerId(o, want, b));
  }

  // First all requests of both claims are handled, then all confirmations of both.
  lemma TwoOpenBothGranted(g: Graph, s: System, b: Broadcast, b': Broadcast) returns (t: System)
    requires g.Valid() && SystemOk(g, s) && Open(g, s, b) && Open(g, s, b') && b != b'
    requires s.claims[b].want == s.claims[b'].want && s.claims[b].origin != s.claims[b'].origin && !Held(s, s.claims[b].want)
    ensures Quietly(g, s, t) && s.claims[b].origin in t.ids && s.claims[b'].origin in t.ids
    ensures t.ids[s.claims[b].origin] == t.ids[s.claims[b'].origin] == s.claims[b].want
  {
    var t1 := DrainRequests(g, s, b');
    StaysOpen(g, s, t1, b', b);
    var t2 := DrainRequests(g, t1, b);
    StaysOpen(g, t1, t2, b, b');
    QuietChain(g, s, t1, t2);
    t := BothAnswered(g, t2, b, b');
    QuietChain(g, s, t2, t);
  }

  // What happens to one claim leaves another one as it is.
  lemma StaysOpen(g: Graph, s: System, t: System, b: Broadcast, d: Broadcast)
    requires OnlyFlow(s, t, b) && d != b && Open(g, s, d) && s.claims[d].origin in t.ids && t.ids[s.claims[d].origin] == NO_ID
    ensures Open(g, t, d) && t.claims[d] == s.claims[d]
  {
  }

  lemma BothAnswered(g: Graph, s: System, b: Broadcast, b': Broadcast) returns (t: System)
    requires g.Valid() && SystemOk(g, s) && Open(g, s, b) && Open(g, s, b') && b != b'
    requires s.claims[b].want == s.claims[b'].want && s.claims[b].origin != s.claims[b'].origin
    requires s.claims[b].flow.requests == s.claims[b'].flow.requests == multiset{}
    ensures Quietly(g, s, t) && s.claims[b].origin in t.ids && s.claims[b'].origin in t.ids
    ensures t.ids[s.claims[b].origin] == t.ids[s.claims[b'].origin] == s.claims[b].want
  {
    var u := DrainAnswers(g, s, b');
    StaysOpen(g, s, u, b', b);
    t := DrainAnswers(g, u, b);
    QuietChain(g, s, u, t);
  }

  // A request with a rival: without any further request, the two hives can come to hold
  // the same id.
  lemma RivalsBothGranted(g: Graph, s: System, e: Event, b: Broadcast) returns (t: System)
    requires g.Valid() && g.Connected() && SystemOk(g, s) && Enabled(g, s, e)
    requires Grantable(s, e) && Rival(g, s, e.hive, e.want, b)
    ensures Quietly(g, Step(g, s, e), t) && !Distinct(t)
    ensures var k := s.claims[b].origin; k != e.hive && e.hive in t.ids && k in t.ids && t.ids[e.hive] == t.ids[k] == e.want
  {
    AskedIsOpen(g, s, e.hive, e.want, e.broadcast, s.claims[b].origin);
    var u := Step(g, s, e);
    assert Open(g, u, b) && !Held(u, e.want);
    t := TwoOpenBothGranted(g, u, e.broadcast, b);
  }

  // ---------------------------------------------------------------- exactly when

  lemma {:induction false} QuietIsClear(g: Graph, s: System, es: seq<Event>, t: System)
    requires QuietRun(g, s, es, t)
    ensures ClearRun(g, s, es)
    decreases |es|
  {
    if es != [] { QuietIsClear(g, Step(g, s, es[0]), es[1..], t); }
  }

  // This continuation, if its requests are clear, ends with ids that are distinct.
  ghost predicate KeepsDistinct(g: Graph, s: System, es: seq<Event>)
  {
    Runs(g, s, es) && ClearRun(g, s, es) ==> Distinct(After(g, s, es))
  }

  lemma QuietRefutes(g: Graph, s: System, t: System) returns (es: seq<Event>)
    requires Quietly(g, s, t) && !Distinct(t)
    ensures !KeepsDistinct(g, s, es)
  {
    es :| QuietRun(g, s, es, t);
    QuietIsClear(g, s, es, t);
  }

  lemma SafeKeepsDistinct(g: Graph, s: System, es: seq<Event>)
    requires g.Valid() && g.Connected() && Safe(g, s)
    ensures KeepsDistinct(g, s, es)
  {
    if Runs(g, s, es) && ClearRun(g, s, es) { RunKeepsSafe(g, s, es); }
  }

  // After a run of clear requests: the next step keeps ids distinct, in every continuation
  // whose own requests are clear, if and only if it is clear itself.
  lemma ClearExactly(g: Graph, es: seq<Event>, e: Event)
    requires g.Valid() && g.Connected() && Runs(g, Initial(g), es) && ClearRun(g, Initial(g), es)
    requires Enabled(g, After(g, Initial(g), es), e)
    ensures var s := After(g, Initial(g), es); Clear(g, s, e) <==> forall fs :: KeepsDistinct(g, Step(g, s, e), fs)
  {
    var s := After(g, Initial(g), es);
    InitialIsSafe(g);
    RunKeepsSafe(g, Initial(g), es);
    if Clear(g, s, e) {
      StepKeepsSafe(g, s, e);
      forall fs ensures KeepsDistinct(g, Step(g, s, e), fs) {
        SafeKeepsDistinct(g, Step(g, s, e), fs);
      }
    } else {
      var b :| Rival(g, s, e.hive, e.want, b);
      var t := RivalsBothGranted(g, s, e, b);
      var fs := QuietRefutes(g, Step(g, s, e), t);
    }
  }

  // On any network, two hives that ask for one id at the same time can both be granted it.
  lemma ConcurrentRequestsBothGranted(g: Graph, o: Hive, k: Hive, want: int)
    requires g.Valid() && g.Connected() && o in g.nbrs && k in g.nbrs && o != k && want != NO_ID
    ensures exists es :: BothGranted(g, o, k, want, [RequestServerId(k, want, 0), RequestServerId(o, want, 1)] + es)
  {
    var s, e, e' := Initial(g), RequestServerId(k, want, 0), RequestServerId(o, want, 1);
    InitialIsSafe(g);
    AskedIsOpen(g, s, k, want, 0, o);
    var u := Step(g, s, e);
    NobodyHolds(g, s, u, want);
    var t := RivalsBothGranted(g, u, e', 0);
    var es :| QuietRun(g, Step(g, u, e'), es, t);
    TwoMore(g, s, e, e', es);
    assert BothGranted(g, o, k, want, [e, e'] + es);
  }

  lemma NobodyHolds(g: Graph, s: System, u: System, want: int)
    requires s == Initial(g) && u.ids == s.ids && want != NO_ID
    ensures !Held(u, want)
  {
  }

  lemma TwoMore(g: Graph, s: System, e: Event, e': Event, es: seq<Event>)
    requires Enabled(g, s, e) && Enabled(g, Step(g, s, e), e') && Runs(g, Step(g, Step(g, s, e), e'), es)
    ensures Runs(g, s, [e, e'] + es) && After(g, s, [e, e'] + es) == After(g, Step(g, Step(g, s, e), e'), es)
  {
    Prepend(g, Step(g, s, e), e', es);
    Prepend(g, s, e, [e'] + es);
    assert [e, e'] + es == [e] + ([e'] + es);
  }

  ghost predicate BothGranted(g: Graph, o: Hive, k: Hive, want: int, es: seq<Event>)
  {
    Runs(g, Initial(g), es) &&
    var ids := After(g, Initial(g), es).ids;
    o in ids && k in ids && ids[o] == ids[k] == want
  }
}
