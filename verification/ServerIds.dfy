// Claiming a server id in the 0.3 runtime: the whole network, every message
// handler one atomic step, requests for several ids running at once.
module ServerIds {
  import opened Wrappers
  import opened Network
  import opened Echo

  type Broadcast = int

  const NO_ID := -1

  // One broadcast: the id it asks for, which every message and record carries,
  // and its records and messages.
  datatype Claim = Claim(origin: Hive, want: int, flow: Flow)

  // thisServerId of every hive, and everything that concerns each broadcast id.
  datatype System = System(ids: map<Hive, int>, claims: map<Broadcast, Claim>)

  datatype Event =
    | RequestServerId(hive: Hive, want: int, broadcast: Broadcast)
    | HandleRequest(broadcast: Broadcast, sender: Hive, receiver: Hive, busy: bool)
    | HandleAnswer(broadcast: Broadcast, sender: Hive, receiver: Hive)

  function Initial(g: Graph): System
  {
    System(map h | h in g.nbrs :: NO_ID, map[])
  }

  function ConfirmID(ids: map<Hive, int>, h: Hive, id: int): map<Hive, int>
  {
    if h in ids && ids[h] == NO_ID then ids[h := id] else ids
  }

  // A broadcast id is 27 random bytes; here it is simply one not used before.
  predicate Enabled(g: Graph, s: System, e: Event)
  {
    match e
    case RequestServerId(h, _, b) => h in g.nbrs && b !in s.claims
    case HandleRequest(b, q, m, _) => b in s.claims && m in g.nbrs && (q, m) in s.claims[b].flow.requests
    case HandleAnswer(b, m, n) => b in s.claims && (m, n) in s.claims[b].flow.answers
  }

  // The claim is settled: the hive that made it has every confirmation it needs.
  predicate Settled(c: Claim)
  {
    c.origin in c.flow.recs && Done(c.flow.recs[c.origin])
  }

  // What the step makes of the claim it is about.
  function NewClaim(g: Graph, s: System, e: Event): Claim
    requires Enabled(g, s, e)
  {
    match e
    case RequestServerId(h, want, b) => Claim(h, want, Start(g, h))
    case HandleRequest(b, q, m, busy) =>
      var c := s.claims[b];
      c.(flow := if (m in s.ids && s.ids[m] == c.want) || busy
                 then Refuse(c.flow, q, m)
                 else React(c.flow, q, m, OnRequest(g.nbrs[m], Known(c.flow, m), q)))
    case HandleAnswer(b, m, n) =>
      var c := s.claims[b];
      c.(flow := Confirmed(c.flow, m, n))
  }

  // The hive that gets its last confirmation in this step, if any.
  function Confirming(g: Graph, s: System, e: Event): Option<Hive>
    requires Enabled(g, s, e)
  {
    match e
    case RequestServerId(h, want, b) =>
      if NewClaim(g, s, e).flow.recs[h].requested == 0 then Some(h) else None
    case HandleRequest(_, _, _, _) => None
    case HandleAnswer(b, m, n) =>
      var recs := NewClaim(g, s, e).flow.recs;
      if n in recs && Done(recs[n]) && recs[n].parent == Self then Some(n) else None
  }

  function Step(g: Graph, s: System, e: Event): System
    requires Enabled(g, s, e)
  {
    var c := NewClaim(g, s, e);
    System(match Confirming(g, s, e)
           case Some(h) => ConfirmID(s.ids, h, c.want)
           case None => s.ids,
           s.claims[e.broadcast := c])
  }

  predicate Runs(g: Graph, s: System, es: seq<Event>)
    decreases |es|
  {
    es == [] || (Enabled(g, s, es[0]) && Runs(g, Step(g, s, es[0]), es[1..]))
  }

  function After(g: Graph, s: System, es: seq<Event>): System
    requires Runs(g, s, es)
    decreases |es|
  {
    if es == [] then s else After(g, Step(g, s, es[0]), es[1..])
  }

  // ---------------------------------------------------------------- the invariant

  ghost predicate ClaimOk(g: Graph, c: Claim)
  {
    c.origin in g.nbrs && exists rank :: Inv(g, c.flow, c.origin, rank)
  }

  ghost predicate SystemOk(g: Graph, s: System)
  {
    s.ids.Keys == g.nbrs.Keys && forall b :: b in s.claims ==> ClaimOk(g, s.claims[b])
  }

  lemma RequestKeepsClaim(g: Graph, c: Claim, q: Hive, m: Hive, refuse: bool)
    requires g.Valid() && ClaimOk(g, c) && (q, m) in c.flow.requests && m in g.nbrs
    ensures ClaimOk(g, c.(flow := if refuse then Refuse(c.flow, q, m)
                                  else React(c.flow, q, m, OnRequest(g.nbrs[m], Known(c.flow, m), q))))
  {
    var rank :| Inv(g, c.flow, c.origin, rank);
    if refuse {
      RefuseInv(g, c.flow, c.origin, rank, q, m);
    } else if m in c.flow.recs {
      RepeatInv(g, c.flow, c.origin, rank, q, m);
    } else {
      AcceptInv(g, c.flow, c.origin, rank, q, m);
    }
  }

  lemma NewClaimOk(g: Graph, s: System, e: Event)
    requires g.Valid() && SystemOk(g, s) && Enabled(g, s, e)
    ensures ClaimOk(g, NewClaim(g, s, e))
  {
    match e
    case RequestServerId(h, _, _) =>
      StartInv(g, h);
    case HandleRequest(b, q, m, busy) =>
      RequestKeepsClaim(g, s.claims[b], q, m, (m in s.ids && s.ids[m] == s.claims[b].want) || busy);
    case HandleAnswer(b, m, n) =>
      var c := s.claims[b];
      var rank :| Inv(g, c.flow, c.origin, rank);
      ConfirmedInv(g, c.flow, c.origin, rank, m, n);
  }

  lemma StepKeepsOk(g: Graph, s: System, e: Event)
    requires g.Valid() && SystemOk(g, s) && Enabled(g, s, e)
    ensures SystemOk(g, Step(g, s, e))
  {
    NewClaimOk(g, s, e);
  }

  lemma {:induction false} RunKeepsOk(g: Graph, s: System, es: seq<Event>)
    requires g.Valid() && SystemOk(g, s) && Runs(g, s, es)
    ensures SystemOk(g, After(g, s, es))
    decreases |es|
  {
    if es != [] {
      StepKeepsOk(g, s, es[0]);
      RunKeepsOk(g, Step(g, s, es[0]), es[1..]);
    }
  }

  lemma SettledReachesAll(g: Graph, c: Claim)
    requires g.Connected() && ClaimOk(g, c) && Settled(c)
    ensures c.flow.recs.Keys == g.nbrs.Keys
  {
    var rank :| Inv(g, c.flow, c.origin, rank);
    FinishedReachesAll(g, c.flow, c.origin, rank);
  }

  // ---------------------------------------------------------------- safety of every run

  // Whenever a hive's id changes, in any run, the step settles a broadcast that
  // this hive started for exactly that id and that every hive has accepted.
  lemma GrantNeedsEveryHive(g: Graph, es: seq<Event>, e: Event, h: Hive)
    requires g.Valid() && g.Connected() && Runs(g, Initial(g), es)
    requires var s := After(g, Initial(g), es);
             Enabled(g, s, e) && h in g.nbrs && h in s.ids && h in Step(g, s, e).ids && Step(g, s, e).ids[h] != s.ids[h]
    ensures var s, s' := After(g, Initial(g), es), Step(g, After(g, Initial(g), es), e);
            var b := e.broadcast;
            s.ids[h] == NO_ID && b in s'.claims && s'.claims[b].origin == h && s'.claims[b].want == s'.ids[h] &&
            s'.claims[b].flow.recs.Keys == g.nbrs.Keys
  {
    var s := After(g, Initial(g), es);
    RunKeepsOk(g, Initial(g), es);
    GrantedByOrigin(g, s, e, h);
    StepKeepsOk(g, s, e);
    SettledReachesAll(g, Step(g, s, e).claims[e.broadcast]);
  }

  lemma GrantedByOrigin(g: Graph, s: System, e: Event, h: Hive)
    requires g.Valid() && SystemOk(g, s) && Enabled(g, s, e)
    requires h in s.ids && h in Step(g, s, e).ids && Step(g, s, e).ids[h] != s.ids[h]
    ensures var s', b := Step(g, s, e), e.broadcast;
            s.ids[h] == NO_ID && b in s'.claims && s'.claims[b].origin == h && s'.claims[b].want == s'.ids[h] &&
            Settled(s'.claims[b])
  {
  }

  // k holds the id the broadcast b of another hive asks for, and has not accepted b.
  ghost predicate HeldAgainst(s: System, b: Broadcast, k: Hive)
  {
    b in s.claims && k in s.ids && s.ids[k] == s.claims[b].want != NO_ID && s.claims[b].origin != k &&
    k !in s.claims[b].flow.recs
  }

  lemma {:induction false} StaysHeldAgainst(g: Graph, s: System, es: seq<Event>, b: Broadcast, k: Hive)
    requires Runs(g, s, es) && HeldAgainst(s, b, k)
    ensures HeldAgainst(After(g, s, es), b, k)
    decreases |es|
  {
    if es != [] {
      StaysHeldAgainst(g, Step(g, s, es[0]), es[1..], b, k);
    }
  }

  // An id some hive already holds when another hive starts asking for it is
  // never granted to that request, however the run continues.
  lemma HeldIdNeverGranted(g: Graph, before: seq<Event>, o: Hive, want: int, b: Broadcast, after: seq<Event>, k: Hive)
    requires g.Valid() && g.Connected() && Runs(g, Initial(g), before) && want != NO_ID
    requires var s := After(g, Initial(g), before);
             var e := RequestServerId(o, want, b);
             k != o && k in s.ids && s.ids[k] == want && Enabled(g, s, e) && Runs(g, Step(g, s, e), after)
    ensures var s := After(g, Initial(g), before);
            var t := After(g, Step(g, s, RequestServerId(o, want, b)), after);
            b in t.claims && t.claims[b].origin == o && t.claims[b].want == want && !Settled(t.claims[b]) &&
            k !in t.claims[b].flow.recs
  {
    var s := After(g, Initial(g), before);
    var u := Step(g, s, RequestServerId(o, want, b));
    RunKeepsOk(g, Initial(g), before);
    StepKeepsOk(g, s, RequestServerId(o, want, b));
    RunKeepsOk(g, u, after);
    OriginDiffers(g, s, o, want, b, k);
    StaysHeldAgainst(g, u, after, b, k);
    ClaimFixed(g, u, after, b);
    var c := After(g, u, after).claims[b];
    if Settled(c) { SettledReachesAll(g, c); }
  }

  lemma OriginDiffers(g: Graph, s: System, o: Hive, want: int, b: Broadcast, k: Hive)
    requires k != o && k in s.ids && s.ids[k] == want != NO_ID && Enabled(g, s, RequestServerId(o, want, b))
    ensures HeldAgainst(Step(g, s, RequestServerId(o, want, b)), b, k)
  {
  }

  lemma {:induction false} ClaimFixed(g: Graph, s: System, es: seq<Event>, b: Broadcast)
    requires Runs(g, s, es) && b in s.claims
    ensures b in After(g, s, es).claims
    ensures After(g, s, es).claims[b].origin == s.claims[b].origin && After(g, s, es).claims[b].want == s.claims[b].want
    decreases |es|
  {
    if es != [] {
      ClaimFixed(g, Step(g, s, es[0]), es[1..], b);
    }
  }
}
