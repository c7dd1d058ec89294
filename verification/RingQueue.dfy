// The task queue: pushes at the front and pops from any number of threads, one atomic
// access at a time. Only the front is pushed to, so the tail stays 0.
module RingQueue {
  import opened Wrappers

  const RING_SIZE: int := 0x40000

  type Thread = int

  // One number for every push ever started; pointers may repeat, pushes do not.
  type Push = int
  type Pointer = int

  // Where a thread is between two accesses to shared memory.
  datatype Local =
    | Idle
    | Pushing(item: Push)                  // before the fetch_add of head
    | Writing(slot: int, item: Push)       // before the exchange of the cell
    | Probing(slot: int)                   // has loaded head
    | Claiming(slot: int)                  // has seen head < tail
    | Draining(slot: int)                  // owns the slot, has to load its cell
    | Taking(slot: int, data: Pointer)     // has loaded a pointer

  // A push's item is with its thread, in a cell, or popped.
  datatype Place = With(thread: Thread) | InCell(cell: int) | Popped(thread: Thread)

  datatype Queue = Queue(head: int, buffer: seq<Option<Push>>, threads: map<Thread, Local>, popped: seq<Push>, places: map<Push, Place>)

  // buffer index of a slot: slot & RING_MASK, for negative slots too.
  function CellOf(slot: int): int { slot % RING_SIZE }

  function Initial(): Queue
  {
    Queue(0, seq(RING_SIZE, _ => None), map[], [], map[])
  }

  function LocalOf(q: Queue, t: Thread): Local
  {
    if t in q.threads then q.threads[t] else Idle
  }

  function Now(q: Queue, t: Thread, l: Local): Queue { q.(threads := q.threads[t := l]) }

  // ---------------------------------------------------------------- steps

  datatype Action = StartPush(item: Push) | ClaimFront | Write | StartPop | Probe | ClaimSlot(spurious: bool) | Load | Take(spurious: bool)

  // What thread t does next. A weak exchange may fail for no reason.
  ghost predicate Step(q: Queue, t: Thread, a: Action, q': Queue, pointer: Push -> Pointer)
    requires |q.buffer| == RING_SIZE
  {
    var l := LocalOf(q, t);
    match a
    case StartPush(k) => l.Idle? && k !in q.places && q' == Now(q, t, Pushing(k)).(places := q.places[k := With(t)])
    case ClaimFront =>
      l.Pushing? && q.head > -RING_SIZE && q' == Now(q, t, Writing(q.head - 1, l.item)).(head := q.head - 1)
    case Write =>
      l.Writing? &&
      var c := CellOf(l.slot);
      if q.buffer[c].None?
      then q' == Now(q, t, Idle).(buffer := q.buffer[c := Some(l.item)], places := q.places[l.item := InCell(c)])
      else q' == q
    case StartPop => l.Idle? && q' == Now(q, t, Probing(q.head))
    case Probe => l.Probing? && q' == Now(q, t, if l.slot >= 0 then Idle else Claiming(l.slot))
    case ClaimSlot(spurious) =>
      l.Claiming? &&
      if q.head == l.slot && !spurious then q' == Now(q, t, Draining(l.slot)).(head := q.head + 1)
      else q' == Now(q, t, Probing(q.head))
    case Load =>
      l.Draining? &&
      var cell := q.buffer[CellOf(l.slot)];
      q' == if cell.None? then q else Now(q, t, Taking(l.slot, pointer(cell.value)))
    case Take(spurious) =>
      l.Taking? &&
      var c := CellOf(l.slot);
      if q.buffer[c].Some? && pointer(q.buffer[c].value) == l.data && !spurious
      then q' == Now(q, t, Idle).(buffer := q.buffer[c := None], popped := q.popped + [q.buffer[c].value],
                                  places := q.places[q.buffer[c].value := Popped(t)])
      else q' == Now(q, t, Draining(l.slot))
  }

  // ---------------------------------------------------------------- counting at a cell

  predicate PushesTo(l: Local, c: int) { l.Writing? && CellOf(l.slot) == c }

  predicate PopsFrom(l: Local, c: int) { (l.Draining? || l.Taking?) && CellOf(l.slot) == c }

  function Pushers(q: Queue, c: int): set<Thread> { set t | t in q.threads && PushesTo(q.threads[t], c) }

  function Poppers(q: Queue, c: int): set<Thread> { set t | t in q.threads && PopsFrom(q.threads[t], c) }

  function Full(q: Queue, c: int): int
    requires 0 <= c < |q.buffer|
  {
    if q.buffer[c].Some? then 1 else 0
  }

  // Whether a slot from head up to the tail falls on the cell.
  function Live(head: int, c: int): int
  {
    if head + (c - head) % RING_SIZE < 0 then 1 else 0
  }

  // Pushes on their way and a full cell, against pops on their way and a slot in use.
  ghost predicate Balanced(q: Queue, c: int)
    requires 0 <= c < |q.buffer|
  {
    |Pushers(q, c)| + Full(q, c) == |Poppers(q, c)| + Live(q.head, c)
  }

  ghost predicate Inv(q: Queue)
  {
    |q.buffer| == RING_SIZE && -RING_SIZE <= q.head <= 0 && (forall c :: 0 <= c < RING_SIZE ==> Balanced(q, c)) &&
    (forall t :: ThreadOk(q, t)) && Accounted(q)
  }

  ghost predicate ThreadOk(q: Queue, t: Thread)
  {
    var l := LocalOf(q, t);
    (l.Claiming? ==> l.slot < 0) && (l.Pushing? || l.Writing? ==> l.item in q.places && q.places[l.item] == With(t))
  }

  // Every push is in one place, and that is where it really is.
  ghost predicate Accounted(q: Queue)
  {
    (forall k :: k in q.places ==> PlaceOk(q, k)) &&
    (forall c :: 0 <= c < |q.buffer| && q.buffer[c].Some? ==> CellOk(q, c)) &&
    (forall i :: 0 <= i < |q.popped| ==> PopOk(q, i)) && forall i, j :: 0 <= i < j < |q.popped| ==> q.popped[i] != q.popped[j]
  }

  ghost predicate PlaceOk(q: Queue, k: Push)
    requires k in q.places
  {
    match q.places[k]
    case With(t) => var l := LocalOf(q, t); (l.Pushing? || l.Writing?) && l.item == k
    case InCell(c) => 0 <= c < |q.buffer| && q.buffer[c] == Some(k)
    case Popped(_) => k in q.popped
  }

  ghost predicate CellOk(q: Queue, c: int)
    requires 0 <= c < |q.buffer| && q.buffer[c].Some?
  {
    q.buffer[c].value in q.places && q.places[q.buffer[c].value] == InCell(c)
  }

  ghost predicate PopOk(q: Queue, i: int)
    requires 0 <= i < |q.popped|
  {
    q.popped[i] in q.places && q.places[q.popped[i]].Popped?
  }

  // ---------------------------------------------------------------- every step keeps the balance

  lemma LiveShrinks(head: int, c: int)
    requires -RING_SIZE < head <= 0 && 0 <= c < RING_SIZE
    ensures Live(head - 1, c) == if c == CellOf(head - 1) then 1 else Live(head, c)
    ensures c == CellOf(head - 1) ==> Live(head, c) == 0
  {
  }

  // One thread joins or leaves.
  lemma OneMoves(before: set<Thread>, after: set<Thread>, t: Thread)
    requires forall u :: u != t ==> (u in after <==> u in before)
    ensures |after| == |before| + (if t in after then 1 else 0) - if t in before then 1 else 0
  {
    forall u ensures u in after - {t} <==> u in before - {t} {
    }
    assert after - {t} == before - {t};
    Without(before, t);
    Without(after, t);
  }

  lemma Without(s: set<Thread>, t: Thread)
    ensures |s| == |s - {t}| + if t in s then 1 else 0
  {
    if t !in s { assert s - {t} == s; }
  }

  lemma PushersMove(q: Queue, t: Thread, l: Local, q': Queue, c: int)
    requires q'.threads == q.threads[t := l]
    ensures var was, now := PushesTo(LocalOf(q, t), c), PushesTo(l, c);
            |Pushers(q', c)| == |Pushers(q, c)| + (if now then 1 else 0) - if was then 1 else 0
  {
    OneMoves(Pushers(q, c), Pushers(q', c), t);
  }

  lemma PoppersMove(q: Queue, t: Thread, l: Local, q': Queue, c: int)
    requires q'.threads == q.threads[t := l]
    ensures var was, now := PopsFrom(LocalOf(q, t), c), PopsFrom(l, c);
            |Poppers(q', c)| == |Poppers(q, c)| + (if now then 1 else 0) - if was then 1 else 0
  {
    OneMoves(Poppers(q, c), Poppers(q', c), t);
  }

  // What the balance of a cell needs to know of a queue.
  ghost predicate BalanceOk(q: Queue, c: int)
  {
    |q.buffer| == RING_SIZE && -RING_SIZE <= q.head <= 0 && 0 <= c < RING_SIZE && Balanced(q, c)
  }

  lemma FrontBalance(q: Queue, t: Thread, q': Queue, pointer: Push -> Pointer, c: int)
    requires BalanceOk(q, c) && Step(q, t, ClaimFront, q', pointer)
    ensures BalanceOk(q', c)
  {
    PushersMove(q, t, q'.threads[t], q', c);
    PoppersMove(q, t, q'.threads[t], q', c);
    LiveShrinks(q.head, c);
  }

  lemma SlotBalance(q: Queue, t: Thread, spurious: bool, q': Queue, pointer: Push -> Pointer, c: int)
    requires BalanceOk(q, c) && ThreadOk(q, t) && Step(q, t, ClaimSlot(spurious), q', pointer)
    ensures BalanceOk(q', c)
  {
    PushersMove(q, t, q'.threads[t], q', c);
    PoppersMove(q, t, q'.threads[t], q', c);
    if q'.head == q.head + 1 { LiveShrinks(q.head + 1, c); }
  }

  lemma CellBalance(q: Queue, t: Thread, a: Action, q': Queue, pointer: Push -> Pointer, c: int)
    requires BalanceOk(q, c) && Step(q, t, a, q', pointer) && !a.ClaimFront? && !a.ClaimSlot?
    ensures BalanceOk(q', c)
  {
    if q' != q {
      PushersMove(q, t, q'.threads[t], q', c);
      PoppersMove(q, t, q'.threads[t], q', c);
    }
  }

  lemma StepBalance(q: Queue, t: Thread, a: Action, q': Queue, pointer: Push -> Pointer, c: int)
    requires Inv(q) && Step(q, t, a, q', pointer) && 0 <= c < RING_SIZE
    ensures |q'.buffer| == RING_SIZE && -RING_SIZE <= q'.head <= 0 && Balanced(q', c)
  {
    assert BalanceOk(q, c) && ThreadOk(q, t);
    match a
    case ClaimFront => FrontBalance(q, t, q', pointer, c);
    case ClaimSlot(spurious) => SlotBalance(q, t, spurious, q', pointer, c);
    case _ => CellBalance(q, t, a, q', pointer, c);
  }

  // ---------------------------------------------------------------- every step keeps the accounts

  lemma StepThreads(q: Queue, t: Thread, a: Action, q': Queue, pointer: Push -> Pointer, u: Thread)
    requires Inv(q) && Step(q, t, a, q', pointer)
    ensures ThreadOk(q', u)
  {
    assert ThreadOk(q, t) && ThreadOk(q, u);
    if a.Write? && q' != q {
      assert PlaceOk(q, LocalOf(q, t).item);
    }
    if a.Take? && |q'.popped| > |q.popped| {
      assert CellOk(q, CellOf(LocalOf(q, t).slot));
    }
  }

  lemma WritePlace(q: Queue, t: Thread, q': Queue, pointer: Push -> Pointer, k: Push)
    requires Inv(q) && Step(q, t, Write, q', pointer) && k in q'.places
    ensures |q'.buffer| == RING_SIZE && PlaceOk(q', k)
  {
    assert ThreadOk(q, t) && PlaceOk(q, k);
    if q' != q && k != LocalOf(q, t).item {
      assert q.places[k] != With(t);
    }
  }

  lemma TakePlace(q: Queue, t: Thread, spurious: bool, q': Queue, pointer: Push -> Pointer, k: Push)
    requires Inv(q) && Step(q, t, Take(spurious), q', pointer) && k in q'.places
    ensures |q'.buffer| == RING_SIZE && PlaceOk(q', k)
  {
    assert ThreadOk(q, t);
    var c := CellOf(LocalOf(q, t).slot);
    if |q'.popped| > |q.popped| {
      assert CellOk(q, c) && PlaceOk(q, k);
      assert q'.popped[|q.popped|] == q.buffer[c].value;
      if k in q.popped {
        var i :| 0 <= i < |q.popped| && q.popped[i] == k;
        assert q'.popped[i] == k;
      }
    } else {
      assert PlaceOk(q, k);
    }
  }

  lemma StepPlaces(q: Queue, t: Thread, a: Action, q': Queue, pointer: Push -> Pointer, k: Push)
    requires Inv(q) && Step(q, t, a, q', pointer) && k in q'.places
    ensures |q'.buffer| == RING_SIZE && PlaceOk(q', k)
  {
    match a
    case Write => WritePlace(q, t, q', pointer, k);
    case Take(spurious) => TakePlace(q, t, spurious, q', pointer, k);
    case _ =>
      assert ThreadOk(q, t);
      if k in q.places { assert PlaceOk(q, k); }
  }

  lemma StepCells(q: Queue, t: Thread, a: Action, q': Queue, pointer: Push -> Pointer, c: int)
    requires Inv(q) && Step(q, t, a, q', pointer) && |q'.buffer| == RING_SIZE && 0 <= c < RING_SIZE && q'.buffer[c].Some?
    ensures CellOk(q', c)
  {
    assert ThreadOk(q, t);
    if q.buffer[c].Some? { assert CellOk(q, c); }
    if a.Take? && |q'.popped| > |q.popped| {
      assert CellOk(q, CellOf(LocalOf(q, t).slot));
    }
  }

  // Popped pushes stay popped, and a pop takes one that was not.
  lemma StepPops(q: Queue, t: Thread, a: Action, q': Queue, pointer: Push -> Pointer)
    requires Inv(q) && Step(q, t, a, q', pointer)
    ensures forall i :: 0 <= i < |q'.popped| ==> PopOk(q', i)
    ensures forall i, j :: 0 <= i < j < |q'.popped| ==> q'.popped[i] != q'.popped[j]
  {
    assert ThreadOk(q, t);
    forall i | 0 <= i < |q.popped| ensures PopOk(q', i) {
      assert PopOk(q, i);
    }
    if a.Take? && |q'.popped| > |q.popped| {
      var c := CellOf(LocalOf(q, t).slot);
      assert CellOk(q, c);
      forall i | 0 <= i < |q.popped| ensures q.popped[i] != q.buffer[c].value {
        assert PopOk(q, i);
      }
      assert q'.popped == q.popped + [q.buffer[c].value];
    }
  }

  lemma StepKeepsInv(q: Queue, t: Thread, a: Action, q': Queue, pointer: Push -> Pointer)
    requires Inv(q) && Step(q, t, a, q', pointer)
    ensures Inv(q')
  {
    StepBalance(q, t, a, q', pointer, 0);
    forall c | 0 <= c < RING_SIZE ensures Balanced(q', c) { StepBalance(q, t, a, q', pointer, c); }
    forall u ensures ThreadOk(q', u) { StepThreads(q, t, a, q', pointer, u); }
    forall k | k in q'.places ensures PlaceOk(q', k) { StepPlaces(q, t, a, q', pointer, k); }
    forall c | 0 <= c < RING_SIZE && q'.buffer[c].Some? ensures CellOk(q', c) { StepCells(q, t, a, q', pointer, c); }
    StepPops(q, t, a, q', pointer);
  }

  // ---------------------------------------------------------------- whole runs

  ghost predicate Run(s: seq<Queue>, ts: seq<Thread>, actions: seq<Action>, pointer: Push -> Pointer)
  {
    |s| == |ts| + 1 == |actions| + 1 && s[0] == Initial() && (forall i :: 0 <= i < |s| ==> |s[i].buffer| == RING_SIZE) &&
    forall i :: 0 <= i < |ts| ==> Step(s[i], ts[i], actions[i], s[i + 1], pointer)
  }

  lemma InitialInv()
    ensures Inv(Initial())
  {
    var q := Initial();
    forall c | 0 <= c < RING_SIZE ensures Balanced(q, c) {
      assert Pushers(q, c) == {} && Poppers(q, c) == {};
    }
  }

  lemma {:induction false} RunKeepsInv(s: seq<Queue>, ts: seq<Thread>, actions: seq<Action>, pointer: Push -> Pointer, n: nat)
    requires Run(s, ts, actions, pointer) && n < |s|
    ensures Inv(s[n]) && |s[n].buffer| == 0x40000 && -0x40000 <= s[n].head <= 0
  {
    if n == 0 {
      InitialInv();
    } else {
      RunKeepsInv(s, ts, actions, pointer, n - 1);
      assert Step(s[n - 1], ts[n - 1], actions[n - 1], s[n - 1 + 1], pointer);
      StepKeepsInv(s[n - 1], ts[n - 1], actions[n - 1], s[n], pointer);
    }
  }

  // Thread t has loaded head at moment m, in a pop, and has done nothing else up to moment n.
  ghost predicate Loaded(s: seq<Queue>, ts: seq<Thread>, actions: seq<Action>, t: Thread, slot: int, m: nat, n: nat)
  {
    m < n < |s| && |ts| == |actions| == |s| - 1 && ts[m] == t && (actions[m].StartPop? || LocalOf(s[m], t).Claiming?) &&
    s[m].head == slot && forall i :: m < i <= n ==> LocalOf(s[i], t) == Probing(slot)
  }

  lemma {:induction false} ProbingHasLoaded(s: seq<Queue>, ts: seq<Thread>, actions: seq<Action>, pointer: Push -> Pointer, t: Thread, n: nat)
    returns (m: nat)
    requires Run(s, ts, actions, pointer) && n < |s| && LocalOf(s[n], t).Probing?
    ensures Loaded(s, ts, actions, t, LocalOf(s[n], t).slot, m, n)
  {
    var p: nat := n - 1;
    assert s[p + 1] == s[n];
    assert Step(s[p], ts[p], actions[p], s[p + 1], pointer);
    if LocalOf(s[p], t) == LocalOf(s[n], t) && (ts[p] != t || !actions[p].ClaimSlot?) {
      m := ProbingHasLoaded(s, ts, actions, pointer, t, p);
    } else {
      m := p;
    }
  }

  // A pop that returns with nothing has seen an empty queue: at a moment after it started
  // the head was at the tail, so that no slot was in use.
  lemma EmptyPopSawEmpty(s: seq<Queue>, ts: seq<Thread>, actions: seq<Action>, pointer: Push -> Pointer, n: nat) returns (m: nat)
    requires Run(s, ts, actions, pointer) && n < |ts| && actions[n].Probe? && LocalOf(s[n + 1], ts[n]).Idle?
    ensures Loaded(s, ts, actions, ts[n], 0, m, n) && forall c :: 0 <= c < RING_SIZE ==> Live(s[m].head, c) == 0
  {
    assert Step(s[n], ts[n], actions[n], s[n + 1], pointer);
    m := ProbingHasLoaded(s, ts, actions, pointer, ts[n], n);
    RunKeepsInv(s, ts, actions, pointer, m);
  }

  // The pointer a pop returns is that of the push it takes out of the cell.
  lemma PopReturnsWhatItTakes(q: Queue, t: Thread, spurious: bool, q': Queue, pointer: Push -> Pointer)
    requires |q.buffer| == RING_SIZE && Step(q, t, Take(spurious), q', pointer) && LocalOf(q', t).Idle?
    ensures var l := LocalOf(q, t);
            l.Taking? && |q'.popped| == |q.popped| + 1 && pointer(q'.popped[|q.popped|]) == l.data &&
            q.buffer[l.slot % 0x40000] == Some(q'.popped[|q.popped|]) && q'.buffer == q.buffer[l.slot % 0x40000 := None]
  {
  }

  lemma Member(s: set<Thread>) returns (u: Thread)
    requires |s| > 0
    ensures u in s
  {
    assert (forall v :: v !in s) ==> s == {};
    u :| u in s;
  }

  // A pop that waits for an empty cell waits for a push that has claimed that cell and
  // has still to write it.
  lemma WaitingPopHasPusher(q: Queue, t: Thread)
    requires Inv(q) && (LocalOf(q, t).Draining? || LocalOf(q, t).Taking?) && q.buffer[CellOf(LocalOf(q, t).slot)].None?
    ensures exists u :: PushesTo(LocalOf(q, u), CellOf(LocalOf(q, t).slot))
  {
    var c := CellOf(LocalOf(q, t).slot);
    assert Balanced(q, c);
    assert t in Poppers(q, c);
    assert |Poppers(q, c)| > 0;
    assert |Pushers(q, c)| > 0;
    var u := Member(Pushers(q, c));
    assert PushesTo(LocalOf(q, u), c);
  }

  // A push that waits for a full cell waits for a pop that owns that cell.
  lemma BlockedPushHasPopper(q: Queue, t: Thread)
    requires Inv(q) && LocalOf(q, t).Writing? && q.buffer[CellOf(LocalOf(q, t).slot)].Some?
    ensures exists u :: PopsFrom(LocalOf(q, u), CellOf(LocalOf(q, t).slot))
  {
    var c := CellOf(LocalOf(q, t).slot);
    assert Balanced(q, c);
    assert t in Pushers(q, c);
    assert |Pushers(q, c)| > 0;
    assert |Poppers(q, c)| > 0;
    var u := Member(Poppers(q, c));
    assert PopsFrom(LocalOf(q, u), c);
  }

  // Nothing is lost: a push that was started is with the thread that started it, in
  // just one cell, or popped, just once.
  lemma NothingLost(q: Queue, k: Push)
    requires Inv(q) && k in q.places
    ensures match q.places[k]
            case With(t) => (LocalOf(q, t).Pushing? || LocalOf(q, t).Writing?) && LocalOf(q, t).item == k
            case InCell(c) => 0 <= c < RING_SIZE && q.buffer[c] == Some(k)
            case Popped(_) => k in q.popped
    ensures forall c :: 0 <= c < RING_SIZE && q.buffer[c] == Some(k) ==> q.places[k] == InCell(c)
    ensures k in q.popped ==> q.places[k].Popped?
    ensures forall i, j :: 0 <= i < |q.popped| && 0 <= j < |q.popped| && q.popped[i] == q.popped[j] == k ==> i == j
  {
    assert PlaceOk(q, k);
    forall c | 0 <= c < RING_SIZE && q.buffer[c] == Some(k) ensures q.places[k] == InCell(c) {
      assert CellOk(q, c);
    }
    if k in q.popped {
      var i :| 0 <= i < |q.popped| && q.popped[i] == k;
      assert PopOk(q, i);
    }
  }

  // When no operation is under way, the cells hold exactly the slots in use.
  lemma QuietIsExact(q: Queue, c: int)
    requires Inv(q) && 0 <= c < RING_SIZE && forall t :: LocalOf(q, t).Idle?
    ensures q.buffer[c].Some? <==> Live(q.head, c) == 1
  {
    assert Balanced(q, c);
    forall t ensures t !in Pushers(q, c) && t !in Poppers(q, c) { assert LocalOf(q, t).Idle?; }
    assert Pushers(q, c) == {} && Poppers(q, c) == {};
  }

  // ---------------------------------------------------------------- alone, it is a stack

  ghost predicate Quiet(q: Queue) { Inv(q) && forall t :: LocalOf(q, t).Idle? }

  // The cells of the slots in use, from the head to the tail.
  function Contents(q: Queue): seq<Option<Push>>
    requires |q.buffer| == RING_SIZE && q.head <= 0
  {
    seq(-q.head, i => q.buffer[CellOf(q.head + i)])
  }

  lemma OtherCell(slot: int, i: int)
    requires 0 < i < RING_SIZE
    ensures CellOf(slot + i) != CellOf(slot)
  {
  }

  lemma InFront(q: Queue, q': Queue, k: Push)
    requires |q.buffer| == RING_SIZE && -RING_SIZE < q.head <= 0 && q'.head == q.head - 1
    requires q'.buffer == q.buffer[CellOf(q'.head) := Some(k)]
    ensures Contents(q') == [Some(k)] + Contents(q)
  {
    var c, c' := Contents(q), Contents(q');
    forall i | 0 <= i < |c| ensures c'[i + 1] == c[i] {
      OtherCell(q'.head, i + 1);
    }
  }

  lemma FrontGone(q: Queue, q': Queue)
    requires |q.buffer| == RING_SIZE && -RING_SIZE <= q.head < 0 && q'.head == q.head + 1
    requires q'.buffer == q.buffer[CellOf(q.head) := None]
    ensures Contents(q') == Contents(q)[1..]
  {
    var c, c' := Contents(q), Contents(q');
    forall i | 0 <= i < |c'| ensures c'[i] == c[1..][i] {
      OtherCell(q.head, i + 1);
    }
  }

  // The free slot in front has an empty cell.
  lemma FrontIsEmpty(q: Queue)
    requires Quiet(q) && q.head > -RING_SIZE
    ensures q.buffer[CellOf(q.head - 1)].None?
  {
    LiveShrinks(q.head, CellOf(q.head - 1));
    QuietIsExact(q, CellOf(q.head - 1));
  }

  lemma HeadIsFull(q: Queue)
    requires Quiet(q) && q.head < 0
    ensures q.buffer[CellOf(q.head)].Some? && Contents(q)[0] == q.buffer[CellOf(q.head)]
  {
    QuietIsExact(q, CellOf(q.head));
  }

  // The steps of a push, one straight behind the other.
  ghost predicate PushAlone(s: seq<Queue>, t: Thread, k: Push, pointer: Push -> Pointer)
  {
    |s| == 4 && (forall i :: 0 <= i < 4 ==> |s[i].buffer| == RING_SIZE) &&
    Step(s[0], t, StartPush(k), s[1], pointer) && Step(s[1], t, ClaimFront, s[2], pointer) && Step(s[2], t, Write, s[3], pointer)
  }

  // And of a pop that finds something.
  ghost predicate PopAlone(s: seq<Queue>, t: Thread, pointer: Push -> Pointer)
  {
    |s| == 6 && (forall i :: 0 <= i < 6 ==> |s[i].buffer| == RING_SIZE) && s[0].head < 0 &&
    Step(s[0], t, StartPop, s[1], pointer) && Step(s[1], t, Probe, s[2], pointer) && Step(s[2], t, ClaimSlot(false), s[3], pointer) &&
    Step(s[3], t, Load, s[4], pointer) && Step(s[4], t, Take(false), s[5], pointer)
  }

  lemma PushSteps(s: seq<Queue>, t: Thread, k: Push, pointer: Push -> Pointer)
    requires |s| > 0 && Quiet(s[0]) && PushAlone(s, t, k, pointer)
    ensures s[0].head > -RING_SIZE && s[3].head == s[0].head - 1 && s[3].popped == s[0].popped
    ensures s[3].buffer == s[0].buffer[CellOf(s[3].head) := Some(k)] && forall u :: LocalOf(s[3], u).Idle?
  {
    FrontIsEmpty(s[0]);
    forall u ensures LocalOf(s[3], u).Idle? {
      assert LocalOf(s[0], u).Idle?;
    }
  }

  lemma PopSteps(s: seq<Queue>, t: Thread, pointer: Push -> Pointer)
    requires |s| > 0 && Quiet(s[0]) && PopAlone(s, t, pointer)
    ensures var cell := s[0].buffer[CellOf(s[0].head)];
            cell.Some? && s[5].popped == s[0].popped + [cell.value] && LocalOf(s[4], t) == Taking(s[0].head, pointer(cell.value))
    ensures s[5].head == s[0].head + 1 && s[5].buffer == s[0].buffer[CellOf(s[0].head) := None]
    ensures forall u :: LocalOf(s[5], u).Idle?
  {
    HeadIsFull(s[0]);
    forall u ensures LocalOf(s[5], u).Idle? {
      assert LocalOf(s[0], u).Idle?;
    }
  }

  // A push that nothing else comes between puts its item in front.
  lemma AlonePushes(s: seq<Queue>, t: Thread, k: Push, pointer: Push -> Pointer)
    requires |s| > 0 && Quiet(s[0]) && PushAlone(s, t, k, pointer)
    ensures Quiet(s[3]) && Contents(s[3]) == [Some(k)] + Contents(s[0]) && s[3].popped == s[0].popped
  {
    PushSteps(s, t, k, pointer);
    InFront(s[0], s[3], k);
    StepKeepsInv(s[0], t, StartPush(k), s[1], pointer);
    StepKeepsInv(s[1], t, ClaimFront, s[2], pointer);
    StepKeepsInv(s[2], t, Write, s[3], pointer);
  }

  // A pop that nothing else comes between takes the item in front.
  lemma AlonePops(s: seq<Queue>, t: Thread, pointer: Push -> Pointer)
    requires |s| > 0 && Quiet(s[0]) && PopAlone(s, t, pointer)
    ensures Contents(s[0]) != [] && Contents(s[0])[0].Some? && Quiet(s[5]) && Contents(s[5]) == Contents(s[0])[1..]
    ensures s[5].popped == s[0].popped + [Contents(s[0])[0].value]
    ensures LocalOf(s[4], t) == Taking(s[0].head, pointer(Contents(s[0])[0].value))
  {
    HeadIsFull(s[0]);
    PopSteps(s, t, pointer);
    FrontGone(s[0], s[5]);
    StepKeepsInv(s[0], t, StartPop, s[1], pointer);
    StepKeepsInv(s[1], t, Probe, s[2], pointer);
    StepKeepsInv(s[2], t, ClaimSlot(false), s[3], pointer);
    StepKeepsInv(s[3], t, Load, s[4], pointer);
    StepKeepsInv(s[4], t, Take(false), s[5], pointer);
  }
}
