// Tagged wait lists: one word per key holds the top of a linked list and, in its low
// bits, how many threads are working through a list taken from it. Inserts and takes
// run on any number of threads, one exchange at a time.
module WaitList {
  type Thread = int
  type Key = int
  type Address = int
  // One number for every node ever inserted.
  type Node = int

  const NULL: Address := 0
  // GETSET_WAIT_LIST_PARALLEL_PROCESSING
  const MAX_HOLDERS: int := 1

  // A table word: pointer bits and tag bits.
  datatype Word = Word(top: Address, tag: int)

  datatype Cell = Cell(next: Address, node: Node)

  datatype Local =
    | Idle
    | Inserting(key: Key, address: Address)               // has allocated the node
    | Linked(key: Key, address: Address, seen: Word)      // has set its next from the word it saw
    | Taking(key: Key, seen: Word)                        // has loaded the word
    | Holding(key: Key, rest: Address)                    // has swapped the list out and tagged the word

  datatype Place = With(thread: Thread) | Waiting(key: Key) | Held(thread: Thread) | Delivered

  datatype State = State(words: map<Key, Word>, heap: map<Address, Cell>, threads: map<Thread, Local>,
                         places: map<Node, Place>, delivered: seq<Node>)

  function Initial(): State { State(map[], map[], map[], map[], []) }

  // A key that is not in the table reads as 0.
  function WordOf(s: State, k: Key): Word
  {
    if k in s.words then s.words[k] else Word(NULL, 0)
  }

  function LocalOf(s: State, t: Thread): Local
  {
    if t in s.threads then s.threads[t] else Idle
  }

  function Now(s: State, t: Thread, l: Local): State { s.(threads := s.threads[t := l]) }

  datatype Action =
    | Allocate(key: Key, address: Address, node: Node) | Link | Insert
    | StartTake(key: Key) | Take | Deliver | Release

  // GetsetInsertTagged is Link and Insert, over again when the exchange fails;
  // UpdateWaitingQuery is Take, over again while the word is tagged or has changed,
  // then Deliver for every node and Release. Addresses may be used again once freed.
  ghost predicate Step(s: State, t: Thread, a: Action, s': State)
  {
    var l := LocalOf(s, t);
    match a
    case Allocate(k, p, n) =>
      l.Idle? && p != NULL && p !in s.heap && n !in s.places &&
      s' == Now(s, t, Inserting(k, p)).(heap := s.heap[p := Cell(NULL, n)], places := s.places[n := With(t)])
    case Link =>
      l.Inserting? && l.address in s.heap &&
      var seen := WordOf(s, l.key);
      s' == Now(s, t, Linked(l.key, l.address, seen)).(heap := s.heap[l.address := s.heap[l.address].(next := seen.top)])
    case Insert =>
      l.Linked? && l.address in s.heap &&
      if WordOf(s, l.key) == l.seen
      then s' == Now(s, t, Idle).(words := s.words[l.key := Word(l.address, l.seen.tag)],
                                  places := s.places[s.heap[l.address].node := Waiting(l.key)])
      else s' == Now(s, t, Inserting(l.key, l.address))
    case StartTake(k) => l.Idle? && s' == Now(s, t, Taking(k, WordOf(s, k)))
    case Take =>
      l.Taking? &&
      if l.seen.tag >= MAX_HOLDERS || (l.seen.top != NULL && WordOf(s, l.key) != l.seen)
      then s' == Now(s, t, Taking(l.key, WordOf(s, l.key)))
      else if l.seen.top == NULL then s' == Now(s, t, Idle)
      else s' == Now(s, t, Holding(l.key, l.seen.top)).(words := s.words[l.key := Word(NULL, l.seen.tag + 1)],
                                                        places := Moved(s.places, l.key, t))
    case Deliver =>
      l.Holding? && l.rest != NULL && l.rest in s.heap &&
      var cell := s.heap[l.rest];
      s' == Now(s, t, Holding(l.key, cell.next)).(heap := s.heap - {l.rest}, places := s.places[cell.node := Delivered],
                                                  delivered := s.delivered + [cell.node])
    case Release =>
      l.Holding? && l.rest == NULL &&
      var w := WordOf(s, l.key);
      s' == Now(s, t, Idle).(words := s.words[l.key := Word(w.top, w.tag - 1)])
  }

  // What waits for the key is now held by the thread.
  function Moved(places: map<Node, Place>, k: Key, t: Thread): map<Node, Place>
  {
    map n | n in places :: if places[n] == Waiting(k) then Held(t) else places[n]
  }

  // ---------------------------------------------------------------- lists in memory

  predicate IsList(heap: map<Address, Cell>, top: Address, l: seq<Address>)
    decreases l
  {
    if l == [] then top == NULL
    else top == l[0] && top != NULL && top in heap && IsList(heap, heap[top].next, l[1..])
  }

  lemma {:induction false} ListKept(heap: map<Address, Cell>, heap': map<Address, Cell>, top: Address, l: seq<Address>)
    requires IsList(heap, top, l) && forall p :: p in l ==> p in heap && p in heap' && heap'[p].next == heap[p].next
    ensures IsList(heap', top, l)
    decreases l
  {
    if l != [] {
      assert l[0] in l;
      forall p | p in l[1..] ensures p in l {
      }
      ListKept(heap, heap', heap[top].next, l[1..]);
    }
  }

  ghost predicate Distinct(l: seq<Address>) { forall i, j :: 0 <= i < j < |l| ==> l[i] != l[j] }

  lemma DistinctCons(p: Address, l: seq<Address>)
    requires Distinct(l) && p !in l
    ensures Distinct([p] + l)
  {
  }

  // ---------------------------------------------------------------- the invariant

  // The lists behind the words and in the hands of the holders.
  datatype Books = Books(waiting: map<Key, seq<Address>>, held: map<Thread, seq<Address>>)

  function WaitingOn(b: Books, k: Key): seq<Address> { if k in b.waiting then b.waiting[k] else [] }
  function HeldBy(b: Books, t: Thread): seq<Address> { if t in b.held then b.held[t] else [] }

  // The word's list, and its tag.
  ghost predicate KeyOk(s: State, b: Books, k: Key)
  {
    ListOk(s, k, WaitingOn(b, k)) && TagOk(s, k)
  }

  // The list of the nodes that wait under a key.
  ghost predicate ListOk(s: State, k: Key, l: seq<Address>)
  {
    IsList(s.heap, WordOf(s, k).top, l) && Distinct(l) && forall p :: p in l ==> At(s, p, Waiting(k))
  }

  // The tag of a key is 1 exactly while some thread holds a list of it, and one at most does.
  ghost predicate TagOk(s: State, k: Key)
  {
    0 <= WordOf(s, k).tag <= MAX_HOLDERS && (WordOf(s, k).tag == 1 <==> SomeHolder(s, k)) && OneHolder(s, k)
  }

  ghost predicate Holds(s: State, t: Thread, k: Key) { LocalOf(s, t).Holding? && LocalOf(s, t).key == k }

  ghost predicate SomeHolder(s: State, k: Key) { exists t :: Holds(s, t, k) }

  ghost predicate OneHolder(s: State, k: Key) { forall t, u :: Holds(s, t, k) && Holds(s, u, k) ==> t == u }

  // The node in memory at p is in this place.
  ghost predicate At(s: State, p: Address, place: Place)
  {
    p in s.heap && s.heap[p].node in s.places && s.places[s.heap[p].node] == place
  }

  ghost predicate ThreadOk(s: State, b: Books, t: Thread)
  {
    var l := LocalOf(s, t);
    (l.Inserting? || l.Linked? ==> l.address != NULL && At(s, l.address, With(t))) &&
    (l.Linked? ==> l.address in s.heap && s.heap[l.address].next == l.seen.top) &&
    (if l.Holding? then IsList(s.heap, l.rest, HeldBy(b, t)) else HeldBy(b, t) == []) &&
    Distinct(HeldBy(b, t)) && forall p :: p in HeldBy(b, t) ==> At(s, p, Held(t))
  }

  // A node in memory is in a list or with its inserter; a delivered one is not in memory.
  ghost predicate AddressOk(s: State, b: Books, p: Address)
    requires p in s.heap
  {
    s.heap[p].node in s.places &&
    match s.places[s.heap[p].node]
    case With(t) => var l := LocalOf(s, t); (l.Inserting? || l.Linked?) && l.address == p
    case Waiting(k) => p in WaitingOn(b, k)
    case Held(t) => p in HeldBy(b, t)
    case Delivered => false
  }

  ghost predicate NodeOk(s: State, n: Node)
    requires n in s.places
  {
    if s.places[n].Delivered? then n in s.delivered else exists p :: p in s.heap && s.heap[p].node == n
  }

  ghost predicate Inv(s: State, b: Books)
  {
    NULL !in s.heap && (forall k :: KeyOk(s, b, k)) && (forall t :: ThreadOk(s, b, t)) &&
    (forall p :: p in s.heap ==> AddressOk(s, b, p)) && (forall n :: n in s.places ==> NodeOk(s, n)) &&
    (forall p, q :: p in s.heap && q in s.heap && s.heap[p].node == s.heap[q].node ==> p == q) &&
    DeliveredOnce(s)
  }

  // Every node of the list was delivered, once.
  ghost predicate DeliveredOnce(s: State)
  {
    (forall i :: 0 <= i < |s.delivered| ==> s.delivered[i] in s.places && s.places[s.delivered[i]].Delivered?) &&
    forall i, j :: 0 <= i < j < |s.delivered| ==> s.delivered[i] != s.delivered[j]
  }

  // The lists after a step.
  ghost function Next(s: State, b: Books, t: Thread, a: Action): Books
  {
    var l := LocalOf(s, t);
    match a
    case Insert =>
      if l.Linked? && WordOf(s, l.key) == l.seen then b.(waiting := b.waiting[l.key := [l.address] + WaitingOn(b, l.key)]) else b
    case Take =>
      if l.Taking? && l.seen.tag < MAX_HOLDERS && l.seen.top != NULL && WordOf(s, l.key) == l.seen
      then Books(b.waiting[l.key := []], b.held[t := WaitingOn(b, l.key)]) else b
    case Deliver => if HeldBy(b, t) != [] then b.(held := b.held[t := HeldBy(b, t)[1..]]) else b
    case _ => b
  }

  // ---------------------------------------------------------------- every step keeps it

  // Memory changes only at nodes that are in no list, or at the head of the thread's own.
  lemma ListUntouched(s: State, b: Books, t: Thread, a: Action, s': State, top: Address, l: seq<Address>, place: Place)
    requires Inv(s, b) && Step(s, t, a, s') && IsList(s.heap, top, l) && forall p :: p in l ==> At(s, p, place)
    requires place.Waiting? || (place.Held? && place.thread != t)
    ensures IsList(s'.heap, top, l)
  {
    assert ThreadOk(s, b, t);
    forall p | p in l ensures p in s'.heap && s'.heap[p].next == s.heap[p].next {
      assert At(s, p, place);
      if a.Deliver? { HeadHeld(s, b, t); }
    }
    ListKept(s.heap, s'.heap, top, l);
  }

  lemma HeadHeld(s: State, b: Books, t: Thread)
    requires Inv(s, b) && LocalOf(s, t).Holding? && LocalOf(s, t).rest != NULL
    ensures var l := HeldBy(b, t); l != [] && l[0] == LocalOf(s, t).rest && At(s, l[0], Held(t))
    ensures IsList(s.heap, s.heap[HeldBy(b, t)[0]].next, HeldBy(b, t)[1..])
  {
    assert ThreadOk(s, b, t);
    var l := HeldBy(b, t);
    assert l[0] in l;
  }

  // A node somewhere else stays there.
  lemma PlaceUntouched(s: State, b: Books, t: Thread, a: Action, s': State, p: Address, place: Place)
    requires Inv(s, b) && Step(s, t, a, s') && At(s, p, place)
    requires place != With(t) && place != Held(t)
    requires !(place.Waiting? && a.Take? && LocalOf(s, t).key == place.key && s'.places != s.places)
    ensures At(s', p, place)
  {
    assert ThreadOk(s, b, t);
    if a.Deliver? { HeadHeld(s, b, t); }
  }

  lemma StepKeys(s: State, b: Books, t: Thread, a: Action, s': State, k: Key)
    requires Inv(s, b) && Step(s, t, a, s')
    ensures KeyOk(s', Next(s, b, t, a), k)
  {
    assert KeyOk(s, b, k);
    StepHolders(s, t, a, s', k);
    StepWaiting(s, b, t, a, s', k);
  }

  ghost predicate OnlyMoved(s: State, t: Thread, s': State) { forall u :: u != t ==> LocalOf(s', u) == LocalOf(s, u) }

  lemma OnlyOneMoves(s: State, t: Thread, a: Action, s': State)
    requires Step(s, t, a, s')
    ensures OnlyMoved(s, t, s')
  {
  }

  // Only the thread that steps can become or stop being a holder.
  lemma OthersHold(s: State, t: Thread, s': State, k: Key)
    requires OnlyMoved(s, t, s')
    ensures forall u :: u != t ==> (Holds(s', u, k) <==> Holds(s, u, k))
    ensures Holds(s, t, k) ==> SomeHolder(s, k)
    ensures Holds(s', t, k) ==> SomeHolder(s', k)
    ensures SomeHolder(s, k) && !Holds(s, t, k) ==> SomeHolder(s', k)
    ensures SomeHolder(s', k) && !Holds(s', t, k) ==> SomeHolder(s, k)
  {
    if SomeHolder(s, k) && !Holds(s, t, k) {
      var u :| Holds(s, u, k);
      assert Holds(s', u, k);
    }
    if SomeHolder(s', k) && !Holds(s', t, k) {
      var u :| Holds(s', u, k);
      assert Holds(s, u, k);
    }
  }

  lemma TakeHolders(s: State, t: Thread, s': State, k: Key)
    requires Step(s, t, Take, s') && TagOk(s, k)
    ensures TagOk(s', k)
  {
    OnlyOneMoves(s, t, Take, s');
    OthersHold(s, t, s', k);
    assert !Holds(s, t, k);
    forall u, v | Holds(s', u, k) && Holds(s', v, k) ensures u == v {
      if Holds(s', t, k) {
        assert u != t ==> Holds(s, u, k);
        assert v != t ==> Holds(s, v, k);
      } else {
        assert Holds(s, u, k) && Holds(s, v, k);
      }
    }
  }

  lemma ReleaseHolders(s: State, t: Thread, s': State, k: Key)
    requires Step(s, t, Release, s') && TagOk(s, k)
    ensures TagOk(s', k)
  {
    OnlyOneMoves(s, t, Release, s');
    OthersHold(s, t, s', k);
    forall u ensures Holds(s', u, k) ==> u != t && Holds(s, u, k) {
    }
    if Holds(s, t, k) { assert !SomeHolder(s', k); }
  }

  lemma OtherHolders(s: State, t: Thread, a: Action, s': State, k: Key)
    requires Step(s, t, a, s') && !a.Take? && !a.Release? && TagOk(s, k)
    ensures TagOk(s', k)
  {
    OnlyOneMoves(s, t, a, s');
    OthersHold(s, t, s', k);
    forall u ensures Holds(s', u, k) <==> Holds(s, u, k) {
    }
  }

  lemma StepHolders(s: State, t: Thread, a: Action, s': State, k: Key)
    requires Step(s, t, a, s') && TagOk(s, k)
    ensures TagOk(s', k)
  {
    if a.Take? {
      TakeHolders(s, t, s', k);
    } else if a.Release? {
      ReleaseHolders(s, t, s', k);
    } else {
      OtherHolders(s, t, a, s', k);
    }
  }

  lemma KeptWaiting(s: State, b: Books, t: Thread, a: Action, s': State, k: Key)
    requires Inv(s, b) && Step(s, t, a, s') && WaitingOn(Next(s, b, t, a), k) == WaitingOn(b, k)
    requires WordOf(s', k).top == WordOf(s, k).top && !(a.Take? && LocalOf(s, t).key == k && s'.places != s.places)
    ensures ListOk(s', k, WaitingOn(b, k))
  {
    var w := WaitingOn(b, k);
    assert KeyOk(s, b, k);
    ListUntouched(s, b, t, a, s', WordOf(s, k).top, w, Waiting(k));
    forall p | p in w ensures At(s', p, Waiting(k)) {
      PlaceUntouched(s, b, t, a, s', p, Waiting(k));
    }
  }

  // The node is on top, its next being what the word was.
  lemma InsertedWaiting(s: State, b: Books, t: Thread, s': State)
    requires Inv(s, b) && Step(s, t, Insert, s') && WordOf(s, LocalOf(s, t).key) == LocalOf(s, t).seen
    ensures ListOk(s', LocalOf(s, t).key, [LocalOf(s, t).address] + WaitingOn(b, LocalOf(s, t).key))
  {
    var l := LocalOf(s, t);
    var k, w := l.key, WaitingOn(b, l.key);
    assert KeyOk(s, b, k) && ThreadOk(s, b, t);
    ListUntouched(s, b, t, Insert, s', WordOf(s, k).top, w, Waiting(k));
    forall p | p in w ensures At(s', p, Waiting(k)) && p != l.address {
      assert At(s, p, Waiting(k));
      PlaceUntouched(s, b, t, Insert, s', p, Waiting(k));
    }
    DistinctCons(l.address, w);
    assert ([l.address] + w)[1..] == w;
  }

  lemma TakeWaiting(s: State, b: Books, t: Thread, s': State)
    requires Inv(s, b) && Step(s, t, Take, s')
    ensures ListOk(s', LocalOf(s, t).key, WaitingOn(Next(s, b, t, Take), LocalOf(s, t).key))
  {
    assert KeyOk(s, b, LocalOf(s, t).key);
  }

  lemma StepWaiting(s: State, b: Books, t: Thread, a: Action, s': State, k: Key)
    requires Inv(s, b) && Step(s, t, a, s')
    ensures ListOk(s', k, WaitingOn(Next(s, b, t, a), k))
  {
    var l := LocalOf(s, t);
    if a.Insert? && l.key == k && WordOf(s, k) == l.seen {
      InsertedWaiting(s, b, t, s');
    } else if a.Take? && l.key == k {
      TakeWaiting(s, b, t, s');
    } else {
      KeptWaiting(s, b, t, a, s', k);
    }
  }

  lemma StepThreads(s: State, b: Books, t: Thread, a: Action, s': State, u: Thread)
    requires Inv(s, b) && Step(s, t, a, s')
    ensures ThreadOk(s', Next(s, b, t, a), u)
  {
    assert ThreadOk(s, b, u) && ThreadOk(s, b, t);
    if u != t {
      StepOther(s, b, t, a, s', u);
    } else {
      StepSelf(s, b, t, a, s');
    }
  }

  lemma StepOther(s: State, b: Books, t: Thread, a: Action, s': State, u: Thread)
    requires Inv(s, b) && Step(s, t, a, s') && u != t
    ensures ThreadOk(s', Next(s, b, t, a), u)
  {
    assert ThreadOk(s, b, u) && ThreadOk(s, b, t);
    StepOtherNode(s, b, t, a, s', u);
    forall p | p in HeldBy(b, u) ensures At(s', p, Held(u)) {
      PlaceUntouched(s, b, t, a, s', p, Held(u));
    }
    if LocalOf(s, u).Holding? {
      ListUntouched(s, b, t, a, s', LocalOf(s, u).rest, HeldBy(b, u), Held(u));
    }
  }

  // The node another thread is inserting.
  lemma OtherNodeStays(s: State, b: Books, t: Thread, a: Action, s': State, u: Thread, p: Address)
    requires Inv(s, b) && Step(s, t, a, s') && u != t && At(s, p, With(u))
    ensures At(s', p, With(u)) && s'.heap[p].next == s.heap[p].next
  {
    assert ThreadOk(s, b, t);
    PlaceUntouched(s, b, t, a, s', p, With(u));
    if a.Deliver? { HeadHeld(s, b, t); }
  }

  lemma StepOtherNode(s: State, b: Books, t: Thread, a: Action, s': State, u: Thread)
    requires Inv(s, b) && Step(s, t, a, s') && u != t
    ensures var l := LocalOf(s, u);
            l == LocalOf(s', u) && (l.Inserting? || l.Linked? ==> At(s', l.address, With(u))) &&
            (l.Linked? ==> l.address in s'.heap && s'.heap[l.address].next == l.seen.top)
  {
    assert ThreadOk(s, b, u);
    OnlyOneMoves(s, t, a, s');
    var l := LocalOf(s, u);
    if l.Inserting? || l.Linked? { OtherNodeStays(s, b, t, a, s', u, l.address); }
  }

  lemma StepSelf(s: State, b: Books, t: Thread, a: Action, s': State)
    requires Inv(s, b) && Step(s, t, a, s')
    ensures ThreadOk(s', Next(s, b, t, a), t)
  {
    assert ThreadOk(s, b, t);
    var l := LocalOf(s, t);
    match a
    case Take =>
      assert KeyOk(s, b, l.key);
      if s'.places != s.places {
        forall p | p in WaitingOn(b, l.key) ensures At(s', p, Held(t)) {
          assert At(s, p, Waiting(l.key));
        }
      }
    case Deliver => DeliverSelf(s, b, t, s');
    case _ =>
  }

  lemma DeliverSelf(s: State, b: Books, t: Thread, s': State)
    requires Inv(s, b) && Step(s, t, Deliver, s')
    ensures ThreadOk(s', Next(s, b, t, Deliver), t)
  {
    assert ThreadOk(s, b, t);
    HeadHeld(s, b, t);
    var held := HeldBy(b, t);
    forall p | p in held[1..] ensures At(s', p, Held(t)) && p in s.heap && p in s'.heap && s'.heap[p].next == s.heap[p].next {
      var i :| 0 <= i < |held[1..]| && held[1..][i] == p;
      assert p == held[i + 1] && p in held && p != held[0];
      assert At(s, p, Held(t));
    }
    ListKept(s.heap, s'.heap, s.heap[held[0]].next, held[1..]);
  }

  lemma StepAddresses(s: State, b: Books, t: Thread, a: Action, s': State, p: Address)
    requires Inv(s, b) && Step(s, t, a, s') && p in s'.heap
    ensures AddressOk(s', Next(s, b, t, a), p)
  {
    assert ThreadOk(s, b, t);
    if p in s.heap { assert AddressOk(s, b, p); }
    match a
    case Take => TakeAddress(s, b, t, s', p);
    case Deliver => DeliverAddress(s, b, t, s', p);
    case _ =>
  }

  lemma TakeAddress(s: State, b: Books, t: Thread, s': State, p: Address)
    requires Inv(s, b) && Step(s, t, Take, s') && p in s'.heap
    ensures AddressOk(s', Next(s, b, t, Take), p)
  {
    assert ThreadOk(s, b, t) && AddressOk(s, b, p) && KeyOk(s, b, LocalOf(s, t).key);
  }

  lemma DeliverAddress(s: State, b: Books, t: Thread, s': State, p: Address)
    requires Inv(s, b) && Step(s, t, Deliver, s') && p in s'.heap
    ensures AddressOk(s', Next(s, b, t, Deliver), p)
  {
    assert ThreadOk(s, b, t) && AddressOk(s, b, p);
    HeadHeld(s, b, t);
    var held := HeldBy(b, t);
    if p in held {
      var i :| 0 <= i < |held| && held[i] == p;
      assert i > 0 && held[1..][i - 1] == p;
    }
  }

  lemma DeliverNode(s: State, b: Books, t: Thread, s': State, n: Node)
    requires Inv(s, b) && Step(s, t, Deliver, s') && n in s'.places && s'.places[n].Delivered?
    ensures n in s'.delivered
  {
    HeadHeld(s, b, t);
    assert s'.delivered[|s.delivered|] == s.heap[LocalOf(s, t).rest].node;
    if n in s.delivered {
      var i :| 0 <= i < |s.delivered| && s.delivered[i] == n;
      assert s'.delivered[i] == n;
    } else if n in s.places {
      assert NodeOk(s, n);
    }
  }

  // A node that is somewhere in memory stays there until it is delivered.
  lemma NodeStays(s: State, b: Books, t: Thread, a: Action, s': State, n: Node)
    requires Inv(s, b) && Step(s, t, a, s') && n in s.places && n in s'.places && !s'.places[n].Delivered?
    ensures exists p :: p in s'.heap && s'.heap[p].node == n
  {
    assert NodeOk(s, n) && ThreadOk(s, b, t);
    if s.places[n].Delivered? { DeliveredStays(s, b, t, a, s', n); }
    var p :| p in s.heap && s.heap[p].node == n;
    if a.Deliver? { HeadHeld(s, b, t); }
    assert p in s'.heap && s'.heap[p].node == n;
  }

  lemma StepNodes(s: State, b: Books, t: Thread, a: Action, s': State, n: Node)
    requires Inv(s, b) && Step(s, t, a, s') && n in s'.places
    ensures NodeOk(s', n)
  {
    if n !in s.places {
      NewNode(s, b, t, a, s', n);
    } else if !s'.places[n].Delivered? {
      NodeStays(s, b, t, a, s', n);
    } else if a.Deliver? {
      DeliverNode(s, b, t, s', n);
    } else {
      NotDelivered(s, b, t, a, s', n);
    }
  }

  lemma NewNode(s: State, b: Books, t: Thread, a: Action, s': State, n: Node)
    requires Inv(s, b) && Step(s, t, a, s') && n in s'.places && n !in s.places
    ensures NodeOk(s', n)
  {
    if a.Allocate? {
      assert s'.heap[a.address].node == n;
    } else {
      assert ThreadOk(s, b, t);
      if a.Deliver? { HeadHeld(s, b, t); }
    }
  }

  lemma NotDelivered(s: State, b: Books, t: Thread, a: Action, s': State, n: Node)
    requires Inv(s, b) && Step(s, t, a, s') && !a.Deliver? && n in s.places && n in s'.places && s'.places[n].Delivered?
    ensures n in s'.delivered
  {
    assert NodeOk(s, n);
  }

  lemma StepMemory(s: State, b: Books, t: Thread, a: Action, s': State)
    requires Inv(s, b) && Step(s, t, a, s')
    ensures NULL !in s'.heap
    ensures forall p, q :: p in s'.heap && q in s'.heap && s'.heap[p].node == s'.heap[q].node ==> p == q
  {
    forall p, q | p in s'.heap && q in s'.heap && s'.heap[p].node == s'.heap[q].node ensures p == q {
      SameNode(s, b, t, a, s', p);
      SameNode(s, b, t, a, s', q);
    }
  }

  // The nodes in memory are the old ones, and a new one if one was allocated.
  lemma SameNode(s: State, b: Books, t: Thread, a: Action, s': State, p: Address)
    requires Inv(s, b) && Step(s, t, a, s') && p in s'.heap
    ensures if p in s.heap then s'.heap[p].node == s.heap[p].node && s'.heap[p].node in s.places
            else a == Allocate(LocalOf(s', t).key, p, s'.heap[p].node) && s'.heap[p].node !in s.places
  {
    if p in s.heap { assert AddressOk(s, b, p); }
  }

  // A delivered node stays so.
  lemma DeliveredStays(s: State, b: Books, t: Thread, a: Action, s': State, n: Node)
    requires Inv(s, b) && Step(s, t, a, s') && n in s.places && s.places[n].Delivered?
    ensures n in s'.places && s'.places[n].Delivered?
  {
    assert ThreadOk(s, b, t);
  }

  // And only a node that was held is delivered.
  lemma StepDelivered(s: State, b: Books, t: Thread, a: Action, s': State)
    requires Inv(s, b) && Step(s, t, a, s')
    ensures DeliveredOnce(s')
  {
    if a.Deliver? { HeadHeld(s, b, t); }
    forall i | 0 <= i < |s.delivered|
      ensures s'.delivered[i] in s'.places && s'.places[s'.delivered[i]].Delivered?
    {
      DeliveredStays(s, b, t, a, s', s.delivered[i]);
    }
  }

  lemma StepKeepsInv(s: State, b: Books, t: Thread, a: Action, s': State)
    requires Inv(s, b) && Step(s, t, a, s')
    ensures Inv(s', Next(s, b, t, a))
  {
    var b' := Next(s, b, t, a);
    forall k ensures KeyOk(s', b', k) { StepKeys(s, b, t, a, s', k); }
    forall u ensures ThreadOk(s', b', u) { StepThreads(s, b, t, a, s', u); }
    forall p | p in s'.heap ensures AddressOk(s', b', p) { StepAddresses(s, b, t, a, s', p); }
    forall n | n in s'.places ensures NodeOk(s', n) { StepNodes(s, b, t, a, s', n); }
    StepMemory(s, b, t, a, s');
    StepDelivered(s, b, t, a, s');
  }

  // ---------------------------------------------------------------- whole runs

  ghost predicate Run(ss: seq<State>, ts: seq<Thread>, actions: seq<Action>)
  {
    |ss| == |ts| + 1 == |actions| + 1 && ss[0] == Initial() &&
    forall i :: 0 <= i < |ts| ==> Step(ss[i], ts[i], actions[i], ss[i + 1])
  }

  lemma {:induction false} RunKeepsInv(ss: seq<State>, ts: seq<Thread>, actions: seq<Action>, n: nat) returns (b: Books)
    requires Run(ss, ts, actions) && n < |ss|
    ensures Inv(ss[n], b)
  {
    if n == 0 {
      b := Books(map[], map[]);
    } else {
      var b0 := RunKeepsInv(ss, ts, actions, n - 1);
      assert Step(ss[n - 1], ts[n - 1], actions[n - 1], ss[n - 1 + 1]);
      StepKeepsInv(ss[n - 1], b0, ts[n - 1], actions[n - 1], ss[n]);
      b := Next(ss[n - 1], b0, ts[n - 1], actions[n - 1]);
    }
  }

  // The tag of a key is the number of threads working on its lists, and at most one does.
  lemma TagCountsHolders(s: State, b: Books, k: Key)
    requires Inv(s, b)
    ensures WordOf(s, k).tag == (if SomeHolder(s, k) then 1 else 0) && OneHolder(s, k)
  {
    assert KeyOk(s, b, k);
  }

  // A node whose insertion is over waits under its key, reachable from the word, or is in
  // the list of one holder, or has been delivered, once; and is in no two of these.
  lemma NodeIsSomewhere(s: State, b: Books, n: Node)
    requires Inv(s, b) && n in s.places
    ensures match s.places[n]
            case With(t) => LocalOf(s, t).Inserting? || LocalOf(s, t).Linked?
            case Waiting(k) => (exists p :: p in WaitingOn(b, k) && p in s.heap && s.heap[p].node == n) &&
                               IsList(s.heap, WordOf(s, k).top, WaitingOn(b, k))
            case Held(t) => LocalOf(s, t).Holding? && (exists p :: p in HeldBy(b, t) && p in s.heap && s.heap[p].node == n) &&
                            IsList(s.heap, LocalOf(s, t).rest, HeldBy(b, t))
            case Delivered => n in s.delivered
    ensures n in s.delivered ==> s.places[n].Delivered?
    ensures forall i, j :: 0 <= i < |s.delivered| && 0 <= j < |s.delivered| && s.delivered[i] == s.delivered[j] == n ==> i == j
  {
    assert NodeOk(s, n);
    if !s.places[n].Delivered? {
      var p :| p in s.heap && s.heap[p].node == n;
      assert AddressOk(s, b, p);
      match s.places[n]
      case Waiting(k) => assert KeyOk(s, b, k);
      case Held(t) => assert ThreadOk(s, b, t);
      case _ =>
    }
  }

  // A node leaves the list it was taken with only by being delivered.
  lemma HeldUntilDelivered(s: State, b: Books, t: Thread, a: Action, s': State, n: Node)
    requires Inv(s, b) && Step(s, t, a, s') && n in s.places
    ensures n in s'.places && (s.places[n].Delivered? ==> s'.places[n].Delivered?)
    ensures s.places[n].Held? ==> s'.places[n] == s.places[n] || s'.places[n].Delivered?
    ensures s.places[n].Waiting? ==> s'.places[n] == s.places[n] || s'.places[n] == Held(t)
  {
    assert ThreadOk(s, b, t) && NodeOk(s, n);
    if a.Deliver? { HeadHeld(s, b, t); }
  }

  // ---------------------------------------------------------------- what the operations do

  // An insert whose exchange finds the word it saw puts its node in front of those that
  // wait, and leaves the tag as it is.
  lemma InsertPutsInFront(s: State, b: Books, t: Thread, s': State)
    requires Inv(s, b) && Step(s, t, Insert, s') && WordOf(s, LocalOf(s, t).key) == LocalOf(s, t).seen
    ensures var l := LocalOf(s, t); var k := l.key;
            var list := [l.address] + WaitingOn(b, k);
            LocalOf(s', t).Idle? && IsList(s'.heap, WordOf(s', k).top, list) && WordOf(s', k).tag == WordOf(s, k).tag &&
            forall p :: p in list ==> At(s', p, Waiting(k))
  {
    InsertedWaiting(s, b, t, s');
  }

  // A take whose exchange finds the untagged word it saw gets everything that waits under
  // the key, and leaves an empty list with tag 1.
  lemma TakeGetsAll(s: State, b: Books, t: Thread, s': State)
    requires Inv(s, b) && Step(s, t, Take, s') && LocalOf(s, t).seen == WordOf(s, LocalOf(s, t).key)
    requires LocalOf(s, t).seen.tag == 0 && LocalOf(s, t).seen.top != NULL
    ensures var k := LocalOf(s, t).key;
            Holds(s', t, k) && WordOf(s', k) == Word(NULL, 1) && IsList(s'.heap, LocalOf(s', t).rest, WaitingOn(b, k)) &&
            forall p :: p in WaitingOn(b, k) ==> At(s', p, Held(t))
  {
    var b' := Next(s, b, t, Take);
    StepKeepsInv(s, b, t, Take, s');
    assert ThreadOk(s', b', t) && HeldBy(b', t) == WaitingOn(b, LocalOf(s, t).key);
  }

  // The holder can always go on: it delivers the node in front, or puts the tag back.
  lemma HolderGoesOn(s: State, b: Books, t: Thread)
    requires Inv(s, b) && LocalOf(s, t).Holding?
    ensures var k, l := LocalOf(s, t).key, HeldBy(b, t);
            if l == [] then exists s' :: Step(s, t, Release, s') && LocalOf(s', t).Idle? && WordOf(s', k).tag == 0
            else l[0] in s.heap && exists s' :: Step(s, t, Deliver, s') && s'.delivered == s.delivered + [s.heap[l[0]].node] &&
                                            IsList(s'.heap, LocalOf(s', t).rest, l[1..])
  {
    var l := LocalOf(s, t);
    assert ThreadOk(s, b, t);
    if HeldBy(b, t) == [] {
      var w := WordOf(s, l.key);
      var s' := Now(s, t, Idle).(words := s.words[l.key := Word(w.top, w.tag - 1)]);
      assert KeyOk(s, b, l.key) && Holds(s, t, l.key);
      assert Step(s, t, Release, s');
    } else {
      HeadHeld(s, b, t);
      var cell := s.heap[l.rest];
      var s' := Now(s, t, Holding(l.key, cell.next)).(heap := s.heap - {l.rest}, places := s.places[cell.node := Delivered],
                                                      delivered := s.delivered + [cell.node]);
      assert Step(s, t, Deliver, s');
      StepKeepsInv(s, b, t, Deliver, s');
      assert ThreadOk(s', Next(s, b, t, Deliver), t);
    }
  }
}
