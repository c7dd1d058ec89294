// One layer of a hash table: open addressing with linear probing.
module HashLayer {
  type Key = int

  datatype Slot = Empty | Entry(key: Key, value: int)

  type Slots = seq<Slot>

  // The j-th slot probed from home.
  function ProbeAt(home: nat, j: nat, size: nat): (r: nat)
    requires home < size && j < size
    ensures r < size
  {
    if home + j < size then home + j else home + j - size
  }

  // How many probes it takes from home to slot p.
  function Distance(home: nat, p: nat, size: nat): (r: nat)
    requires home < size && p < size
    ensures r < size && ProbeAt(home, r, size) == p
  {
    if home <= p then p - home else p + size - home
  }

  function Home(hash: Key -> nat, key: Key, size: nat): (r: nat)
    requires size > 0
    ensures r < size
  {
    hash(key) % size
  }

  // Every slot probed for the key before slot p holds another key.
  ghost predicate Leads(hash: Key -> nat, s: Slots, key: Key, p: nat)
    requires p < |s|
  {
    var home := Home(hash, key, |s|);
    forall j :: 0 <= j < Distance(home, p, |s|) ==> Passed(s, home, key, j)
  }

  ghost predicate Passed(s: Slots, home: nat, key: Key, j: nat)
    requires home < |s| && j < |s|
  {
    var slot := s[ProbeAt(home, j, |s|)];
    slot.Entry? && slot.key != key
  }

  // Each entry stands where probing for its key finds it.
  ghost predicate Reachable(hash: Key -> nat, s: Slots)
  {
    forall p :: 0 <= p < |s| && s[p].Entry? ==> Leads(hash, s, s[p].key, p)
  }

  ghost predicate OneEntryEach(s: Slots)
  {
    forall p, q :: 0 <= p < |s| && 0 <= q < |s| && s[p].Entry? && s[q].Entry? && s[p].key == s[q].key ==> p == q
  }

  ghost predicate ValidLayer(hash: Key -> nat, s: Slots)
  {
    |s| > 0 && Reachable(hash, s) && OneEntryEach(s)
  }

  ghost function Keys(s: Slots): set<Key>
  {
    set p | 0 <= p < |s| && s[p].Entry? :: s[p].key
  }

  ghost predicate Has(s: Slots, key: Key, value: int)
  {
    exists p :: 0 <= p < |s| && s[p] == Entry(key, value)
  }

  // The value a layer holds for a key, 0 when it holds none.
  ghost function ValueIn(s: Slots, key: Key): int
  {
    if v :| Has(s, key, v) then v else 0
  }

  lemma ValueAt(s: Slots, p: nat)
    requires OneEntryEach(s) && p < |s| && s[p].Entry?
    ensures ValueIn(s, s[p].key) == s[p].value && s[p].key in Keys(s)
  {
    assert Has(s, s[p].key, s[p].value);
  }

  lemma NoValue(s: Slots, key: Key)
    requires key !in Keys(s)
    ensures ValueIn(s, key) == 0
  {
  }

  // ---------------------------------------------------------------- a free slot

  ghost function KeysUpTo(s: Slots, n: nat): set<Key>
    requires n <= |s|
  {
    set p | 0 <= p < n && s[p].Entry? :: s[p].key
  }

  lemma {:induction false} FullCounts(s: Slots, n: nat)
    requires n <= |s| && OneEntryEach(s) && forall p :: 0 <= p < n ==> s[p].Entry?
    ensures |KeysUpTo(s, n)| == n
  {
    if n == 0 {
      assert KeysUpTo(s, 0) == {};
    } else {
      FullCounts(s, n - 1);
      OneMoreKey(s, n - 1, n);
    }
  }

  lemma OneMoreKey(s: Slots, n: nat, next: nat)
    requires next == n + 1 <= |s| && OneEntryEach(s) && s[n].Entry?
    ensures |KeysUpTo(s, next)| == |KeysUpTo(s, n)| + 1
  {
    assert KeysUpTo(s, next) == KeysUpTo(s, n) + {s[n].key};
    assert s[n].key !in KeysUpTo(s, n);
  }

  // Fewer keys than slots leave a slot free.
  lemma SomeFree(s: Slots) returns (p: nat)
    requires OneEntryEach(s) && |Keys(s)| < |s|
    ensures p < |s| && s[p].Empty?
  {
    assert Keys(s) == KeysUpTo(s, |s|);
    if forall q :: 0 <= q < |s| ==> s[q].Entry? {
      FullCounts(s, |s|);
    }
    p :| 0 <= p < |s| && s[p].Empty?;
  }

  // ---------------------------------------------------------------- probing

  // Where the probing loops stop: at the key, or at a free slot. It always ends.
  method Probe(hash: Key -> nat, s: Slots, key: Key) returns (p: nat)
    requires ValidLayer(hash, s) && |Keys(s)| < |s|
    ensures p < |s| && Leads(hash, s, key, p) && (s[p].Entry? ==> s[p].key == key)
    ensures s[p].Entry? <==> key in Keys(s)
  {
    var home := Home(hash, key, |s|);
    p := home;
    ghost var free := SomeFree(s);
    ghost var j, end := 0, Distance(home, free, |s|);
    while s[p].Entry? && s[p].key != key
      invariant 0 <= j <= end && p == ProbeAt(home, j, |s|)
      invariant forall i :: 0 <= i < j ==> Passed(s, home, key, i)
      decreases end - j
    {
      assert Passed(s, home, key, j);
      p := if p + 1 == |s| then 0 else p + 1;
      j := j + 1;
    }
    Stopped(hash, s, key, p, j);
  }

  lemma Stopped(hash: Key -> nat, s: Slots, key: Key, p: nat, j: nat)
    requires ValidLayer(hash, s) && j < |s| && p == ProbeAt(Home(hash, key, |s|), j, |s|)
    requires forall i :: 0 <= i < j ==> Passed(s, Home(hash, key, |s|), key, i)
    requires s[p].Entry? ==> s[p].key == key
    ensures Leads(hash, s, key, p) && (s[p].Entry? <==> key in Keys(s))
  {
    var home := Home(hash, key, |s|);
    assert Distance(home, p, |s|) == j;
    if key in Keys(s) {
      var q :| 0 <= q < |s| && s[q].Entry? && s[q].key == key;
      assert Leads(hash, s, key, q);
      var d := Distance(home, q, |s|);
      assert d < j ==> Passed(s, home, key, d);
      var passed := Passed(s, home, key, j);
      assert d <= j;
    }
  }

  // ---------------------------------------------------------------- writing a slot

  // A new value for a key that is there, or a new entry where probing stopped.
  lemma Written(hash: Key -> nat, s: Slots, key: Key, p: nat, value: int)
    requires ValidLayer(hash, s) && p < |s| && Leads(hash, s, key, p) && (s[p].Entry? ==> s[p].key == key)
    requires s[p].Entry? <==> key in Keys(s)
    ensures var s' := s[p := Entry(key, value)];
            ValidLayer(hash, s') && Keys(s') == Keys(s) + {key} && ValueIn(s', key) == value &&
            forall k :: k != key ==> ValueIn(s', k) == ValueIn(s, k)
  {
    var s' := s[p := Entry(key, value)];
    WrittenKeys(s, key, p, value);
    forall q | 0 <= q < |s'| && s'[q].Entry? ensures Leads(hash, s', s'[q].key, q) {
      WrittenLeads(hash, s, key, p, value, q);
    }
    ValueAt(s', p);
    forall k | k != key ensures ValueIn(s', k) == ValueIn(s, k) {
      OtherValue(s, key, p, value, k);
    }
  }

  lemma WrittenKeys(s: Slots, key: Key, p: nat, value: int)
    requires OneEntryEach(s) && p < |s| && (s[p].Entry? ==> s[p].key == key) && (s[p].Entry? <==> key in Keys(s))
    ensures var s' := s[p := Entry(key, value)]; OneEntryEach(s') && Keys(s') == Keys(s) + {key}
  {
    var s' := s[p := Entry(key, value)];
    forall q | 0 <= q < |s| && q != p && s[q].Entry? ensures s[q].key != key && s'[q] == s[q] {
      assert s[q].key in Keys(s);
    }
    assert s'[p].key in Keys(s');
    forall k ensures k in Keys(s') <==> k in Keys(s) + {key} {
      if k in Keys(s) {
        var q :| 0 <= q < |s| && s[q].Entry? && s[q].key == k;
        assert s'[q].Entry? && s'[q].key == k;
      }
    }
  }

  lemma WrittenLeads(hash: Key -> nat, s: Slots, key: Key, p: nat, value: int, q: nat)
    requires ValidLayer(hash, s) && p < |s| && Leads(hash, s, key, p) && (s[p].Entry? ==> s[p].key == key)
    requires q < |s| && (s[p := Entry(key, value)][q]).Entry? && (s[p].Entry? <==> key in Keys(s))
    ensures var s' := s[p := Entry(key, value)]; Leads(hash, s', s'[q].key, q)
  {
    var s' := s[p := Entry(key, value)];
    var k := s'[q].key;
    var home := Home(hash, k, |s|);
    forall j | 0 <= j < Distance(home, q, |s|) ensures Passed(s', home, k, j) {
      assert Leads(hash, s, k, q);
      assert Passed(s, home, k, j);
    }
  }

  lemma OtherValue(s: Slots, key: Key, p: nat, value: int, k: Key)
    requires p < |s| && OneEntryEach(s) && OneEntryEach(s[p := Entry(key, value)]) && (s[p].Entry? ==> s[p].key == key) && k != key
    ensures ValueIn(s[p := Entry(key, value)], k) == ValueIn(s, k)
  {
    var s' := s[p := Entry(key, value)];
    if q :| 0 <= q < |s| && s[q].Entry? && s[q].key == k {
      ValueAt(s, q);
      ValueAt(s', q);
    } else {
      NoValue(s, k);
      NoValue(s', k);
    }
  }
}
