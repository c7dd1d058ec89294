// The layered hash table, operations one at a time: a table that gets too full is
// kept behind a new one of twice the size, and keys move up when they are read.
module LayeredTable {
  import opened HashLayer

  const FIRST_SIZE: nat := 1024
  // GETSET_WAIT_LIST_VALUE_PROCESSING_TAG + 1: tags are the low four bits of a value.
  const TAGS: int := 16

  function Tag(value: int): int { value % TAGS }
  function Untagged(value: int): int { value - value % TAGS }

  // A value is a pointer, a multiple of 16, and a tag in its low four bits.
  lemma TaggedPointer(value: int)
    ensures value == Untagged(value) + Tag(value) && Untagged(value) % 16 == 0 && 0 <= Tag(value) < 16
  {
  }

  datatype Layer = Layer(slots: Slots, len: nat)

  ghost predicate LayerOk(hash: Key -> nat, l: Layer)
  {
    ValidLayer(hash, l.slots) && l.len == |Keys(l.slots)|
  }

  // The keys of the layer behind the newest one.
  ghost function Older(layers: seq<Layer>): set<Key>
  {
    if |layers| < 2 then {} else Keys(layers[1].slots)
  }

  // The keys the newest layer did not get from the ones behind it.
  ghost function Own(layers: seq<Layer>): set<Key>
    requires layers != []
  {
    Keys(layers[0].slots) - Older(layers)
  }

  // Newest layer first. Every layer has twice the slots of the one behind it and at
  // most a quarter, and one more, of keys that are not behind it too.
  ghost predicate Tower(hash: Key -> nat, layers: seq<Layer>)
  {
    layers != [] && LayerOk(hash, layers[0]) && |Own(layers)| <= |layers[0].slots| / 4 + 1 &&
    if |layers| == 1 then |layers[0].slots| == FIRST_SIZE
    else |layers[0].slots| == 2 * |layers[1].slots| && Tower(hash, layers[1..])
  }

  // The layer that takes inserts is not yet too full.
  ghost predicate Fresh(layers: seq<Layer>)
  {
    layers != [] && |Own(layers)| <= |layers[0].slots| / 4
  }

  // The plain map the layers stand for: the newest layer that has the key decides.
  ghost function Value(layers: seq<Layer>, key: Key): int
    requires layers != []
  {
    if key in Keys(layers[0].slots) then ValueIn(layers[0].slots, key)
    else if |layers| == 1 then 0 else Value(layers[1..], key)
  }

  // Every layer keeps free slots: about half of them, whatever is read into it.
  lemma {:induction false} RoomLeft(hash: Key -> nat, layers: seq<Layer>)
    requires Tower(hash, layers)
    ensures |Keys(layers[0].slots)| <= |layers[0].slots| / 2 - 256 + |layers|
    ensures |layers[0].slots| >= FIRST_SIZE && |layers[0].slots| % 4 == 0 && |layers[0].slots| >= 4 * |layers|
    ensures |Keys(layers[0].slots)| < |layers[0].slots|
    decreases |layers|
  {
    CardUnion(Keys(layers[0].slots), Own(layers), Older(layers));
    if |layers| > 1 {
      RoomLeft(hash, layers[1..]);
      assert layers[1..][0] == layers[1];
      HalfFull(|layers[0].slots|, |layers[1].slots|, |layers|, |Keys(layers[0].slots)|, |Own(layers)|, |Keys(layers[1].slots)|);
    }
  }

  lemma HalfFull(size: nat, older: nat, n: nat, keys: nat, own: nat, olderKeys: nat)
    requires size == 2 * older && older >= FIRST_SIZE && older % 4 == 0 && older >= 4 * (n - 1) && n > 1
    requires keys <= own + olderKeys && own <= size / 4 + 1 && olderKeys <= older / 2 - 256 + (n - 1)
    ensures keys <= size / 2 - 256 + n && size >= FIRST_SIZE && size % 4 == 0 && size >= 4 * n && keys < size
  {
  }

  lemma CardUnion(s: set<Key>, a: set<Key>, b: set<Key>)
    requires s <= a + b
    ensures |s| <= |a| + |b|
  {
    assert |a + b| == |a| + |b - a| by { assert a + b == a + (b - a); }
    CardSubset(b - a, b);
    CardSubset(s, a + b);
  }

  lemma CardSubset(a: set<Key>, b: set<Key>)
    requires a <= b
    ensures |a| <= |b|
  {
    assert b == a + (b - a);
  }

  // ---------------------------------------------------------------- one layer

  // hashtable_raw_update. The code asserts that a key it does not find is set from 0.
  method RawUpdate(hash: Key -> nat, l: Layer, key: Key, newValue: int, oldValue: int) returns (l': Layer, r: int)
    requires LayerOk(hash, l) && |Keys(l.slots)| < |l.slots| && (key in Keys(l.slots) || oldValue == 0)
    ensures LayerOk(hash, l') && |l'.slots| == |l.slots| && Keys(l'.slots) == Keys(l.slots) + {key}
    ensures r == ValueIn(l.slots, key)
    ensures ValueIn(l'.slots, key) == if r == oldValue then newValue else r
    ensures forall k :: k != key ==> ValueIn(l'.slots, k) == ValueIn(l.slots, k)
    ensures key in Keys(l.slots) ==> l'.len == l.len
  {
    var p := Probe(hash, l.slots, key);
    Written(hash, l.slots, key, p, newValue);
    if l.slots[p].Entry? {
      ValueAt(l.slots, p);
      assert Keys(l.slots) + {key} == Keys(l.slots);
      r := l.slots[p].value;
      l' := if r == oldValue then l.(slots := l.slots[p := Entry(key, newValue)]) else l;
    } else {
      NoValue(l.slots, key);
      r := 0;
      l' := Layer(l.slots[p := Entry(key, newValue)], l.len + 1);
    }
  }

  // ---------------------------------------------------------------- reading moves keys up

  // What a read leaves behind, with the value it found.
  ghost predicate ReadOk(hash: Key -> nat, before: seq<Layer>, after: seq<Layer>, key: Key, value: int)
  {
    before != [] && Tower(hash, after) && |after| == |before| && |after[0].slots| == |before[0].slots| &&
    value == Value(before, key) && (forall k :: Value(after, k) == Value(before, k)) &&
    Keys(before[0].slots) <= Keys(after[0].slots) <= Keys(before[0].slots) + {key} &&
    (value != 0 ==> key in Keys(after[0].slots)) && Own(after) <= Own(before)
  }

  // hashtable_get
  method Get(hash: Key -> nat, layers: seq<Layer>, key: Key) returns (layers': seq<Layer>, value: int)
    requires Tower(hash, layers)
    ensures ReadOk(hash, layers, layers', key, value)
    decreases |layers|
  {
    RoomLeft(hash, layers);
    var top := layers[0];
    var p := Probe(hash, top.slots, key);
    if top.slots[p].Entry? {
      ValueAt(top.slots, p);
      return layers, top.slots[p].value;
    }
    if |layers| == 1 {
      return layers, 0;
    }
    var older;
    older, value := Get(hash, layers[1..], key);
    OlderRead(hash, layers, older, key, value);
    layers' := [top] + older;
    if value != 0 {
      var res;
      top, res := RawUpdate(hash, top, key, value, 0);
      NoValue(layers[0].slots, key);
      assert res == 0;
      layers' := [top] + older;
      MovedUp(hash, layers, older, top, key, value);
    }
  }

  lemma OlderRead(hash: Key -> nat, layers: seq<Layer>, older: seq<Layer>, key: Key, value: int)
    requires Tower(hash, layers) && |layers| > 1 && ReadOk(hash, layers[1..], older, key, value) && key !in Keys(layers[0].slots)
    ensures var after := [layers[0]] + older;
            Tower(hash, after) && (forall k :: Value(after, k) == Value(layers, k)) && value == Value(layers, key) &&
            Own(after) <= Own(layers) && after[1..] == older && |Keys(layers[0].slots)| < |layers[0].slots|
  {
    var after := [layers[0]] + older;
    assert after[1..] == older && after[1] == older[0] && layers[1..][0] == layers[1];
    CardSubset(Own(after), Own(layers));
    RoomLeft(hash, layers);
  }

  // The key in the newest layer too, with the value from behind it.
  lemma MovedUp(hash: Key -> nat, layers: seq<Layer>, older: seq<Layer>, top: Layer, key: Key, value: int)
    requires Tower(hash, layers) && |layers| > 1 && ReadOk(hash, layers[1..], older, key, value) && key !in Keys(layers[0].slots)
    requires LayerOk(hash, top) && |top.slots| == |layers[0].slots| && Keys(top.slots) == Keys(layers[0].slots) + {key} && value != 0
    requires ValueIn(top.slots, key) == value && forall k :: k != key ==> ValueIn(top.slots, k) == ValueIn(layers[0].slots, k)
    ensures ReadOk(hash, layers, [top] + older, key, value)
  {
    var after := [top] + older;
    OlderRead(hash, layers, older, key, value);
    assert after[1..] == older && after[1] == older[0] && layers[1..][0] == layers[1];
    CardSubset(Own(after), Own(layers));
    forall k ensures Value(after, k) == Value(layers, k) {
      SameValue(layers, older, top, key, value, k);
    }
  }

  lemma SameValue(layers: seq<Layer>, older: seq<Layer>, top: Layer, key: Key, value: int, k: Key)
    requires |layers| > 1 && older != [] && Value(layers[1..], k) == Value(older, k) && Value(layers[1..], key) == value
    requires key !in Keys(layers[0].slots) && Keys(top.slots) == Keys(layers[0].slots) + {key} && ValueIn(top.slots, key) == value
    requires k != key ==> ValueIn(top.slots, k) == ValueIn(layers[0].slots, k)
    ensures Value([top] + older, k) == Value(layers, k)
  {
    assert ([top] + older)[1..] == older;
  }

  // ---------------------------------------------------------------- the table

  // With the key, more than a quarter of the slots are used.
  ghost predicate OverQuarter(l: Layer, key: Key)
  {
    |Keys(l.slots) + {key}| > |l.slots| / 4
  }

  // A new layer without keys on top, with twice the slots.
  ghost predicate Doubled(before: seq<Layer>, after: seq<Layer>)
  {
    before != [] && |after| == |before| + 1 && Keys(after[0].slots) == {} && after[0].len == 0 &&
    |after[0].slots| == 2 * |before[0].slots| && |after[1].slots| == |before[0].slots|
  }

  lemma QuarterUsed(hash: Key -> nat, l: Layer, l': Layer, key: Key)
    requires LayerOk(hash, l') && Keys(l'.slots) == Keys(l.slots) + {key} && |l'.slots| == |l.slots|
    ensures l'.len > |l'.slots| / 4 <==> OverQuarter(l, key)
  {
  }

  // Doubled exactly if a 0 was replaced and too much is used; otherwise as large as before.
  ghost predicate SizeAfter(before: seq<Layer>, after: seq<Layer>, key: Key, replacedZero: bool)
  {
    before != [] && after != [] &&
    if replacedZero && OverQuarter(before[0], key) then Doubled(before, after)
    else |after| == |before| && |after[0].slots| == |before[0].slots|
  }

  class Table {
    const hash: Key -> nat
    var layers: seq<Layer>

    constructor (hash: Key -> nat)
      ensures this.hash == hash && Valid() && forall k :: Value(layers, k) == 0
      ensures |layers| == 1 && |layers[0].slots| == 1024
    {
      this.hash := hash;
      layers := [Layer(seq(FIRST_SIZE, _ => Empty), 0)];
      new;
      EmptyLayer(hash, layers[0]);
      forall k ensures Value(layers, k) == 0 { NoValue(layers[0].slots, k); }
    }

    ghost predicate Valid()
      reads this
    {
      Tower(hash, layers) && Fresh(layers)
    }

    // GetHashtable
    method Read(key: Key) returns (value: int)
      requires Valid()
      modifies this
      ensures Valid() && value == Value(old(layers), key) && forall k :: Value(layers, k) == Value(old(layers), k)
      ensures value != 0 ==> key in Keys(layers[0].slots)
      ensures Keys(old(layers)[0].slots) <= Keys(layers[0].slots)
    {
      ghost var before := layers;
      layers, value := Get(hash, layers, key);
      CardSubset(Own(layers), Own(before));
    }

    // An empty layer of twice the size on top.
    method Grow()
      requires Tower(hash, layers)
      modifies this
      ensures Valid() && forall k :: Value(layers, k) == Value(old(layers), k)
      ensures Doubled(old(layers), layers)
    {
      var nt := Layer(seq(2 * |layers[0].slots|, _ => Empty), 0);
      EmptyLayer(hash, nt);
      Grown(hash, layers, nt);
      layers := [nt] + layers;
    }

    // SetHashtable. The code asserts that a key that is not in the newest layer is set from 0.
    method Set(key: Key, newValue: int, oldValue: int) returns (r: int)
      requires Valid() && (key in Keys(layers[0].slots) || oldValue == 0)
      modifies this
      ensures Valid() && r == ValueIn(old(layers)[0].slots, key)
      ensures Value(layers, key) == if r == oldValue then newValue else r
      ensures forall k :: k != key ==> Value(layers, k) == Value(old(layers), k)
      ensures SizeAfter(old(layers), layers, key, r == 0 && oldValue == 0)
    {
      ghost var before := layers;
      RoomLeft(hash, layers);
      var h;
      h, r := RawUpdate(hash, layers[0], key, newValue, oldValue);
      layers := [h] + layers[1..];
      NewestWritten(hash, before, layers, key);
      QuarterUsed(hash, before[0], h, key);
      if r == 0 && oldValue == 0 && h.len > |h.slots| / 4 {
        Grow();
      } else {
        StillFresh(before, layers, key);
      }
    }

    // TakeTaggedHashtable with the mask of the low tag bits; `waits` when the code would
    // spin until the tag is below compareto.
    method TakeTagged(key: Key, compareto: int) returns (waits: bool, r: int)
      requires Valid() && compareto > 0
      modifies this
      ensures Valid() && forall k :: k != key ==> Value(layers, k) == Value(old(layers), k)
      ensures var v := Value(old(layers), key);
              waits == (Tag(v) >= compareto) &&
              (!waits ==> r == Untagged(v)) && (waits || r == 0 ==> Value(layers, key) == v) &&
              (!waits && r != 0 ==> Value(layers, key) == Tag(v) + 1)
    {
      r := Read(key);
      if r == 0 { return false, 0; }
      if Tag(r) >= compareto { return true, 0; }
      ghost var before := layers;
      var v := r;
      r := Untagged(v);
      if r != 0 {
        Overwrite(key, Tag(v) + 1);
      }
      waits := false;
    }

    // An exchange of the slot of a key that is in the newest layer.
    method Overwrite(key: Key, value: int)
      requires Valid() && key in Keys(layers[0].slots)
      modifies this
      ensures Valid() && Value(layers, key) == value && forall k :: k != key ==> Value(layers, k) == Value(old(layers), k)
      ensures Keys(layers[0].slots) == Keys(old(layers)[0].slots)
    {
      ghost var before := layers;
      RoomLeft(hash, layers);
      var h := layers[0];
      var p := Probe(hash, h.slots, key);
      Written(hash, h.slots, key, p, value);
      assert Keys(h.slots) + {key} == Keys(h.slots);
      layers := [h.(slots := h.slots[p := Entry(key, value)])] + layers[1..];
      NewestWritten(hash, before, layers, key);
      StillFresh(before, layers, key);
    }

    // AddHashtable. A key that reads as 0 is added to only if the newest layer has it. `wide`
    // is the build with 16-byte exchanges, which returns the new value there.
    method Add(key: Key, delta: int, wide: bool) returns (r: int)
      requires Valid()
      modifies this
      ensures Valid() && forall k :: k != key ==> Value(layers, k) == Value(old(layers), k)
      ensures var v, there := Value(old(layers), key), key in Keys(old(layers)[0].slots);
              r == (if !there && v == 0 then 0 else if there && !wide then v else v + delta) &&
              Value(layers, key) == if there || v != 0 then v + delta else v
    {
      RoomLeft(hash, layers);
      var p := Probe(hash, layers[0].slots, key);
      if layers[0].slots[p].Entry? {
        ValueAt(layers[0].slots, p);
        var value := layers[0].slots[p].value;
        Overwrite(key, value + delta);
        r := if wide then value + delta else value;
      } else {
        var val := Read(key);
        if val == 0 { return 0; }
        r := val + delta;
        Overwrite(key, r);
      }
    }
  }

  lemma OlderSame(before: seq<Layer>, after: seq<Layer>)
    requires before != [] && |after| == |before| && after[1..] == before[1..]
    ensures Older(after) == Older(before)
  {
    assert |before| > 1 ==> after[1] == after[1..][0] && before[1] == before[1..][0];
  }

  // The newest layer with one key written: the rest of the tower is as it was.
  lemma OtherKey(before: seq<Layer>, after: seq<Layer>, k: Key)
    requires before != [] && after != [] && |after| == |before| && after[1..] == before[1..]
    requires ValueIn(after[0].slots, k) == ValueIn(before[0].slots, k) && (k in Keys(after[0].slots) <==> k in Keys(before[0].slots))
    ensures Value(after, k) == Value(before, k)
  {
  }

  lemma NewestWritten(hash: Key -> nat, before: seq<Layer>, after: seq<Layer>, key: Key)
    requires Tower(hash, before) && Fresh(before) && |after| == |before| && after[1..] == before[1..]
    requires LayerOk(hash, after[0]) && |after[0].slots| == |before[0].slots| && Keys(after[0].slots) == Keys(before[0].slots) + {key}
    requires forall k :: k != key ==> ValueIn(after[0].slots, k) == ValueIn(before[0].slots, k)
    ensures Tower(hash, after) && Value(after, key) == ValueIn(after[0].slots, key)
    ensures forall k :: k != key ==> Value(after, k) == Value(before, k)
  {
    OlderSame(before, after);
    var own, own' := Own(before), Own(after);
    assert own' <= own + {key};
    CardUnion(own', own, {key});
    assert |before| > 1 ==> after[1] == after[1..][0] && before[1] == before[1..][0];
    forall k | k != key ensures Value(after, k) == Value(before, k) {
      OtherKey(before, after, k);
    }
  }

  // It still takes inserts: the key was there already, or it is no more than a quarter full.
  lemma StillFresh(before: seq<Layer>, after: seq<Layer>, key: Key)
    requires Fresh(before) && |after| == |before| && after[1..] == before[1..] && |after[0].slots| == |before[0].slots|
    requires Keys(after[0].slots) == Keys(before[0].slots) + {key}
    requires key in Keys(before[0].slots) || |Keys(after[0].slots)| <= |after[0].slots| / 4
    ensures Fresh(after)
  {
    OlderSame(before, after);
    if key in Keys(before[0].slots) {
      assert Keys(after[0].slots) == Keys(before[0].slots);
    } else {
      CardSubset(Own(after), Keys(after[0].slots));
    }
  }

  lemma Grown(hash: Key -> nat, layers: seq<Layer>, nt: Layer)
    requires Tower(hash, layers) && LayerOk(hash, nt) && Keys(nt.slots) == {} && |nt.slots| == 2 * |layers[0].slots|
    ensures Tower(hash, [nt] + layers) && Fresh([nt] + layers) && forall k :: Value([nt] + layers, k) == Value(layers, k)
  {
    assert ([nt] + layers)[1..] == layers;
    assert Own([nt] + layers) == {};
  }

  // ---------------------------------------------------------------- set as compare-and-set

  // What SetHashtable does with this key, newest layer first: its result and the new value.
  ghost function SetResult(layers: seq<Layer>, key: Key): int
    requires layers != []
  {
    ValueIn(layers[0].slots, key)
  }

  // Compared with the table's value, not the newest layer's: the result is the value, and
  // the new value is stored exactly if that was the expected one.
  ghost predicate ComparesAndSets(layers: seq<Layer>, key: Key, newValue: int, oldValue: int)
    requires layers != []
  {
    var v, r := Value(layers, key), SetResult(layers, key);
    r == v && (if r == oldValue then newValue else r) == if v == oldValue then newValue else v
  }

  // A set the code does not stop at its assert is a compare-and-set exactly when the
  // newest layer has the key or the table's value is 0; so it is one after a get.
  lemma SetIsCompareAndSet(layers: seq<Layer>, key: Key, newValue: int, oldValue: int)
    requires layers != [] && (key in Keys(layers[0].slots) || oldValue == 0)
    ensures ComparesAndSets(layers, key, newValue, oldValue) <==> key in Keys(layers[0].slots) || Value(layers, key) == 0
  {
    if key !in Keys(layers[0].slots) { NoValue(layers[0].slots, key); }
  }

  // Without the get it can overwrite a value that is not the expected one.
  lemma BlindSetOverwrites(hash: Key -> nat, behind: seq<Layer>, key: Key, nt: Layer)
    requires Tower(hash, behind) && Value(behind, key) != 0 && Keys(nt.slots) == {}
    ensures !ComparesAndSets([nt] + behind, key, 1, 0)
  {
    assert ([nt] + behind)[1..] == behind;
    NoValue(nt.slots, key);
  }

  lemma EmptyLayer(hash: Key -> nat, l: Layer)
    requires |l.slots| > 0 && l.len == 0 && forall p :: 0 <= p < |l.slots| ==> l.slots[p].Empty?
    ensures LayerOk(hash, l) && Keys(l.slots) == {}
  {
  }
}