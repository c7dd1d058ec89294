// InsertJumpInstructions: jumps are left out of the code while it is generated, then
// widened to a fixpoint and inserted back to front, in place.
module JumpInsertion {
  import opened Wrappers
  import opened Ir
  import opened Processor
  import opened JumpEncoding

  // A jump to be inserted before the byte at codePos; codeOrder ranks things that
  // stand at the same byte.
  datatype JumpInstruction = JumpInstruction(kind: Kind, codePos: nat, codeOrder: int, dest: Id)

  type Key = (int, int)

  const NOWHERE: Key := (-1, 0)

  predicate KeyLe(a: Key, b: Key)
  {
    a.0 < b.0 || (a.0 == b.0 && a.1 <= b.1)
  }

  function KeyOf(j: JumpInstruction): Key { (j.codePos, j.codeOrder) }

  ghost predicate Ordered(jumps: seq<JumpInstruction>)
  {
    forall i, j :: 0 <= i <= j < |jumps| ==> KeyLe(KeyOf(jumps[i]), KeyOf(jumps[j]))
  }

  predicate Variants(jumps: seq<JumpInstruction>, short: seq<int>)
  {
    |short| == |jumps| && forall i :: 0 <= i < |short| ==> 0 <= short[i] <= 1
  }

  // Bytes added by the first i jumps.
  function Added(jumps: seq<JumpInstruction>, short: seq<int>, i: nat): (r: nat)
    requires Variants(jumps, short) && i <= |jumps|
    ensures r <= 6 * i
  {
    if i == 0 then 0 else Added(jumps, short, i - 1) + SizeOf(jumps[i - 1].kind, short[i - 1])
  }

  // How many jumps come up to the key.
  ghost function CountUpTo(jumps: seq<JumpInstruction>, key: Key, n: nat): (r: nat)
    requires n <= |jumps|
    ensures r <= n && (r > 0 ==> KeyLe(KeyOf(jumps[r - 1]), key)) && forall i :: r <= i < n ==> !KeyLe(KeyOf(jumps[i]), key)
  {
    if n == 0 || KeyLe(KeyOf(jumps[n - 1]), key) then n else CountUpTo(jumps, key, n - 1)
  }

  // Bytes added before whatever has the key.
  ghost function Shift(jumps: seq<JumpInstruction>, short: seq<int>, key: Key): nat
    requires Variants(jumps, short)
  {
    Added(jumps, short, CountUpTo(jumps, key, |jumps|))
  }

  ghost function Current(jumps: seq<JumpInstruction>, short: seq<int>, i: nat): nat
    requires Variants(jumps, short) && i < |jumps|
  {
    jumps[i].codePos + Added(jumps, short, i)
  }

  // ---------------------------------------------------------------- the offsets map

  // offsets[key] counts every jump with that key or an earlier one.
  ghost predicate OffsetsRight(jumps: seq<JumpInstruction>, short: seq<int>, offsets: map<Key, int>, n: nat)
    requires Variants(jumps, short) && n <= |jumps|
  {
    NOWHERE in offsets && offsets[NOWHERE] == 0 &&
    (forall key :: key in offsets ==> key == NOWHERE || exists i :: 0 <= i < |jumps| && KeyOf(jumps[i]) == key) &&
    forall i :: 0 <= i < n ==> OffsetRight(jumps, short, offsets, n, i)
  }

  ghost predicate OffsetRight(jumps: seq<JumpInstruction>, short: seq<int>, offsets: map<Key, int>, n: nat, i: nat)
    requires Variants(jumps, short) && i < n <= |jumps|
  {
    KeyOf(jumps[i]) in offsets &&
    (i + 1 == n || KeyOf(jumps[i + 1]) != KeyOf(jumps[i]) ==> offsets[KeyOf(jumps[i])] == Added(jumps, short, i + 1))
  }

  method FillOffsets(jumps: seq<JumpInstruction>, short: seq<int>, before: map<Key, int>)
    returns (offsets: map<Key, int>, current: seq<int>, total: int)
    requires Variants(jumps, short) && Ordered(jumps)
    requires forall key :: key in before ==> key == NOWHERE || exists i :: 0 <= i < |jumps| && KeyOf(jumps[i]) == key
    ensures OffsetsRight(jumps, short, offsets, |jumps|) && total == Added(jumps, short, |jumps|)
    ensures |current| == |jumps| && forall i :: 0 <= i < |jumps| ==> current[i] == Current(jumps, short, i)
  {
    offsets := before[NOWHERE := 0];
    current, total := [], 0;
    for id := 0 to |jumps|
      invariant total == Added(jumps, short, id) && OffsetsRight(jumps, short, offsets, id)
      invariant |current| == id && forall i :: 0 <= i < id ==> current[i] == Current(jumps, short, i)
    {
      current := current + [jumps[id].codePos + total];
      total := total + JmpSize(jumps[id].kind, 0, short[id]).0;
      ghost var last := offsets;
      offsets := offsets[KeyOf(jumps[id]) := total];
      OneMoreOffset(jumps, short, last, offsets, id, id + 1);
    }
  }

  lemma OneMoreOffset(jumps: seq<JumpInstruction>, short: seq<int>, last: map<Key, int>, offsets: map<Key, int>, n: nat, n1: nat)
    requires Variants(jumps, short) && Ordered(jumps) && n < |jumps| && n1 == n + 1 && OffsetsRight(jumps, short, last, n)
    requires offsets == last[KeyOf(jumps[n]) := Added(jumps, short, n1)]
    ensures OffsetsRight(jumps, short, offsets, n1)
  {
    forall i | 0 <= i < n1 ensures OffsetRight(jumps, short, offsets, n1, i) {
      if i < n {
        assert OffsetRight(jumps, short, last, n, i);
        assert KeyLe(KeyOf(jumps[i]), KeyOf(jumps[n]));
        if i + 1 < n && KeyOf(jumps[i]) == KeyOf(jumps[n]) {
          assert KeyLe(KeyOf(jumps[i]), KeyOf(jumps[i + 1])) && KeyLe(KeyOf(jumps[i + 1]), KeyOf(jumps[n]));
        }
      }
    }
  }

  // prev(offsets.upper_bound(key))->second: the entry of the last key up to this one.
  method Lookup(offsets: map<Key, int>, key: Key) returns (offset: int)
    requires NOWHERE in offsets && KeyLe(NOWHERE, key)
    ensures exists k :: k in offsets && offset == offsets[k] && KeyLe(k, key) && forall k1 :: k1 in offsets && KeyLe(k1, key) ==> KeyLe(k1, k)
  {
    var best, todo := NOWHERE, offsets.Keys;
    while todo != {}
      invariant todo <= offsets.Keys && best in offsets && KeyLe(best, key)
      invariant forall k1 :: k1 in offsets && k1 !in todo && KeyLe(k1, key) ==> KeyLe(k1, best)
      decreases todo
    {
      var k := AnyOf(todo);
      todo := todo - {k};
      if KeyLe(k, key) && KeyLe(best, k) { best := k; }
    }
    offset := offsets[best];
  }

  lemma LookupIsShift(jumps: seq<JumpInstruction>, short: seq<int>, offsets: map<Key, int>, key: Key, k: Key)
    requires Variants(jumps, short) && Ordered(jumps) && OffsetsRight(jumps, short, offsets, |jumps|) && key.0 >= 0
    requires k in offsets && KeyLe(k, key) && forall k1 :: k1 in offsets && KeyLe(k1, key) ==> KeyLe(k1, k)
    ensures offsets[k] == Shift(jumps, short, key)
  {
    var c := CountUpTo(jumps, key, |jumps|);
    if c == 0 {
      assert k == NOWHERE;
    } else {
      assert OffsetRight(jumps, short, offsets, |jumps|, c - 1);
      assert KeyLe(KeyOf(jumps[c - 1]), k);
      var i :| 0 <= i < |jumps| && KeyOf(jumps[i]) == k;
      assert i < c;
      assert KeyLe(KeyOf(jumps[i]), KeyOf(jumps[c - 1]));
    }
  }

  method ShiftOf(jumps: seq<JumpInstruction>, short: seq<int>, offsets: map<Key, int>, key: Key) returns (offset: int)
    requires Variants(jumps, short) && Ordered(jumps) && OffsetsRight(jumps, short, offsets, |jumps|) && key.0 >= 0
    ensures offset == Shift(jumps, short, key)
  {
    offset := Lookup(offsets, key);
    ghost var k :| k in offsets && offset == offsets[k] && KeyLe(k, key) && forall k1 :: k1 in offsets && KeyLe(k1, key) ==> KeyLe(k1, k);
    LookupIsShift(jumps, short, offsets, key, k);
  }

  // ---------------------------------------------------------------- the fixpoint

  // Where the operations of the worker stand, and in which order they were generated.
  ghost predicate Tables(jumps: seq<JumpInstruction>, addressTable: map<Id, int>, orderTable: map<Id, int>)
  {
    Ordered(jumps) && addressTable.Keys == orderTable.Keys && (forall op :: op in addressTable ==> addressTable[op] >= 0) &&
    forall i :: 0 <= i < |jumps| ==> jumps[i].dest in addressTable
  }

  ghost function Destination(jumps: seq<JumpInstruction>, short: seq<int>, addressTable: map<Id, int>, orderTable: map<Id, int>, op: Id): int
    requires Variants(jumps, short) && Tables(jumps, addressTable, orderTable) && op in addressTable
  {
    addressTable[op] + Shift(jumps, short, (addressTable[op], orderTable[op]))
  }

  ghost function Distance(jumps: seq<JumpInstruction>, short: seq<int>, addressTable: map<Id, int>, orderTable: map<Id, int>, i: nat): int
    requires Variants(jumps, short) && Tables(jumps, addressTable, orderTable) && i < |jumps|
  {
    Destination(jumps, short, addressTable, orderTable, jumps[i].dest) - Current(jumps, short, i)
  }

  // The encoding jump i needs, when the others are as they are.
  ghost function Needed(jumps: seq<JumpInstruction>, short: seq<int>, addressTable: map<Id, int>, orderTable: map<Id, int>, i: nat): int
    requires Variants(jumps, short) && Tables(jumps, addressTable, orderTable) && i < |jumps|
  {
    JmpSize(jumps[i].kind, Distance(jumps, short, addressTable, orderTable, i), short[i]).1
  }

  ghost predicate Settled(jumps: seq<JumpInstruction>, short: seq<int>, addressTable: map<Id, int>, orderTable: map<Id, int>)
    requires Variants(jumps, short) && Tables(jumps, addressTable, orderTable)
  {
    forall i :: 0 <= i < |jumps| ==> Needed(jumps, short, addressTable, orderTable, i) == short[i]
  }

  // Jumps that are still short.
  function Zeros(short: seq<int>): nat
  {
    if short == [] then 0 else Zeros(short[..|short| - 1]) + if short[|short| - 1] == 0 then 1 else 0
  }

  lemma {:induction false} WideningShrinks(before: seq<int>, after: seq<int>)
    requires |before| == |after| && forall i :: 0 <= i < |before| ==> 0 <= before[i] <= after[i] <= 1
    ensures Zeros(after) <= Zeros(before) && (after != before ==> Zeros(after) < Zeros(before))
  {
    if before != [] {
      var n := |before| - 1;
      WideningShrinks(before[..n], after[..n]);
      if before[..n] == after[..n] && before[n] == after[n] {
        assert before == before[..n] + [before[n]] && after == after[..n] + [after[n]];
      }
    }
  }

  method FillPositions(jumps: seq<JumpInstruction>, short: seq<int>, offsets: map<Key, int>, addressTable: map<Id, int>, orderTable: map<Id, int>)
    returns (opPosition: map<Id, int>)
    requires Variants(jumps, short) && Tables(jumps, addressTable, orderTable) && OffsetsRight(jumps, short, offsets, |jumps|)
    ensures opPosition.Keys == addressTable.Keys
    ensures forall op :: op in opPosition ==> opPosition[op] == Destination(jumps, short, addressTable, orderTable, op)
  {
    opPosition := map[];
    var todo := addressTable.Keys;
    while todo != {}
      invariant todo <= addressTable.Keys && opPosition.Keys == addressTable.Keys - todo
      invariant forall op :: op in opPosition ==> opPosition[op] == Destination(jumps, short, addressTable, orderTable, op)
      decreases todo
    {
      var op := AnyOf(todo);
      todo := todo - {op};
      var opOffset := ShiftOf(jumps, short, offsets, (addressTable[op], orderTable[op]));
      opPosition := opPosition[op := addressTable[op] + opOffset];
    }
  }

  // The check of one jump, with positions as they were computed.
  function Check(jumps: seq<JumpInstruction>, short: seq<int>, current: seq<int>, opPosition: map<Id, int>, i: nat): (r: int)
    requires Variants(jumps, short) && |current| == |jumps| && i < |jumps| && jumps[i].dest in opPosition
    ensures short[i] <= r <= 1
  {
    JmpSize(jumps[i].kind, opPosition[jumps[i].dest] - current[i], short[i]).1
  }

  method Widen(jumps: seq<JumpInstruction>, short: seq<int>, current: seq<int>, opPosition: map<Id, int>)
    returns (wider: seq<int>, needNext: bool)
    requires Variants(jumps, short) && |current| == |jumps| && forall i :: 0 <= i < |jumps| ==> jumps[i].dest in opPosition
    ensures |wider| == |short| && forall i :: 0 <= i < |short| ==> wider[i] == Check(jumps, short, current, opPosition, i)
    ensures needNext <==> wider != short
  {
    wider, needNext := short, false;
    for id := 0 to |jumps|
      invariant |wider| == |short| && forall i :: 0 <= i < id ==> wider[i] == Check(jumps, short, current, opPosition, i)
      invariant forall i :: id <= i < |short| ==> wider[i] == short[i]
      invariant needNext <==> wider != short
    {
      var need := JmpSize(jumps[id].kind, opPosition[jumps[id].dest] - current[id], wider[id]).1;
      if need != wider[id] {
        wider := wider[id := need];
        needNext := true;
        assert wider[id] != short[id];
      }
    }
  }

  lemma CheckIsNeeded(jumps: seq<JumpInstruction>, short: seq<int>, current: seq<int>, opPosition: map<Id, int>,
                      addressTable: map<Id, int>, orderTable: map<Id, int>, i: nat)
    requires Variants(jumps, short) && Tables(jumps, addressTable, orderTable) && i < |jumps|
    requires |current| == |jumps| && current[i] == Current(jumps, short, i) && jumps[i].dest in opPosition
    requires opPosition[jumps[i].dest] == Destination(jumps, short, addressTable, orderTable, jumps[i].dest)
    ensures Check(jumps, short, current, opPosition, i) == Needed(jumps, short, addressTable, orderTable, i)
  {
  }

  // Sizes under which every jump reaches its destination, and the positions they give.
  ghost predicate Selected(jumps: seq<JumpInstruction>, short: seq<int>, addressTable: map<Id, int>, orderTable: map<Id, int>,
                           current: seq<int>, opPosition: map<Id, int>, total: int)
    requires Tables(jumps, addressTable, orderTable)
  {
    Variants(jumps, short) && Settled(jumps, short, addressTable, orderTable) && total == Added(jumps, short, |jumps|) &&
    |current| == |jumps| && (forall i :: 0 <= i < |jumps| ==> current[i] == Current(jumps, short, i)) &&
    opPosition.Keys == addressTable.Keys &&
    forall op :: op in opPosition ==> opPosition[op] == Destination(jumps, short, addressTable, orderTable, op)
  }

  // ---------------------------------------------------------------- no jump is wider than it has to be

  lemma {:induction false} AddedGrows(jumps: seq<JumpInstruction>, before: seq<int>, after: seq<int>, i: nat, j: nat)
    requires Variants(jumps, before) && Variants(jumps, after) && i <= j <= |jumps|
    requires forall k :: 0 <= k < |jumps| ==> before[k] <= after[k]
    ensures 0 <= Added(jumps, before, j) - Added(jumps, before, i) <= Added(jumps, after, j) - Added(jumps, after, i)
    decreases j
  {
    if i < j { AddedGrows(jumps, before, after, i, j - 1); }
  }

  predicate Short(distance: int) { -122 <= distance <= 127 }

  // Widening other jumps brings no destination nearer.
  lemma FarStaysFar(jumps: seq<JumpInstruction>, before: seq<int>, after: seq<int>, addressTable: map<Id, int>, orderTable: map<Id, int>, i: nat)
    requires Variants(jumps, before) && Variants(jumps, after) && Tables(jumps, addressTable, orderTable) && i < |jumps|
    requires forall k :: 0 <= k < |jumps| ==> before[k] <= after[k]
    requires !Short(Distance(jumps, before, addressTable, orderTable, i))
    ensures !Short(Distance(jumps, after, addressTable, orderTable, i))
  {
    var op := jumps[i].dest;
    var key := (addressTable[op], orderTable[op]);
    var c := CountUpTo(jumps, key, |jumps|);
    if c > i {
      assert KeyLe(KeyOf(jumps[i]), KeyOf(jumps[c - 1]));
      AddedGrows(jumps, before, after, i, c);
    } else {
      assert !KeyLe(KeyOf(jumps[i]), key);
      AddedGrows(jumps, before, after, c, i);
    }
  }

  // Every near jump needs to be one.
  ghost predicate NoWider(jumps: seq<JumpInstruction>, short: seq<int>, addressTable: map<Id, int>, orderTable: map<Id, int>)
    requires Variants(jumps, short) && Tables(jumps, addressTable, orderTable)
  {
    forall i :: 0 <= i < |jumps| && short[i] != 0 ==> !Short(Distance(jumps, short, addressTable, orderTable, i))
  }

  lemma WidenedNoWider(jumps: seq<JumpInstruction>, before: seq<int>, after: seq<int>, addressTable: map<Id, int>, orderTable: map<Id, int>)
    requires Variants(jumps, before) && Variants(jumps, after) && Tables(jumps, addressTable, orderTable)
    requires NoWider(jumps, before, addressTable, orderTable)
    requires forall i :: 0 <= i < |jumps| ==> before[i] <= after[i] == Needed(jumps, before, addressTable, orderTable, i)
    ensures NoWider(jumps, after, addressTable, orderTable)
  {
    forall i | 0 <= i < |jumps| && after[i] != 0 ensures !Short(Distance(jumps, after, addressTable, orderTable, i)) {
      FarStaysFar(jumps, before, after, addressTable, orderTable, i);
    }
  }

  // A jump is short exactly if its destination is near enough in the finished code.
  ghost predicate Tight(jumps: seq<JumpInstruction>, short: seq<int>, addressTable: map<Id, int>, orderTable: map<Id, int>)
    requires Variants(jumps, short) && Tables(jumps, addressTable, orderTable)
  {
    forall i :: 0 <= i < |jumps| ==> (short[i] == 0 <==> Short(Distance(jumps, short, addressTable, orderTable, i)))
  }

  lemma SettledIsTight(jumps: seq<JumpInstruction>, short: seq<int>, addressTable: map<Id, int>, orderTable: map<Id, int>)
    requires Variants(jumps, short) && Tables(jumps, addressTable, orderTable)
    requires Settled(jumps, short, addressTable, orderTable) && NoWider(jumps, short, addressTable, orderTable)
    ensures Tight(jumps, short, addressTable, orderTable)
  {
    forall i | 0 <= i < |jumps| ensures short[i] == 0 <==> Short(Distance(jumps, short, addressTable, orderTable, i)) {
      assert Needed(jumps, short, addressTable, orderTable, i) == short[i];
    }
  }

  // The do-while loop. It ends because a jump once near never becomes short again.
  method SelectSizes(jumps: seq<JumpInstruction>, addressTable: map<Id, int>, orderTable: map<Id, int>)
    returns (short: seq<int>, offsets: map<Key, int>, current: seq<int>, opPosition: map<Id, int>, total: int)
    requires Tables(jumps, addressTable, orderTable)
    ensures Selected(jumps, short, addressTable, orderTable, current, opPosition, total) && Tight(jumps, short, addressTable, orderTable)
    ensures OffsetsRight(jumps, short, offsets, |jumps|)
  {
    short := seq(|jumps|, _ => 0);
    offsets, current, opPosition, total := map[], [], map[], 0;
    var needNext := true;
    while needNext
      invariant Variants(jumps, short) && NoWider(jumps, short, addressTable, orderTable)
      invariant forall key :: key in offsets ==> key == NOWHERE || exists i :: 0 <= i < |jumps| && KeyOf(jumps[i]) == key
      invariant !needNext ==>
        Settled(jumps, short, addressTable, orderTable) && total == Added(jumps, short, |jumps|) &&
        OffsetsRight(jumps, short, offsets, |jumps|) && opPosition.Keys == addressTable.Keys &&
        |current| == |jumps| && (forall i :: 0 <= i < |jumps| ==> current[i] == Current(jumps, short, i)) &&
        forall op :: op in opPosition ==> opPosition[op] == Destination(jumps, short, addressTable, orderTable, op)
      decreases Zeros(short), needNext
    {
      offsets, current, total := FillOffsets(jumps, short, offsets);
      opPosition := FillPositions(jumps, short, offsets, addressTable, orderTable);
      var wider;
      wider, needNext := Widen(jumps, short, current, opPosition);
      forall i | 0 <= i < |jumps| ensures wider[i] == Needed(jumps, short, addressTable, orderTable, i) {
        CheckIsNeeded(jumps, short, current, opPosition, addressTable, orderTable, i);
      }
      WideningShrinks(short, wider);
      WidenedNoWider(jumps, short, wider, addressTable, orderTable);
      short := wider;
    }
    SettledIsTight(jumps, short, addressTable, orderTable);
  }

  // ---------------------------------------------------------------- insertion

  ghost predicate Fit(jumps: seq<JumpInstruction>, n: nat, length: nat)
  {
    Ordered(jumps) && n <= |jumps| && forall i :: 0 <= i < n ==> jumps[i].codePos <= length
  }

  // The code with the first n jumps inserted, jump i in the form encs[i].
  ghost function Spliced(asm: seq<byte>, jumps: seq<JumpInstruction>, encs: seq<seq<byte>>, n: nat): seq<byte>
    requires Fit(jumps, n, |asm|) && |encs| == |jumps|
    decreases n
  {
    if n == 0 then asm
    else
      var c := jumps[n - 1].codePos;
      assert forall i :: 0 <= i < n - 1 ==> KeyLe(KeyOf(jumps[i]), KeyOf(jumps[n - 1]));
      Spliced(asm[..c], jumps, encs, n - 1) + encs[n - 1] + asm[c..]
  }

  // e is jump i in its own encoding, leading to its destination.
  ghost predicate Encodes(jumps: seq<JumpInstruction>, short: seq<int>, addressTable: map<Id, int>, orderTable: map<Id, int>,
                          e: seq<byte>, i: nat)
    requires Variants(jumps, short) && Tables(jumps, addressTable, orderTable) && i < |jumps|
  {
    Needed(jumps, short, addressTable, orderTable, i) == short[i] &&
    e == Encode(jumps[i].kind, Distance(jumps, short, addressTable, orderTable, i), short[i])
  }

  ghost predicate EncodingOk(jumps: seq<JumpInstruction>, short: seq<int>, addressTable: map<Id, int>, orderTable: map<Id, int>,
                             encs: seq<seq<byte>>, i: nat)
    requires Variants(jumps, short) && Tables(jumps, addressTable, orderTable) && |encs| == |jumps| && i < |jumps|
  {
    Encodes(jumps, short, addressTable, orderTable, encs[i], i)
  }

  ghost predicate EncodingsOk(jumps: seq<JumpInstruction>, short: seq<int>, addressTable: map<Id, int>, orderTable: map<Id, int>,
                              encs: seq<seq<byte>>)
  {
    Variants(jumps, short) && Tables(jumps, addressTable, orderTable) && |encs| == |jumps| &&
    forall i :: 0 <= i < |jumps| ==> EncodingOk(jumps, short, addressTable, orderTable, encs, i)
  }

  lemma Encodings(jumps: seq<JumpInstruction>, short: seq<int>, addressTable: map<Id, int>, orderTable: map<Id, int>)
    returns (encs: seq<seq<byte>>)
    requires Variants(jumps, short) && Tables(jumps, addressTable, orderTable) && Settled(jumps, short, addressTable, orderTable)
    ensures EncodingsOk(jumps, short, addressTable, orderTable, encs)
  {
    encs := [];
    for i := 0 to |jumps|
      invariant |encs| == i && forall k :: 0 <= k < i ==> Encodes(jumps, short, addressTable, orderTable, encs[k], k)
    {
      assert Needed(jumps, short, addressTable, orderTable, i) == short[i];
      var e := Encode(jumps[i].kind, Distance(jumps, short, addressTable, orderTable, i), short[i]);
      assert Encodes(jumps, short, addressTable, orderTable, e, i);
      encs := encs + [e];
    }
  }

  // memmove to higher addresses.
  method MoveUp(code: array<byte>, dest: nat, src: nat, count: nat)
    requires src <= dest && dest + count <= code.Length
    modifies code
    ensures code[..] == old(code[..])[..dest] + old(code[..])[src..src + count] + old(code[..])[dest + count..]
  {
    ghost var before, shift := code[..], dest - src;
    var k := count;
    while k > 0
      invariant 0 <= k <= count
      invariant forall i :: 0 <= i < dest + k ==> code[i] == before[i]
      invariant forall i :: dest + k <= i < dest + count ==> code[i] == before[i - shift]
      invariant forall i :: dest + count <= i < code.Length ==> code[i] == before[i]
    {
      k := k - 1;
      code[dest + k] := code[src + k];
    }
    ghost var after := before[..dest] + before[src..src + count] + before[dest + count..];
    assert |after| == code.Length && forall i :: 0 <= i < code.Length ==> code[i] == after[i];
    assert code[..] == after;
  }

  method WriteBytes(code: array<byte>, at: nat, bytes: seq<byte>)
    requires at + |bytes| <= code.Length
    modifies code
    ensures code[..] == old(code[..])[..at] + bytes + old(code[..])[at + |bytes|..]
  {
    ghost var before := code[..];
    for k := 0 to |bytes|
      invariant forall i :: 0 <= i < code.Length ==> code[i] == if at <= i < at + k then bytes[i - at] else before[i]
    {
      code[at + k] := bytes[k];
    }
    assert code[..] == before[..at] + bytes + before[at + |bytes|..];
  }

  // Half way: the code up to src is still as generated, the code from dest is final.
  ghost predicate HalfInserted(buffer: seq<byte>, asm: seq<byte>, jumps: seq<JumpInstruction>, short: seq<int>, encs: seq<seq<byte>>,
                               id: nat, src: nat, dest: nat, end: nat)
    requires Variants(jumps, short)
  {
    Fit(jumps, |jumps|, |asm|) && |encs| == |jumps| && Fit(jumps, id, src) && src <= |asm| && end == |asm| + Added(jumps, short, |jumps|) &&
    dest == src + Added(jumps, short, id) && src <= dest <= end <= |buffer| && buffer[..src] == asm[..src] &&
    Spliced(asm, jumps, encs, |jumps|) == Spliced(asm[..src], jumps, encs, id) + buffer[dest..end]
  }

  lemma HalfInsertedStep(before: seq<byte>, after: seq<byte>, asm: seq<byte>, jumps: seq<JumpInstruction>, short: seq<int>,
                         encs: seq<seq<byte>>, id: nat, src: nat, dest: nat, end: nat, c: nat, newDest: nat)
    requires Variants(jumps, short) && HalfInserted(before, asm, jumps, short, encs, id, src, dest, end) && id > 0
    requires c == jumps[id - 1].codePos && |encs[id - 1]| == SizeOf(jumps[id - 1].kind, short[id - 1])
    requires newDest == dest - (src - c) - |encs[id - 1]| && |after| == |before|
    requires newDest >= c && after[..c] == before[..c] && after[newDest..end] == encs[id - 1] + before[c..src] + before[dest..end]
    ensures HalfInserted(after, asm, jumps, short, encs, id - 1, c, newDest, end)
  {
    forall i | 0 <= i < id - 1 ensures jumps[i].codePos <= c {
      assert KeyLe(KeyOf(jumps[i]), KeyOf(jumps[id - 1]));
    }
    assert asm[..src][..c] == asm[..c] && asm[..src][c..] == asm[c..src];
    assert before[c..src] == before[..src][c..src] == asm[c..src];
    assert after[..c] == before[..src][..c];
    assert Spliced(asm[..src], jumps, encs, id) == Spliced(asm[..c], jumps, encs, id - 1) + encs[id - 1] + asm[c..src];
  }

  // Positions and encodings are computed.
  ghost predicate Insertable(jumps: seq<JumpInstruction>, short: seq<int>, current: seq<int>, opPosition: map<Id, int>, total: nat,
                             encs: seq<seq<byte>>)
  {
    Variants(jumps, short) && total == Added(jumps, short, |jumps|) && |current| == |jumps| == |encs| &&
    (forall i :: 0 <= i < |jumps| ==> current[i] == Current(jumps, short, i)) &&
    forall i :: 0 <= i < |jumps| ==> Printed(jumps, short, current, opPosition, encs, i)
  }

  // The loop over the jumps, last one first.
  method InsertAll(code: array<byte>, end: nat, jumps: seq<JumpInstruction>, short: seq<int>, current: seq<int>,
                   opPosition: map<Id, int>, total: nat, ghost encs: seq<seq<byte>>)
    requires Insertable(jumps, short, current, opPosition, total, encs) && Fit(jumps, |jumps|, end) && end + total <= code.Length
    modifies code
    ensures code[..end + total] == Spliced(old(code[..end]), jumps, encs, |jumps|)
  {
    ghost var asm := code[..end];
    var newEnd := end + total;
    var id: nat, codeDest: nat, codeSrc: nat := |jumps|, newEnd, end;
    assert code[..][codeDest..newEnd] == [] && asm[..end] == asm && code[..][..end] == asm;
    while id > 0
      invariant 0 <= id <= |jumps| && HalfInserted(code[..], asm, jumps, short, encs, id, codeSrc, codeDest, newEnd)
    {
      id := id - 1;
      codeDest := InsertOne(code, jumps, short, current, opPosition, encs, id, codeSrc, codeDest, newEnd, asm);
      codeSrc := jumps[id].codePos;
    }
    assert codeDest == codeSrc;
    assert code[..newEnd] == code[..][..codeSrc] + code[..][codeDest..newEnd];
  }

  // From where the jump is to where it goes, as the last round of the fixpoint has it.
  function Offset(jumps: seq<JumpInstruction>, current: seq<int>, opPosition: map<Id, int>, i: nat): int
    requires i < |jumps| == |current| && jumps[i].dest in opPosition
  {
    opPosition[jumps[i].dest] - current[i]
  }

  ghost predicate Printed(jumps: seq<JumpInstruction>, short: seq<int>, current: seq<int>, opPosition: map<Id, int>,
                          encs: seq<seq<byte>>, i: nat)
    requires Variants(jumps, short) && |current| == |jumps| == |encs| && i < |jumps|
  {
    jumps[i].dest in opPosition &&
    JmpSize(jumps[i].kind, Offset(jumps, current, opPosition, i), short[i]).1 == short[i] &&
    encs[i] == Encode(jumps[i].kind, Offset(jumps, current, opPosition, i), short[i])
  }

  // Move the code behind jump id up, print the jump in front of it. Neither write
  // reaches code that has still to be moved, and both asserts of the loop hold.
  lemma OneInserted(before: seq<byte>, after: seq<byte>, asm: seq<byte>, jumps: seq<JumpInstruction>, short: seq<int>,
                    encs: seq<seq<byte>>, id: nat, next: nat, src: nat, dest: nat, end: nat, c: nat, newDest: nat)
    requires Variants(jumps, short) && next == id + 1 <= |jumps| == |encs| && HalfInserted(before, asm, jumps, short, encs, next, src, dest, end)
    requires c == jumps[id].codePos && |encs[id]| == SizeOf(jumps[id].kind, short[id])
    requires c <= newDest && c <= src && newDest + |encs[id]| == dest - (src - c)
    requires after == before[..newDest] + encs[id] + before[c..src] + before[dest..]
    ensures HalfInserted(after, asm, jumps, short, encs, id, c, newDest, end)
  {
    InsertedOne(before, after, c, src, dest, newDest, end, encs[id]);
    HalfInsertedStep(before, after, asm, jumps, short, encs, next, src, dest, end, c, newDest);
  }

  // In front of the block, where the jump is to be.
  lemma WhereToInsert(buffer: seq<byte>, asm: seq<byte>, jumps: seq<JumpInstruction>, short: seq<int>, encs: seq<seq<byte>>,
                      id: nat, next: nat, src: nat, dest: nat, end: nat)
    requires Variants(jumps, short) && next == id + 1 <= |jumps| && HalfInserted(buffer, asm, jumps, short, encs, next, src, dest, end)
    ensures jumps[id].codePos <= src <= dest <= |buffer|
    ensures dest - (src - jumps[id].codePos) - SizeOf(jumps[id].kind, short[id]) == Current(jumps, short, id) >= jumps[id].codePos
  {
    assert Added(jumps, short, next) == Added(jumps, short, id) + SizeOf(jumps[id].kind, short[id]);
  }

  method InsertOne(code: array<byte>, jumps: seq<JumpInstruction>, short: seq<int>, current: seq<int>, opPosition: map<Id, int>,
                   ghost encs: seq<seq<byte>>, id: nat, src: nat, dest: nat, end: nat, ghost asm: seq<byte>) returns (newDest: nat)
    requires Variants(jumps, short) && id < |jumps| == |current| == |encs| && current[id] == Current(jumps, short, id)
    requires Printed(jumps, short, current, opPosition, encs, id)
    requires HalfInserted(code[..], asm, jumps, short, encs, id + 1, src, dest, end)
    modifies code
    ensures HalfInserted(code[..], asm, jumps, short, encs, id, jumps[id].codePos, newDest, end)
  {
    ghost var before := code[..];
    var i := jumps[id];
    WhereToInsert(before, asm, jumps, short, encs, id, id + 1, src, dest, end);
    var distance := Offset(jumps, current, opPosition, id);
    var size := JmpSize(i.kind, distance, short[id]).0;
    newDest := dest - (src - i.codePos) - size;
    assert newDest == current[id];
    MoveAndPrint(code, i.codePos, src, dest, newDest, Encode(i.kind, distance, short[id]));
    OneInserted(before, code[..], asm, jumps, short, encs, id, id + 1, src, dest, end, i.codePos, newDest);
  }

  // The block moved up, then the jump printed in front of it.
  lemma MovedAndPrinted(before: seq<byte>, moved: seq<byte>, after: seq<byte>, c: nat, src: nat, dest: nat, codeDest: nat,
                        newDest: nat, bytes: seq<byte>)
    requires c <= src <= dest <= |before| && codeDest == dest - (src - c) && newDest + |bytes| == codeDest
    requires moved == before[..codeDest] + before[c..src] + before[dest..]
    requires after == moved[..newDest] + bytes + moved[codeDest..]
    ensures after == before[..newDest] + bytes + before[c..src] + before[dest..]
  {
    assert moved[codeDest..] == before[c..src] + before[dest..];
    assert moved[..newDest] == before[..newDest];
    assert after == before[..newDest] + bytes + (before[c..src] + before[dest..]);
  }

  method MoveAndPrint(code: array<byte>, c: nat, src: nat, dest: nat, newDest: nat, bytes: seq<byte>)
    requires c <= src <= dest <= code.Length && c <= newDest && newDest + |bytes| == dest - (src - c)
    modifies code
    ensures code[..] == old(code[..])[..newDest] + bytes + old(code[..])[c..src] + old(code[..])[dest..]
  {
    ghost var before := code[..];
    var blockSize := src - c;
    var codeDest := dest - blockSize;
    if blockSize != 0 {
      MoveUp(code, codeDest, c, blockSize);
    }
    ghost var moved := code[..];
    assert moved == before[..codeDest] + before[c..src] + before[dest..];
    WriteBytes(code, newDest, bytes);
    MovedAndPrinted(before, moved, code[..], c, src, dest, codeDest, newDest, bytes);
  }

  lemma InsertedOne(before: seq<byte>, after: seq<byte>, c: nat, src: nat, dest: nat, newDest: nat, end: nat, enc: seq<byte>)
    requires c <= newDest && c <= src <= dest <= end <= |before| && newDest + |enc| == dest - (src - c)
    requires after == before[..newDest] + enc + before[c..src] + before[dest..]
    ensures |after| == |before| && after[..c] == before[..c] && after[newDest..end] == enc + before[c..src] + before[dest..end]
  {
    var rest := enc + (before[c..src] + before[dest..]);
    assert after == before[..newDest] + rest;
    assert after[newDest..] == rest;
    assert after[newDest..end] == rest[..end - newDest];
    assert rest[..end - newDest] == enc + before[c..src] + before[dest..end];
  }

  // The address table as the insertion leaves it.
  ghost predicate Updated(jumps: seq<JumpInstruction>, short: seq<int>, addressTable: map<Id, int>, orderTable: map<Id, int>, address: map<Id, int>)
  {
    Variants(jumps, short) && Tables(jumps, addressTable, orderTable) && address.Keys == addressTable.Keys &&
    forall op :: op in address ==> address[op] == Destination(jumps, short, addressTable, orderTable, op)
  }

  lemma AllPrinted(jumps: seq<JumpInstruction>, short: seq<int>, addressTable: map<Id, int>, orderTable: map<Id, int>,
                   current: seq<int>, opPosition: map<Id, int>, total: nat) returns (encs: seq<seq<byte>>)
    requires Tables(jumps, addressTable, orderTable) && Selected(jumps, short, addressTable, orderTable, current, opPosition, total)
    ensures EncodingsOk(jumps, short, addressTable, orderTable, encs) && Insertable(jumps, short, current, opPosition, total, encs)
    ensures Updated(jumps, short, addressTable, orderTable, opPosition) && total <= 6 * |jumps|
  {
    encs := Encodings(jumps, short, addressTable, orderTable);
    forall i | 0 <= i < |jumps| ensures Printed(jumps, short, current, opPosition, encs, i) {
      PrintedOne(jumps, short, addressTable, orderTable, current, opPosition, total, encs, i);
    }
  }

  lemma PrintedOne(jumps: seq<JumpInstruction>, short: seq<int>, addressTable: map<Id, int>, orderTable: map<Id, int>,
                   current: seq<int>, opPosition: map<Id, int>, total: nat, encs: seq<seq<byte>>, i: int)
    requires Tables(jumps, addressTable, orderTable) && Selected(jumps, short, addressTable, orderTable, current, opPosition, total)
    requires EncodingsOk(jumps, short, addressTable, orderTable, encs) && 0 <= i < |jumps|
    ensures Printed(jumps, short, current, opPosition, encs, i)
  {
    assert EncodingOk(jumps, short, addressTable, orderTable, encs, i);
    assert Offset(jumps, current, opPosition, i) == Distance(jumps, short, addressTable, orderTable, i);
  }

  // The whole of InsertJumpInstructions.
  method InsertJumpInstructions(code: array<byte>, assemblyEnd: nat, jumps: seq<JumpInstruction>,
                                addressTable: map<Id, int>, orderTable: map<Id, int>)
    returns (newEnd: nat, newTable: map<Id, int>, ghost short: seq<int>, ghost encs: seq<seq<byte>>)
    requires Tables(jumps, addressTable, orderTable) && Fit(jumps, |jumps|, assemblyEnd)
    requires assemblyEnd + 6 * |jumps| <= code.Length
    modifies code
    ensures EncodingsOk(jumps, short, addressTable, orderTable, encs) && Tight(jumps, short, addressTable, orderTable)
    ensures newEnd == assemblyEnd + Added(jumps, short, |jumps|) <= code.Length
    ensures code[..newEnd] == Spliced(old(code[..assemblyEnd]), jumps, encs, |jumps|)
    ensures Updated(jumps, short, addressTable, orderTable, newTable)
  {
    var shortJmp, offsets, current, opPosition, total := SelectSizes(jumps, addressTable, orderTable);
    short := shortJmp;
    encs := AllPrinted(jumps, short, addressTable, orderTable, current, opPosition, total);
    InsertAll(code, assemblyEnd, jumps, shortJmp, current, opPosition, total, encs);
    newEnd := assemblyEnd + total;
    newTable := opPosition;
  }
}
