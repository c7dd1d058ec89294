// BuildOperation lays the operation graph out depth first, falling through where it
// can and recording a jump where it cannot. What a layout is, as a list of items, and
// where its items end up once the jumps are inserted.
module Layout {
  import opened Ir
  import opened Processor
  import opened JumpEncoding
  import opened JumpInsertion

  // In the order they are generated: the bytes of an operation, the jump behind a
  // test, a jump to an operation that is already laid out, a return.
  datatype Item = Body(op: Id) | Cond(kind: Kind, dest: Id) | Goto(dest: Id) | Ret

  predicate IsJump(i: Item) { i.Cond? || i.Goto? }

  // The bytes of every operation, its jump not included.
  type Bodies = map<Id, seq<byte>>

  function AsmOf(bodies: Bodies, item: Item): seq<byte>
  {
    match item
    case Body(op) => if op in bodies then bodies[op] else []
    case Ret => [0xC3]
    case _ => []
  }

  // What is generated before the jumps are inserted.
  ghost function Asm(bodies: Bodies, items: seq<Item>, n: nat): seq<byte>
    requires n <= |items|
  {
    if n == 0 then [] else Asm(bodies, items, n - 1) + AsmOf(bodies, items[n - 1])
  }

  // Operations among the first n items; a jump behind a test ranks with its operation.
  ghost function Count(items: seq<Item>, n: nat): nat
    requires n <= |items|
  {
    if n == 0 then 0 else Count(items, n - 1) + if items[n - 1].Body? then 1 else 0
  }

  ghost function JumpOf(bodies: Bodies, items: seq<Item>, base: nat, i: nat): JumpInstruction
    requires i < |items| && IsJump(items[i])
  {
    var pos := base + |Asm(bodies, items, i)|;
    match items[i]
    case Cond(kind, dest) => JumpInstruction(kind, pos, Count(items, i) - 1, dest)
    case Goto(dest) => JumpInstruction(Jmp, pos, Count(items, i), dest)
  }

  // Jumps among the first n items.
  ghost function JumpCount(items: seq<Item>, n: nat): nat
    requires n <= |items|
  {
    if n == 0 then 0 else JumpCount(items, n - 1) + if IsJump(items[n - 1]) then 1 else 0
  }

  ghost function Jumps(bodies: Bodies, items: seq<Item>, base: nat, n: nat): (r: seq<JumpInstruction>)
    requires n <= |items|
    ensures |r| == JumpCount(items, n)
  {
    if n == 0 then []
    else Jumps(bodies, items, base, n - 1) + if IsJump(items[n - 1]) then [JumpOf(bodies, items, base, n - 1)] else []
  }

  // The finished bytes of the first n items, jump number k in the form encs[k].
  ghost function Flat(bodies: Bodies, items: seq<Item>, base: nat, encs: seq<seq<byte>>, n: nat): seq<byte>
    requires n <= |items| && JumpCount(items, n) <= |encs|
  {
    if n == 0 then []
    else Flat(bodies, items, base, encs, n - 1) +
         if IsJump(items[n - 1]) then encs[JumpCount(items, n - 1)] else AsmOf(bodies, items[n - 1])
  }

  // A test's jump stands behind the bytes of its operation, which are not empty.
  ghost predicate CondPlaced(bodies: Bodies, items: seq<Item>, i: nat)
    requires i < |items|
  {
    items[i].Cond? ==> i > 0 && items[i - 1].Body? && items[i - 1].op in bodies && bodies[items[i - 1].op] != []
  }

  ghost predicate CondsPlaced(bodies: Bodies, items: seq<Item>)
  {
    forall i :: 0 <= i < |items| ==> CondPlaced(bodies, items, i)
  }

  // ---------------------------------------------------------------- the first n items

  lemma {:induction false} PrefixAsm(bodies: Bodies, items: seq<Item>, m: nat, n: nat)
    requires m <= n <= |items|
    ensures |Asm(bodies, items, m)| <= |Asm(bodies, items, n)| && Asm(bodies, items, n)[..|Asm(bodies, items, m)|] == Asm(bodies, items, m)
    ensures Count(items, m) <= Count(items, n)
    decreases n
  {
    if m < n { PrefixAsm(bodies, items, m, n - 1); }
  }

  lemma {:induction false} PrefixJumps(bodies: Bodies, items: seq<Item>, base: nat, m: nat, n: nat)
    requires m <= n <= |items|
    ensures JumpCount(items, m) <= JumpCount(items, n)
    ensures Jumps(bodies, items, base, n)[..JumpCount(items, m)] == Jumps(bodies, items, base, m)
    decreases n
  {
    if m < n { PrefixJumps(bodies, items, base, m, n - 1); }
  }

  // Appending items changes nothing before them.
  lemma {:induction false} AppendKeeps(bodies: Bodies, items: seq<Item>, more: seq<Item>, base: nat, n: nat)
    requires n <= |items|
    ensures Asm(bodies, items + more, n) == Asm(bodies, items, n) && Count(items + more, n) == Count(items, n)
    ensures Jumps(bodies, items + more, base, n) == Jumps(bodies, items, base, n)
  {
    if n > 0 {
      AppendKeeps(bodies, items, more, base, n - 1);
      assert (items + more)[n - 1] == items[n - 1];
    }
  }

  // Jump number k comes from some item.
  lemma {:induction false} JumpFrom(bodies: Bodies, items: seq<Item>, base: nat, n: nat, k: nat) returns (i: nat)
    requires n <= |items| && k < JumpCount(items, n)
    ensures i < n && IsJump(items[i]) && JumpCount(items, i) == k
    ensures Jumps(bodies, items, base, n)[k] == JumpOf(bodies, items, base, i)
  {
    var before := Jumps(bodies, items, base, n - 1);
    if k < |before| {
      i := JumpFrom(bodies, items, base, n - 1, k);
    } else {
      i := n - 1;
    }
  }

  // ---------------------------------------------------------------- keys

  ghost function KeyAt(bodies: Bodies, items: seq<Item>, base: nat, i: nat): Key
    requires i <= |items|
  {
    (base + |Asm(bodies, items, i)|, Count(items, i))
  }

  // Jumps before an item come up to its key.
  lemma EarlierJump(bodies: Bodies, items: seq<Item>, base: nat, j: nat, i: nat)
    requires j < i <= |items| && IsJump(items[j])
    ensures KeyLe(KeyOf(JumpOf(bodies, items, base, j)), KeyAt(bodies, items, base, i))
  {
    PrefixAsm(bodies, items, j, i);
  }

  // Jumps behind an operation do not come up to its key.
  lemma LaterJump(bodies: Bodies, items: seq<Item>, base: nat, i: nat, j: nat)
    requires i < j < |items| && items[i].Body? && IsJump(items[j]) && CondsPlaced(bodies, items)
    ensures !KeyLe(KeyOf(JumpOf(bodies, items, base, j)), KeyAt(bodies, items, base, i))
  {
    PrefixAsm(bodies, items, i + 1, j);
    assert Count(items, i + 1) == Count(items, i) + 1;
    assert Asm(bodies, items, i + 1) == Asm(bodies, items, i) + AsmOf(bodies, items[i]);
    assert CondPlaced(bodies, items, j);
    if items[j].Cond? && j > i + 1 {
      PrefixAsm(bodies, items, i + 1, j - 1);
      assert Count(items, j) == Count(items, j - 1) + 1;
    }
  }

  lemma JumpsOrdered(bodies: Bodies, items: seq<Item>, base: nat)
    requires CondsPlaced(bodies, items)
    ensures Ordered(Jumps(bodies, items, base, |items|))
  {
    var jumps := Jumps(bodies, items, base, |items|);
    forall a, b | 0 <= a <= b < |jumps| ensures KeyLe(KeyOf(jumps[a]), KeyOf(jumps[b])) {
      var i := JumpFrom(bodies, items, base, |items|, a);
      var j := JumpFrom(bodies, items, base, |items|, b);
      TwoJumps(bodies, items, base, i, j);
    }
  }

  // The jump of a test ranks with its operation, which ranks behind every earlier jump.
  lemma JumpBeforeTest(bodies: Bodies, items: seq<Item>, base: nat, i: nat, j: nat)
    requires i < j < |items| && IsJump(items[i]) && items[j].Cond? && CondsPlaced(bodies, items)
    ensures KeyLe(KeyOf(JumpOf(bodies, items, base, i)), KeyOf(JumpOf(bodies, items, base, j)))
  {
    assert CondPlaced(bodies, items, j);
    EarlierJump(bodies, items, base, i, j - 1);
    PrefixAsm(bodies, items, j - 1, j);
  }

  lemma TwoJumps(bodies: Bodies, items: seq<Item>, base: nat, i: nat, j: nat)
    requires i < |items| && j < |items| && IsJump(items[i]) && IsJump(items[j]) && CondsPlaced(bodies, items)
    requires JumpCount(items, i) <= JumpCount(items, j)
    ensures KeyLe(KeyOf(JumpOf(bodies, items, base, i)), KeyOf(JumpOf(bodies, items, base, j)))
  {
    if j < i {
      PrefixJumps(bodies, items, base, j + 1, i);
    } else if i < j {
      if items[j].Cond? {
        JumpBeforeTest(bodies, items, base, i, j);
      } else {
        PrefixAsm(bodies, items, i, j);
      }
    }
  }

  // Exactly the jumps before an operation are counted for it.
  lemma JumpsBehind(bodies: Bodies, items: seq<Item>, base: nat, i: nat, j: nat)
    requires i < |items| && j < |items| && items[i].Body? && IsJump(items[j]) && JumpCount(items, j) >= JumpCount(items, i)
    ensures i < j
  {
    if j < i { PrefixJumps(bodies, items, base, j + 1, i); }
  }

  lemma NotMoreBefore(bodies: Bodies, items: seq<Item>, base: nat, i: nat)
    requires i < |items| && items[i].Body? && CondsPlaced(bodies, items)
    ensures var jumps := Jumps(bodies, items, base, |items|);
            CountUpTo(jumps, KeyAt(bodies, items, base, i), |jumps|) <= JumpCount(items, i)
  {
    var jumps := Jumps(bodies, items, base, |items|);
    var c := CountUpTo(jumps, KeyAt(bodies, items, base, i), |jumps|);
    PrefixJumps(bodies, items, base, i, |items|);
    if c > JumpCount(items, i) {
      var j := JumpFrom(bodies, items, base, |items|, c - 1);
      JumpsBehind(bodies, items, base, i, j);
      LaterJump(bodies, items, base, i, j);
    }
  }

  lemma NotFewerBefore(bodies: Bodies, items: seq<Item>, base: nat, i: nat)
    requires i < |items| && items[i].Body? && CondsPlaced(bodies, items)
    ensures var jumps := Jumps(bodies, items, base, |items|);
            CountUpTo(jumps, KeyAt(bodies, items, base, i), |jumps|) >= JumpCount(items, i)
  {
    var jumps := Jumps(bodies, items, base, |items|);
    var c := CountUpTo(jumps, KeyAt(bodies, items, base, i), |jumps|);
    PrefixJumps(bodies, items, base, i, |items|);
    if c < JumpCount(items, i) {
      var j := JumpFrom(bodies, items, base, |items|, c);
      if j >= i { PrefixJumps(bodies, items, base, i, j); }
      EarlierJump(bodies, items, base, j, i);
    }
  }

  lemma CountIsBefore(bodies: Bodies, items: seq<Item>, base: nat, i: nat)
    requires i < |items| && items[i].Body? && CondsPlaced(bodies, items)
    ensures var jumps := Jumps(bodies, items, base, |items|);
            CountUpTo(jumps, KeyAt(bodies, items, base, i), |jumps|) == JumpCount(items, i)
  {
    NotMoreBefore(bodies, items, base, i);
    NotFewerBefore(bodies, items, base, i);
  }

  // ---------------------------------------------------------------- after insertion

  // Inserting the first k jumps into asm gives out.
  ghost predicate Gives(asm: seq<byte>, jumps: seq<JumpInstruction>, encs: seq<seq<byte>>, k: nat, out: seq<byte>)
  {
    |encs| == |jumps| && Fit(jumps, k, |asm|) && Spliced(asm, jumps, encs, k) == out
  }

  lemma Regroup<T>(a: seq<T>, b: seq<T>, c: seq<T>)
    ensures a + (b + c) == (a + b) + c
  {
  }

  lemma BytesAppended(asm: seq<byte>, more: seq<byte>, jumps: seq<JumpInstruction>, encs: seq<seq<byte>>, k: nat, out: seq<byte>)
    requires Gives(asm, jumps, encs, k, out)
    ensures Gives(asm + more, jumps, encs, k, out + more)
  {
    if k > 0 {
      var c, whole := jumps[k - 1].codePos, asm + more;
      assert whole[..c] == asm[..c];
      assert whole[c..] == asm[c..] + more;
      Regroup(Spliced(asm[..c], jumps, encs, k - 1) + encs[k - 1], asm[c..], more);
    }
  }

  lemma JumpAppended(asm: seq<byte>, jumps: seq<JumpInstruction>, encs: seq<seq<byte>>, k: nat, out: seq<byte>)
    requires Gives(asm, jumps, encs, k, out) && k < |jumps| && jumps[k].codePos == |asm|
    ensures Gives(asm, jumps, encs, k + 1, out + encs[k])
  {
    assert asm[..|asm|] == asm && asm[|asm|..] == [];
    assert out + encs[k] + [] == out + encs[k];
  }

  // One more item.
  lemma ItemAdded(bodies: Bodies, items: seq<Item>, base: nat, encs: seq<seq<byte>>, i: nat)
    requires i < |items| && JumpCount(items, i + 1) <= |encs|
    ensures var k := JumpCount(items, i);
            k <= |encs| && JumpCount(items, i + 1) == (if IsJump(items[i]) then k + 1 else k) &&
            Asm(bodies, items, i + 1) == Asm(bodies, items, i) + AsmOf(bodies, items[i]) &&
            (IsJump(items[i]) ==> k < |encs| && Asm(bodies, items, i + 1) == Asm(bodies, items, i)) &&
            Flat(bodies, items, base, encs, i + 1) ==
              Flat(bodies, items, base, encs, i) + if IsJump(items[i]) then encs[k] else AsmOf(bodies, items[i])
  {
    assert Asm(bodies, items, i) + [] == Asm(bodies, items, i);
  }

  // Inserting the jumps into what was generated gives the items one behind the other.
  lemma {:induction false} SplicedIsFlat(bodies: Bodies, items: seq<Item>, pre: seq<byte>, jumps: seq<JumpInstruction>,
                                         encs: seq<seq<byte>>, n: nat)
    requires n <= |items| && jumps == Jumps(bodies, items, |pre|, |items|) && |encs| == |jumps| && Ordered(jumps)
    ensures JumpCount(items, n) <= |encs|
    ensures Gives(pre + Asm(bodies, items, n), jumps, encs, JumpCount(items, n), pre + Flat(bodies, items, |pre|, encs, n))
  {
    PrefixJumps(bodies, items, |pre|, n, |items|);
    if n == 0 {
      assert pre + [] == pre;
    } else {
      var i := n - 1;
      PrefixJumps(bodies, items, |pre|, i, n);
      SplicedIsFlat(bodies, items, pre, jumps, encs, i);
      FlatStep(bodies, items, pre, jumps, encs, i, n);
    }
  }

  lemma FlatStep(bodies: Bodies, items: seq<Item>, pre: seq<byte>, jumps: seq<JumpInstruction>, encs: seq<seq<byte>>, i: nat, n: nat)
    requires i < |items| && n == i + 1 && JumpCount(items, n) <= |encs| && JumpCount(items, i) <= |encs|
    requires jumps == Jumps(bodies, items, |pre|, |items|)
    requires Gives(pre + Asm(bodies, items, i), jumps, encs, JumpCount(items, i), pre + Flat(bodies, items, |pre|, encs, i))
    ensures Gives(pre + Asm(bodies, items, n), jumps, encs, JumpCount(items, n), pre + Flat(bodies, items, |pre|, encs, n))
  {
    var asm, flat, k := Asm(bodies, items, i), Flat(bodies, items, |pre|, encs, i), JumpCount(items, i);
    ItemAdded(bodies, items, |pre|, encs, i);
    if IsJump(items[i]) {
      JumpPlace(bodies, items, |pre|, i);
      JumpAppended(pre + asm, jumps, encs, k, pre + flat);
      Regroup(pre, flat, encs[k]);
    } else {
      var more := AsmOf(bodies, items[i]);
      BytesAppended(pre + asm, more, jumps, encs, k, pre + flat);
      Regroup(pre, asm, more);
      Regroup(pre, flat, more);
    }
  }

  lemma JumpPlace(bodies: Bodies, items: seq<Item>, base: nat, i: nat)
    requires i < |items| && IsJump(items[i])
    ensures var jumps, k := Jumps(bodies, items, base, |items|), JumpCount(items, i);
            k < |jumps| && jumps[k] == JumpOf(bodies, items, base, i)
  {
    PrefixJumps(bodies, items, base, i + 1, |items|);
    var jumps, k := Jumps(bodies, items, base, |items|), JumpCount(items, i);
    assert jumps[..k + 1][k] == jumps[k];
  }

  lemma {:induction false} PrefixFlat(bodies: Bodies, items: seq<Item>, base: nat, encs: seq<seq<byte>>, m: nat, n: nat)
    requires m <= n <= |items| && JumpCount(items, n) <= |encs|
    ensures JumpCount(items, m) <= JumpCount(items, n) && |Flat(bodies, items, base, encs, m)| <= |Flat(bodies, items, base, encs, n)|
    ensures Flat(bodies, items, base, encs, n)[..|Flat(bodies, items, base, encs, m)|] == Flat(bodies, items, base, encs, m)
    decreases n
  {
    PrefixJumps(bodies, items, base, m, n);
    if m < n { PrefixFlat(bodies, items, base, encs, m, n - 1); }
  }

  // The finished bytes of an item.
  ghost function BytesOf(bodies: Bodies, items: seq<Item>, encs: seq<seq<byte>>, i: nat): seq<byte>
    requires i < |items| && JumpCount(items, i + 1) <= |encs|
  {
    if IsJump(items[i]) then encs[JumpCount(items, i)] else AsmOf(bodies, items[i])
  }

  // They stand where the items before it end.
  lemma ItemStands(bodies: Bodies, items: seq<Item>, base: nat, encs: seq<seq<byte>>, code: seq<byte>, i: nat)
    requires i < |items| && JumpCount(items, |items|) <= |encs| && |code| >= base
    requires code[base..] == Flat(bodies, items, base, encs, |items|)
    ensures JumpCount(items, i + 1) <= |encs| && JumpCount(items, i) <= JumpCount(items, i + 1)
    ensures Stands(code, base + |Flat(bodies, items, base, encs, i)|, BytesOf(bodies, items, encs, i))
    ensures |Flat(bodies, items, base, encs, i + 1)| == |Flat(bodies, items, base, encs, i)| + |BytesOf(bodies, items, encs, i)|
  {
    PrefixFlat(bodies, items, base, encs, i + 1, |items|);
    PrefixFlat(bodies, items, base, encs, i, i + 1);
    PieceStands(code, base, Flat(bodies, items, base, encs, i), BytesOf(bodies, items, encs, i), Flat(bodies, items, base, encs, i + 1));
  }

  lemma PieceStands(code: seq<byte>, base: nat, before: seq<byte>, piece: seq<byte>, upTo: seq<byte>)
    requires base + |upTo| <= |code| && code[base..][..|upTo|] == upTo && upTo == before + piece
    ensures Stands(code, base + |before|, piece)
  {
    var p := base + |before|;
    assert code[base..][..|upTo|][|before|..] == code[p..p + |piece|];
  }

  ghost function TotalLength(encs: seq<seq<byte>>, k: nat): nat
    requires k <= |encs|
  {
    if k == 0 then 0 else TotalLength(encs, k - 1) + |encs[k - 1]|
  }

  lemma {:induction false} FlatLength(bodies: Bodies, items: seq<Item>, base: nat, encs: seq<seq<byte>>, n: nat)
    requires n <= |items| && JumpCount(items, n) <= |encs|
    ensures |Flat(bodies, items, base, encs, n)| == |Asm(bodies, items, n)| + TotalLength(encs, JumpCount(items, n))
  {
    if n > 0 {
      PrefixJumps(bodies, items, base, n - 1, n);
      FlatLength(bodies, items, base, encs, n - 1);
      ItemLengths(bodies, items, base, encs, n - 1, n);
    }
  }

  lemma ItemLengths(bodies: Bodies, items: seq<Item>, base: nat, encs: seq<seq<byte>>, i: nat, n: nat)
    requires i < |items| && n == i + 1 && JumpCount(items, n) <= |encs|
    ensures var k := JumpCount(items, i);
            k <= |encs| && JumpCount(items, n) == (if IsJump(items[i]) then k + 1 else k) &&
            (IsJump(items[i]) ==> k < |encs|) &&
            |Asm(bodies, items, n)| == |Asm(bodies, items, i)| + |AsmOf(bodies, items[i])| &&
            |Flat(bodies, items, base, encs, n)| ==
              |Flat(bodies, items, base, encs, i)| + |if IsJump(items[i]) then encs[k] else AsmOf(bodies, items[i])|
  {
    ItemAdded(bodies, items, base, encs, i);
  }

  lemma {:induction false} AddedIsTotal(jumps: seq<JumpInstruction>, short: seq<int>, encs: seq<seq<byte>>, k: nat)
    requires Variants(jumps, short) && |encs| == |jumps| && k <= |jumps|
    requires forall k :: 0 <= k < |jumps| ==> |encs[k]| == SizeOf(jumps[k].kind, short[k])
    ensures Added(jumps, short, k) == TotalLength(encs, k)
  {
    if k > 0 { AddedIsTotal(jumps, short, encs, k - 1); }
  }
}
