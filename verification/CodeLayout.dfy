// The laid out code, byte for byte: every operation stands where the address table
// says, and control leaves it for exactly its successors in the graph.
module CodeLayout {
  import opened Ir
  import opened Processor
  import opened JumpEncoding
  import opened JumpInsertion
  import opened Layout

  function KindOf(instr: Instr): Kind
  {
    if instr.Branch? && instr.onZero then Jz else Jnz
  }

  // ---------------------------------------------------------------- what the processor does

  // From p control goes on to operation m: m is there, or a jump to it, or for the end a return.
  ghost predicate GoesOn(code: seq<byte>, address: map<Id, int>, p: int, m: Id)
  {
    if m == NULL then Returns(code, p)
    else m in address && (p == address[m] || exists length :: JumpAt(code, p, Jmp, length, address[m]))
  }

  // From the bytes of a test: a jump to the second successor, and behind it the first.
  ghost predicate Tests(code: seq<byte>, address: map<Id, int>, p: int, kind: Kind, length: int, next: seq<Id>)
    requires |next| == 2
  {
    next[1] in address && JumpAt(code, p, kind, length, address[next[1]]) && GoesOn(code, address, p + length, next[0])
  }

  ghost predicate OperationRuns(g: Graph, bodies: Bodies, code: seq<byte>, address: map<Id, int>, n: Id)
    requires g.Valid()
  {
    n in g.code && n in address && n in bodies && Stands(code, address[n], bodies[n]) &&
    var b, q := g.code[n], address[n] + |bodies[n]|;
    g.BlockOk(n) && if b.instr.Branch? then exists length :: Tests(code, address, q, KindOf(b.instr), length, b.next)
                    else GoesOn(code, address, q, b.next[0])
  }

  // The operations in the table are laid out, and control starting at the entry never
  // leaves them: it visits the operations of the graph's runs, in their order.
  ghost predicate LaidOut(g: Graph, bodies: Bodies, code: seq<byte>, address: map<Id, int>, start: int)
  {
    g.Valid() && GoesOn(code, address, start, g.entry) && (g.entry != NULL ==> address[g.entry] == start) &&
    forall n :: n in address ==> OperationRuns(g, bodies, code, address, n)
  }

  // ---------------------------------------------------------------- what generation leaves behind

  ghost predicate Laid(items: seq<Item>, op: Id)
  {
    exists i :: 0 <= i < |items| && items[i] == Body(op)
  }

  ghost predicate Follows(items: seq<Item>, f: nat, m: Id)
  {
    f < |items| && if m == NULL then items[f] == Ret else items[f] == Body(m) || items[f] == Goto(m)
  }

  // Where the item behind operation item i, and its jump if it tests, stands.
  function Behind(instr: Instr, i: nat): nat { if instr.Branch? then i + 2 else i + 1 }

  ghost predicate Connected(g: Graph, bodies: Bodies, items: seq<Item>, i: nat)
    requires g.Valid() && i < |items| && items[i].Body?
  {
    var n := items[i].op;
    n in g.code && n in bodies && g.BlockOk(n) &&
    (g.code[n].instr.Branch? ==> i + 1 < |items| && items[i + 1] == Cond(KindOf(g.code[n].instr), g.code[n].next[1])) &&
    Behind(g.code[n].instr, i) <= |items|
  }

  ghost predicate TablesOf(bodies: Bodies, items: seq<Item>, base: nat, addressTable: map<Id, int>, orderTable: map<Id, int>)
  {
    addressTable.Keys == orderTable.Keys && (forall op :: op in addressTable ==> Laid(items, op)) &&
    forall i :: 0 <= i < |items| && items[i].Body? ==> TabledAt(bodies, items, base, addressTable, orderTable, i)
  }

  ghost predicate TabledAt(bodies: Bodies, items: seq<Item>, base: nat, addressTable: map<Id, int>, orderTable: map<Id, int>, i: nat)
    requires i < |items| && items[i].Body?
  {
    var op := items[i].op;
    op in addressTable && op in orderTable && (addressTable[op], orderTable[op]) == KeyAt(bodies, items, base, i)
  }

  ghost predicate DestLaid(items: seq<Item>, i: nat)
    requires i < |items|
  {
    IsJump(items[i]) ==> Laid(items, items[i].dest)
  }

  // Generation is over.
  ghost predicate Complete(g: Graph, bodies: Bodies, items: seq<Item>)
  {
    g.Valid() && CondsPlaced(bodies, items) && Follows(items, 0, g.entry) && (g.entry != NULL ==> items[0] == Body(g.entry)) &&
    (forall i :: 0 <= i < |items| ==> DestLaid(items, i)) &&
    forall i :: 0 <= i < |items| && items[i].Body? ==> ConnectedOn(g, bodies, items, i)
  }

  ghost predicate ConnectedOn(g: Graph, bodies: Bodies, items: seq<Item>, i: nat)
    requires g.Valid() && i < |items| && items[i].Body?
  {
    Connected(g, bodies, items, i) &&
    Follows(items, Behind(g.code[items[i].op].instr, i), g.code[items[i].op].next[0])
  }

  lemma CompleteTables(g: Graph, bodies: Bodies, items: seq<Item>, base: nat, addressTable: map<Id, int>, orderTable: map<Id, int>)
    requires Complete(g, bodies, items) && TablesOf(bodies, items, base, addressTable, orderTable)
    ensures Tables(Jumps(bodies, items, base, |items|), addressTable, orderTable)
  {
    var jumps := Jumps(bodies, items, base, |items|);
    JumpsOrdered(bodies, items, base);
    forall op | op in addressTable ensures addressTable[op] >= 0 {
      var i :| 0 <= i < |items| && items[i] == Body(op);
      assert TabledAt(bodies, items, base, addressTable, orderTable, i);
    }
    forall k | 0 <= k < |jumps| ensures jumps[k].dest in addressTable {
      var i := JumpFrom(bodies, items, base, |items|, k);
      assert DestLaid(items, i);
      var j :| 0 <= j < |items| && items[j] == Body(items[i].dest);
      assert TabledAt(bodies, items, base, addressTable, orderTable, j);
    }
  }

  lemma JumpsFit(bodies: Bodies, items: seq<Item>, base: nat)
    requires CondsPlaced(bodies, items)
    ensures Fit(Jumps(bodies, items, base, |items|), JumpCount(items, |items|), base + |Asm(bodies, items, |items|)|)
  {
    JumpsOrdered(bodies, items, base);
    var jumps := Jumps(bodies, items, base, |items|);
    forall k | 0 <= k < |jumps| ensures jumps[k].codePos <= base + |Asm(bodies, items, |items|)| {
      var i := JumpFrom(bodies, items, base, |items|, k);
      PrefixAsm(bodies, items, i, |items|);
    }
  }

  // ---------------------------------------------------------------- positions in the finished code

  // Everything known about a finished worker.
  ghost predicate Finished(bodies: Bodies, items: seq<Item>, base: nat, jumps: seq<JumpInstruction>, short: seq<int>,
                           addressTable: map<Id, int>, orderTable: map<Id, int>, encs: seq<seq<byte>>, code: seq<byte>)
  {
    CondsPlaced(bodies, items) && jumps == Jumps(bodies, items, base, |items|) &&
    TablesOf(bodies, items, base, addressTable, orderTable) && EncodingsOk(jumps, short, addressTable, orderTable, encs) &&
    base <= |code| < 0x7FFF_FFF0 && code[base..] == Flat(bodies, items, base, encs, |items|)
  }

  ghost function Position(bodies: Bodies, items: seq<Item>, base: nat, encs: seq<seq<byte>>, i: nat): nat
    requires i <= |items| && JumpCount(items, i) <= |encs|
  {
    base + |Flat(bodies, items, base, encs, i)|
  }

  lemma PositionIs(bodies: Bodies, items: seq<Item>, base: nat, jumps: seq<JumpInstruction>, short: seq<int>,
                   addressTable: map<Id, int>, orderTable: map<Id, int>, encs: seq<seq<byte>>, i: nat)
    requires i <= |items| && jumps == Jumps(bodies, items, base, |items|) && EncodingsOk(jumps, short, addressTable, orderTable, encs)
    ensures JumpCount(items, i) <= |encs| == |jumps|
    ensures Position(bodies, items, base, encs, i) == base + |Asm(bodies, items, i)| + Added(jumps, short, JumpCount(items, i))
  {
    PrefixJumps(bodies, items, base, i, |items|);
    forall k | 0 <= k < |jumps| ensures |encs[k]| == SizeOf(jumps[k].kind, short[k]) {
      assert EncodingOk(jumps, short, addressTable, orderTable, encs, k);
    }
    FlatLength(bodies, items, base, encs, i);
    AddedIsTotal(jumps, short, encs, JumpCount(items, i));
  }

  // The updated address table says where an operation stands.
  lemma OperationAt(bodies: Bodies, items: seq<Item>, base: nat, jumps: seq<JumpInstruction>, short: seq<int>,
                    addressTable: map<Id, int>, orderTable: map<Id, int>, encs: seq<seq<byte>>, code: seq<byte>, i: nat)
    requires Finished(bodies, items, base, jumps, short, addressTable, orderTable, encs, code) && i < |items| && items[i].Body?
    ensures JumpCount(items, i) <= |encs| && items[i].op in addressTable
    ensures Destination(jumps, short, addressTable, orderTable, items[i].op) == Position(bodies, items, base, encs, i)
  {
    assert TabledAt(bodies, items, base, addressTable, orderTable, i);
    CountIsBefore(bodies, items, base, i);
    PositionIs(bodies, items, base, jumps, short, addressTable, orderTable, encs, i);
  }

  // So does the instruction list for a jump, and its encoding stands there.
  lemma JumpStands(bodies: Bodies, items: seq<Item>, base: nat, jumps: seq<JumpInstruction>, short: seq<int>,
                   addressTable: map<Id, int>, orderTable: map<Id, int>, encs: seq<seq<byte>>, code: seq<byte>, i: nat, k: nat)
    requires Finished(bodies, items, base, jumps, short, addressTable, orderTable, encs, code)
    requires i < |items| && IsJump(items[i]) && k == JumpCount(items, i)
    ensures k < |jumps| && JumpCount(items, i + 1) <= |encs|
    ensures jumps[k] == JumpOf(bodies, items, base, i)
    ensures Current(jumps, short, k) == Position(bodies, items, base, encs, i)
    ensures Stands(code, Position(bodies, items, base, encs, i), encs[k])
    ensures Position(bodies, items, base, encs, i + 1) == Position(bodies, items, base, encs, i) + |encs[k]|
  {
    JumpPlace(bodies, items, base, i);
    ItemStands(bodies, items, base, encs, code, i);
    PositionIs(bodies, items, base, jumps, short, addressTable, orderTable, encs, i);
  }

  lemma PositionInside(bodies: Bodies, items: seq<Item>, base: nat, jumps: seq<JumpInstruction>, short: seq<int>,
                       addressTable: map<Id, int>, orderTable: map<Id, int>, encs: seq<seq<byte>>, code: seq<byte>, op: Id)
    requires Finished(bodies, items, base, jumps, short, addressTable, orderTable, encs, code) && Laid(items, op)
    ensures op in addressTable && 0 <= Destination(jumps, short, addressTable, orderTable, op) <= |code|
  {
    var j :| 0 <= j < |items| && items[j] == Body(op);
    OperationAt(bodies, items, base, jumps, short, addressTable, orderTable, encs, code, j);
    ItemStands(bodies, items, base, encs, code, j);
  }

  // And a jump leads to where its destination stands.
  lemma JumpLands(bodies: Bodies, items: seq<Item>, base: nat, jumps: seq<JumpInstruction>, short: seq<int>,
                  addressTable: map<Id, int>, orderTable: map<Id, int>, encs: seq<seq<byte>>, code: seq<byte>, i: nat)
    returns (length: int)
    requires Finished(bodies, items, base, jumps, short, addressTable, orderTable, encs, code)
    requires i < |items| && IsJump(items[i]) && Laid(items, items[i].dest)
    ensures JumpCount(items, i) <= |encs| && JumpCount(items, i + 1) <= |encs| && items[i].dest in addressTable
    ensures JumpAt(code, Position(bodies, items, base, encs, i), if items[i].Cond? then items[i].kind else Jmp, length,
                   Destination(jumps, short, addressTable, orderTable, items[i].dest))
    ensures Position(bodies, items, base, encs, i + 1) == Position(bodies, items, base, encs, i) + length
  {
    var k := JumpCount(items, i);
    JumpStands(bodies, items, base, jumps, short, addressTable, orderTable, encs, code, i, k);
    PositionInside(bodies, items, base, jumps, short, addressTable, orderTable, encs, code, items[i].dest);
    assert EncodingOk(jumps, short, addressTable, orderTable, encs, k);
    length := |encs[k]|;
    EncodeLands(code, Current(jumps, short, k), jumps[k].kind, Distance(jumps, short, addressTable, orderTable, k), short[k]);
  }

  // Item i stands at pos[i] and does there what it should.
  ghost predicate ItemOk(bodies: Bodies, items: seq<Item>, code: seq<byte>, address: map<Id, int>, pos: seq<int>, i: nat)
    requires i < |items| && |pos| == |items| + 1
  {
    match items[i]
    case Body(n) =>
      n in address && address[n] == pos[i] && Stands(code, pos[i], AsmOf(bodies, items[i])) &&
      pos[i + 1] == pos[i] + |AsmOf(bodies, items[i])|
    case Cond(kind, d) => d in address && JumpAt(code, pos[i], kind, pos[i + 1] - pos[i], address[d])
    case Goto(d) => d in address && JumpAt(code, pos[i], Jmp, pos[i + 1] - pos[i], address[d])
    case Ret => Returns(code, pos[i])
  }

  lemma ItemIsOk(bodies: Bodies, items: seq<Item>, base: nat, jumps: seq<JumpInstruction>, short: seq<int>,
                 addressTable: map<Id, int>, orderTable: map<Id, int>, encs: seq<seq<byte>>, code: seq<byte>, address: map<Id, int>,
                 pos: seq<int>, i: nat)
    requires Finished(bodies, items, base, jumps, short, addressTable, orderTable, encs, code)
    requires Updated(jumps, short, addressTable, orderTable, address)
    requires i < |items| && DestLaid(items, i) && |pos| == |items| + 1 && JumpCount(items, i + 1) <= |encs| && JumpCount(items, i) <= |encs|
    requires pos[i] == Position(bodies, items, base, encs, i) && pos[i + 1] == Position(bodies, items, base, encs, i + 1)
    ensures ItemOk(bodies, items, code, address, pos, i)
  {
    match items[i]
    case Body(n) =>
      BodyIsOk(bodies, items, base, jumps, short, addressTable, orderTable, encs, code, address, pos, i);
    case Ret =>
      RetStands(bodies, items, base, encs, code, i);
    case _ =>
      var length := JumpLands(bodies, items, base, jumps, short, addressTable, orderTable, encs, code, i);
  }

  lemma BodyIsOk(bodies: Bodies, items: seq<Item>, base: nat, jumps: seq<JumpInstruction>, short: seq<int>,
                 addressTable: map<Id, int>, orderTable: map<Id, int>, encs: seq<seq<byte>>, code: seq<byte>, address: map<Id, int>,
                 pos: seq<int>, i: nat)
    requires Finished(bodies, items, base, jumps, short, addressTable, orderTable, encs, code)
    requires Updated(jumps, short, addressTable, orderTable, address) && i < |items| && items[i].Body?
    requires |pos| == |items| + 1 && JumpCount(items, i + 1) <= |encs| && JumpCount(items, i) <= |encs|
    requires pos[i] == Position(bodies, items, base, encs, i) && pos[i + 1] == Position(bodies, items, base, encs, i + 1)
    ensures ItemOk(bodies, items, code, address, pos, i)
  {
    BytesStand(bodies, items, base, encs, code, i);
    OperationAt(bodies, items, base, jumps, short, addressTable, orderTable, encs, code, i);
  }

  lemma BytesStand(bodies: Bodies, items: seq<Item>, base: nat, encs: seq<seq<byte>>, code: seq<byte>, i: nat)
    requires i < |items| && !IsJump(items[i]) && JumpCount(items, |items|) <= |encs| && |code| >= base
    requires code[base..] == Flat(bodies, items, base, encs, |items|)
    ensures JumpCount(items, i) <= |encs| && JumpCount(items, i + 1) <= |encs|
    ensures Stands(code, Position(bodies, items, base, encs, i), AsmOf(bodies, items[i]))
    ensures Position(bodies, items, base, encs, i + 1) == Position(bodies, items, base, encs, i) + |AsmOf(bodies, items[i])|
  {
    ItemStands(bodies, items, base, encs, code, i);
  }

  lemma RetStands(bodies: Bodies, items: seq<Item>, base: nat, encs: seq<seq<byte>>, code: seq<byte>, i: nat)
    requires i < |items| && items[i] == Ret && JumpCount(items, |items|) <= |encs| && |code| >= base
    requires code[base..] == Flat(bodies, items, base, encs, |items|)
    ensures JumpCount(items, i) <= |encs|
    ensures Returns(code, Position(bodies, items, base, encs, i))
  {
    ItemStands(bodies, items, base, encs, code, i);
    var p := Position(bodies, items, base, encs, i);
    assert code[p..p + 1][0] == code[p];
  }

  lemma GoesOnAt(g: Graph, bodies: Bodies, items: seq<Item>, code: seq<byte>, address: map<Id, int>, pos: seq<int>, f: nat, m: Id)
    requires f < |items| && |pos| == |items| + 1 && ItemOk(bodies, items, code, address, pos, f) && Follows(items, f, m)
    ensures GoesOn(code, address, pos[f], m)
  {
  }

  lemma OperationIsLaidOut(g: Graph, bodies: Bodies, items: seq<Item>, code: seq<byte>, address: map<Id, int>, pos: seq<int>, i: nat)
    requires g.Valid() && i < |items| && items[i].Body? && ConnectedOn(g, bodies, items, i)
    requires |pos| == |items| + 1 && forall k :: 0 <= k < |items| ==> ItemOk(bodies, items, code, address, pos, k)
    ensures OperationRuns(g, bodies, code, address, items[i].op)
  {
    var b := g.code[items[i].op];
    var f := Behind(b.instr, i);
    assert ItemOk(bodies, items, code, address, pos, i) && ItemOk(bodies, items, code, address, pos, f);
    GoesOnAt(g, bodies, items, code, address, pos, f, b.next[0]);
    if b.instr.Branch? {
      assert ItemOk(bodies, items, code, address, pos, i + 1);
      var q := address[items[i].op] + |bodies[items[i].op]|;
      TestIsLaidOut(bodies, items, code, address, pos, i + 1, q, KindOf(b.instr), b.next);
    }
  }

  lemma TestIsLaidOut(bodies: Bodies, items: seq<Item>, code: seq<byte>, address: map<Id, int>, pos: seq<int>, i: nat,
                      q: int, kind: Kind, next: seq<Id>)
    requires |next| == 2 && i < |items| && |pos| == |items| + 1 && q == pos[i] && i + 1 < |items| && items[i] == Cond(kind, next[1])
    requires ItemOk(bodies, items, code, address, pos, i) && GoesOn(code, address, pos[i + 1], next[0])
    ensures exists length :: Tests(code, address, q, kind, length, next)
  {
    var length := pos[i + 1] - q;
    assert q + length == pos[i + 1];
    assert Tests(code, address, q, kind, length, next);
  }

  ghost predicate PositionOk(bodies: Bodies, items: seq<Item>, base: nat, encs: seq<seq<byte>>, pos: seq<int>, i: nat)
    requires i <= |items| && i < |pos|
  {
    JumpCount(items, i) <= |encs| && pos[i] == Position(bodies, items, base, encs, i)
  }

  lemma AllPositions(bodies: Bodies, items: seq<Item>, base: nat, encs: seq<seq<byte>>) returns (pos: seq<int>)
    requires JumpCount(items, |items|) <= |encs|
    ensures |pos| == |items| + 1 && forall i :: 0 <= i <= |items| ==> PositionOk(bodies, items, base, encs, pos, i)
  {
    forall i | 0 <= i <= |items| ensures JumpCount(items, i) <= |encs| {
      PrefixJumps(bodies, items, base, i, |items|);
    }
    pos := seq(|items| + 1, i requires 0 <= i <= |items| => Position(bodies, items, base, encs, i));
  }

  // The theorem.
  lemma FinishedIsLaidOut(g: Graph, bodies: Bodies, items: seq<Item>, base: nat, jumps: seq<JumpInstruction>, short: seq<int>,
                          addressTable: map<Id, int>, orderTable: map<Id, int>, encs: seq<seq<byte>>, code: seq<byte>, address: map<Id, int>)
    requires Finished(bodies, items, base, jumps, short, addressTable, orderTable, encs, code) && Complete(g, bodies, items)
    requires Updated(jumps, short, addressTable, orderTable, address)
    ensures LaidOut(g, bodies, code, address, base)
  {
    var pos := AllPositions(bodies, items, base, encs);
    forall i | 0 <= i < |items| ensures ItemOk(bodies, items, code, address, pos, i) {
      assert DestLaid(items, i);
      assert PositionOk(bodies, items, base, encs, pos, i) && PositionOk(bodies, items, base, encs, pos, i + 1);
      ItemIsOk(bodies, items, base, jumps, short, addressTable, orderTable, encs, code, address, pos, i);
    }
    assert PositionOk(bodies, items, base, encs, pos, 0) && ItemOk(bodies, items, code, address, pos, 0);
    GoesOnAt(g, bodies, items, code, address, pos, 0, g.entry);
    forall n | n in address ensures OperationRuns(g, bodies, code, address, n) {
      assert Laid(items, n);
      var i :| 0 <= i < |items| && items[i] == Body(n);
      assert ConnectedOn(g, bodies, items, i);
      OperationIsLaidOut(g, bodies, items, code, address, pos, i);
    }
  }
}
