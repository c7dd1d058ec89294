// BuildOperation's worklist, and BuildFn: the whole way from the operation graph to
// bytes.
module CodeGenerator {
  import opened Wrappers
  import opened Ir
  import opened RegisterMachine
  import opened Processor
  import opened JumpEncoding
  import opened JumpInsertion
  import opened Layout
  import opened CodeLayout

  // ---------------------------------------------------------------- half way through generation

  // An operation item is connected to its first successor, or is the last thing
  // generated and its first successor is next on the stack.
  ghost predicate OpGenerated(g: Graph, bodies: Bodies, items: seq<Item>, stack: seq<Id>, i: nat)
    requires g.Valid() && i < |items| && items[i].Body?
  {
    Connected(g, bodies, items, i) &&
    var f, m := Behind(g.code[items[i].op].instr, i), g.code[items[i].op].next[0];
    if f == |items| then stack != [] && stack[|stack| - 1] == m else Follows(items, f, m)
  }

  ghost predicate DestKnown(items: seq<Item>, stack: seq<Id>, i: nat)
    requires i < |items|
  {
    IsJump(items[i]) ==> items[i].dest != NULL && (Laid(items, items[i].dest) || items[i].dest in stack)
  }

  ghost predicate StartOk(g: Graph, items: seq<Item>, stack: seq<Id>)
  {
    if items == [] then stack == [g.entry] else items[0] == if g.entry == NULL then Ret else Body(g.entry)
  }

  // Bodies for all operations, not empty for tests; every test leads to an operation.
  ghost predicate Generatable(g: Graph, bodies: Bodies)
  {
    g.Valid() && bodies.Keys == g.code.Keys && forall n :: n in g.code ==> BodyFits(g, bodies, n)
  }

  ghost predicate BodyFits(g: Graph, bodies: Bodies, n: Id)
    requires g.Valid() && n in g.code && n in bodies
  {
    g.BlockOk(n) && (g.code[n].instr.Branch? ==> bodies[n] != [] && g.code[n].next[1] != NULL)
  }

  ghost predicate Generated(g: Graph, bodies: Bodies, items: seq<Item>, stack: seq<Id>)
  {
    Generatable(g, bodies) && CondsPlaced(bodies, items) && StartOk(g, items, stack) &&
    (forall i :: 0 <= i < |stack| ==> stack[i] == NULL || stack[i] in g.code) &&
    (forall i :: 0 <= i < |items| ==> DestKnown(items, stack, i)) &&
    forall i :: 0 <= i < |items| && items[i].Body? ==> OpGenerated(g, bodies, items, stack, i)
  }

  lemma LaidKept(items: seq<Item>, more: seq<Item>, op: Id)
    requires Laid(items, op)
    ensures Laid(items + more, op)
  {
    var i :| 0 <= i < |items| && items[i] == Body(op);
    assert (items + more)[i] == Body(op);
  }

  // An operation generated earlier, when the next item comes.
  lemma GeneratedKept(g: Graph, bodies: Bodies, items: seq<Item>, stack: seq<Id>, more: seq<Item>, stack': seq<Id>, i: nat)
    requires Generated(g, bodies, items, stack) && i < |items| && items[i].Body? && stack != [] && |more| > 0
    requires Follows(items + more, |items|, stack[|stack| - 1])
    ensures OpGenerated(g, bodies, items + more, stack', i)
  {
  }

  // What was a destination or on the stack still is one of the two, if the top is laid out.
  lemma DestKept(items: seq<Item>, stack: seq<Id>, more: seq<Item>, stack': seq<Id>, i: nat)
    requires i < |items| && DestKnown(items, stack, i) && stack != [] && items[i] == (items + more)[i]
    requires stack[..|stack| - 1] <= stack'
    requires IsJump(items[i]) && items[i].dest == stack[|stack| - 1] ==> Laid(items + more, items[i].dest)
    ensures DestKnown(items + more, stack', i)
  {
    if IsJump(items[i]) {
      if Laid(items, items[i].dest) {
        LaidKept(items, more, items[i].dest);
      } else {
        var k :| 0 <= k < |stack| && stack[k] == items[i].dest;
        if k < |stack| - 1 {
          assert stack'[k] == stack[..|stack| - 1][k];
        }
      }
    }
  }

  // A return, or a jump to what is laid out already.
  lemma EndGenerated(g: Graph, bodies: Bodies, items: seq<Item>, stack: seq<Id>, item: Item)
    requires Generated(g, bodies, items, stack) && stack != []
    requires var m := stack[|stack| - 1]; if m == NULL then item == Ret else item == Goto(m) && Laid(items, m)
    ensures Generated(g, bodies, items + [item], stack[..|stack| - 1])
  {
    var items', rest, m := items + [item], stack[..|stack| - 1], stack[|stack| - 1];
    forall i | 0 <= i < |items'| ensures CondPlaced(bodies, items', i) {
      if i < |items| { assert CondPlaced(bodies, items, i); }
    }
    forall i | 0 <= i < |items'| ensures DestKnown(items', rest, i) {
      if m != NULL { LaidKept(items, [item], m); }
      if i < |items| {
        assert DestKnown(items, stack, i);
        DestKept(items, stack, [item], rest, i);
      }
    }
    forall i | 0 <= i < |items'| && items'[i].Body? ensures OpGenerated(g, bodies, items', rest, i) {
      GeneratedKept(g, bodies, items, stack, [item], rest, i);
    }
    if items == [] { NothingLaid(items, m); }
  }

  lemma NothingLaid(items: seq<Item>, m: Id)
    requires items == []
    ensures !Laid(items, m)
  {
  }

  function NewItems(b: Block, n: Id): seq<Item>
    requires |b.next| == if b.instr.Branch? then 2 else 1
  {
    if b.instr.Branch? then [Body(n), Cond(KindOf(b.instr), b.next[1])] else [Body(n)]
  }

  function Pushed(b: Block): seq<Id>
    requires |b.next| == if b.instr.Branch? then 2 else 1
  {
    if b.instr.Branch? then [b.next[1], b.next[0]] else [b.next[0]]
  }

  // An operation seen for the first time.
  lemma BodyGenerated(g: Graph, bodies: Bodies, items: seq<Item>, stack: seq<Id>, n: Id)
    requires Generated(g, bodies, items, stack) && stack != [] && stack[|stack| - 1] == n && n in g.code && g.BlockOk(n)
    ensures Generated(g, bodies, items + NewItems(g.code[n], n), stack[..|stack| - 1] + Pushed(g.code[n]))
  {
    var b, more := g.code[n], NewItems(g.code[n], n);
    var items', stack' := items + more, stack[..|stack| - 1] + Pushed(b);
    assert BodyFits(g, bodies, n);
    assert items'[|items|] == Body(n);
    assert Laid(items', n);
    NewConds(g, bodies, items, n);
    forall i | 0 <= i < |items'| ensures DestKnown(items', stack', i) {
      if i < |items| {
        DestKept(items, stack, more, stack', i);
      } else if i > |items| {
        assert stack'[|stack| - 1] == b.next[1];
      }
    }
    forall i | 0 <= i < |items'| && items'[i].Body? ensures OpGenerated(g, bodies, items', stack', i) {
      if i < |items| {
        GeneratedKept(g, bodies, items, stack, more, stack', i);
      }
    }
    StackKnown(g, stack, n);
  }

  lemma NewConds(g: Graph, bodies: Bodies, items: seq<Item>, n: Id)
    requires Generatable(g, bodies) && CondsPlaced(bodies, items) && n in g.code && g.BlockOk(n)
    ensures CondsPlaced(bodies, items + NewItems(g.code[n], n))
  {
    var items' := items + NewItems(g.code[n], n);
    assert BodyFits(g, bodies, n);
    forall i | 0 <= i < |items'| ensures CondPlaced(bodies, items', i) {
      if i < |items| { assert CondPlaced(bodies, items, i); }
    }
  }

  lemma StackKnown(g: Graph, stack: seq<Id>, n: Id)
    requires g.Valid() && n in g.code && g.BlockOk(n) && stack != []
    requires forall i :: 0 <= i < |stack| ==> stack[i] == NULL || stack[i] in g.code
    ensures var s := stack[..|stack| - 1] + Pushed(g.code[n]); forall i :: 0 <= i < |s| ==> s[i] == NULL || s[i] in g.code
  {
  }

  lemma GeneratedIsComplete(g: Graph, bodies: Bodies, items: seq<Item>)
    requires Generated(g, bodies, items, [])
    ensures Complete(g, bodies, items)
  {
    forall i | 0 <= i < |items| ensures DestLaid(items, i) {
      assert DestKnown(items, [], i);
    }
    forall i | 0 <= i < |items| && items[i].Body? ensures ConnectedOn(g, bodies, items, i) {
      assert OpGenerated(g, bodies, items, [], i);
    }
  }

  // ---------------------------------------------------------------- the tables that go with the items

  // The assembler's fields, for these items behind the code generated before.
  ghost predicate InStep(bodies: Bodies, items: seq<Item>, pre: seq<byte>, assembly: seq<byte>, jumps: seq<JumpInstruction>,
                         addressTable: map<Id, int>, orderTable: map<Id, int>)
  {
    assembly == pre + Asm(bodies, items, |items|) && jumps == Jumps(bodies, items, |pre|, |items|) &&
    TablesOf(bodies, items, |pre|, addressTable, orderTable) && |orderTable| == Count(items, |items|)
  }

  lemma InTable(bodies: Bodies, items: seq<Item>, base: nat, addressTable: map<Id, int>, orderTable: map<Id, int>, op: Id)
    requires TablesOf(bodies, items, base, addressTable, orderTable)
    ensures op in addressTable <==> Laid(items, op)
  {
  }

  // Items that are no operations leave the tables alone.
  lemma TablesKept(bodies: Bodies, items: seq<Item>, base: nat, addressTable: map<Id, int>, orderTable: map<Id, int>, item: Item)
    requires TablesOf(bodies, items, base, addressTable, orderTable) && !item.Body?
    ensures TablesOf(bodies, items + [item], base, addressTable, orderTable)
  {
    var items' := items + [item];
    forall op | op in addressTable ensures Laid(items', op) { LaidKept(items, [item], op); }
    forall i | 0 <= i < |items'| && items'[i].Body? ensures TabledAt(bodies, items', base, addressTable, orderTable, i) {
      TabledKept(bodies, items, base, addressTable, orderTable, item, i);
    }
  }

  lemma TabledKept(bodies: Bodies, items: seq<Item>, base: nat, addressTable: map<Id, int>, orderTable: map<Id, int>, item: Item, i: nat)
    requires i < |items| && items[i].Body? && TabledAt(bodies, items, base, addressTable, orderTable, i)
    ensures TabledAt(bodies, items + [item], base, addressTable, orderTable, i)
  {
    AppendKeeps(bodies, items, [item], base, i);
  }

  lemma OneMoreItem(bodies: Bodies, items: seq<Item>, pre: seq<byte>, assembly: seq<byte>, jumps: seq<JumpInstruction>,
                    addressTable: map<Id, int>, orderTable: map<Id, int>, item: Item)
    requires InStep(bodies, items, pre, assembly, jumps, addressTable, orderTable) && !item.Body?
    ensures var items' := items + [item];
            InStep(bodies, items', pre, assembly + AsmOf(bodies, item),
                   if IsJump(item) then jumps + [JumpOf(bodies, items', |pre|, |items|)] else jumps, addressTable, orderTable)
    ensures JumpHere(bodies, items, |pre|, item, |assembly|, |orderTable|)
  {
    TablesKept(bodies, items, |pre|, addressTable, orderTable, item);
    AppendKeeps(bodies, items, [item], |pre|, |items|);
    Regroup(pre, Asm(bodies, items, |items|), AsmOf(bodies, item));
  }

  // The instruction list entry of a jump appended here.
  ghost predicate JumpHere(bodies: Bodies, items: seq<Item>, base: nat, item: Item, end: nat, order: nat)
  {
    IsJump(item) ==>
      JumpOf(bodies, items + [item], base, |items|) ==
        JumpInstruction(if item.Cond? then item.kind else Jmp, end, if item.Cond? then order - 1 else order, item.dest)
  }

  lemma OneMoreBody(bodies: Bodies, items: seq<Item>, pre: seq<byte>, assembly: seq<byte>, jumps: seq<JumpInstruction>,
                    addressTable: map<Id, int>, orderTable: map<Id, int>, op: Id)
    requires InStep(bodies, items, pre, assembly, jumps, addressTable, orderTable) && op !in addressTable
    ensures InStep(bodies, items + [Body(op)], pre, assembly + AsmOf(bodies, Body(op)), jumps,
                   addressTable[op := |assembly|], orderTable[op := |orderTable|])
  {
    AppendKeeps(bodies, items, [Body(op)], |pre|, |items|);
    Regroup(pre, Asm(bodies, items, |items|), AsmOf(bodies, Body(op)));
    BodyTabled(bodies, items, |pre|, addressTable, orderTable, op, |assembly|, |orderTable|);
  }

  lemma BodyTabled(bodies: Bodies, items: seq<Item>, base: nat, addressTable: map<Id, int>, orderTable: map<Id, int>, op: Id,
                   end: int, order: int)
    requires TablesOf(bodies, items, base, addressTable, orderTable) && op !in addressTable
    requires (end, order) == KeyAt(bodies, items, base, |items|)
    ensures TablesOf(bodies, items + [Body(op)], base, addressTable[op := end], orderTable[op := order])
  {
    var items', a', o' := items + [Body(op)], addressTable[op := end], orderTable[op := order];
    assert items'[|items|] == Body(op);
    forall k | k in a' ensures Laid(items', k) {
      if k != op { LaidKept(items, [Body(op)], k); }
    }
    forall i | 0 <= i < |items'| && items'[i].Body? ensures TabledAt(bodies, items', base, a', o', i) {
      if i < |items| {
        EarlierTabled(bodies, items, base, addressTable, orderTable, op, end, order, i);
      } else {
        AppendKeeps(bodies, items, [Body(op)], base, i);
      }
    }
  }

  lemma EarlierTabled(bodies: Bodies, items: seq<Item>, base: nat, addressTable: map<Id, int>, orderTable: map<Id, int>, op: Id,
                      end: int, order: int, i: nat)
    requires TablesOf(bodies, items, base, addressTable, orderTable) && op !in addressTable && i < |items| && items[i].Body?
    ensures (items + [Body(op)])[i] == items[i]
    ensures TabledAt(bodies, items + [Body(op)], base, addressTable[op := end], orderTable[op := order], i)
  {
    AppendKeeps(bodies, items, [Body(op)], base, i);
    assert TabledAt(bodies, items, base, addressTable, orderTable, i);
  }

  lemma JumpBuilt(g: Graph, bodies: Bodies, items: seq<Item>, pre: seq<byte>, stack: seq<Id>, assembly: seq<byte>,
                  jumps: seq<JumpInstruction>, addressTable: map<Id, int>, orderTable: map<Id, int>, op: Id)
    requires Generated(g, bodies, items, stack) && InStep(bodies, items, pre, assembly, jumps, addressTable, orderTable)
    requires stack != [] && stack[|stack| - 1] == op != NULL && Laid(items, op)
    ensures Generated(g, bodies, items + [Goto(op)], stack[..|stack| - 1])
    ensures InStep(bodies, items + [Goto(op)], pre, assembly, jumps + [JumpInstruction(Jmp, |assembly|, |orderTable|, op)],
                   addressTable, orderTable)
  {
    OneMoreItem(bodies, items, pre, assembly, jumps, addressTable, orderTable, Goto(op));
    EndGenerated(g, bodies, items, stack, Goto(op));
    assert assembly + [] == assembly;
  }

  lemma ReturnBuilt(g: Graph, bodies: Bodies, items: seq<Item>, pre: seq<byte>, stack: seq<Id>, assembly: seq<byte>,
                    jumps: seq<JumpInstruction>, addressTable: map<Id, int>, orderTable: map<Id, int>)
    requires Generated(g, bodies, items, stack) && InStep(bodies, items, pre, assembly, jumps, addressTable, orderTable)
    requires stack != [] && stack[|stack| - 1] == NULL
    ensures Generated(g, bodies, items + [Ret], stack[..|stack| - 1])
    ensures InStep(bodies, items + [Ret], pre, assembly + [0xC3], jumps, addressTable, orderTable)
  {
    OneMoreItem(bodies, items, pre, assembly, jumps, addressTable, orderTable, Ret);
    EndGenerated(g, bodies, items, stack, Ret);
  }

  // ---------------------------------------------------------------- how long the code can become

  // The bytes of an operation; for a test also those of its jump and of one more way to end.
  ghost function Cost(g: Graph, bodies: Bodies, n: Id): nat
  {
    if n in g.code && n in bodies then |bodies[n]| + if g.code[n].instr.Branch? then 12 else 0 else 0
  }

  ghost function Total(g: Graph, bodies: Bodies, ns: set<Id>): nat
  {
    if ns == {} then 0
    else
      assert (forall n :: n !in ns) ==> ns == {};
      var n :| n in ns;
      Cost(g, bodies, n) + Total(g, bodies, ns - {n})
  }

  lemma {:induction false} TotalWith(g: Graph, bodies: Bodies, ns: set<Id>, n: Id)
    requires n in ns
    ensures Total(g, bodies, ns) == Cost(g, bodies, n) + Total(g, bodies, ns - {n})
    decreases ns
  {
    var m :| m in ns && Total(g, bodies, ns) == Cost(g, bodies, m) + Total(g, bodies, ns - {m});
    if m != n {
      TotalWith(g, bodies, ns - {m}, n);
      TotalWith(g, bodies, ns - {n}, m);
      assert ns - {m} - {n} == ns - {n} - {m};
    }
  }

  // What is generated, what its jumps will need, and what is still to come.
  ghost function Charge(g: Graph, bodies: Bodies, assembly: seq<byte>, jumps: seq<JumpInstruction>, toBuild: seq<Id>,
                        built: set<Id>): nat
  {
    |assembly| + 6 * |jumps| + 6 * |toBuild| + Total(g, bodies, g.code.Keys - built)
  }

  // A new operation is paid for by what was due for it.
  lemma BodyCharge(g: Graph, bodies: Bodies, n: Id, built: set<Id>, built': set<Id>, assembly: seq<byte>, assembly': seq<byte>,
                   jumps: seq<JumpInstruction>, jumps': seq<JumpInstruction>, toBuild: seq<Id>, toBuild': seq<Id>)
    requires n in g.code && n in bodies && n !in built && built' == built + {n} && g.Valid() && g.BlockOk(n) && toBuild != []
    requires |assembly'| == |assembly| + |bodies[n]| && toBuild' == toBuild[..|toBuild| - 1] + Pushed(g.code[n])
    requires |jumps'| == |jumps| + if g.code[n].instr.Branch? then 1 else 0
    ensures Charge(g, bodies, assembly', jumps', toBuild', built') == Charge(g, bodies, assembly, jumps, toBuild, built)
    ensures g.code.Keys - built' < g.code.Keys - built
  {
    TotalWith(g, bodies, g.code.Keys - built, n);
    assert g.code.Keys - built - {n} == g.code.Keys - built';
    assert n in g.code.Keys - built && n !in g.code.Keys - built';
  }

  // ---------------------------------------------------------------- the assembler

  class Assembler {
    var assembly: seq<byte>
    var toBuild: seq<Id>
    var addressTable: map<Id, int>
    var orderTable: map<Id, int>
    var jumpInstructions: seq<JumpInstruction>

    constructor (pre: seq<byte>, entry: Id)
      ensures assembly == pre && toBuild == [entry] && addressTable == map[] && orderTable == map[] && jumpInstructions == []
    {
      assembly, toBuild, addressTable, orderTable, jumpInstructions := pre, [entry], map[], map[], [];
    }

    ghost predicate Building(g: Graph, bodies: Bodies, items: seq<Item>, pre: seq<byte>)
      reads this
    {
      Generated(g, bodies, items, toBuild) &&
      InStep(bodies, items, pre, assembly, jumpInstructions, addressTable, orderTable)
    }

    ghost function Due(g: Graph, bodies: Bodies): nat
      reads this
    {
      Charge(g, bodies, assembly, jumpInstructions, toBuild, addressTable.Keys)
    }

    // One thing less to build, or one more operation built.
    ghost predicate Advanced(g: Graph, addressTable0: map<Id, int>, toBuild0: seq<Id>)
      reads this
    {
      (addressTable == addressTable0 && |toBuild| < |toBuild0|) ||
      g.code.Keys - addressTable.Keys < g.code.Keys - addressTable0.Keys
    }

    method BuildOperation(g: Graph, bodies: Bodies, ghost pre: seq<byte>, ghost items: seq<Item>) returns (ghost items': seq<Item>)
      requires Building(g, bodies, items, pre) && toBuild != []
      modifies this
      ensures Building(g, bodies, items', pre) && Advanced(g, old(addressTable), old(toBuild))
      ensures Due(g, bodies) <= old(Due(g, bodies))
    {
      var op := toBuild[|toBuild| - 1];
      InTable(bodies, items, |pre|, addressTable, orderTable, op);
      if op == NULL {
        items' := BuildReturn(g, bodies, pre, items);
      } else if op in addressTable {
        items' := BuildJump(g, bodies, pre, items, op);
      } else {
        items' := BuildNew(g, bodies, pre, items, op);
      }
    }

    method BuildReturn(g: Graph, bodies: Bodies, ghost pre: seq<byte>, ghost items: seq<Item>) returns (ghost items': seq<Item>)
      requires Building(g, bodies, items, pre) && toBuild != [] && toBuild[|toBuild| - 1] == NULL
      modifies `assembly, `toBuild
      ensures Building(g, bodies, items', pre) && Advanced(g, old(addressTable), old(toBuild))      ensures Due(g, bodies) <= old(Due(g, bodies))
    {
      ReturnBuilt(g, bodies, items, pre, toBuild, assembly, jumpInstructions, addressTable, orderTable);
      items' := items + [Ret];
      toBuild := toBuild[..|toBuild| - 1];
      assembly := assembly + [0xC3];
    }

    // The operation is laid out already: jump to it.
    method BuildJump(g: Graph, bodies: Bodies, ghost pre: seq<byte>, ghost items: seq<Item>, op: Id) returns (ghost items': seq<Item>)
      requires Building(g, bodies, items, pre) && toBuild != [] && toBuild[|toBuild| - 1] == op != NULL && Laid(items, op)
      modifies `jumpInstructions, `toBuild
      ensures Building(g, bodies, items', pre) && Advanced(g, old(addressTable), old(toBuild))      ensures Due(g, bodies) <= old(Due(g, bodies))
    {
      JumpBuilt(g, bodies, items, pre, toBuild, assembly, jumpInstructions, addressTable, orderTable, op);
      items' := items + [Goto(op)];
      toBuild := toBuild[..|toBuild| - 1];
      jumpInstructions := jumpInstructions + [JumpInstruction(Jmp, |assembly|, |orderTable|, op)];
    }

    method BuildNew(g: Graph, bodies: Bodies, ghost pre: seq<byte>, ghost items: seq<Item>, op: Id) returns (ghost items': seq<Item>)
      requires Building(g, bodies, items, pre) && toBuild != [] && toBuild[|toBuild| - 1] == op != NULL && op !in addressTable
      modifies this
      ensures Building(g, bodies, items', pre) && Advanced(g, old(addressTable), old(toBuild))
      ensures Due(g, bodies) <= old(Due(g, bodies))
    {
      assert BodyFits(g, bodies, op);
      items' := LayNew(g, bodies, pre, items, op);
      BodyCharge(g, bodies, op, old(addressTable.Keys), addressTable.Keys, old(assembly), assembly,
                 old(jumpInstructions), jumpInstructions, old(toBuild), toBuild);
    }

    // Its successors are next on the stack.
    method LayNew(g: Graph, bodies: Bodies, ghost pre: seq<byte>, ghost items: seq<Item>, op: Id) returns (ghost items': seq<Item>)
      requires Building(g, bodies, items, pre) && toBuild != [] && toBuild[|toBuild| - 1] == op && op !in addressTable
      requires op in g.code && op in bodies && g.BlockOk(op)
      modifies this
      ensures Building(g, bodies, items', pre) && addressTable.Keys == old(addressTable.Keys) + {op}
      ensures toBuild == old(toBuild)[..|old(toBuild)| - 1] + Pushed(g.code[op]) && |assembly| == |old(assembly)| + |bodies[op]|
      ensures |jumpInstructions| == |old(jumpInstructions)| + if g.code[op].instr.Branch? then 1 else 0
    {
      BodyGenerated(g, bodies, items, toBuild, op);
      items' := Lay(g, bodies, pre, items, op);
      toBuild := toBuild[..|toBuild| - 1] + Pushed(g.code[op]);
    }

    // The bytes of an operation seen for the first time, and the jump of a test.
    method Lay(g: Graph, bodies: Bodies, ghost pre: seq<byte>, ghost items: seq<Item>, op: Id) returns (ghost items': seq<Item>)
      requires op !in addressTable && op in g.code && op in bodies && g.Valid() && g.BlockOk(op)
      requires InStep(bodies, items, pre, assembly, jumpInstructions, addressTable, orderTable)
      modifies `assembly, `addressTable, `orderTable, `jumpInstructions
      ensures items' == items + NewItems(g.code[op], op) && addressTable.Keys == old(addressTable.Keys) + {op}
      ensures |assembly| == |old(assembly)| + |bodies[op]|
      ensures |jumpInstructions| == |old(jumpInstructions)| + if g.code[op].instr.Branch? then 1 else 0
      ensures InStep(bodies, items', pre, assembly, jumpInstructions, addressTable, orderTable)
    {
      var currentOrder, b := |orderTable|, g.code[op];
      items' := LayBody(bodies, pre, items, op);
      if b.instr.Branch? {
        ghost var head := items';
        items' := LayTest(b, bodies, pre, head, currentOrder);
        assert items' == items + NewItems(b, op);
      }
    }

    method LayBody(bodies: Bodies, ghost pre: seq<byte>, ghost items: seq<Item>, op: Id) returns (ghost items': seq<Item>)
      requires op !in addressTable && op in bodies
      requires InStep(bodies, items, pre, assembly, jumpInstructions, addressTable, orderTable)
      modifies `assembly, `addressTable, `orderTable
      ensures items' == items + [Body(op)] && addressTable.Keys == old(addressTable.Keys) + {op}
      ensures |assembly| == |old(assembly)| + |bodies[op]| && |orderTable| == |old(orderTable)| + 1
      ensures InStep(bodies, items', pre, assembly, jumpInstructions, addressTable, orderTable)
    {
      OneMoreBody(bodies, items, pre, assembly, jumpInstructions, addressTable, orderTable, op);
      addressTable, orderTable := addressTable[op := |assembly|], orderTable[op := |orderTable|];
      assembly := assembly + bodies[op];
      items' := items + [Body(op)];
    }

    method LayTest(b: Block, bodies: Bodies, ghost pre: seq<byte>, ghost items: seq<Item>, currentOrder: nat)
      returns (ghost items': seq<Item>)
      requires b.instr.Branch? && |b.next| == 2 && |orderTable| == currentOrder + 1
      requires InStep(bodies, items, pre, assembly, jumpInstructions, addressTable, orderTable)
      modifies `jumpInstructions
      ensures items' == items + [Cond(KindOf(b.instr), b.next[1])] && |jumpInstructions| == |old(jumpInstructions)| + 1
      ensures InStep(bodies, items', pre, assembly, jumpInstructions, addressTable, orderTable)
    {
      ghost var cond := Cond(KindOf(b.instr), b.next[1]);
      OneMoreItem(bodies, items, pre, assembly, jumpInstructions, addressTable, orderTable, cond);
      jumpInstructions := jumpInstructions + [JumpInstruction(KindOf(b.instr), |assembly|, currentOrder, b.next[1])];
      assert assembly + [] == assembly;
      items' := items + [cond];
    }
  }

  method Generate(g: Graph, bodies: Bodies, pre: seq<byte>)
    returns (assembly: seq<byte>, jumps: seq<JumpInstruction>, addressTable: map<Id, int>, orderTable: map<Id, int>, ghost items: seq<Item>)
    requires Generatable(g, bodies)
    ensures Complete(g, bodies, items) && InStep(bodies, items, pre, assembly, jumps, addressTable, orderTable)
    ensures |assembly| + 6 * |jumps| <= |pre| + Total(g, bodies, g.code.Keys) + 6
  {
    var assembler := new Assembler(pre, g.entry);
    items := [];
    assert pre + [] == pre && g.code.Keys - {} == g.code.Keys;
    while assembler.toBuild != []
      invariant assembler.Building(g, bodies, items, pre)
      invariant assembler.Due(g, bodies) <= |pre| + Total(g, bodies, g.code.Keys) + 6
      decreases g.code.Keys - assembler.addressTable.Keys, |assembler.toBuild|
    {
      items := assembler.BuildOperation(g, bodies, pre, items);
    }
    GeneratedIsComplete(g, bodies, items);
    assembly, jumps := assembler.assembly, assembler.jumpInstructions;
    addressTable, orderTable := assembler.addressTable, assembler.orderTable;
  }

  // BuildFn: generate, then insert the jumps. `pre` is the code of the workers built
  // before; the buffer has room for every jump in its longest form.
  method BuildFn(g: Graph, bodies: Bodies, pre: seq<byte>) returns (code: array<byte>, newEnd: nat, address: map<Id, int>)
    requires Generatable(g, bodies)
    ensures |pre| <= newEnd <= code.Length && code[..|pre|] == pre
    ensures newEnd <= |pre| + Total(g, bodies, g.code.Keys) + 6
    ensures newEnd < 0x7FFF_FFF0 ==> LaidOut(g, bodies, code[..newEnd], address, |pre|)
  {
    var assembly, jumps, addressTable, orderTable;
    ghost var items;
    assembly, jumps, addressTable, orderTable, items := Generate(g, bodies, pre);
    ReadyToInsert(g, bodies, items, pre, assembly, jumps, addressTable, orderTable);
    code := BufferFor(assembly, |jumps|);
    ghost var short, encs;
    newEnd, address, short, encs := InsertJumpInstructions(code, |assembly|, jumps, addressTable, orderTable);
    Assembled(g, bodies, items, pre, assembly, jumps, short, addressTable, orderTable, encs, code[..], newEnd, address);
    assert code[..][..newEnd] == code[..newEnd] && code[..][..|pre|] == code[..|pre|];
  }

  method BufferFor(assembly: seq<byte>, jumps: nat) returns (code: array<byte>)
    ensures fresh(code) && code.Length == |assembly| + 6 * jumps && code[..|assembly|] == assembly
  {
    code := new byte[|assembly| + 6 * jumps](i => if 0 <= i < |assembly| then assembly[i] else 0);
  }

  lemma ReadyToInsert(g: Graph, bodies: Bodies, items: seq<Item>, pre: seq<byte>, assembly: seq<byte>, jumps: seq<JumpInstruction>,
                      addressTable: map<Id, int>, orderTable: map<Id, int>)
    requires Complete(g, bodies, items) && InStep(bodies, items, pre, assembly, jumps, addressTable, orderTable)
    ensures Tables(jumps, addressTable, orderTable) && Fit(jumps, |jumps|, |assembly|)
    ensures |pre| <= |assembly| && assembly[..|pre|] == pre
  {
    CompleteTables(g, bodies, items, |pre|, addressTable, orderTable);
    JumpsFit(bodies, items, |pre|);
  }

  lemma BehindTheOld(buffer: seq<byte>, newEnd: nat, pre: seq<byte>, flat: seq<byte>)
    requires newEnd <= |buffer| && buffer[..newEnd] == pre + flat
    ensures |pre| <= newEnd && buffer[..|pre|] == pre && buffer[..newEnd][|pre|..] == flat
  {
    assert buffer[..|pre|] == buffer[..newEnd][..|pre|];
  }

  // The buffer once the jumps are inserted.
  lemma Assembled(g: Graph, bodies: Bodies, items: seq<Item>, pre: seq<byte>, assembly: seq<byte>, jumps: seq<JumpInstruction>,
                  short: seq<int>, addressTable: map<Id, int>, orderTable: map<Id, int>, encs: seq<seq<byte>>, buffer: seq<byte>,
                  newEnd: nat, address: map<Id, int>)
    requires Complete(g, bodies, items) && InStep(bodies, items, pre, assembly, jumps, addressTable, orderTable)
    requires EncodingsOk(jumps, short, addressTable, orderTable, encs) && Updated(jumps, short, addressTable, orderTable, address)
    requires Fit(jumps, |jumps|, |assembly|) && newEnd <= |buffer| && buffer[..newEnd] == Spliced(assembly, jumps, encs, |jumps|)
    ensures |pre| <= newEnd && buffer[..|pre|] == pre
    ensures newEnd < 0x7FFF_FFF0 ==> LaidOut(g, bodies, buffer[..newEnd], address, |pre|)
  {
    SplicedIsFlat(bodies, items, pre, jumps, encs, |items|);
    var code, flat := buffer[..newEnd], Flat(bodies, items, |pre|, encs, |items|);
    BehindTheOld(buffer, newEnd, pre, flat);
    if newEnd < 0x7FFF_FFF0 {
      FinishedIsLaidOut(g, bodies, items, |pre|, jumps, short, addressTable, orderTable, encs, code, address);
    }
  }

  // ---------------------------------------------------------------- running the bytes

  // The register a variable is in.
  function RegisterOf(colors: map<Var, int>, v: Var): int { if v in colors then colors[v] else v }

  // From q, behind the bytes of an operation, the processor goes on to p: straight on, or
  // by the jump behind a test, which goes by the value in the tested register.
  ghost predicate Leaves(i: Instr, colors: map<Var, int>, env: map<Var, int>, code: seq<byte>, q: int, p: int)
  {
    if i.Branch? then RegisterOf(colors, i.cond) in env && GoesTo(code, q, env[RegisterOf(colors, i.cond)] == 0) == Some(p)
    else p == q
  }

  // With these registers, the processor at p comes to the bytes of operation n, and behind them to p1.
  ghost predicate Executes(g: Graph, colors: map<Var, int>, bodies: Bodies, code: seq<byte>, address: map<Id, int>,
                           n: Id, env: map<Var, int>, p: int, p1: int)
  {
    n in g.code && n in address && n in bodies && ComesTo(code, p, address[n]) && Stands(code, address[n], bodies[n]) &&
    Leaves(g.code[n].instr, colors, env, code, address[n] + |bodies[n]|, p1)
  }

  // Step k of a run over registers.
  ghost predicate ExecutesAt(g: Graph, colors: map<Var, int>, bodies: Bodies, code: seq<byte>, address: map<Id, int>,
                             m: Machine, world: World, ps: seq<int>, k: nat)
    requires g.Valid() && k + 1 < |ps|
  {
    var r := RegisterRun(g, colors, State(g.entry, m), world, k);
    r.Some? && Executes(g, colors, bodies, code, address, r.value.pc, r.value.machine.env, ps[k], ps[k + 1])
  }

  // From ps[0] to ps[n], n operations.
  ghost predicate Executed(g: Graph, colors: map<Var, int>, bodies: Bodies, code: seq<byte>, address: map<Id, int>, start: int,
                           m: Machine, world: World, ps: seq<int>, n: nat)
    requires g.Valid()
  {
    |ps| == n + 1 && ps[0] == start && forall k :: 0 <= k < n ==> ExecutesAt(g, colors, bodies, code, address, m, world, ps, k)
  }

  lemma GoingOnComes(code: seq<byte>, address: map<Id, int>, p: int, n: Id)
    requires GoesOn(code, address, p, n) && n != NULL
    ensures n in address && ComesTo(code, p, address[n])
  {
    if p != address[n] {
      var length :| JumpAt(code, p, Jmp, length, address[n]);
      JumpGoes(code, p, Jmp, length, address[n], 0);
      JumpGoes(code, p, Jmp, length, address[n], 1);
    }
  }

  // What the jump of a test does is what the test says.
  lemma TestGoes(code: seq<byte>, address: map<Id, int>, q: int, i: Instr, length: int, next: seq<Id>, value: int) returns (p: int)
    requires i.Branch? && |next| == 2 && Tests(code, address, q, KindOf(i), length, next) && next[1] != NULL
    ensures GoesTo(code, q, value == 0) == Some(p)
    ensures GoesOn(code, address, p, if i.onZero == (value == 0) then next[1] else next[0])
  {
    JumpGoes(code, q, KindOf(i), length, address[next[1]], value);
    p := if TakenFor(KindOf(i), value) then address[next[1]] else q + length;
  }

  // One operation: from wherever control goes on to it, to where it goes on to the next.
  lemma StepIsExecuted(g: Graph, colors: map<Var, int>, bodies: Bodies, code: seq<byte>, address: map<Id, int>, start: int,
                       s: State, world: World, p: int) returns (p1: int)
    requires LaidOut(g, bodies, code, address, start) && RegisterStep(g, colors, s, world).Some? && GoesOn(code, address, p, s.pc)
    ensures Executes(g, colors, bodies, code, address, s.pc, s.machine.env, p, p1)
    ensures GoesOn(code, address, p1, RegisterStep(g, colors, s, world).value.pc)
  {
    GoingOnComes(code, address, p, s.pc);
    assert OperationRuns(g, bodies, code, address, s.pc) && g.BlockOk(s.pc);
    var b, q := g.code[s.pc], address[s.pc] + |bodies[s.pc]|;
    if b.instr.Branch? {
      var length :| Tests(code, address, q, KindOf(b.instr), length, b.next);
      assert OperationRuns(g, bodies, code, address, b.next[1]);
      var c := RegisterOf(colors, b.instr.cond);
      assert ReadVars(Rename(b.instr, colors))[0] == c;
      p1 := TestGoes(code, address, q, b.instr, length, b.next, s.machine.env[c]);
    } else {
      p1 := q;
    }
  }

  // Running the bytes from the start does, in order, exactly the operations of the
  // registers' run, leaving every test as the value in its register has it, and where the
  // run has come to its end it comes to a return.
  lemma {:induction false} RunIsExecuted(g: Graph, colors: map<Var, int>, bodies: Bodies, code: seq<byte>, address: map<Id, int>,
                                         start: int, m: Machine, world: World, n: nat) returns (ps: seq<int>)
    requires LaidOut(g, bodies, code, address, start) && RegisterRun(g, colors, State(g.entry, m), world, n).Some?
    ensures Executed(g, colors, bodies, code, address, start, m, world, ps, n)
    ensures GoesOn(code, address, ps[n], RegisterRun(g, colors, State(g.entry, m), world, n).value.pc)
  {
    if n == 0 {
      ps := [start];
    } else {
      ps := RunIsExecuted(g, colors, bodies, code, address, start, m, world, n - 1);
      ghost var before := ps;
      var s := RegisterRun(g, colors, State(g.entry, m), world, n - 1).value;
      assert RegisterRun(g, colors, State(g.entry, m), world, n) == RegisterStep(g, colors, s, world);
      var p1 := StepIsExecuted(g, colors, bodies, code, address, start, s, world, ps[n - 1]);
      ps := ps + [p1];
      forall k | 0 <= k < n ensures ExecutesAt(g, colors, bodies, code, address, m, world, ps, k) {
        assert k < n - 1 ==> ExecutesAt(g, colors, bodies, code, address, m, world, before, k);
      }
    }
  }
}
