// Promises of a worker that never leave it, and keeping their content in the variable
// itself instead.
module Promises {
  import opened Wrappers
  import opened Ir
  import opened GraphSurgery
  import opened ControlFlow

  // ---------------------------------------------------------------- workers with promises

  // Promises from outside, and those made by the OP_NEW_PROMISE operations on a variable,
  // in order.
  datatype Ref = Given(id: int) | Made(maker: Var, count: nat)

  datatype Value = Num(number: int) | Promise(ref: Ref)

  // What an operation shows to the outside and gets back.
  datatype Act = Act(tag: Tag, args: seq<Value>, answer: Value)

  // `ready` holds the content of the promises that have been pushed, `shown` the
  // promises that the outside has seen.
  datatype Worker = Worker(env: map<Var, Value>, mem: map<int, Value>, ready: map<Ref, Value>,
                           made: map<Var, nat>, shown: set<Ref>, acts: seq<Act>)

  datatype At = At(pc: Id, worker: Worker)

  // The worker does an operation, with the answer of the outside should it ask for one;
  // or the outside pushes to promises that it knows.
  datatype Label = Work(answer: Value) | Outside(fills: map<Ref, Value>)

  function MadeBefore(w: Worker, x: Var): nat { if x in w.made then w.made[x] else 0 }

  predicate Knows(w: Worker, v: Value) { v.Promise? ==> v.ref in w.shown }

  function RefsOf(vs: seq<Value>): set<Ref> { set v | v in vs && v.Promise? :: v.ref }

  predicate Holds(env: map<Var, Value>, vs: seq<Var>)
  {
    forall k :: 0 <= k < |vs| ==> vs[k] in env
  }

  function ValuesIn(env: map<Var, Value>, vs: seq<Var>): seq<Value>
    requires Holds(env, vs)
  {
    seq(|vs|, k requires 0 <= k < |vs| => env[vs[k]])
  }

  datatype Done = Blocked | Done(worker: Worker, taken: bool)

  function Do(i: Instr, w: Worker, answer: Value): Done
  {
    if !Holds(w.env, ReadVars(i)) then Blocked
    else
      match i
      case Free(v) => Done(w.(env := w.env - {v}), false)
      case Jump => Done(w, false)
      case Compute(tag, d, args) => Compute(tag, d, args, w, answer)
      case Branch(onZero, c) =>
        assert ReadVars(i)[0] == c;
        Done(w, onZero == (w.env[c] == Num(0)))
      case Load(d, p) => if p in w.mem then Done(w.(env := w.env[d := w.mem[p]]), false) else Blocked
      case Store(v, p) =>
        assert ReadVars(i)[0] == v;
        Done(w.(mem := w.mem[p := w.env[v]]), false)
  }

  function Compute(tag: Tag, d: Option<Var>, args: seq<Var>, w: Worker, answer: Value): Done
    requires Holds(w.env, args)
  {
    match tag
    case NewPromise => if d.None? then Blocked else Done(Make(w, d.value), false)
    case PushPromise => if d.None? && |args| == 2 then Push(w, w.env[args[0]], w.env[args[1]]) else Blocked
    case QueryPromise => if d.Some? && |args| == 1 then Query(w, d.value, w.env[args[0]]) else Blocked
    case Mov => if d.Some? && |args| == 1 then Done(w.(env := w.env[d.value := w.env[args[0]]]), false) else Blocked
    case _ => Ask(tag, d, ValuesIn(w.env, args), w, answer)
  }

  function Make(w: Worker, x: Var): Worker
  {
    var n := MadeBefore(w, x);
    var counted := w.(made := w.made[x := n + 1]);
    counted.(env := counted.env[x := Promise(Made(x, n))])
  }

  function Push(w: Worker, p: Value, v: Value): Done
  {
    if p.Promise? then Done(w.(ready := w.ready[p.ref := v]), false) else Blocked
  }

  // A promise that is not ready keeps the worker waiting.
  function Query(w: Worker, d: Var, p: Value): Done
  {
    if p.Promise? && p.ref in w.ready then Done(w.(env := w.env[d := w.ready[p.ref]]), false) else Blocked
  }

  // Any other operation: the outside sees the operands and answers with what it knows.
  function Ask(tag: Tag, d: Option<Var>, vs: seq<Value>, w: Worker, answer: Value): Done
  {
    var seen := w.(shown := w.shown + RefsOf(vs), acts := w.acts + [Act(tag, vs, answer)]);
    if !Knows(seen, answer) then Blocked
    else Done(match d case None => seen case Some(v) => seen.(env := w.env[v := answer]), false)
  }

  function Step(g: Graph, s: At, l: Label): Option<At>
    requires g.Valid()
  {
    match l
    case Outside(fills) =>
      if fills.Keys <= s.worker.shown && forall r :: r in fills ==> Knows(s.worker, fills[r]) then
        Some(At(s.pc, s.worker.(ready := s.worker.ready + fills)))
      else None
    case Work(answer) =>
      if s.pc !in g.code then None
      else
        assert g.BlockOk(s.pc);
        match Do(g.code[s.pc].instr, s.worker, answer)
        case Blocked => None
        case Done(w, taken) => Some(At(Target(g.code[s.pc], taken), w))
  }

  function Run(g: Graph, s: At, ls: seq<Label>): Option<At>
    requires g.Valid()
  {
    if ls == [] then Some(s)
    else match Run(g, s, ls[..|ls| - 1])
         case None => None
         case Some(u) => Step(g, u, ls[|ls| - 1])
  }

  // A push to a promise ends every wait for it: a query gives what was pushed last, and no
  // other promise is touched.
  lemma QueryAfterPush(w: Worker, p: Value, v: Value, d: Var)
    requires p.Promise?
    ensures var pushed := Push(w, p, v);
            pushed.Done? && Query(pushed.worker, d, p) == Done(pushed.worker.(env := w.env[d := v]), false) &&
            forall r :: r != p.ref ==> SameReady(w.ready, pushed.worker.ready, r)
  {
  }

  // Promises made before were made with smaller numbers.
  ghost predicate Counted(w: Worker)
  {
    (forall r :: r in w.ready && r.Made? ==> r.count < MadeBefore(w, r.maker)) &&
    forall y :: y in w.env && w.env[y].Promise? && w.env[y].ref.Made? ==> w.env[y].ref.count < MadeBefore(w, w.env[y].ref.maker)
  }

  // A promise just made is no other one, and a query of it waits.
  lemma NewPromiseIsEmpty(w: Worker, x: Var, d: Var)
    requires Counted(w)
    ensures var w' := Make(w, x);
            Counted(w') && w'.env[x].Promise? && Query(w', d, w'.env[x]).Blocked? &&
            forall y :: y in w.env && y != x ==> w'.env[y] == w.env[y] && w'.env[y] != w'.env[x]
  {
  }

  // ---------------------------------------------------------------- the escape check and the rewriting

  // The operation uses the promise in x other than as the one queried or pushed to.
  predicate Escapes(i: Instr, x: Var)
  {
    !i.Free? &&
    if i.Compute? && i.tag.QueryPromise? then i.dest == Some(x)
    else if i.Compute? && i.tag.PushPromise? then |i.args| > 1 && i.args[1] == x
    else x in UsedVars(i)
  }

  predicate Makes(i: Instr, x: Var) { i.Compute? && i.tag.NewPromise? && i.dest == Some(x) && i.args == [] }

  // No operation but c lets the promise escape.
  predicate Private(code: map<Id, Block>, c: Id, x: Var)
  {
    forall n :: n in code && n != c ==> !Escapes(code[n].instr, x)
  }

  // A query becomes a move from the variable, a push one to it.
  function Retag(i: Instr, x: Var): Instr
  {
    if i.Compute? && i.tag.QueryPromise? && i.args == [x] then Instr.Compute(Mov, i.dest, i.args)
    else if i.Compute? && i.tag.PushPromise? && |i.args| == 2 && i.args[0] == x && i.dest.None? then
      Instr.Compute(Mov, Some(x), i.args[1..])
    else i
  }

  function RetagIn(g: Graph, x: Var, done: set<Id>): Graph
  {
    Graph(g.entry, map n | n in g.code ::
      Block(if n in done then Retag(g.code[n].instr, x) else g.code[n].instr, g.code[n].next, g.code[n].prev))
  }

  function Promoted(g: Graph, c: Id, x: Var): Graph
    requires c in g.code && |g.code[c].next| > 0
  {
    Removed(RetagIn(g, x, g.code.Keys), c)
  }

  // c makes promises in x that do not escape.
  ghost predicate Promotable(g: Graph, c: Id, x: Var)
  {
    Removable(g, c) && Makes(g.code[c].instr, x) && Private(g.code, c, x)
  }

  lemma RetagLinked(g: Graph, x: Var, done: set<Id>)
    requires WellLinked(g)
    ensures WellLinked(RetagIn(g, x, done))
  {
  }

  lemma PromotedLinked(g: Graph, c: Id, x: Var)
    requires Removable(g, c)
    ensures WellLinked(Promoted(g, c, x)) && Promoted(g, c, x).code.Keys == g.code.Keys - {c}
  {
    RetagLinked(g, x, g.code.Keys);
    RemovedLinked(RetagIn(g, x, g.code.Keys), c);
  }

  // ---------------------------------------------------------------- what the rewriting keeps

  predicate MadeAt(r: Ref, x: Var) { r.Made? && r.maker == x }

  predicate Clean(v: Value, x: Var) { v.Promise? ==> !MadeAt(v.ref, x) }

  // Only x holds promises made at x.
  ghost predicate Hidden(w: Worker, x: Var)
  {
    (forall y :: y in w.env ==> if y == x then Owned(w, w.env[y], x) else Clean(w.env[y], x)) &&
    (forall p :: p in w.mem ==> Clean(w.mem[p], x)) &&
    (forall r :: r in w.ready ==> Clean(w.ready[r], x) && (MadeAt(r, x) ==> r.count < MadeBefore(w, x))) &&
    (forall r :: r in w.shown ==> !MadeAt(r, x))
  }

  ghost predicate Owned(w: Worker, v: Value, x: Var)
  {
    v.Promise? ==> MadeAt(v.ref, x) && v.ref.count < MadeBefore(w, x)
  }

  // The same but for the variables xs and the promises made there.
  ghost predicate Agree(w: Worker, w': Worker, xs: set<Var>)
  {
    w'.mem == w.mem && w'.shown == w.shown && w'.acts == w.acts &&
    (forall y :: y !in xs ==> SameAt(w, w', y)) &&
    (forall r: Ref :: (r.Made? ==> r.maker !in xs) ==> SameReady(w.ready, w'.ready, r))
  }

  ghost predicate SameAt(w: Worker, w': Worker, y: Var)
  {
    (y in w.env <==> y in w'.env) && (y in w.env ==> w'.env[y] == w.env[y]) && MadeBefore(w', y) == MadeBefore(w, y)
  }

  ghost predicate SameReady(ready: map<Ref, Value>, ready': map<Ref, Value>, r: Ref)
  {
    (r in ready <==> r in ready') && (r in ready ==> ready'[r] == ready[r])
  }

  // The variable holds what is in the promise.
  ghost predicate Carries(w: Worker, w': Worker, x: Var)
  {
    x in w.env && w.env[x].Promise? && w.env[x].ref in w.ready ==>
      x in w'.env && w'.env[x] == w.ready[w.env[x].ref]
  }

  ghost predicate Stands(w: Worker, w': Worker, x: Var)
  {
    Hidden(w, x) && Agree(w, w', {x}) && Carries(w, w', x)
  }

  ghost predicate BothDone(d: Done, d': Done, x: Var)
  {
    d.Done? ==> d'.Done? && d'.taken == d.taken && Stands(d.worker, d'.worker, x)
  }

  lemma SameValues(args: seq<Var>, w: Worker, w': Worker, x: Var)
    requires Stands(w, w', x) && x !in args && Holds(w.env, args) && Holds(w'.env, args)
    ensures ValuesIn(w'.env, args) == ValuesIn(w.env, args)
    ensures forall r :: r in RefsOf(ValuesIn(w.env, args)) ==> !MadeAt(r, x)
  {
    forall k | 0 <= k < |args| ensures w'.env[args[k]] == w.env[args[k]] && Clean(w.env[args[k]], x) {
      assert args[k] in args && SameAt(w, w', args[k]);
    }
  }

  lemma SetStands(w: Worker, w': Worker, x: Var, d: Var, v: Value)
    requires Stands(w, w', x) && d != x && Clean(v, x)
    ensures Stands(w.(env := w.env[d := v]), w'.(env := w'.env[d := v]), x)
  {
  }

  lemma AskStands(tag: Tag, d: Option<Var>, args: seq<Var>, w: Worker, w': Worker, x: Var, answer: Value)
    requires Stands(w, w', x) && x !in args && d != Some(x) && Holds(w.env, args) && Holds(w'.env, args)
    ensures BothDone(Ask(tag, d, ValuesIn(w.env, args), w, answer), Ask(tag, d, ValuesIn(w'.env, args), w', answer), x)
  {
    SameValues(args, w, w', x);
    var vs := ValuesIn(w.env, args);
    var seen := w.(shown := w.shown + RefsOf(vs), acts := w.acts + [Act(tag, vs, answer)]);
    var seen' := w'.(shown := w'.shown + RefsOf(vs), acts := w'.acts + [Act(tag, vs, answer)]);
    assert Stands(seen, seen', x);
    if Knows(seen, answer) && d.Some? { SetStands(seen, seen', x, d.value, answer); }
  }

  lemma CountStands(w: Worker, w': Worker, x: Var, d: Var, n: nat)
    requires Stands(w, w', x) && d != x
    ensures Stands(w.(made := w.made[d := n]), w'.(made := w'.made[d := n]), x)
  {
  }

  lemma MakeOtherStands(w: Worker, w': Worker, x: Var, d: Var)
    requires Stands(w, w', x) && d != x
    ensures Stands(Make(w, d), Make(w', d), x)
  {
    var n := MadeBefore(w, d);
    assert SameAt(w, w', d);
    CountStands(w, w', x, d, n + 1);
    var u, u' := w.(made := w.made[d := n + 1]), w'.(made := w'.made[d := n + 1]);
    ghost var p := Promise(Made(d, n));
    SetStands(u, u', x, d, p);
    assert Make(w, d) == u.(env := u.env[d := p]) && Make(w', d) == u'.(env := u'.env[d := p]);
  }

  lemma QueryStands(w: Worker, w': Worker, x: Var, d: Var, p: Var)
    requires Stands(w, w', x) && d != x && p in w.env
    ensures p != x ==> p in w'.env
    ensures p != x ==> BothDone(Query(w, d, w.env[p]), Query(w', d, w'.env[p]), x)
    ensures p == x ==> var q := Query(w, d, w.env[p]);
            q.Done? ==> x in w'.env && BothDone(q, Done(w'.(env := w'.env[d := w'.env[x]]), false), x)
  {
    assert p != x ==> SameAt(w, w', p);
    assert w.env[p].Promise? && p != x ==> SameReady(w.ready, w'.ready, w.env[p].ref);
  }

  lemma PushStands(w: Worker, w': Worker, x: Var, p: Var, v: Var)
    requires Stands(w, w', x) && v != x && p in w.env && v in w.env
    ensures v in w'.env && (p != x ==> p in w'.env)
    ensures p != x ==> BothDone(Push(w, w.env[p], w.env[v]), Push(w', w'.env[p], w'.env[v]), x)
    ensures p == x ==> BothDone(Push(w, w.env[p], w.env[v]), Done(w'.(env := w'.env[x := w'.env[v]]), false), x)
  {
    assert p != x ==> SameAt(w, w', p);
    assert SameAt(w, w', v);
  }

  lemma MoveStands(w: Worker, w': Worker, x: Var, d: Var, v: Var)
    requires Stands(w, w', x) && d != x && v != x && v in w.env && v in w'.env
    ensures Stands(w.(env := w.env[d := w.env[v]]), w'.(env := w'.env[d := w'.env[v]]), x)
  {
    assert SameAt(w, w', v);
    SetStands(w, w', x, d, w.env[v]);
  }

  // Every operation that the promise does not escape by.
  lemma DoStands(i: Instr, w: Worker, w': Worker, x: Var, answer: Value)
    requires Stands(w, w', x) && !Escapes(i, x)
    ensures BothDone(Do(i, w, answer), Do(Retag(i, x), w', answer), x)
  {
    if Do(i, w, answer).Done? {
      if i.Compute? {
        ComputeStands(i, w, w', x, answer);
      } else {
        OtherStands(i, w, w', x, answer);
      }
    }
  }

  lemma FreeStands(w: Worker, w': Worker, x: Var, v: Var)
    requires Stands(w, w', x)
    ensures Stands(w.(env := w.env - {v}), w'.(env := w'.env - {v}), x)
  {
  }

  lemma StoreStands(w: Worker, w': Worker, x: Var, v: Var, p: int)
    requires Stands(w, w', x) && v != x && v in w.env
    ensures v in w'.env && Stands(w.(mem := w.mem[p := w.env[v]]), w'.(mem := w'.mem[p := w'.env[v]]), x)
  {
    assert SameAt(w, w', v);
    var u, u' := w.(mem := w.mem[p := w.env[v]]), w'.(mem := w'.mem[p := w'.env[v]]);
    forall y | y !in {x} ensures SameAt(u, u', y) {
      assert SameAt(w, w', y);
    }
  }

  lemma OtherStands(i: Instr, w: Worker, w': Worker, x: Var, answer: Value)
    requires Stands(w, w', x) && !Escapes(i, x) && !i.Compute? && Holds(w.env, ReadVars(i))
    ensures BothDone(Do(i, w, answer), Do(i, w', answer), x)
  {
    match i
    case Free(v) => FreeStands(w, w', x, v);
    case Jump =>
    case Branch(_, c) =>
      assert c in ReadVars(i) && ReadVars(i)[0] == c;
      assert SameAt(w, w', c);
    case Load(d, p) =>
      assert d in WrittenVars(i);
      if p in w.mem { SetStands(w, w', x, d, w.mem[p]); }
    case Store(v, p) =>
      assert v in ReadVars(i) && ReadVars(i)[0] == v;
      StoreStands(w, w', x, v, p);
  }

  lemma ComputeStands(i: Instr, w: Worker, w': Worker, x: Var, answer: Value)
    requires Stands(w, w', x) && !Escapes(i, x) && i.Compute?
    requires Holds(w.env, i.args)
    ensures BothDone(Do(i, w, answer), Do(Retag(i, x), w', answer), x)
  {
    if i.tag.QueryPromise? {
      if i.dest.Some? && |i.args| == 1 { QueryStands(w, w', x, i.dest.value, i.args[0]); }
    } else if i.tag.PushPromise? {
      if i.dest.None? && |i.args| == 2 { PushStands(w, w', x, i.args[0], i.args[1]); }
    } else {
      assert i.dest.Some? ==> i.dest.value in WrittenVars(i);
      PlainStands(i.tag, i.dest, i.args, w, w', x, answer);
    }
  }

  lemma PlainStands(tag: Tag, d: Option<Var>, args: seq<Var>, w: Worker, w': Worker, x: Var, answer: Value)
    requires Stands(w, w', x) && !tag.QueryPromise? && !tag.PushPromise? && x !in args && d != Some(x)
    requires Holds(w.env, args)
    ensures Holds(w'.env, args)
    ensures BothDone(Compute(tag, d, args, w, answer), Compute(tag, d, args, w', answer), x)
  {
    forall k | 0 <= k < |args| ensures args[k] in w'.env {
      var v := args[k];
      assert v in args && v in w.env && SameAt(w, w', v);
    }
    if tag.NewPromise? {
      if d.Some? { MakeOtherStands(w, w', x, d.value); }
    } else if tag.Mov? {
      if d.Some? && |args| == 1 { MoveStands(w, w', x, d.value, args[0]); }
    } else {
      AskStands(tag, d, args, w, w', x, answer);
    }
  }

  lemma MakeStands(w: Worker, w': Worker, x: Var)
    requires Stands(w, w', x)
    ensures Stands(Make(w, x), w', x)
  {
  }

  lemma FillHidden(w: Worker, x: Var, fills: map<Ref, Value>)
    requires Hidden(w, x) && fills.Keys <= w.shown && forall r :: r in fills ==> Knows(w, fills[r])
    ensures Hidden(w.(ready := w.ready + fills), x)
  {
    var u := w.(ready := w.ready + fills);
    assert MadeBefore(u, x) == MadeBefore(w, x);
    forall r | r in u.ready ensures Clean(u.ready[r], x) && (MadeAt(r, x) ==> r.count < MadeBefore(u, x)) {
      if r in fills { assert Knows(w, fills[r]); }
    }
  }

  lemma FillAgree(w: Worker, w': Worker, x: Var, fills: map<Ref, Value>)
    requires Agree(w, w', {x})
    ensures Agree(w.(ready := w.ready + fills), w'.(ready := w'.ready + fills), {x})
  {
    var u, u' := w.(ready := w.ready + fills), w'.(ready := w'.ready + fills);
    forall y | y !in {x} ensures SameAt(u, u', y) {
      assert SameAt(w, w', y);
    }
    forall r: Ref | r.Made? ==> r.maker !in {x} ensures SameReady(u.ready, u'.ready, r) {
      assert SameReady(w.ready, w'.ready, r);
    }
  }

  lemma FillStands(w: Worker, w': Worker, x: Var, fills: map<Ref, Value>)
    requires Stands(w, w', x) && fills.Keys <= w.shown && forall r :: r in fills ==> Knows(w, fills[r])
    ensures Stands(w.(ready := w.ready + fills), w'.(ready := w'.ready + fills), x)
  {
    FillHidden(w, x, fills);
    FillAgree(w, w', x, fills);
  }
}
