// Expanding a macro form in place, on a copy of its body, is replacing parameters in a tree.
module Expansion {
  import opened Agreement
  import opened Evaluator
  import opened HeapRuns
  import I = Interpreter
  import opened Meaning
  import opened Values
  import opened Wrappers

  // What g has, t still has, entries of association lists aside.
  ghost predicate Old(g: State, t: State) {
    forall id :: id in g.heap && id !in g.roles ==> id in t.heap && t.heap[id] == g.heap[id]
  }

  lemma {:induction false} HoldsOld(g: State, t: State, v: I.Tree)
    requires WF(g) && Reads(g, v) && Old(g, t)
    ensures Holds(t, v)
    decreases v
  {
    if v.at.Cell? { assert CellOk(g, v.at.id); }
    if v.Fork? {
      HoldsOld(g, t, v.car);
      HoldsOld(g, t, v.cdr);
    }
  }

  // The cells of v are old, atoms, or lie between lo and hi.
  ghost predicate Span(g: State, v: I.Tree, lo: nat, hi: nat)
    decreases v
  {
    v.Tip? || Reads(g, v) ||
    (v.at.Cell? && lo <= v.at.id < hi && Span(g, v.car, lo, hi) && Span(g, v.cdr, lo, hi))
  }

  lemma {:induction false} SpanWider(g: State, v: I.Tree, lo: nat, hi: nat, lo': nat, hi': nat)
    requires Span(g, v, lo, hi) && lo' <= lo && hi <= hi'
    ensures Span(g, v, lo', hi')
    decreases v
  {
    hide Reads;
    if v.Fork? && !Reads(g, v) {
      SpanWider(g, v.car, lo, hi, lo', hi');
      SpanWider(g, v.cdr, lo, hi, lo', hi');
    }
  }

  lemma {:induction false} SpanKept(g: State, s: State, t: State, v: I.Tree, lo: nat, hi: nat)
    requires WF(g) && Span(g, v, lo, hi) && Holds(s, v) && Old(g, t)
    requires forall id :: id in s.heap && (s.heap[id].Leaf? || lo <= id < hi) ==>
               id in t.heap && t.heap[id] == s.heap[id]
    ensures Holds(t, v)
    decreases v
  {
    hide WF, Old;
    if Reads(g, v) {
      HoldsOld(g, t, v);
    } else if v.Fork? {
      SpanKept(g, s, t, v.car, lo, hi);
      SpanKept(g, s, t, v.cdr, lo, hi);
    }
  }

  // A copy spans the cells that were allocated for it.
  lemma {:induction false} CopySpan(g: State, t: State, v: I.Tree, lo: nat, hi: nat)
    requires Holds(t, v) && Grown(t.heap, v.at, lo, hi)
    ensures Span(g, v, lo, hi)
    decreases v
  {
    hide Reads;
    if v.Fork? {
      var mid: nat :| lo <= mid <= v.at.id && Grown(t.heap, v.car.at, lo, mid) && Grown(t.heap, v.cdr.at, mid, v.at.id);
      CopySpan(g, t, v.car, lo, mid);
      CopySpan(g, t, v.cdr, mid, v.at.id);
      SpanWider(g, v.car, lo, mid, lo, hi);
      SpanWider(g, v.cdr, mid, v.at.id, lo, hi);
    }
  }

  // ---------------------------------------------------------------- parameters

  // The parameters in frame have old symbols and old values.
  ghost predicate Framed(g: State, s: State, w: I.World, a: Ref, frame: I.Env) {
    && WF(s) && Old(g, s) && EnvIs(s, a, frame)
    && forall l :: l in frame ==> FramedOne(g, s, w, l)
  }

  ghost predicate FramedOne(g: State, s: State, w: I.World, l: I.Local) {
    Reads(g, l.key) && Reads(g, I.ValueOf(w, l)) && Has(s, Cell(l.place), Entry) &&
    Cadr(s, Cell(l.place)) == Ok(I.ValueOf(w, l).at)
  }

  lemma {:induction false} EnvRewritten(g: State, s: State, t: State, w: I.World, a: Ref, env: I.Env)
    requires WF(g) && WF(s) && Rewritten(s, t) && Old(g, t) && EnvIs(s, a, env)
    requires forall l :: l in env ==> FramedOne(g, s, w, l)
    ensures EnvIs(t, a, env)
    decreases |env|
  {
    hide Replays, Holds, Cadr;
    if env != [] {
      assert FramedOne(g, s, w, env[0]);
      HoldsOld(g, t, env[0].key);
      EnvRewritten(g, s, t, w, s.heap[a.id].cdr, env[1..]);
    }
  }

  lemma FramedRewritten(g: State, s: State, t: State, w: I.World, a: Ref, frame: I.Env)
    requires WF(g) && Framed(g, s, w, a, frame) && Rewritten(s, t) && WF(t) && Old(g, t)
    ensures Framed(g, t, w, a, frame)
  {
    hide Replays, Reads, Old;
    EnvRewritten(g, s, t, w, a, frame);
    forall l | l in frame ensures FramedOne(g, t, w, l) {
      assert FramedOne(g, s, w, l) && CellOk(s, l.place);
    }
  }

  lemma OldRewritten(g: State, s: State, t: State, lo: nat, hi: nat)
    requires WF(g) && Old(g, s) && g.next <= lo && ChangedWithin(s.heap, t.heap, lo, hi)
    ensures Old(g, t)
  {
    forall id | id in g.heap && id !in g.roles ensures id in t.heap && t.heap[id] == g.heap[id] {
      assert CellOk(g, id);
    }
  }

  // ---------------------------------------------------------------- replacing

  // What a rewriting of the tree v in its cells has to end in.
  ghost predicate Becomes(g: State, t: State, v: I.Tree, lo: nat, hi: nat) {
    Holds(t, v) && Span(g, v, lo, hi)
  }

  lemma {:induction false} ReplaceIs(fuel: nat, g: State, s: State, w: I.World, v: I.Tree, lo: nat, hi: nat, a: Ref,
      frame: I.Env)
    requires WF(g) && g.next <= lo && Framed(g, s, w, a, frame) && v.Fork?
    requires Reads(s, v) && Grown(s.heap, v.at, lo, hi)
    ensures var x := Replace(fuel, s, v.at, a);
            x == Stop(OutOfSteps) || (x.Ok? && Becomes(g, x.value, I.Replaced(v, frame, w), lo, hi))
    decreases fuel, 1
  {
    hide WF, ReplacePart, Framed, Old;
    FramedWF(g, s, w, a, frame);
    ReadParts(s, v);
    var id := v.at.id;
    var mid: nat :| lo <= mid <= id && Grown(s.heap, v.car.at, lo, mid) && Grown(s.heap, v.cdr.at, mid, id);
    if fuel > 0 {
      ReplacePartIs(fuel, g, s, w, id, true, v.car, lo, mid, a, frame);
      var half := ReplacePart(fuel, s, id, true, a);
      if half.Ok? {
        var t := half.value;
        SecondHalf(fuel, g, s, t, w, v, lo, mid, a, frame);
        ReplacePartIs(fuel, g, t, w, id, false, v.cdr, mid, id, a, frame);
        var whole := ReplacePart(fuel, t, id, false, a);
        if whole.Ok? {
          Joined(fuel, g, t, whole.value, w, v, lo, mid, hi, a, frame);
        }
      }
    }
  }

  lemma FramedWF(g: State, s: State, w: I.World, a: Ref, frame: I.Env)
    requires Framed(g, s, w, a, frame)
    ensures WF(s) && EnvIs(s, a, frame) && Old(g, s) && Env(s, a)
  {
    EnvOf(s, a, frame);
  }

  // After the car half: the cdr is still what it was.
  lemma SecondHalf(fuel: nat, g: State, s: State, t: State, w: I.World, v: I.Tree, lo: nat, mid: nat, a: Ref,
      frame: I.Env)
    requires WF(g) && g.next <= lo && Framed(g, s, w, a, frame) && v.Fork? && Reads(s, v) && fuel > 0
    requires lo <= mid <= v.at.id && Grown(s.heap, v.car.at, lo, mid) && Grown(s.heap, v.cdr.at, mid, v.at.id)
    requires ReplacePart(fuel, s, v.at.id, true, a) == Ok(t)
    ensures Framed(g, t, w, a, frame) && Plain(t, v.at) && Reads(t, v.cdr) && Grown(t.heap, v.cdr.at, mid, v.at.id)
    ensures t.heap[v.at.id].Pair? && t.heap[v.at.id].cdr == v.cdr.at
  {
    hide WF, Framed, Old, Replays, I.Replaced;
    var id := v.at.id;
    FramedWF(g, s, w, a, frame);
    Self(s);
    ReadParts(s, v);
    ReplacePartAgree(fuel, s, s, id, true, a);
    ReplacePartWithin(fuel, s, id, true, a, lo, mid);
    assert ChangedWithin(s.heap, t.heap, lo, id + 1);
    OldRewritten(g, s, t, lo, id + 1);
    FramedRewritten(g, s, t, w, a, frame);
    GrownKept(s.heap, t.heap, v.cdr.at, mid, id);
    CopySpan(g, s, v.cdr, mid, id);
    SpanKept(g, s, t, v.cdr, mid, id);
    RewrittenKeeps(s, t, v.cdr.at);
    RewrittenKeeps(s, t, v.at);
  }

  // After the cdr half: the new car is still what it was.
  lemma Joined(fuel: nat, g: State, s: State, t: State, w: I.World, v: I.Tree, lo: nat, mid: nat, hi: nat, a: Ref,
      frame: I.Env)
    requires WF(g) && g.next <= lo && Framed(g, s, w, a, frame) && v.Fork? && v.at.Cell? && Plain(s, v.at) && fuel > 0
    requires lo <= mid <= v.at.id < hi && Reads(s, v.cdr) && Grown(s.heap, v.cdr.at, mid, v.at.id)
    requires s.heap[v.at.id].Pair? && s.heap[v.at.id].cdr == v.cdr.at
    requires s.heap[v.at.id].car == I.Replaced(v.car, frame, w).at
    requires Becomes(g, s, I.Replaced(v.car, frame, w), lo, mid)
    requires ReplacePart(fuel, s, v.at.id, false, a) == Ok(t)
    requires v.at.id in t.heap && t.heap[v.at.id].Pair? && t.heap[v.at.id].cdr == I.Replaced(v.cdr, frame, w).at &&
             t.heap[v.at.id].car == s.heap[v.at.id].car && Becomes(g, t, I.Replaced(v.cdr, frame, w), mid, v.at.id)
    ensures Becomes(g, t, I.Replaced(v, frame, w), lo, hi)
  {
    hide WF, Framed, Old, Reads;
    var id := v.at.id;
    var car, cdr := I.Replaced(v.car, frame, w), I.Replaced(v.cdr, frame, w);
    FramedWF(g, s, w, a, frame);
    ReplacePartWithin(fuel, s, id, false, a, mid, id);
    assert ChangedWithin(s.heap, t.heap, lo, id + 1);
    OldRewritten(g, s, t, lo, id + 1);
    SpanKept(g, s, t, car, lo, mid);
    SpanWider(g, car, lo, mid, lo, hi);
    SpanWider(g, cdr, mid, id, lo, hi);
  }

  lemma {:induction false} ReplacePartIs(fuel: nat, g: State, s: State, w: I.World, id: nat, inCar: bool, x: I.Tree,
      lo: nat, hi: nat, a: Ref, frame: I.Env)
    requires WF(g) && g.next <= lo && Framed(g, s, w, a, frame) && fuel > 0
    requires Plain(s, Cell(id)) && s.heap[id].Pair? && hi <= id && lo <= id
    requires x.at == (if inCar then s.heap[id].car else s.heap[id].cdr) && Reads(s, x) && Grown(s.heap, x.at, lo, hi)
    ensures var y := ReplacePart(fuel, s, id, inCar, a);
            y == Stop(OutOfSteps) ||
            (y.Ok? && id in y.value.heap && y.value.heap[id].Pair? && Becomes(g, y.value, I.Replaced(x, frame, w),
                lo, hi) &&
             y.value.heap[id].car == (if inCar then I.Replaced(x, frame, w).at else s.heap[id].car) &&
             y.value.heap[id].cdr == (if inCar then s.heap[id].cdr else I.Replaced(x, frame, w).at))
    decreases fuel, 0
  {
    hide WF, Framed, Old, Replace, Cadr, ListFind, Overwrite;
    FramedWF(g, s, w, a, frame);
    ReadParts(s, x);
    if x.Fork? {
      ReplaceIs(fuel - 1, g, s, w, x, lo, hi, a, frame);
      if Replace(fuel - 1, s, x.at, a).Ok? { ReplaceWithin(fuel - 1, s, x.at, a, lo, hi); }
    } else {
      FindIs(fuel, s, x, a, frame);
      var l := I.Find(frame, x);
      if l.Some? {
        FindIn(frame, x);
        FramedAt(g, s, w, a, frame, l.value);
        var v := I.ValueOf(w, l.value).at;
        WrittenHolds(g, s, id, if inCar then v else s.heap[id].car, if inCar then s.heap[id].cdr else v, lo,
                     I.ValueOf(w, l.value));
      }
    }
  }

  // A write above the old cells leaves old trees alone.
  lemma WrittenHolds(g: State, s: State, id: nat, car: Ref, cdr: Ref, lo: nat, v: I.Tree)
    requires WF(g) && Old(g, s) && g.next <= lo <= id && id in s.heap && s.heap[id].Pair? && Reads(g, v)
    ensures Holds(Overwrite(s, id, car, cdr), v) && Overwrite(s, id, car, cdr).heap == s.heap[id := Pair(car, cdr)]
  {
    hide WF, Reads;
    var t := Overwrite(s, id, car, cdr);
    assert ChangedWithin(s.heap, t.heap, lo, id + 1);
    OldRewritten(g, s, t, lo, id + 1);
    HoldsOld(g, t, v);
  }

  lemma FramedAt(g: State, s: State, w: I.World, a: Ref, frame: I.Env, l: I.Local)
    requires Framed(g, s, w, a, frame) && l in frame
    ensures FramedOne(g, s, w, l)
  {}

  lemma {:induction false} FindIn(env: I.Env, x: I.Tree)
    ensures I.Find(env, x).Some? ==> I.Find(env, x).value in env && I.Match(I.Find(env, x).value.key, x)
    decreases |env|
  {
    if env != [] { FindIn(env[1..], x); }
  }

  // ---------------------------------------------------------------- attaching

  lemma {:induction false} AttachIs(fuel: nat, g: State, s: State, v: I.Tree, lo: nat, hi: nat, args: I.Tree)
    requires WF(g) && WF(s) && g.next <= lo && Old(g, s) && Reads(s, v) && Grown(s.heap, v.at, lo, hi) && Reads(g, args)
    ensures var x, p := Attach(fuel, s, v.at, args.at), I.Attached(v, args);
            x == Stop(OutOfSteps) ||
            if p.Stop? then x == Stop(Failed) && p.why == Failed
            else x.Ok? && p.value.at == v.at && Becomes(g, x.value, p.value, lo, hi)
    decreases fuel
  {
    hide WF, Old;
    ReadParts(s, v);
    if fuel > 0 && v.Fork? {
      var id := v.at.id;
      var mid: nat :| lo <= mid <= id && Grown(s.heap, v.car.at, lo, mid) && Grown(s.heap, v.cdr.at, mid, id);
      var x := Attach(fuel, s, v.at, args.at);
      AttachIs(fuel - 1, g, s, v.cdr, mid, id, args);
      if x.Ok? && I.Attached(v, args).Ok? {
        AttachWithin(fuel, s, v.at, args.at, lo, hi);
        OldRewritten(g, s, x.value, lo, hi);
        AttachedCell(fuel, g, s, v, lo, mid, hi, args);
      }
    }
  }

  lemma AttachedCell(fuel: nat, g: State, s: State, v: I.Tree, lo: nat, mid: nat, hi: nat, args: I.Tree)
    requires WF(g) && WF(s) && g.next <= lo && Old(g, s) && v.Fork? && v.at.Cell? && Reads(s, v) && fuel > 0
    requires lo <= mid <= v.at.id < hi
    requires Grown(s.heap, v.car.at, lo, mid) && Grown(s.heap, v.cdr.at, mid, v.at.id) && Reads(g, args)
    requires Attach(fuel, s, v.at, args.at).Ok? && I.Attached(v, args).Ok?
    requires Old(g, Attach(fuel, s, v.at, args.at).value)
    requires v.cdr.at != Nil ==>
               I.Attached(v.cdr, args).value.at == v.cdr.at && Attach(fuel - 1, s, v.cdr.at, args.at).Ok? &&
               Becomes(g, Attach(fuel - 1, s, v.cdr.at, args.at).value, I.Attached(v.cdr, args).value, mid, v.at.id)
    ensures Becomes(g, Attach(fuel, s, v.at, args.at).value, I.Attached(v, args).value, lo, hi)
  {
    hide WF, Old;
    ReadParts(s, v);
    var t := Attach(fuel, s, v.at, args.at).value;
    CopySpan(g, s, v.car, lo, mid);
    SpanWider(g, v.car, lo, mid, lo, hi);
    if v.cdr.at == Nil {
      SpanKept(g, s, t, v.car, lo, mid);
      HoldsOld(g, t, args);
      assert Deref(t, v.at) == Ok(Pair(v.car.at, args.at));
      assert I.Attached(v, args) == Ok(I.Fork(v.at, v.car, args));
      assert Span(g, args, lo, hi);
    } else {
      AttachWithin(fuel - 1, s, v.cdr.at, args.at, mid, v.at.id);
      SpanKept(g, s, t, v.car, lo, mid);
      SpanWider(g, I.Attached(v.cdr, args).value, mid, v.at.id, lo, hi);
      assert Holds(t, I.Attached(v.cdr, args).value);
      assert Deref(t, v.at) == Ok(Pair(v.car.at, v.cdr.at));
      assert I.Attached(v, args) == Ok(I.Fork(v.at, v.car, I.Attached(v.cdr, args).value));
    }
    assert Holds(t, v.car) && Span(g, v.car, lo, hi);
    assert Holds(t, I.Attached(v, args).value);
  }

  // ---------------------------------------------------------------- the whole expansion

  lemma {:induction false} CopyWorld(w: I.World, v: I.Tree)
    ensures I.Copy(w, v).1 == w.(next := I.Copy(w, v).1.next)
    decreases v
  {
    if v.Fork? {
      CopyWorld(w, v.car);
      CopyWorld(I.Copy(w, v.car).1, v.cdr);
    }
  }

  lemma GrowsOld(g: State, t: State)
    requires WF(g) && Grows(g, t)
    ensures Old(g, t)
  {
    hide Replays;
    forall id | id in g.heap && id !in g.roles ensures id in t.heap && t.heap[id] == g.heap[id] {
      assert CellOk(g, id) && SameCell(g, t, id);
    }
  }

  // What binding puts into the store are the old arguments.
  lemma {:induction false} BoundValues(g: State, w: I.World, x: I.Tree, y: I.Tree)
    requires WF(g) && Reads(g, x) && Reads(g, y)
    ensures var p := I.BindAll(w, x, y);
            p.Ok? ==>
              var (env, w1) := p.value;
              && w.next <= w1.next && w1 == w.(next := w1.next, store := w1.store)
              && (forall id :: id in w.store && id < w.next ==> id in w1.store && w1.store[id] == w.store[id])
              && (forall id :: id in w1.store ==>
                    (id in w.store && w1.store[id] == w.store[id]) || Reads(g, w1.store[id]))
              && forall l :: l in env ==>
                   Reads(g, l.key) && l.place < w1.next && l.place in w1.store && Reads(g, w1.store[l.place])
    decreases x
  {
    hide WF, Reads;
    ReadParts(g, x);
    ReadParts(g, y);
    if !(x.at == Nil && y.at == Nil) && x.Fork? && y.Fork? {
      var (l, w1) := I.Bind(w, x.car, y.car);
      BoundValues(g, w1, x.cdr, y.cdr);
    }
  }

  lemma {:induction false} EnvKeyed(s: State, a: Ref, env: I.Env)
    requires EnvIs(s, a, env)
    ensures forall l :: l in env ==> Keyed(s, l)
    decreases |env|
  {
    hide Keyed;
    if env != [] { EnvKeyed(s, s.heap[a.id].cdr, env[1..]); }
  }

  lemma FrameIs(g: State, s: State, w: I.World, a: Ref, frame: I.Env)
    requires WF(g) && Old(g, s) && Good(s, w) && EnvIs(s, a, frame)
    requires forall l :: l in frame ==> Reads(g, l.key) && Reads(g, I.ValueOf(w, l))
    ensures Framed(g, s, w, a, frame)
  {
    hide Reads, Cadr, Sees;
    EnvKeyed(s, a, frame);
    forall l | l in frame ensures FramedOne(g, s, w, l) {
      ValueIs(s, w, l);
      KeyedHas(s, l);
    }
  }

  lemma KeyedHas(s: State, l: I.Local)
    requires Keyed(s, l)
    ensures Has(s, Cell(l.place), Entry)
  {}

  // The end of an expansion without parameters: g's world, after some allocations.
  lemma AttachedIs(fuel: nat, g: State, w: I.World, t: State, copy: I.Tree, args: I.Tree)
    requires Good(g, w) && Grows(g, t) && Good(t, w.(next := t.next)) && Reads(t, copy) && Reads(g, args)
    requires Grown(t.heap, copy.at, g.next, t.next) && t.roles == g.roles
    requires forall id: nat :: Has(t, Cell(id), Entry) ==> id in g.heap && t.heap[id] == g.heap[id]
    requires t.thread == g.thread && t.global == g.global && t.macros == g.macros
    ensures var x, p := Attach(fuel, t, copy.at, args.at), I.Attached(copy, args);
            Is(g, if x.Ok? then Ok((copy.at, x.value)) else Stop(x.why),
               if p.Ok? then Ok((p.value, w.(next := t.next))) else Stop(p.why))
  {
    hide WF, Sees, Replays, Holds, Later, Span;
    GrowsOld(g, t);
    HoldsGrows(g, t, args);
    AttachIs(fuel, g, t, copy, g.next, t.next, args);
    Self(t);
    PlainOf(t, args);
    PlainOf(t, copy);
    AttachAgree(fuel, t, t, copy.at, args.at);
    var x := Attach(fuel, t, copy.at, args.at);
    if x.Ok? && I.Attached(copy, args).Ok? {
      AttachWithin(fuel, t, copy.at, args.at, g.next, t.next);
      RewrittenGrows(g, t, x.value, t.next);
      RewrittenKeeps(t, x.value, copy.at);
      NoEntryWritten(g, w, t, x.value);
      SeesKept(g, x.value, w);
    }
  }

  // Neither the copying nor the writing touches an entry.
  lemma NoEntryWritten(g: State, w: I.World, t: State, u: State)
    requires WF(g) && Grows(g, t) && t.roles == g.roles && Rewritten(t, u)
    requires forall id: nat :: Has(t, Cell(id), Entry) ==> id in g.heap && t.heap[id] == g.heap[id]
    ensures forall id: nat :: Has(u, Cell(id), Entry) ==> Has(g, Cell(id), Entry) && u.heap[id] == g.heap[id]
  {
    hide Replays;
  }

  // The end of an expansion with parameters.
  lemma SubstitutedIs(fuel: nat, g: State, w: I.World, t: State, copy: I.Tree, params: I.Tree, args: I.Tree)
    requires Good(g, w) && Grows(g, t) && Good(t, w.(next := t.next)) && Reads(t, copy)
    requires Reads(g, args) && Reads(g, params)
    requires Grown(t.heap, copy.at, g.next, t.next) && t.roles == g.roles && forall id :: id in t.heap ==> id < t.next
    ensures Is(g, SubstituteInto(fuel, t, copy.at, params.at, args.at),
               I.Substituted(w.(next := t.next), copy, params, args))
  {
    hide WF, Sees, Later, Holds, Bind, Append, Replace, I.BindAll, I.Replaced;
    var w1 := w.(next := t.next);
    HoldsGrows(g, t, params);
    HoldsGrows(g, t, args);
    BindAllIs(fuel, t, w1, params, args);
    BoundValues(g, w1, params, args);
    WorldNext(g, w);
    NextGrows(g, t);
    if Bind(fuel, t, params.at, args.at).Ok? && I.BindAll(w1, params, args).Ok? {
      var (a, u) := Bind(fuel, t, params.at, args.at).value;
      var (frame, w2) := I.BindAll(w1, params, args).value;
      NilEnv(u);
      AppendIs(fuel, u, w2, a, frame, Nil, []);
      assert frame + [] == frame;
      if Append(fuel, u, a, Nil).Ok? {
        var (env, v) := Append(fuel, u, a, Nil).value;
        GrowsTrans(t, u, v);
        GrowsTrans(g, t, v);
        ReplacedIs(fuel, g, w, t, v, I.Skip(w2, |frame|), copy, env, frame);
      }
    }
  }

  lemma NilEnv(s: State)
    ensures EnvIs(s, Nil, [])
  {}

  // What the world has after the parameters are bound.
  ghost predicate Newer(g: State, w: I.World, w': I.World, frame: I.Env) {
    && w.next <= w'.next && w' == w.(next := w'.next, store := w'.store)
    && (forall id :: id in w'.store ==> (id in w.store && w'.store[id] == w.store[id]) || Reads(g, w'.store[id]))
    && forall l :: l in frame ==> Reads(g, l.key) && l.place in w'.store && Reads(g, w'.store[l.place])
  }

  lemma ReplacedIs(fuel: nat, g: State, w: I.World, t: State, v: State, w': I.World, copy: I.Tree, a: Ref, frame: I.Env)
    requires Good(g, w) && Grows(g, t) && Grows(t, v) && Grows(g, v) && Reads(t, copy)
    requires Grown(t.heap, copy.at, g.next, t.next) && t.roles == g.roles && forall id :: id in t.heap ==> id < t.next
    requires Good(v, w') && EnvIs(v, a, frame) && WF(t) && Newer(g, w, w', frame)
    ensures Is(g, var x := Replace(fuel, v, copy.at, a); if x.Ok? then Ok((copy.at, x.value)) else Stop(x.why),
               if copy.Tip? then Stop(Failed) else Ok((I.Replaced(copy, frame, w'), w')))
  {
    hide WF, Sees, Replays, Holds, Later, Span, I.Replaced, Old, Framed, Rewritten, EnvIs, Grown;
    HoldsGrows(t, v, copy);
    ReadParts(v, copy);
    if copy.Fork? {
      GrowsOld(g, v);
      FrameIs(g, v, w', a, frame);
      NextGrows(g, t);
      CloneUntouched(g, t, v, copy.at);
      ReplaceIs(fuel, g, v, w', copy, g.next, t.next, a, frame);
      var x := Replace(fuel, v, copy.at, a);
      if x.Ok? {
        Self(v);
        PlainOf(v, copy);
        EnvOf(v, a, frame);
        ReplaceAgree(fuel, v, v, copy.at, a);
        ReplaceWithin(fuel, v, copy.at, a, g.next, t.next);
        RewrittenGrows(g, v, x.value, t.next);
        RewrittenKeeps(v, x.value, copy.at);
        ReplacedAt(copy, frame, w');
        SeesRewritten(g, w, v, w', frame, x.value);
      }
    }
  }

  lemma ReplacedAt(t: I.Tree, frame: I.Env, w: I.World)
    requires t.Fork?
    ensures I.Replaced(t, frame, w).at == t.at
  {}

  // The tables and the variables are as before the writing: their values are older.
  lemma SeesRewritten(g: State, w: I.World, v: State, w': I.World, frame: I.Env, u: State)
    requires Good(g, w) && Grows(g, v) && Good(v, w') && Newer(g, w, w', frame) && Rewritten(v, u) && Grows(g, u)
    requires WF(u)
    ensures Sees(u, w')
  {
    hide Replays, Holds;
    SameTable(g, g.thread, v, v.thread, w.thread);
    SameTable(g, g.global, v, v.global, w.global);
    TableGrows(g, u, g.thread, w.thread);
    TableGrows(g, u, g.global, w.global);
    hide TableIs;
    forall id: nat | Has(u, Cell(id), Entry) ensures Valued(u, w', id) {
      assert Has(v, Cell(id), Entry) && Valued(v, w', id);
      StoredOld(g, w, v, w', frame, id);
      HoldsGrows(g, u, w'.store[id]);
      assert CellOk(v, id);
    }
  }

  lemma SameTable(g: State, table: map<string, Binding>, v: State, table': map<string, Binding>,
      bounds: map<string, I.Bound>)
    requires TableIs(g, table, bounds) && TableIs(v, table', bounds)
    ensures table == table'
  {
    hide Reads;
  }

  lemma StoredOld(g: State, w: I.World, v: State, w': I.World, frame: I.Env, id: nat)
    requires Good(g, w) && Grows(g, v) && Newer(g, w, w', frame) && Has(v, Cell(id), Entry) && id in w'.store
    ensures Reads(g, w'.store[id])
  {
    hide Replays, Holds, TableIs;
    if id in w.store && w'.store[id] == w.store[id] {
      assert Has(g, Cell(id), Entry) && Valued(g, w, id);
    }
  }

  lemma ExpandMacroIs(fuel: nat, s: State, w: I.World, e: I.Tree)
    requires Good(s, w) && Reads(s, e) && e.Fork?
    ensures Is(s, ExpandMacro(fuel, s, e.at), I.Expansion(w, e.car, e.cdr))
  {
    hide WF, Sees, Reads, Later, Clone, LambdaParts, Attach, SubstituteInto, I.Copy, I.Attached, I.Substituted;
    ReadParts(s, e);
    PartsIs(s, e);
    if I.Parts(e.car).Ok? {
      var (params, body) := I.Parts(e.car).value;
      ReadParts(s, params);
      ReadParts(s, body);
      CloneIs(fuel, s, w, body);
      CopyWorld(w, body);
      if Clone(fuel, s, body.at).Ok? {
        var t := Clone(fuel, s, body.at).value.1;
        var (copy, w1) := I.Copy(w, body);
        NewNames(s);
        CloneGrown(fuel, s, body.at);
        WorldNext(t, w1);
        if params.at == Nil && body.at != Nil {
          CloneKeeps(fuel, s, body.at);
          AttachedIs(fuel, s, w, t, copy, e.cdr);
          AttachedAt(copy, e.cdr);
        } else {
          SubstitutedIs(fuel, s, w, t, copy, params, e.cdr);
        }
      }
    }
  }

  lemma AttachedAt(v: I.Tree, args: I.Tree)
    ensures I.Attached(v, args).Ok? ==> I.Attached(v, args).value.at == v.at
    ensures I.Attached(v, args).Stop? ==> I.Attached(v, args).why == Failed
  {}

  // Copying binds nothing and stores nothing.
  lemma {:induction false} CloneKeeps(fuel: nat, s: State, e: Ref)
    requires (forall id :: id in s.heap ==> id < s.next) && Clone(fuel, s, e).Ok?
    requires forall id :: id in s.roles ==> id < s.next
    ensures var t := Clone(fuel, s, e).value.1;
            && t.thread == s.thread && t.global == s.global && t.macros == s.macros && t.roles == s.roles
            && s.next <= t.next && (forall id :: id in t.heap ==> id < t.next)
            && (forall id :: id in s.heap ==> id in t.heap && t.heap[id] == s.heap[id])
            && forall id: nat :: Has(t, Cell(id), Entry) ==> id in s.heap && t.heap[id] == s.heap[id]
    decreases fuel
  {
    var c := Deref(s, e).value;
    if c.Pair? {
      CloneKeeps(fuel - 1, s, c.car);
      var t := Clone(fuel - 1, s, c.car).value.1;
      CloneKeeps(fuel - 1, t, c.cdr);
    }
  }

  // cadar and caddar of a form are the parts of its head.
  lemma PartsIs(s: State, e: I.Tree)
    requires WF(s) && Reads(s, e) && e.Fork?
    ensures var x, p := LambdaParts(s, e.at), I.Parts(e.car);
            if p.Ok? then x == Ok((p.value.0.at, p.value.1.at)) && Reads(s, p.value.0) && Reads(s, p.value.1)
            else x == Stop(Failed) && p.why == Failed
  {
    hide WF, Reads, Car, Cdr, Deref;
    ReadParts(s, e);
    ReadParts(s, e.car);
    if e.car.Fork? {
      ReadParts(s, e.car.cdr);
      if e.car.cdr.Fork? { ReadParts(s, e.car.cdr.cdr); }
    }
  }
}
