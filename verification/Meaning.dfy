// How trees are laid out in cells, and that the evaluator's functions on cells do what the
// interpreter's functions on trees say, as long as nothing is collected.
module Meaning {
  import opened Agreement
  import opened Evaluator
  import opened HeapRuns
  import I = Interpreter
  import opened Values
  import opened Wrappers

  // ---------------------------------------------------------------- representation

  // The cells below v.at make up the tree v.
  ghost predicate Holds(s: State, v: I.Tree)
    decreases v
  {
    match v
    case Tip(at, atom) => Deref(s, at) == Ok(Leaf(atom))
    case Fork(at, a, d) => Deref(s, at) == Ok(Pair(a.at, d.at)) && Holds(s, a) && Holds(s, d)
  }

  ghost predicate Reads(s: State, v: I.Tree) {
    Plain(s, v.at) && Holds(s, v)
  }

  // The entry of a local variable: its key, and the slot with its value.
  ghost predicate Keyed(s: State, l: I.Local) {
    Has(s, Cell(l.place), Entry) && s.heap[l.place].Pair? && s.heap[l.place].car == l.key.at && Reads(s, l.key)
  }

  ghost predicate Valued(s: State, w: I.World, id: nat) {
    id in w.store && id in s.heap && s.heap[id].Pair? &&
    Deref(s, s.heap[id].cdr) == Ok(Pair(w.store[id].at, Nil)) && Reads(s, w.store[id])
  }

  // The association list at a has these variables.
  ghost predicate EnvIs(s: State, a: Ref, env: I.Env)
    decreases |env|
  {
    if env == [] then a == Nil
    else
      && Has(s, a, Spine) && s.heap[a.id].Pair? && s.heap[a.id].car == Cell(env[0].place) && Keyed(s, env[0])
      && EnvIs(s, s.heap[a.id].cdr, env[1..])
  }

  ghost predicate TableIs(s: State, table: map<string, Binding>, bounds: map<string, I.Bound>) {
    table.Keys == bounds.Keys &&
    forall n :: n in table ==>
      bounds[n].macro == table[n].macro && bounds[n].value.at == table[n].value && Reads(s, bounds[n].value)
  }

  // The interpreter's world is what the state looks like.
  ghost predicate Sees(s: State, w: I.World) {
    && w.next == s.next && w.macros == s.macros
    && TableIs(s, s.thread, w.thread) && TableIs(s, s.global, w.global)
    && (forall id :: id in w.store ==> id < w.next)
    && forall id: nat :: Has(s, Cell(id), Entry) ==> Valued(s, w, id)
  }

  ghost predicate Good(s: State, w: I.World) {
    WF(s) && Sees(s, w)
  }

  // x is what the evaluator does from s, p what the interpreter says.
  ghost predicate Is(s: State, x: Result<(Ref, State)>, p: Result<(I.Tree, I.World)>) {
    x == Stop(OutOfSteps) ||
    if p.Stop? then x == Stop(Failed) && p.why == Failed
    else
      && x.Ok? && x.value.0 == p.value.0.at && Good(x.value.1, p.value.1)
      && Grows(s, x.value.1) && Reads(x.value.1, p.value.0)
  }

  // The same for a step that builds an association list.
  ghost predicate IsEnv(s: State, x: Result<(Ref, State)>, p: Result<(I.Env, I.World)>) {
    x == Stop(OutOfSteps) ||
    if p.Stop? then x == Stop(Failed) && p.why == Failed
    else
      && x.Ok? && Good(x.value.1, p.value.1) && Grows(s, x.value.1)
      && EnvIs(x.value.1, x.value.0, p.value.0)
  }

  lemma Self(s: State)
    requires WF(s)
    ensures Both(s, s) && Grows(s, s)
  {
    NothingCollected(s);
  }

  // ---------------------------------------------------------------- what lasts

  lemma {:induction false} HoldsGrows(s: State, t: State, v: I.Tree)
    requires WF(s) && Grows(s, t) && Reads(s, v)
    ensures Reads(t, v)
    decreases v
  {
    hide Replays;
    if v.at.Cell? {
      assert CellOk(s, v.at.id) && SameCell(s, t, v.at.id);
    }
    if v.Fork? {
      HoldsGrows(s, t, v.car);
      HoldsGrows(s, t, v.cdr);
    }
  }

  lemma KeyedGrows(s: State, t: State, l: I.Local)
    requires WF(s) && Grows(s, t) && Keyed(s, l)
    ensures Keyed(t, l)
  {
    hide Replays, Holds;
    assert CellOk(s, l.place) && SameCell(s, t, l.place);
    HoldsGrows(s, t, l.key);
  }

  lemma {:induction false} EnvGrows(s: State, t: State, a: Ref, env: I.Env)
    requires WF(s) && Grows(s, t) && EnvIs(s, a, env)
    ensures EnvIs(t, a, env)
    decreases |env|
  {
    hide Replays, Holds, Keyed;
    if env != [] {
      assert CellOk(s, a.id) && SameCell(s, t, a.id);
      KeyedGrows(s, t, env[0]);
      EnvGrows(s, t, s.heap[a.id].cdr, env[1..]);
    }
  }

  lemma TableGrows(s: State, t: State, table: map<string, Binding>, bounds: map<string, I.Bound>)
    requires WF(s) && Grows(s, t) && TableIs(s, table, bounds)
    ensures TableIs(t, table, bounds)
  {
    hide WF, Grows, Reads;
    forall n | n in table ensures Reads(t, bounds[n].value) { HoldsGrows(s, t, bounds[n].value); }
  }

  lemma ValuedGrows(s: State, t: State, w: I.World, id: nat)
    requires WF(s) && Grows(s, t) && Has(s, Cell(id), Entry) && Valued(s, w, id) && t.heap[id] == s.heap[id]
    ensures Valued(t, w, id)
  {
    hide Replays, Holds;
    assert CellOk(s, id);
    var slot := s.heap[id].cdr;
    assert CellOk(s, slot.id) && SameCell(s, t, slot.id);
    HoldsGrows(s, t, w.store[id]);
  }

  // A step that binds nothing and writes no entry.
  lemma SeesKept(s: State, t: State, w: I.World)
    requires Good(s, w) && Grows(s, t)
    requires t.thread == s.thread && t.global == s.global && t.macros == s.macros
    requires forall id: nat :: Has(t, Cell(id), Entry) ==> Has(s, Cell(id), Entry) && t.heap[id] == s.heap[id]
    ensures Sees(t, w.(next := t.next))
  {
    TableGrows(s, t, s.thread, w.thread);
    TableGrows(s, t, s.global, w.global);
    hide TableIs, WF, Grows;
    forall id: nat | Has(t, Cell(id), Entry) ensures Valued(t, w.(next := t.next), id) {
      ValuedGrows(s, t, w, id);
    }
  }

  // ---------------------------------------------------------------- reading

  lemma ReadParts(s: State, v: I.Tree)
    requires WF(s) && Reads(s, v)
    ensures Deref(s, v.at) == Ok(if v.Tip? then Leaf(v.atom) else Pair(v.car.at, v.cdr.at))
    ensures v.Fork? ==> v.at.Cell? && Reads(s, v.car) && Reads(s, v.cdr)
    ensures Car(s, v.at) == if v.Fork? then Ok(v.car.at) else Stop(Failed)
    ensures Cdr(s, v.at) == if v.Fork? then Ok(v.cdr.at) else Stop(Failed)
    ensures v.at == Nil ==> v == I.NIL
  {
    if v.at.Cell? { assert CellOk(s, v.at.id); }
  }

  lemma ReadCadr(s: State, v: I.Tree)
    requires WF(s) && Reads(s, v)
    ensures var p := I.Cadr(v); Cadr(s, v.at) == (if p.Ok? then Ok(p.value.at) else Stop(Failed)) &&
                                (p.Stop? ==> p.why == Failed) && (p.Ok? ==> Reads(s, p.value))
  {
    hide WF, Reads;
    ReadParts(s, v);
    if v.Fork? { ReadParts(s, v.cdr); }
  }

  lemma ReadStatic(s: State)
    ensures Reads(s, I.NIL) && Reads(s, I.T) && Reads(s, I.QUOTE) && Reads(s, I.LAMBDA) && Reads(s, I.PROGN)
  {}

  lemma {:induction false} EqualIs(fuel: nat, s: State, x: I.Tree, y: I.Tree)
    requires WF(s) && Reads(s, x) && Reads(s, y)
    ensures Equal(fuel, s, x.at, y.at) in {Stop(OutOfSteps), Ok(I.Match(x, y))}
    decreases fuel
  {
    hide WF, Reads, Deref;
    ReadParts(s, x);
    ReadParts(s, y);
    if x.at != y.at && fuel > 0 && x.Fork? && y.Fork? {
      EqualIs(fuel - 1, s, x.car, y.car);
      EqualIs(fuel - 1, s, x.cdr, y.cdr);
    }
  }

  lemma {:induction false} FindIs(fuel: nat, s: State, x: I.Tree, a: Ref, env: I.Env)
    requires WF(s) && Reads(s, x) && EnvIs(s, a, env)
    ensures var l := I.Find(env, x);
            ListFind(fuel, s, x.at, a) in {Stop(OutOfSteps), Ok(if l.Some? then Some(Cell(l.value.place)) else None)} &&
            (l.Some? ==> Keyed(s, l.value))
    decreases fuel, |env|
  {
    hide WF, Reads;
    if env != [] {
      var rest := s.heap[a.id].cdr;
      if fuel > 0 {
        EqualIs(fuel - 1, s, env[0].key, x);
        FindIs(fuel - 1, s, x, rest, env[1..]);
      } else {
        FindIs(fuel, s, x, rest, env[1..]);
      }
    }
  }

  lemma {:induction false} CountIs(fuel: nat, s: State, v: I.Tree)
    requires WF(s) && Reads(s, v)
    ensures CountCells(fuel, s, v.at) in {Stop(OutOfSteps), Ok(I.Pairs(v))}
    decreases fuel
  {
    hide WF, Reads, Deref;
    ReadParts(s, v);
    if fuel > 0 && v.Fork? { CountIs(fuel - 1, s, v.cdr); }
  }

  lemma SizeIs(fuel: nat, s: State, v: I.Tree)
    requires WF(s) && Reads(s, v)
    ensures ListSize(fuel, s, v.at) in {Stop(OutOfSteps), Ok(I.Length(v))}
  {
    hide WF, Reads, Deref;
    ReadParts(s, v);
    CountIs(fuel, s, v);
  }

  // ---------------------------------------------------------------- allocation

  lemma ConsIs(s: State, w: I.World, a: I.Tree, d: I.Tree)
    requires Good(s, w) && Reads(s, a) && Reads(s, d)
    ensures Is(s, Ok(Cons(s, a.at, d.at)), Ok(I.Cons(w, a, d)))
  {
    hide WF, Sees, Replays;
    Self(s);
    ConsAgree(s, s, a.at, d.at);
    var (r, t) := Cons(s, a.at, d.at);
    HoldsGrows(s, t, a);
    HoldsGrows(s, t, d);
    NewIsPlain(s, Pair(a.at, d.at));
    WorldNext(s, w);
    SeesKept(s, t, w);
  }

  lemma NewIsPlain(s: State, c: Node)
    requires WF(s)
    ensures var t := Alloc(s, c).1;
            && t.heap[s.next] == c && s.next !in s.roles && s.next !in s.heap
            && forall id: nat :: Has(t, Cell(id), Entry) ==> Has(s, Cell(id), Entry) && t.heap[id] == s.heap[id]
  {
    assert s.next in s.heap ==> CellOk(s, s.next);
  }

  lemma NumberIs(s: State, w: I.World, d: nat)
    requires Good(s, w)
    ensures var (r, t) := Alloc(s, Leaf(Number(d)));
            var v := I.Tip(Cell(w.next), Number(d));
            r == v.at && Good(t, I.Skip(w, 1)) && Grows(s, t) && Reads(t, v)
  {
    hide WF, Sees, Replays;
    Self(s);
    AllocAgree(s, s, Leaf(Number(d)));
    NewIsPlain(s, Leaf(Number(d)));
    WorldNext(s, w);
    SeesKept(s, Alloc(s, Leaf(Number(d))).1, w);
  }

  lemma WorldNext(s: State, w: I.World)
    requires Sees(s, w)
    ensures w.next == s.next && w.macros == s.macros
  {}

  // A chain of steps.
  lemma ThenIs(s: State, t: State, x: Result<(Ref, State)>, p: Result<(I.Tree, I.World)>)
    requires Grows(s, t) && Is(t, x, p)
    ensures Is(s, x, p)
  {
    hide Good, Reads, Later;
    if x.Ok? { GrowsTrans(s, t, x.value.1); }
  }

  lemma SameIs(s: State, w: I.World, v: I.Tree)
    requires Good(s, w) && Reads(s, v)
    ensures Is(s, Ok((v.at, s)), Ok((v, w)))
  {
    hide Sees, Reads;
    Self(s);
  }

  lemma {:induction false} CloneIs(fuel: nat, s: State, w: I.World, v: I.Tree)
    requires Good(s, w) && Reads(s, v)
    ensures Is(s, Clone(fuel, s, v.at), Ok(I.Copy(w, v)))
    decreases fuel
  {
    hide WF, Sees, Reads, Later, Cons, I.Cons;
    ReadParts(s, v);
    SameIs(s, w, v);
    if fuel > 0 && v.Fork? {
      CloneIs(fuel - 1, s, w, v.car);
      if Clone(fuel - 1, s, v.car.at).Ok? {
        var t := Clone(fuel - 1, s, v.car.at).value.1;
        var (x, w1) := I.Copy(w, v.car);
        HoldsGrows(s, t, v.cdr);
        CloneIs(fuel - 1, t, w1, v.cdr);
        if Clone(fuel - 1, t, v.cdr.at).Ok? {
          var u := Clone(fuel - 1, t, v.cdr.at).value.1;
          var (y, w2) := I.Copy(w1, v.cdr);
          HoldsGrows(t, u, x);
          ConsIs(u, w2, x, y);
          GrowsTrans(s, t, u);
          ThenIs(s, u, Ok(Cons(u, x.at, y.at)), Ok(I.Cons(w2, x, y)));
        }
      }
    }
  }

  lemma {:induction false} CopyListIs(fuel: nat, s: State, w: I.World, v: I.Tree)
    requires Good(s, w) && Reads(s, v)
    ensures Is(s, CopyList(fuel, s, v.at), I.CopyList(w, v))
    decreases fuel
  {
    hide WF, Sees, Reads, Later, Cons, I.Cons;
    ReadParts(s, v);
    ReadStatic(s);
    SameIs(s, w, I.NIL);
    if v.at != Nil && fuel > 0 && v.Fork? {
      CopyListIs(fuel - 1, s, w, v.cdr);
      if CopyList(fuel - 1, s, v.cdr.at).Ok? {
        var t := CopyList(fuel - 1, s, v.cdr.at).value.1;
        var (rest, w1) := I.CopyList(w, v.cdr).value;
        HoldsGrows(s, t, v.car);
        ConsIs(t, w1, v.car, rest);
        ThenIs(s, t, Ok(Cons(t, v.car.at, rest.at)), Ok(I.Cons(w1, v.car, rest)));
      }
    }
  }

  lemma {:induction false} QuoteAllIs(fuel: nat, s: State, w: I.World, v: I.Tree)
    requires Good(s, w) && Reads(s, v)
    ensures Is(s, QuoteAll(fuel, s, v.at), I.QuoteAll(w, v))
    decreases fuel
  {
    hide WF, Sees, Reads, Later, Cons, I.Cons;
    ReadParts(s, v);
    ReadStatic(s);
    SameIs(s, w, I.NIL);
    if v.at != Nil && fuel > 0 && v.Fork? {
      ConsIs(s, w, v.car, I.NIL);
      var (arg, w1) := I.Cons(w, v.car, I.NIL);
      var t := Cons(s, v.car.at, Nil).1;
      ReadStatic(t);
      ConsIs(t, w1, I.QUOTE, arg);
      var (quoted, w2) := I.Cons(w1, I.QUOTE, arg);
      var u := Cons(t, Quote, arg.at).1;
      GrowsTrans(s, t, u);
      HoldsGrows(s, u, v.cdr);
      QuoteAllIs(fuel - 1, u, w2, v.cdr);
      if QuoteAll(fuel - 1, u, v.cdr.at).Ok? {
        var x := QuoteAll(fuel - 1, u, v.cdr.at).value.1;
        var (rest, w3) := I.QuoteAll(w2, v.cdr).value;
        HoldsGrows(u, x, quoted);
        ConsIs(x, w3, quoted, rest);
        GrowsTrans(s, u, x);
        ThenIs(s, x, Ok(Cons(x, quoted.at, rest.at)), Ok(I.Cons(w3, quoted, rest)));
      }
    }
  }

  // ---------------------------------------------------------------- association lists

  // A cell of the list that is no entry: the store stays.
  lemma LinkIs(s: State, w: I.World, role: Role, car: Ref, cdr: Ref)
    requires Good(s, w) && LinkOk(s, role, Pair(car, cdr)) && role != Entry
    ensures var (r, t) := Link(s, role, car, cdr);
            Good(t, I.Skip(w, 1)) && Grows(s, t) && Has(t, r, role) && t.heap[r.id] == Pair(car, cdr)
  {
    hide WF, Sees, Replays;
    Self(s);
    LinkAgree(s, s, role, car, cdr);
    NewIsPlain(s, Pair(car, cdr));
    WorldNext(s, w);
    SeesKept(s, Link(s, role, car, cdr).1, w);
  }

  lemma NewEntryIs(s: State, w: I.World, key: I.Tree, v: I.Tree)
    requires Good(s, w) && Reads(s, key) && Reads(s, v)
    ensures var (r, t) := NewEntry(s, key.at, v.at);
            var (l, w1) := I.Bind(w, key, v);
            r == Cell(l.place) && Good(t, w1) && Grows(s, t) && Keyed(t, l)
  {
    hide WF, Sees, Later, Reads;
    PlainOf(s, key);
    PlainOf(s, v);
    LinkIs(s, w, Slot, v.at, Nil);
    var (slot, t) := Link(s, Slot, v.at, Nil);
    HoldsGrows(s, t, key);
    HoldsGrows(s, t, v);
    EntryIs(t, I.Skip(w, 1), key, slot, v);
    GrowsTrans(s, t, Link(t, Entry, key.at, slot).1);
    WorldNext(s, w);
  }

  lemma PlainOf(s: State, v: I.Tree)
    requires Reads(s, v)
    ensures Plain(s, v.at)
  {}

  lemma EntryIs(s: State, w: I.World, key: I.Tree, slot: Ref, v: I.Tree)
    requires Good(s, w) && Reads(s, key) && Reads(s, v) && Has(s, slot, Slot) && s.heap[slot.id] == Pair(v.at, Nil)
    ensures var (r, t) := Link(s, Entry, key.at, slot);
            && r == Cell(s.next) && Grows(s, t) && Keyed(t, I.Local(key, s.next))
            && Good(t, w.(next := w.next + 1, store := w.store[s.next := v]))
  {
    hide Replays, TableIs, Holds;
    Self(s);
    LinkAgree(s, s, Entry, key.at, slot);
    var (r, t) := Link(s, Entry, key.at, slot);
    NewIsPlain(s, Pair(key.at, slot));
    HoldsGrows(s, t, key);
    HoldsGrows(s, t, v);
    TableGrows(s, t, s.thread, w.thread);
    TableGrows(s, t, s.global, w.global);
    hide WF;
    var w1 := w.(next := w.next + 1, store := w.store[s.next := v]);
    forall id: nat | Has(t, Cell(id), Entry) ensures Valued(t, w1, id) {
      if id != s.next {
        ValuedGrows(s, t, w, id);
      }
    }
  }

  // One more variable in front.
  lemma SpineIs(s: State, w: I.World, l: I.Local, rest: Ref, env: I.Env)
    requires Good(s, w) && Keyed(s, l) && EnvIs(s, rest, env)
    ensures IsEnv(s, Ok(Link(s, Spine, Cell(l.place), rest)), Ok(([l] + env, I.Skip(w, 1))))
  {
    hide WF, Sees, Later, Reads;
    EnvOf(s, rest, env);
    LinkIs(s, w, Spine, Cell(l.place), rest);
    var (r, t) := Link(s, Spine, Cell(l.place), rest);
    KeyedGrows(s, t, l);
    EnvGrows(s, t, rest, env);
    assert ([l] + env)[1..] == env;
  }

  lemma EnvOf(s: State, a: Ref, env: I.Env)
    requires EnvIs(s, a, env)
    ensures Env(s, a) && (env == [] <==> a == Nil)
  {}

  lemma {:induction false} BindAllIs(fuel: nat, s: State, w: I.World, x: I.Tree, y: I.Tree)
    requires Good(s, w) && Reads(s, x) && Reads(s, y)
    ensures IsEnv(s, Bind(fuel, s, x.at, y.at), I.BindAll(w, x, y))
    decreases fuel
  {
    hide WF, Sees, Reads, Later, NewEntry, Link, I.Bind;
    ReadParts(s, x);
    ReadParts(s, y);
    Self(s);
    if !(x.at == Nil && y.at == Nil) && fuel > 0 && x.Fork? && y.Fork? {
      NewEntryIs(s, w, x.car, y.car);
      var (entry, t) := NewEntry(s, x.car.at, y.car.at);
      var (l, w1) := I.Bind(w, x.car, y.car);
      HoldsGrows(s, t, x.cdr);
      HoldsGrows(s, t, y.cdr);
      BindAllIs(fuel - 1, t, w1, x.cdr, y.cdr);
      if Bind(fuel - 1, t, x.cdr.at, y.cdr.at).Ok? {
        var (rest, u) := Bind(fuel - 1, t, x.cdr.at, y.cdr.at).value;
        if I.BindAll(w1, x.cdr, y.cdr).Ok? {
          var (env, w2) := I.BindAll(w1, x.cdr, y.cdr).value;
          KeyedGrows(t, u, l);
          SpineIs(u, w2, l, rest, env);
          GrowsTrans(s, t, u);
          ThenEnv(s, u, Ok(Link(u, Spine, entry, rest)), Ok(([l] + env, I.Skip(w2, 1))));
        }
      }
    }
  }

  lemma ThenEnv(s: State, t: State, x: Result<(Ref, State)>, p: Result<(I.Env, I.World)>)
    requires Grows(s, t) && IsEnv(t, x, p)
    ensures IsEnv(s, x, p)
  {
    hide Good, EnvIs, Later;
    if x.Ok? { GrowsTrans(s, t, x.value.1); }
  }

  lemma {:induction false} AppendIs(fuel: nat, s: State, w: I.World, x: Ref, frame: I.Env, y: Ref, env: I.Env)
    requires Good(s, w) && EnvIs(s, x, frame) && EnvIs(s, y, env)
    ensures IsEnv(s, Append(fuel, s, x, y), Ok((frame + env, I.Skip(w, |frame|))))
    decreases fuel
  {
    hide WF, Sees, Later, Link, Keyed;
    Self(s);
    if frame == [] {
      assert frame + env == env;
    } else if fuel > 0 {
      var rest := s.heap[x.id].cdr;
      AppendIs(fuel - 1, s, w, rest, frame[1..], y, env);
      if Append(fuel - 1, s, rest, y).Ok? {
        var (r, t) := Append(fuel - 1, s, rest, y).value;
        KeyedGrows(s, t, frame[0]);
        SpineIs(t, I.Skip(w, |frame| - 1), frame[0], r, frame[1..] + env);
        assert [frame[0]] + (frame[1..] + env) == frame + env;
        ThenEnv(s, t, Ok(Link(t, Spine, Cell(frame[0].place), r)), Ok((frame + env, I.Skip(w, |frame|))));
      }
    }
  }

  // ---------------------------------------------------------------- symbols

  ghost predicate IsUse(s: State, x: Result<(Ref, bool, State)>, p: Result<(I.Tree, bool, I.World)>) {
    x == Stop(OutOfSteps) ||
    if p.Stop? then x == Stop(Failed) && p.why == Failed
    else
      && x.Ok? && x.value.0 == p.value.0.at && x.value.1 == p.value.1 && Good(x.value.2, p.value.2)
      && Grows(s, x.value.2) && Reads(x.value.2, p.value.0)
  }

  lemma UsedIs(fuel: nat, s: State, w: I.World, b: I.Bound)
    requires Good(s, w) && Reads(s, b.value)
    ensures IsUse(s, Expanded(fuel, s, b.value.at, b.macro), Ok(I.Used(w, b)))
  {
    hide Sees, Reads, Clone, I.Copy, Later;
    Self(s);
    CloneIs(fuel, s, w, b.value);
  }

  // The slot of an entry has the value that the store has.
  lemma ValueIs(s: State, w: I.World, l: I.Local)
    requires Good(s, w) && Keyed(s, l)
    ensures Car(s, Cell(l.place)) == Ok(l.key.at) && Cadr(s, Cell(l.place)) == Ok(I.ValueOf(w, l).at)
    ensures Reads(s, I.ValueOf(w, l)) && l.place in w.store && Reads(s, l.key)
  {
    hide WF, Reads, TableIs;
    assert Valued(s, w, l.place);
  }

  lemma TableHas(s: State, w: I.World, name: string)
    requires Sees(s, w)
    ensures name in s.thread <==> name in w.thread
    ensures name in s.global <==> name in w.global
    ensures name in w.thread ==>
              s.thread[name] == Binding(w.thread[name].value.at, w.thread[name].macro) && Reads(s, w.thread[name].value)
    ensures name in w.global ==>
              s.global[name] == Binding(w.global[name].value.at, w.global[name].macro) && Reads(s, w.global[name].value)
  {
    hide Reads;
  }

  lemma LookupIs(cfg: Config, fuel: nat, s: State, w: I.World, a: Ref, env: I.Env, x: I.Tree, name: string)
    requires Good(s, w) && EnvIs(s, a, env) && Reads(s, x)
    ensures IsUse(s, Assoc(cfg, fuel, s, x.at, name, a), I.Lookup(cfg.numeral, w, env, x, name))
  {
    hide WF, Sees, Reads, Later, Expanded, I.Used, Car, Cadr;
    FindIs(fuel, s, x, a, env);
    WorldNext(s, w);
    TableHas(s, w, name);
    var l := I.Find(env, x);
    if l.Some? {
      ValueIs(s, w, l.value);
      UsedIs(fuel, s, w, I.Bound(I.ValueOf(w, l.value), l.value.key.at in w.macros));
    } else if name in w.thread {
      UsedIs(fuel, s, w, w.thread[name]);
    } else if name in w.global {
      UsedIs(fuel, s, w, w.global[name]);
    } else if cfg.numeral(name).Some? {
      NumberIs(s, w, cfg.numeral(name).value);
    }
  }

  lemma MarkIs(s: State, w: I.World, key: I.Tree, macro: bool)
    requires Good(s, w)
    ensures Good(Subtype(s, key.at, macro), I.Mark(w, key, macro)) && Grows(s, Subtype(s, key.at, macro))
  {
    Self(s);
    SubtypeAgree(s, s, key.at, macro);
    hide Replays, WF, Holds;
    var t := Subtype(s, key.at, macro);
    TableGrows(s, t, s.thread, w.thread);
    TableGrows(s, t, s.global, w.global);
    forall id: nat | Has(t, Cell(id), Entry) ensures Valued(t, I.Mark(w, key, macro), id) {
      assert Has(s, Cell(id), Entry);
      ValuedGrows(s, t, w, id);
    }
  }

  lemma WriteEntryIs(s: State, w: I.World, l: I.Local, slot: Ref, v: I.Tree)
    requires Good(s, w) && Keyed(s, l) && Has(s, slot, Slot) && s.heap[slot.id] == Pair(v.at, Nil) && Reads(s, v)
    ensures var t := Overwrite(s, l.place, l.key.at, slot);
            Good(t, w.(store := w.store[l.place := v])) && Grows(s, t) && Reads(t, v)
  {
    Self(s);
    OverwriteAgree(s, s, Cell(l.place), slot);
    hide Replays, Holds;
    var t := Overwrite(s, l.place, l.key.at, slot);
    var w1 := w.(store := w.store[l.place := v]);
    TableGrows(s, t, s.thread, w.thread);
    TableGrows(s, t, s.global, w.global);
    HoldsGrows(s, t, v);
    hide WF, TableIs;
    forall id: nat | Has(t, Cell(id), Entry) ensures Valued(t, w1, id) {
      assert Has(s, Cell(id), Entry);
      if id != l.place { ValuedGrows(s, t, w, id); }
    }
  }

  lemma RebindIs(s: State, w: I.World, l: I.Local, v: I.Tree, macro: bool)
    requires Good(s, w) && Keyed(s, l) && Reads(s, v)
    ensures Is(s, Rebind(s, Cell(l.place), v.at, macro),
               Ok((v, I.Skip(I.Mark(w, l.key, macro), 1).(store := w.store[l.place := v]))))
  {
    hide WF, Sees, Later, Reads, Subtype, Link, Overwrite;
    EntryShape(s, w, l);
    MarkIs(s, w, l.key, macro);
    var t, w1 := Subtype(s, l.key.at, macro), I.Mark(w, l.key, macro);
    HoldsGrows(s, t, v);
    KeyedGrows(s, t, l);
    PlainOf(t, v);
    LinkIs(t, w1, Slot, v.at, Nil);
    var (slot, u) := Link(t, Slot, v.at, Nil);
    HoldsGrows(t, u, v);
    KeyedGrows(t, u, l);
    WriteEntryIs(u, I.Skip(w1, 1), l, slot, v);
    GrowsTrans(s, t, u);
    GrowsTrans(s, u, Overwrite(u, l.place, l.key.at, slot));
  }

  lemma EntryShape(s: State, w: I.World, l: I.Local)
    requires Good(s, w) && Keyed(s, l)
    ensures Deref(s, Cell(l.place)) == Ok(s.heap[l.place]) && s.heap[l.place].Pair? && s.heap[l.place].car == l.key.at
    ensures Deref(s, s.heap[l.place].cdr).Ok? && Deref(s, s.heap[l.place].cdr).value.Pair?
  {
    hide WF, Reads, TableIs;
    assert Valued(s, w, l.place);
  }

  // Tables that differ in what has just been stored or removed.
  lemma TablesIs(s: State, w: I.World, t: State, u: I.World)
    requires Good(s, w) && t == s.(thread := t.thread, global := t.global)
    requires u == w.(thread := u.thread, global := u.global)
    requires TableIs(s, t.thread, u.thread) && TableIs(s, t.global, u.global)
    ensures Good(t, u) && Grows(s, t)
  {
    BoundOf(s, t.thread, u.thread);
    BoundOf(s, t.global, u.global);
    Self(s);
    TablesAgree(s, s, t.thread, t.global);
    hide Replays, Holds;
    TableGrows(s, t, t.thread, u.thread);
    TableGrows(s, t, t.global, u.global);
    hide WF, TableIs;
    forall id: nat | Has(t, Cell(id), Entry) ensures Valued(t, u, id) {
      assert Has(s, Cell(id), Entry);
      ValuedGrows(s, t, w, id);
    }
  }

  lemma BoundOf(s: State, table: map<string, Binding>, bounds: map<string, I.Bound>)
    requires TableIs(s, table, bounds)
    ensures Bound(s, table)
  {
    hide Holds;
  }

  lemma TableWith(s: State, table: map<string, Binding>, bounds: map<string, I.Bound>, name: string, b: I.Bound)
    requires TableIs(s, table, bounds) && Reads(s, b.value)
    ensures TableIs(s, table[name := Binding(b.value.at, b.macro)], bounds[name := b])
    ensures TableIs(s, table - {name}, bounds - {name}) && (name in table <==> name in bounds)
  {
    hide Reads;
  }

  lemma SeenTables(s: State, w: I.World)
    requires Sees(s, w)
    ensures TableIs(s, s.thread, w.thread) && TableIs(s, s.global, w.global)
  {}

  lemma StoreIs(s: State, w: I.World, name: string, v: I.Tree, macro: bool, toGlobal: bool)
    requires Good(s, w) && Reads(s, v)
    ensures Is(s, Ok((v.at, Store(s, name, v.at, macro, toGlobal))),
               Ok((v, I.Store(w, name, I.Bound(v, macro), toGlobal))))
  {
    hide WF, Sees, Later, Reads, TableIs;
    var t, u := Store(s, name, v.at, macro, toGlobal), I.Store(w, name, I.Bound(v, macro), toGlobal);
    SeenTables(s, w);
    TableWith(s, s.thread, w.thread, name, I.Bound(v, macro));
    TableWith(s, s.global, w.global, name, I.Bound(v, macro));
    TablesIs(s, w, t, u);
    HoldsGrows(s, t, v);
  }

  lemma AssignIs(fuel: nat, s: State, w: I.World, a: Ref, env: I.Env, x: I.Tree, v: I.Tree, macro: bool,
      toGlobal: bool)
    requires Good(s, w) && EnvIs(s, a, env) && Reads(s, x) && Reads(s, v)
    ensures Is(s, Assign(fuel, s, x.at, v.at, a, macro, toGlobal), I.Assign(w, env, x, v, macro, toGlobal))
  {
    hide WF, Sees, Reads, Later, Rebind, Store, I.Store, I.Mark, Deref;
    ReadParts(s, x);
    FindIs(fuel, s, x, a, env);
    var l := I.Find(env, x);
    if x.Tip? && x.atom.Sym? && x.atom.name != "" {
      if l.Some? { RebindIs(s, w, l.value, v, macro); }
      else { StoreIs(s, w, x.atom.name, v, macro, toGlobal); }
    }
  }

  lemma UnsetIs(s: State, w: I.World, x: I.Tree, inGlobal: bool)
    requires Good(s, w) && Reads(s, x)
    ensures Is(s, Unset(s, x.at, inGlobal), I.Unary(w, if inGlobal then UnsetF else TUnsetF, x))
  {
    hide WF, Sees, Later, Reads, TableIs, Deref;
    ReadParts(s, x);
    if I.IsSymbol(x) {
      var t := Unset(s, x.at, inGlobal).value.1;
      var (b, u) := I.Unary(w, if inGlobal then UnsetF else TUnsetF, x).value;
      SeenTables(s, w);
      TableWith(s, s.thread, w.thread, x.atom.name, I.Bound(x, false));
      TableWith(s, s.global, w.global, x.atom.name, I.Bound(x, false));
      TablesIs(s, w, t, u);
      ReadStatic(t);
    }
  }

  lemma IsSetIs(s: State, w: I.World, x: I.Tree, inGlobal: bool)
    requires Good(s, w) && Reads(s, x)
    ensures Is(s, IsSet(s, x.at, inGlobal), I.Unary(w, if inGlobal then IsSetF else IsTSetF, x))
  {
    hide WF, Sees, Later, Holds, Deref;
    ReadParts(s, x);
    ReadStatic(s);
    SameIs(s, w, I.T);
    SameIs(s, w, I.NIL);
    if I.IsSymbol(x) { TableHas(s, w, x.atom.name); }
  }
}
