// Two runs of one evaluation, one of them without collections, in step: what stays the same
// when a value is read, a cell made or overwritten, garbage collected, a block protected.
module Agreement {
  import BaseBlocks
  import opened Evaluator
  import opened HeapRuns
  import opened Reachability
  import opened Values

  // ---------------------------------------------------------------- invariants

  ghost predicate Present(s: State, r: Ref) {
    r.Cell? ==> r.id in s.heap
  }

  // A present reference that is not part of an association list.
  ghost predicate Plain(s: State, r: Ref) {
    r.Cell? ==> r.id in s.heap && r.id !in s.roles
  }

  ghost predicate Has(s: State, r: Ref, role: Role) {
    r.Cell? && r.id in s.heap && r.id in s.roles && s.roles[r.id] == role
  }

  ghost predicate Env(s: State, a: Ref) {
    a == Nil || Has(s, a, Spine)
  }

  // No cell refers to a missing one, and association lists are referred to by their
  // own spine only.
  ghost predicate NodeOk(s: State, n: Node) {
    n.Pair? ==> Plain(s, n.car) && Plain(s, n.cdr)
  }

  ghost predicate LinkOk(s: State, role: Role, n: Node) {
    n.Pair? &&
    match role
    case Spine => Has(s, n.car, Entry) && Env(s, n.cdr)
    case Entry => Plain(s, n.car) && Has(s, n.cdr, Slot)
    case Slot => Plain(s, n.car) && n.cdr == Nil
  }

  ghost predicate CellOk(s: State, id: nat) {
    id in s.heap && id < s.next &&
    if id in s.roles then LinkOk(s, s.roles[id], s.heap[id]) else NodeOk(s, s.heap[id])
  }

  ghost predicate Bound(s: State, table: map<string, Binding>) {
    forall n :: n in table ==> Plain(s, table[n].value)
  }

  ghost predicate WF(s: State) {
    && (forall id :: id in s.heap ==> CellOk(s, id))
    && (forall id :: id in s.roles ==> id < s.next)
    && (forall r :: r in s.bases ==> Present(s, r))
    && Bound(s, s.thread)
    && Bound(s, s.global)
  }

  // g is f with some blocks collected.
  ghost predicate Sim(f: State, g: State) {
    && f.next == g.next && f.bases == g.bases && f.thread == g.thread && f.global == g.global
    && f.clock == g.clock && f.macros == g.macros && f.roles == g.roles
    && forall id :: id in g.heap ==> id in f.heap && f.heap[id] == g.heap[id]
  }

  ghost predicate Both(f: State, g: State) {
    Sim(f, g) && WF(g)
  }

  // Only an entry's cdr may have been overwritten.
  ghost predicate SameCell(s: State, t: State, id: nat)
    requires id in s.heap && id in t.heap
  {
    s.heap[id] == t.heap[id] ||
    (id in s.roles && s.roles[id] == Entry && s.heap[id].Pair? && t.heap[id].Pair? &&
     s.heap[id].car == t.heap[id].car)
  }

  // t comes after s in one run, with the base blocks restored.
  ghost predicate Later(s: State, t: State) {
    && s.next <= t.next && s.bases == t.bases
    && Replays(s, t)
    && (forall id :: id in s.roles ==> id in t.roles && t.roles[id] == s.roles[id])
    && (forall id :: id in t.roles && id < s.next ==> id in s.roles)
    && (forall id :: id in t.heap && id < s.next ==> id in s.heap && SameCell(s, t, id))
  }

  // ... and nothing was collected in between.
  ghost predicate Grows(s: State, t: State) {
    Later(s, t) && forall id :: id in s.heap ==> id in t.heap
  }

  // Two runs of one step agree: same value or same failure, and never a stale read.
  ghost predicate Agree(g: State, x: Result<(Ref, State)>, y: Result<(Ref, State)>) {
    if y.Stop? then x == y && y.why != Dangling
    else
      && x.Ok? && x.value.0 == y.value.0 && Both(x.value.1, y.value.1)
      && Later(g, y.value.1) && Plain(y.value.1, y.value.0)
  }

  ghost predicate AgreeNow(g: State, x: Result<(Ref, State)>, y: Result<(Ref, State)>) {
    Agree(g, x, y) && (y.Ok? ==> Grows(g, y.value.1))
  }

  // The same for a step that builds an association list.
  ghost predicate AgreeEnv(g: State, x: Result<(Ref, State)>, y: Result<(Ref, State)>) {
    if y.Stop? then x == y && y.why != Dangling
    else
      && x.Ok? && x.value.0 == y.value.0 && Both(x.value.1, y.value.1)
      && Grows(g, y.value.1) && Env(y.value.1, y.value.0)
  }

  lemma LaterTrans(s: State, t: State, u: State)
    requires Later(s, t) && Later(t, u)
    ensures Later(s, u)
  {
    hide Replays;
    ReplaysTrans(s, t, u);
    forall id | id in u.heap && id < s.next
      ensures id in s.heap && SameCell(s, u, id)
    {
      assert id in t.heap;
      assert SameCell(s, t, id) && SameCell(t, u, id);
    }
  }

  lemma GrowsTrans(s: State, t: State, u: State)
    requires Grows(s, t) && Grows(t, u)
    ensures Grows(s, u)
  {
    LaterTrans(s, t, u);
  }

  lemma GrowsKeeps(s: State, t: State, r: Ref)
    requires WF(s) && Grows(s, t)
    ensures Plain(s, r) ==> Plain(t, r)
    ensures Present(s, r) ==> Present(t, r)
    ensures Env(s, r) ==> Env(t, r)
    ensures forall role :: Has(s, r, role) ==> Has(t, r, role)
  {
    if r.Cell? && r.id in s.heap { assert CellOk(s, r.id); }
  }

  // ---------------------------------------------------------------- reading

  // car and cdr of a plain reference
  lemma PartsAgree(f: State, g: State, e: Ref)
    requires Both(f, g) && Plain(g, e)
    ensures Deref(f, e) == Deref(g, e) && Deref(g, e).Ok?
    ensures Car(f, e) == Car(g, e) != Stop(Dangling)
    ensures Cdr(f, e) == Cdr(g, e) != Stop(Dangling)
    ensures Car(g, e).Ok? ==> Plain(g, Car(g, e).value)
    ensures Cdr(g, e).Ok? ==> Plain(g, Cdr(g, e).value)
    ensures Car(g, e).Ok? <==> Cdr(g, e).Ok?
    ensures Car(g, e).Ok? <==> e.Cell? && g.heap[e.id].Pair?
  {
    if e.Cell? { assert CellOk(g, e.id); }
  }

  // a cell of the spine of an association list
  lemma SpineParts(f: State, g: State, a: Ref)
    requires Both(f, g) && Has(g, a, Spine)
    ensures Deref(f, a) == Deref(g, a) && Deref(g, a).Ok? && Deref(g, a).value.Pair?
    ensures var c := Deref(g, a).value; Has(g, c.car, Entry) && Env(g, c.cdr)
  {
    assert CellOk(g, a.id);
  }

  // the value of an entry (u v)
  lemma EntryParts(f: State, g: State, entry: Ref)
    requires Both(f, g) && Has(g, entry, Entry)
    ensures Deref(f, entry) == Deref(g, entry) && Deref(g, entry).Ok? && Deref(g, entry).value.Pair?
    ensures Plain(g, Deref(g, entry).value.car)
    ensures var d := Deref(g, entry).value.cdr;
            Deref(f, d) == Deref(g, d) && Deref(g, d).Ok? && Deref(g, d).value.Pair?
    ensures Car(f, entry) == Car(g, entry) && Car(g, entry).Ok?
    ensures Cadr(f, entry) == Cadr(g, entry) && Cadr(g, entry).Ok? && Plain(g, Cadr(g, entry).value)
  {
    assert CellOk(g, entry.id);
    assert CellOk(g, g.heap[entry.id].cdr.id);
  }

  lemma {:induction false} EqualAgree(fuel: nat, f: State, g: State, x: Ref, y: Ref)
    requires Both(f, g) && Plain(g, x) && Plain(g, y)
    ensures Equal(fuel, f, x, y) == Equal(fuel, g, x, y) != Stop(Dangling)
    decreases fuel
  {
    hide WF, Sim;
    PartsAgree(f, g, x);
    PartsAgree(f, g, y);
    if x != y && fuel > 0 && Car(g, x).Ok? && Car(g, y).Ok? {
      EqualAgree(fuel - 1, f, g, Car(g, x).value, Car(g, y).value);
      EqualAgree(fuel - 1, f, g, Cdr(g, x).value, Cdr(g, y).value);
    }
  }

  lemma {:induction false} ListFindAgree(fuel: nat, f: State, g: State, x: Ref, a: Ref)
    requires Both(f, g) && Plain(g, x) && Env(g, a)
    ensures ListFind(fuel, f, x, a) == ListFind(fuel, g, x, a) != Stop(Dangling)
    ensures var hit := ListFind(fuel, g, x, a);
            hit.Ok? && hit.value.Some? ==> Has(g, hit.value.value, Entry)
    decreases fuel
  {
    hide WF, Sim;
    if fuel > 0 && a != Nil {
      SpineParts(f, g, a);
      var c := Deref(g, a).value;
      EntryParts(f, g, c.car);
      EqualAgree(fuel - 1, f, g, Deref(g, c.car).value.car, x);
      ListFindAgree(fuel - 1, f, g, x, c.cdr);
    }
  }

  lemma {:induction false} CountAgree(fuel: nat, f: State, g: State, e: Ref)
    requires Both(f, g) && Plain(g, e)
    ensures CountCells(fuel, f, e) == CountCells(fuel, g, e) != Stop(Dangling)
    decreases fuel
  {
    if fuel > 0 && e.Cell? {
      assert CellOk(g, e.id);
      if g.heap[e.id].Pair? { CountAgree(fuel - 1, f, g, g.heap[e.id].cdr); }
    }
  }

  lemma SizeAgree(fuel: nat, f: State, g: State, e: Ref)
    requires Both(f, g) && Plain(g, e)
    ensures ListSize(fuel, f, e) == ListSize(fuel, g, e) != Stop(Dangling)
  {
    CountAgree(fuel, f, g, e);
  }

  // ---------------------------------------------------------------- allocation

  // g' has one cell more than g, perhaps one that belongs to an association list.
  ghost predicate Fresh(g: State, g': State, c: Node) {
    && g'.heap == g.heap[g.next := c] && g'.next == g.next + 1 && g'.bases == g.bases
    && g'.thread == g.thread && g'.global == g.global && g'.log == g.log + [New(c)]
    && (g'.roles == g.roles || (g.next in g'.roles && g'.roles == g.roles[g.next := g'.roles[g.next]]))
  }

  lemma FreshGrows(g: State, g': State, c: Node)
    requires WF(g) && Fresh(g, g', c) && (c.Pair? ==> Present(g, c.car) && Present(g, c.cdr))
    ensures Grows(g, g')
    ensures forall id :: id in g.heap ==> id in g'.heap && g'.heap[id] == g.heap[id]
  {
    hide Replays;
    assert g.next in g.heap ==> CellOk(g, g.next);
    OpLogged(g, New(c), g');
    forall id | id in g.heap ensures id in g'.heap && SameCell(g, g', id) && id < g.next {
      assert CellOk(g, id);
    }
  }

  // One new cell that is in order, and everything is.
  lemma FreshWF(g: State, g': State, c: Node)
    requires WF(g) && Fresh(g, g', c) && Grows(g, g') && CellOk(g', g.next)
    requires forall id :: id in g.heap ==> id in g'.heap && g'.heap[id] == g.heap[id]
    ensures WF(g')
  {
    forall id | id in g'.heap ensures CellOk(g', id) {
      if id in g.heap { CellKept(g, g', id); }
    }
    TablesKept(g, g');
    hide CellOk, Bound, Later, Present;
  }

  lemma AllocAgree(f: State, g: State, c: Node)
    requires Both(f, g) && NodeOk(g, c)
    ensures AgreeNow(g, Ok(Alloc(f, c)), Ok(Alloc(g, c)))
  {
    var g' := Alloc(g, c).1;
    FreshGrows(g, g', c);
    GrowsNode(g, g', c);
    hide Later;
    FreshWF(g, g', c);
  }

  lemma LinkAgree(f: State, g: State, role: Role, car: Ref, cdr: Ref)
    requires Both(f, g) && LinkOk(g, role, Pair(car, cdr))
    ensures var (r, f') := Link(f, role, car, cdr);
            var (q, g') := Link(g, role, car, cdr);
            r == q && Both(f', g') && Grows(g, g') && Has(g', r, role)
  {
    var g' := Link(g, role, car, cdr).1;
    FreshGrows(g, g', Pair(car, cdr));
    GrowsNode(g, g', Pair(car, cdr));
    hide Later;
    FreshWF(g, g', Pair(car, cdr));
  }

  lemma CellKept(g: State, g': State, id: nat)
    requires WF(g) && Grows(g, g') && id in g.heap && g'.heap[id] == g.heap[id]
    ensures CellOk(g', id)
  {
    assert CellOk(g, id);
    GrowsNode(g, g', g.heap[id]);
  }

  lemma GrowsNode(g: State, g': State, n: Node)
    requires WF(g) && Grows(g, g')
    ensures NodeOk(g, n) ==> NodeOk(g', n)
    ensures forall role :: LinkOk(g, role, n) ==> LinkOk(g', role, n)
  {
    if n.Pair? {
      GrowsKeeps(g, g', n.car);
      GrowsKeeps(g, g', n.cdr);
    }
  }

  lemma TablesKept(g: State, g': State)
    requires WF(g) && Grows(g, g')
    ensures forall r :: r in g.bases ==> Present(g', r)
    ensures Bound(g', g.thread) && Bound(g', g.global)
  {
    forall r | r in g.bases ensures Present(g', r) { GrowsKeeps(g, g', r); }
    forall n | n in g.thread ensures Plain(g', g.thread[n].value) { GrowsKeeps(g, g', g.thread[n].value); }
    forall n | n in g.global ensures Plain(g', g.global[n].value) { GrowsKeeps(g, g', g.global[n].value); }
  }

  lemma Chain(s: State, t: State, x: Result<(Ref, State)>, y: Result<(Ref, State)>)
    requires Later(s, t) && Agree(t, x, y)
    ensures Agree(s, x, y)
    ensures Grows(s, t) && AgreeNow(t, x, y) ==> AgreeNow(s, x, y)
  {
    if y.Ok? {
      LaterTrans(s, t, y.value.1);
    }
  }

  lemma ConsAgree(f: State, g: State, car: Ref, cdr: Ref)
    requires Both(f, g) && Plain(g, car) && Plain(g, cdr)
    ensures AgreeNow(g, Ok(Cons(f, car, cdr)), Ok(Cons(g, car, cdr)))
  {
    AllocAgree(f, g, Pair(car, cdr));
  }

  lemma EntryAgree(f: State, g: State, u: Ref, v: Ref)
    requires Both(f, g) && Plain(g, u) && Plain(g, v)
    ensures var (r, f') := NewEntry(f, u, v);
            var (q, g') := NewEntry(g, u, v);
            r == q && Both(f', g') && Grows(g, g') && Has(g', r, Entry)
  {
    hide WF, Sim, Later;
    LinkAgree(f, g, Slot, v, Nil);
    var (slot, ft) := Link(f, Slot, v, Nil);
    var (_, gt) := Link(g, Slot, v, Nil);
    GrowsKeeps(g, gt, u);
    LinkAgree(ft, gt, Entry, u, slot);
    GrowsTrans(g, gt, Link(gt, Entry, u, slot).1);
  }

  // A step that changes nothing.
  lemma SameAgree(f: State, g: State, r: Ref)
    requires Both(f, g) && Plain(g, r)
    ensures AgreeNow(g, Ok((r, f)), Ok((r, g)))
  {
    hide Replays;
    NothingLogged(g, g);
  }

  lemma {:induction false} CloneAgree(fuel: nat, f: State, g: State, e: Ref)
    requires Both(f, g) && Plain(g, e)
    ensures AgreeNow(g, Clone(fuel, f, e), Clone(fuel, g, e))
    decreases fuel
  {
    hide WF, Sim, Later;
    PartsAgree(f, g, e);
    SameAgree(f, g, e);
    if fuel > 0 && Deref(g, e).value.Pair? {
      var c := Deref(g, e).value;
      CloneAgree(fuel - 1, f, g, c.car);
      if Clone(fuel - 1, g, c.car).Ok? {
        var (x, ft) := Clone(fuel - 1, f, c.car).value;
        var (_, gt) := Clone(fuel - 1, g, c.car).value;
        GrowsKeeps(g, gt, c.cdr);
        CloneAgree(fuel - 1, ft, gt, c.cdr);
        if Clone(fuel - 1, gt, c.cdr).Ok? {
          var (y, fu) := Clone(fuel - 1, ft, c.cdr).value;
          var (_, gu) := Clone(fuel - 1, gt, c.cdr).value;
          GrowsKeeps(gt, gu, x);
          ConsAgree(fu, gu, x, y);
          Chain(gt, gu, Ok(Cons(fu, x, y)), Ok(Cons(gu, x, y)));
          Chain(g, gt, Ok(Cons(fu, x, y)), Ok(Cons(gu, x, y)));
        }
      }
    }
  }

  lemma {:induction false} CopyAgree(fuel: nat, f: State, g: State, e: Ref)
    requires Both(f, g) && Plain(g, e)
    ensures AgreeNow(g, CopyList(fuel, f, e), CopyList(fuel, g, e))
    decreases fuel
  {
    hide WF, Sim, Later;
    PartsAgree(f, g, e);
    SameAgree(f, g, Nil);
    if e != Nil && fuel > 0 && Deref(g, e).value.Pair? {
      var c := Deref(g, e).value;
      CopyAgree(fuel - 1, f, g, c.cdr);
      if CopyList(fuel - 1, g, c.cdr).Ok? {
        var (rest, ft) := CopyList(fuel - 1, f, c.cdr).value;
        var (_, gt) := CopyList(fuel - 1, g, c.cdr).value;
        GrowsKeeps(g, gt, c.car);
        ConsAgree(ft, gt, c.car, rest);
        Chain(g, gt, Ok(Cons(ft, c.car, rest)), Ok(Cons(gt, c.car, rest)));
      }
    }
  }

  lemma {:induction false} QuoteAgree(fuel: nat, f: State, g: State, m: Ref)
    requires Both(f, g) && Plain(g, m)
    ensures AgreeNow(g, QuoteAll(fuel, f, m), QuoteAll(fuel, g, m))
    decreases fuel
  {
    hide WF, Sim, Later;
    PartsAgree(f, g, m);
    SameAgree(f, g, Nil);
    if m != Nil && fuel > 0 && Deref(g, m).value.Pair? {
      var c := Deref(g, m).value;
      ConsAgree(f, g, c.car, Nil);
      var (arg, ft) := Cons(f, c.car, Nil);
      var (_, gt) := Cons(g, c.car, Nil);
      ConsAgree(ft, gt, Quote, arg);
      var (quoted, fu) := Cons(ft, Quote, arg);
      var (_, gu) := Cons(gt, Quote, arg);
      GrowsTrans(g, gt, gu);
      GrowsKeeps(g, gu, c.cdr);
      QuoteAgree(fuel - 1, fu, gu, c.cdr);
      if QuoteAll(fuel - 1, gu, c.cdr).Ok? {
        var (rest, fv) := QuoteAll(fuel - 1, fu, c.cdr).value;
        var (_, gv) := QuoteAll(fuel - 1, gu, c.cdr).value;
        GrowsKeeps(gu, gv, quoted);
        ConsAgree(fv, gv, quoted, rest);
        GrowsTrans(g, gu, gv);
        Chain(g, gv, Ok(Cons(fv, quoted, rest)), Ok(Cons(gv, quoted, rest)));
      }
    }
  }

  lemma {:induction false} BindAgree(fuel: nat, f: State, g: State, x: Ref, y: Ref)
    requires Both(f, g) && Plain(g, x) && Plain(g, y)
    ensures AgreeEnv(g, Bind(fuel, f, x, y), Bind(fuel, g, x, y))
    decreases fuel
  {
    hide WF, Sim, Later, NewEntry, Link;
    PartsAgree(f, g, x);
    PartsAgree(f, g, y);
    SameAgree(f, g, Nil);
    if !(x == Nil && y == Nil) && fuel > 0 && Deref(g, x).value.Pair? && Deref(g, y).value.Pair? {
      var c, d := Deref(g, x).value, Deref(g, y).value;
      EntryAgree(f, g, c.car, d.car);
      var (entry, ft) := NewEntry(f, c.car, d.car);
      var (_, gt) := NewEntry(g, c.car, d.car);
      GrowsKeeps(g, gt, c.cdr);
      GrowsKeeps(g, gt, d.cdr);
      BindAgree(fuel - 1, ft, gt, c.cdr, d.cdr);
      if Bind(fuel - 1, gt, c.cdr, d.cdr).Ok? {
        var (rest, fu) := Bind(fuel - 1, ft, c.cdr, d.cdr).value;
        var (_, gu) := Bind(fuel - 1, gt, c.cdr, d.cdr).value;
        GrowsKeeps(gt, gu, entry);
        LinkAgree(fu, gu, Spine, entry, rest);
        GrowsTrans(g, gt, gu);
        GrowsTrans(g, gu, Link(gu, Spine, entry, rest).1);
      }
    }
  }

  lemma {:induction false} AppendAgree(fuel: nat, f: State, g: State, x: Ref, y: Ref)
    requires Both(f, g) && Env(g, x) && Env(g, y)
    ensures AgreeEnv(g, Append(fuel, f, x, y), Append(fuel, g, x, y))
    decreases fuel
  {
    hide WF, Sim, Later;
    NothingCollected(g);
    if x != Nil && fuel > 0 {
      SpineParts(f, g, x);
      var c := Deref(g, x).value;
      AppendAgree(fuel - 1, f, g, c.cdr, y);
      if Append(fuel - 1, g, c.cdr, y).Ok? {
        var (rest, ft) := Append(fuel - 1, f, c.cdr, y).value;
        var (_, gt) := Append(fuel - 1, g, c.cdr, y).value;
        GrowsKeeps(g, gt, c.car);
        LinkAgree(ft, gt, Spine, c.car, rest);
        GrowsTrans(g, gt, Link(gt, Spine, c.car, rest).1);
      }
    }
  }

  // ---------------------------------------------------------------- symbols

  lemma TableValue(f: State, g: State, name: string)
    requires Both(f, g)
    ensures f.thread == g.thread && f.global == g.global && f.macros == g.macros
    ensures name in g.thread ==> Plain(g, g.thread[name].value)
    ensures name in g.global ==> Plain(g, g.global[name].value)
  {}

  lemma AssocAgree(cfg0: Config, cfg: Config, fuel: nat, f: State, g: State, x: Ref, name: string, a: Ref)
    requires Both(f, g) && Plain(g, x) && Env(g, a) && cfg0.numeral == cfg.numeral
    ensures var u, v := Assoc(cfg0, fuel, f, x, name, a), Assoc(cfg, fuel, g, x, name, a);
            if v.Ok? then u.Ok? && u.value.1 == v.value.1 &&
                          AgreeNow(g, Ok((u.value.0, u.value.2)), Ok((v.value.0, v.value.2)))
            else u == Stop(v.why) && v.why != Dangling
  {
    hide WF, Sim, Later, Car, Cadr, Clone;
    ListFindAgree(fuel, f, g, x, a);
    TableValue(f, g, name);
    var hit := ListFind(fuel, g, x, a);
    if hit.Ok? {
      if hit.value.Some? {
        EntryParts(f, g, hit.value.value);
        ExpandedAgree(fuel, f, g, Cadr(g, hit.value.value).value);
      } else if name in g.thread || name in g.global {
        ExpandedAgree(fuel, f, g, (if name in g.thread then g.thread[name] else g.global[name]).value);
      } else if cfg.numeral(name).Some? {
        AllocAgree(f, g, Leaf(Number(cfg.numeral(name).value)));
      }
    }
  }

  lemma ExpandedAgree(fuel: nat, f: State, g: State, v: Ref)
    requires Both(f, g) && Plain(g, v)
    ensures AgreeNow(g, Clone(fuel, f, v), Clone(fuel, g, v))
    ensures AgreeNow(g, Ok((v, f)), Ok((v, g)))
  {
    CloneAgree(fuel, f, g, v);
    SameAgree(f, g, v);
  }

  lemma OverwriteAgree(f: State, g: State, entry: Ref, slot: Ref)
    requires Both(f, g) && Has(g, entry, Entry) && Has(g, slot, Slot)
    ensures var car := g.heap[entry.id].car;
            var f', g' := Overwrite(f, entry.id, car, slot), Overwrite(g, entry.id, car, slot);
            Both(f', g') && Grows(g, g')
  {
    hide Replays;
    assert CellOk(g, entry.id);
    var g' := Overwrite(g, entry.id, g.heap[entry.id].car, slot);
    OpLogged(g, Write(entry.id, g.heap[entry.id].car, slot), g');
    forall id | id in g'.heap ensures CellOk(g', id) { assert CellOk(g, id); }
  }

  // The subtype of a symbol is no part of the heap.
  lemma SubtypeAgree(f: State, g: State, key: Ref, macro: bool)
    requires Both(f, g)
    ensures Both(Subtype(f, key, macro), Subtype(g, key, macro)) && Grows(g, Subtype(g, key, macro))
  {
    hide Replays;
    var g' := Subtype(g, key, macro);
    NothingLogged(g, g');
    forall id | id in g'.heap ensures CellOk(g', id) { assert CellOk(g, id); }
  }

  lemma RebindAgree(f: State, g: State, entry: Ref, v: Ref, macro: bool)
    requires Both(f, g) && Has(g, entry, Entry) && Plain(g, v)
    ensures AgreeNow(g, Rebind(f, entry, v, macro), Rebind(g, entry, v, macro))
  {
    hide WF, Sim, Later, Overwrite;
    EntryParts(f, g, entry);
    var key := Deref(g, entry).value.car;
    SubtypeAgree(f, g, key, macro);
    var fs, gs := Subtype(f, key, macro), Subtype(g, key, macro);
    GrowsKeeps(g, gs, v);
    LinkAgree(fs, gs, Slot, v, Nil);
    var (slot, ft) := Link(fs, Slot, v, Nil);
    var (_, gt) := Link(gs, Slot, v, Nil);
    GrowsTrans(g, gs, gt);
    GrowsKeeps(g, gt, entry);
    GrowsKeeps(g, gt, v);
    OverwriteAgree(ft, gt, entry, slot);
    var gu := Overwrite(gt, entry.id, gt.heap[entry.id].car, slot);
    GrowsKeeps(gt, gu, v);
    GrowsTrans(g, gt, gu);
    assert gt.heap[entry.id].car == key by { assert entry.id != slot.id; }
  }

  lemma TablesAgree(f: State, g: State, thread: map<string, Binding>, global: map<string, Binding>)
    requires Both(f, g) && Bound(g, thread) && Bound(g, global)
    ensures var f', g' := f.(thread := thread, global := global), g.(thread := thread, global := global);
            Both(f', g') && Grows(g, g')
  {
    hide Replays;
    var g' := g.(thread := thread, global := global);
    NothingLogged(g, g');
    forall id | id in g'.heap ensures CellOk(g', id) { assert CellOk(g, id); }
  }

  lemma StoreAgree(f: State, g: State, name: string, v: Ref, macro: bool, toGlobal: bool)
    requires Both(f, g) && Plain(g, v)
    ensures AgreeNow(g, Ok((v, Store(f, name, v, macro, toGlobal))), Ok((v, Store(g, name, v, macro, toGlobal))))
  {
    hide Later, CellOk;
    var g' := Store(g, name, v, macro, toGlobal);
    TablesAgree(f, g, g'.thread, g'.global);
    assert g' == g.(thread := g'.thread, global := g'.global);
    assert Store(f, name, v, macro, toGlobal) == f.(thread := g'.thread, global := g'.global);
  }

  lemma AssignAgree(fuel: nat, f: State, g: State, x: Ref, v: Ref, a: Ref, macro: bool, toGlobal: bool)
    requires Both(f, g) && Plain(g, x) && Plain(g, v) && Env(g, a)
    ensures AgreeNow(g, Assign(fuel, f, x, v, a, macro, toGlobal), Assign(fuel, g, x, v, a, macro, toGlobal))
  {
    PartsAgree(f, g, x);
    ListFindAgree(fuel, f, g, x, a);
    var c, hit := Deref(g, x).value, ListFind(fuel, g, x, a);
    if c.Leaf? && c.atom.Sym? && c.atom.name != "" && hit.Ok? {
      if hit.value.Some? { RebindAgree(f, g, hit.value.value, v, macro); }
      else { StoreAgree(f, g, c.atom.name, v, macro, toGlobal); }
    }
  }

  lemma UnsetAgree(f: State, g: State, x: Ref, inGlobal: bool)
    requires Both(f, g) && Plain(g, x)
    ensures AgreeNow(g, Unset(f, x, inGlobal), Unset(g, x, inGlobal))
  {
    hide Later;
    PartsAgree(f, g, x);
    var c := Deref(g, x).value;
    if c.Leaf? && c.atom.Sym? {
      var g' := Unset(g, x, inGlobal).value.1;
      TablesAgree(f, g, g'.thread, g'.global);
      assert g' == g.(thread := g'.thread, global := g'.global);
      assert Unset(f, x, inGlobal).value.1 == f.(thread := g'.thread, global := g'.global);
    }
  }

  lemma IsSetAgree(f: State, g: State, x: Ref, inGlobal: bool)
    requires Both(f, g) && Plain(g, x)
    ensures AgreeNow(g, IsSet(f, x, inGlobal), IsSet(g, x, inGlobal))
  {
    hide Later;
    PartsAgree(f, g, x);
    SameAgree(f, g, True);
    SameAgree(f, g, Nil);
  }

  // ---------------------------------------------------------------- macro forms

  // Pairs of no association list have been overwritten, and nothing else has changed.
  ghost predicate Rewritten(s: State, t: State) {
    && t == s.(heap := t.heap, log := t.log) && t.heap.Keys == s.heap.Keys && Replays(s, t)
    && forall id :: id in s.heap && t.heap[id] != s.heap[id] ==>
         id !in s.roles && s.heap[id].Pair? && t.heap[id].Pair?
  }

  ghost predicate AgreeWrite(g: State, x: Result<State>, y: Result<State>) {
    if y.Stop? then x == y && y.why != Dangling
    else x.Ok? && Both(x.value, y.value) && Rewritten(g, y.value)
  }

  lemma RewrittenTrans(s: State, t: State, u: State)
    requires Rewritten(s, t) && Rewritten(t, u)
    ensures Rewritten(s, u)
  {
    hide Replays;
    ReplaysTrans(s, t, u);
  }

  lemma RewrittenKeeps(s: State, t: State, r: Ref)
    requires Rewritten(s, t)
    ensures Plain(s, r) ==> Plain(t, r)
    ensures Env(s, r) ==> Env(t, r)
  {
    hide Replays;
  }

  lemma WriteAgree(f: State, g: State, id: nat, car: Ref, cdr: Ref)
    requires Both(f, g) && Plain(g, Cell(id)) && g.heap[id].Pair? && Plain(g, car) && Plain(g, cdr)
    ensures AgreeWrite(g, Ok(Overwrite(f, id, car, cdr)), Ok(Overwrite(g, id, car, cdr)))
  {
    hide Replays;
    var g' := Overwrite(g, id, car, cdr);
    OpLogged(g, Write(id, car, cdr), g');
    forall x | x in g'.heap ensures CellOk(g', x) { assert CellOk(g, x); }
  }

  lemma {:induction false} ReplaceAgree(fuel: nat, f: State, g: State, e: Ref, a: Ref)
    requires Both(f, g) && Plain(g, e) && Env(g, a)
    ensures AgreeWrite(g, Replace(fuel, f, e, a), Replace(fuel, g, e, a))
    decreases fuel, 1
  {
    hide WF, Sim, Rewritten, ReplacePart;
    PartsAgree(f, g, e);
    if fuel > 0 && Deref(g, e).value.Pair? && e.Cell? {
      ReplacePartAgree(fuel, f, g, e.id, true, a);
      var half := ReplacePart(fuel, g, e.id, true, a);
      if half.Ok? {
        var ft, gt := ReplacePart(fuel, f, e.id, true, a).value, half.value;
        RewrittenKeeps(g, gt, e);
        RewrittenKeeps(g, gt, a);
        ReplacePartAgree(fuel, ft, gt, e.id, false, a);
        var whole := ReplacePart(fuel, gt, e.id, false, a);
        if whole.Ok? { RewrittenTrans(g, gt, whole.value); }
      }
    }
  }

  lemma {:induction false} ReplacePartAgree(fuel: nat, f: State, g: State, id: nat, inCar: bool, a: Ref)
    requires Both(f, g) && Plain(g, Cell(id)) && Env(g, a) && fuel > 0
    ensures AgreeWrite(g, ReplacePart(fuel, f, id, inCar, a), ReplacePart(fuel, g, id, inCar, a))
    decreases fuel, 0
  {
    hide WF, Sim, Rewritten, Cadr, Overwrite, Replace;
    PartsAgree(f, g, Cell(id));
    var n := Deref(g, Cell(id)).value;
    if n.Pair? {
      var x := if inCar then n.car else n.cdr;
      PartsAgree(f, g, x);
      if Deref(g, x).value.Pair? {
        ReplaceAgree(fuel - 1, f, g, x, a);
      } else {
        ListFindAgree(fuel, f, g, x, a);
        var hit := ListFind(fuel, g, x, a);
        if hit.Ok? && hit.value.Some? {
          EntryParts(f, g, hit.value.value);
          var v := Cadr(g, hit.value.value).value;
          WriteAgree(f, g, id, if inCar then v else n.car, if inCar then n.cdr else v);
        } else {
          NothingWritten(f, g);
        }
      }
    }
  }

  lemma NothingWritten(f: State, g: State)
    requires Both(f, g)
    ensures AgreeWrite(g, Ok(f), Ok(g))
  {
    hide WF, Sim;
    NothingLogged(g, g);
  }

  lemma {:induction false} AttachAgree(fuel: nat, f: State, g: State, e: Ref, args: Ref)
    requires Both(f, g) && Plain(g, e) && Plain(g, args)
    ensures AgreeWrite(g, Attach(fuel, f, e, args), Attach(fuel, g, e, args))
    decreases fuel
  {
    hide WF, Sim, Rewritten, Overwrite;
    PartsAgree(f, g, e);
    var c := Deref(g, e).value;
    if fuel > 0 && c.Pair? && e.Cell? {
      if c.cdr == Nil { WriteAgree(f, g, e.id, c.car, args); }
      else { AttachAgree(fuel - 1, f, g, c.cdr, args); }
    }
  }

  // A tree whose pairs are cells of their own, allocated from lo up to hi: those of the
  // car first, then those of the cdr, then the pair.
  ghost predicate Grown(heap: map<nat, Node>, r: Ref, lo: nat, hi: nat)
    decreases hi
  {
    r.Cell? ==>
      r.id in heap &&
      (heap[r.id].Leaf? ||
       (lo <= r.id < hi && exists mid: nat :: lo <= mid <= r.id && Grown(heap, heap[r.id].car, lo, mid) &&
                                              Grown(heap, heap[r.id].cdr, mid, r.id)))
  }

  // Only cells from lo up to hi, and none of them an atom, have been overwritten.
  ghost predicate ChangedWithin(h: map<nat, Node>, h': map<nat, Node>, lo: nat, hi: nat) {
    h'.Keys == h.Keys && forall id :: id in h && (h[id].Leaf? || !(lo <= id < hi)) ==> h'[id] == h[id]
  }

  lemma {:induction false} GrownKept(h: map<nat, Node>, h': map<nat, Node>, r: Ref, lo: nat, hi: nat)
    requires Grown(h, r, lo, hi)
    requires forall id :: id in h && (h[id].Leaf? || lo <= id < hi) ==> id in h' && h'[id] == h[id]
    ensures Grown(h', r, lo, hi)
    decreases hi
  {
    if r.Cell? && h[r.id].Pair? {
      var mid: nat :| lo <= mid <= r.id && Grown(h, h[r.id].car, lo, mid) && Grown(h, h[r.id].cdr, mid, r.id);
      GrownKept(h, h', h[r.id].car, lo, mid);
      GrownKept(h, h', h[r.id].cdr, mid, r.id);
    }
  }

  // A clone is such a tree, in cells that are new.
  lemma {:induction false} CloneGrown(fuel: nat, s: State, e: Ref)
    requires (forall id :: id in s.heap ==> id < s.next) && Clone(fuel, s, e).Ok?
    ensures var (r, t) := Clone(fuel, s, e).value;
            && Grown(t.heap, r, s.next, t.next) && s.next <= t.next && t.roles == s.roles
            && (forall id :: id in t.heap ==> id < t.next)
            && forall id :: id in s.heap ==> id in t.heap && t.heap[id] == s.heap[id]
    decreases fuel
  {
    var c := Deref(s, e).value;
    if c.Pair? {
      CloneGrown(fuel - 1, s, c.car);
      var (x, t) := Clone(fuel - 1, s, c.car).value;
      CloneGrown(fuel - 1, t, c.cdr);
      var (y, u) := Clone(fuel - 1, t, c.cdr).value;
      var (r, v) := Cons(u, x, y);
      GrownKept(t.heap, v.heap, x, s.next, t.next);
      GrownKept(u.heap, v.heap, y, t.next, u.next);
    }
  }

  // Replacing in such a tree overwrites cells of the tree only.
  lemma {:induction false} ReplaceWithin(fuel: nat, s: State, e: Ref, a: Ref, lo: nat, hi: nat)
    requires Grown(s.heap, e, lo, hi) && Replace(fuel, s, e, a).Ok?
    ensures ChangedWithin(s.heap, Replace(fuel, s, e, a).value.heap, lo, hi)
    decreases fuel, 1
  {
    hide ReplacePart;
    var mid: nat :| lo <= mid <= e.id && Grown(s.heap, s.heap[e.id].car, lo, mid) &&
                    Grown(s.heap, s.heap[e.id].cdr, mid, e.id);
    ReplacePartWithin(fuel, s, e.id, true, a, lo, mid);
    var t := ReplacePart(fuel, s, e.id, true, a).value;
    GrownKept(s.heap, t.heap, s.heap[e.id].cdr, mid, e.id);
    ReplacePartWithin(fuel, t, e.id, false, a, mid, e.id);
  }

  lemma {:induction false} ReplacePartWithin(fuel: nat, s: State, id: nat, inCar: bool, a: Ref, lo: nat, hi: nat)
    requires fuel > 0 && hi <= id && id in s.heap && s.heap[id].Pair? && ReplacePart(fuel, s, id, inCar, a).Ok?
    requires Grown(s.heap, if inCar then s.heap[id].car else s.heap[id].cdr, lo, hi)
    ensures var h' := ReplacePart(fuel, s, id, inCar, a).value.heap;
            && h'.Keys == s.heap.Keys && h'[id].Pair? && (inCar ==> h'[id].cdr == s.heap[id].cdr)
            && forall j :: j in s.heap && j != id && (s.heap[j].Leaf? || !(lo <= j < hi)) ==> h'[j] == s.heap[j]
    decreases fuel, 0
  {
    hide ListFind, Replace;
    var x := if inCar then s.heap[id].car else s.heap[id].cdr;
    if Deref(s, x).value.Pair? { ReplaceWithin(fuel - 1, s, x, a, lo, hi); }
  }

  lemma {:induction false} AttachWithin(fuel: nat, s: State, e: Ref, args: Ref, lo: nat, hi: nat)
    requires Grown(s.heap, e, lo, hi) && Attach(fuel, s, e, args).Ok?
    ensures ChangedWithin(s.heap, Attach(fuel, s, e, args).value.heap, lo, hi)
    decreases fuel
  {
    var c := s.heap[e.id];
    var mid: nat :| lo <= mid <= e.id && Grown(s.heap, c.car, lo, mid) && Grown(s.heap, c.cdr, mid, e.id);
    if c.cdr != Nil { AttachWithin(fuel - 1, s, c.cdr, args, mid, e.id); }
  }

  // Overwriting what s does not know changes nothing that s knows.
  lemma RewrittenGrows(s: State, t: State, u: State, hi: nat)
    requires Grows(s, t) && Rewritten(t, u) && ChangedWithin(t.heap, u.heap, s.next, hi)
    ensures Grows(s, u)
  {
    hide Replays;
    ReplaysTrans(s, t, u);
    forall id | id in u.heap && id < s.next ensures id in s.heap && SameCell(s, u, id) {
      assert SameCell(s, t, id);
    }
  }

  // The clone is not part of an association list, so binding the parameters leaves it.
  lemma CloneUntouched(g: State, t: State, u: State, r: Ref)
    requires WF(g) && g.next <= t.next && t.roles == g.roles && Grows(t, u)
    requires Grown(t.heap, r, g.next, t.next) && forall id :: id in t.heap ==> id < t.next
    ensures Grown(u.heap, r, g.next, t.next)
  {
    hide Replays;
    forall id | id in t.heap && (t.heap[id].Leaf? || g.next <= id < t.next)
      ensures id in u.heap && u.heap[id] == t.heap[id]
    {
      assert SameCell(t, u, id);
    }
    GrownKept(t.heap, u.heap, r, g.next, t.next);
  }

  // An expansion overwrites nothing but its own copy.
  lemma ExpandMacroAgree(fuel: nat, f: State, g: State, e: Ref)
    requires Both(f, g) && Plain(g, e)
    ensures AgreeNow(g, ExpandMacro(fuel, f, e), ExpandMacro(fuel, g, e))
  {
    hide WF, Sim, Later, Clone, LambdaParts, Attach, SubstituteInto;
    PartsAgree(f, g, e);
    LambdaPartsAgree(f, g, e);
    var parts := LambdaParts(g, e);
    if Cdr(g, e).Ok? && parts.Ok? {
      var args := Cdr(g, e).value;
      var (params, body) := parts.value;
      CloneAgree(fuel, f, g, body);
      if Clone(fuel, g, body).Ok? {
        var (r, ft) := Clone(fuel, f, body).value;
        var gt := Clone(fuel, g, body).value.1;
        NewNames(g);
        CloneGrown(fuel, g, body);
        GrowsKeeps(g, gt, args);
        if params == Nil && body != Nil {
          AttachAgree(fuel, ft, gt, r, args);
          var done := Attach(fuel, gt, r, args);
          if done.Ok? {
            AttachWithin(fuel, gt, r, args, g.next, gt.next);
            RewrittenGrows(g, gt, done.value, gt.next);
            RewrittenKeeps(gt, done.value, r);
          }
        } else {
          GrowsKeeps(g, gt, params);
          SubstituteAgree(fuel, f, g, ft, gt, r, params, args);
        }
      }
    }
  }

  lemma LambdaPartsAgree(f: State, g: State, e: Ref)
    requires Both(f, g) && Plain(g, e)
    ensures LambdaParts(f, e) == LambdaParts(g, e) != Stop(Dangling)
    ensures LambdaParts(g, e).Ok? ==> Plain(g, LambdaParts(g, e).value.0) && Plain(g, LambdaParts(g, e).value.1)
  {
    PartsAgree(f, g, e);
    if Car(g, e).Ok? {
      var form := Car(g, e).value;
      PartsAgree(f, g, form);
      if Cdr(g, form).Ok? {
        var tail := Cdr(g, form).value;
        PartsAgree(f, g, tail);
        if Cdr(g, tail).Ok? { PartsAgree(f, g, Cdr(g, tail).value); }
      }
    }
  }

  lemma NewNames(g: State)
    requires WF(g)
    ensures forall id :: id in g.heap ==> id < g.next
    ensures forall id :: id in g.roles ==> id < g.next
  {
    forall id | id in g.heap ensures id < g.next { assert CellOk(g, id); }
  }

  lemma SubstituteAgree(fuel: nat, f: State, g: State, ft: State, gt: State, r: Ref, params: Ref, args: Ref)
    requires WF(g) && Both(ft, gt) && Grows(g, gt) && Plain(gt, r) && Plain(gt, params) && Plain(gt, args)
    requires Grown(gt.heap, r, g.next, gt.next) && gt.roles == g.roles && forall id :: id in gt.heap ==> id < gt.next
    ensures AgreeNow(g, SubstituteInto(fuel, ft, r, params, args), SubstituteInto(fuel, gt, r, params, args))
  {
    hide WF, Sim, Later, Bind, Append, Replace, Grown;
    BindAgree(fuel, ft, gt, params, args);
    var bound := Bind(fuel, gt, params, args);
    if bound.Ok? {
      var (frame, fu) := Bind(fuel, ft, params, args).value;
      var gu := bound.value.1;
      AppendAgree(fuel, fu, gu, frame, Nil);
      var joined := Append(fuel, gu, frame, Nil);
      if joined.Ok? {
        var (env, fv) := Append(fuel, fu, frame, Nil).value;
        var gv := joined.value.1;
        GrowsTrans(gt, gu, gv);
        GrowsKeeps(gt, gv, r);
        ReplaceAgree(fuel, fv, gv, r, env);
        var done := Replace(fuel, gv, r, env);
        if done.Ok? {
          NextGrows(g, gt);
          CloneUntouched(g, gt, gv, r);
          ReplaceWithin(fuel, gv, r, env, g.next, gt.next);
          GrowsTrans(g, gt, gv);
          RewrittenGrows(g, gv, done.value, gt.next);
          RewrittenKeeps(gv, done.value, r);
        }
      }
    }
  }

  lemma NextGrows(s: State, t: State)
    requires Later(s, t)
    ensures s.next <= t.next
  {
    hide Replays;
  }

  // ---------------------------------------------------------------- collection

  lemma CollectWF(g: State)
    requires WF(g)
    ensures WF(Collect(g)) && Later(g, Collect(g))
    ensures forall r :: r in g.bases && Plain(g, r) ==> Plain(Collect(g), r)
  {
    hide Replays;
    var t := Collect(g);
    CollectReplays(g);
    var graph, roots := GraphOf(g.heap), Ids(RootRefs(g));
    forall r: Ref | Present(g, r) && (r.Cell? ==> Reachable(graph, roots, r.id))
      ensures Present(t, r)
    {}
    forall id | id in t.heap ensures CellOk(t, id) {
      assert CellOk(g, id);
      var n := g.heap[id];
      if n.Pair? {
        forall r | r in {n.car, n.cdr} && r.Cell? ensures Reachable(graph, roots, r.id) {
          assert Edge(graph, id, r.id);
          ReachableStep(graph, roots, id, r.id);
        }
      }
    }
    forall r | r in g.bases && r.Cell? ensures Present(t, r) { ReachableRoot(graph, roots, r.id); }
    forall n | n in g.thread && g.thread[n].value.Cell? ensures Plain(t, g.thread[n].value) {
      ReachableRoot(graph, roots, g.thread[n].value.id);
    }
    forall n | n in g.global && g.global[n].value.Cell? ensures Plain(t, g.global[n].value) {
      ReachableRoot(graph, roots, g.global[n].value.id);
    }
  }

  ghost predicate Never(cfg: Config) {
    forall k :: !cfg.collectAt(k)
  }

  // The clock does not matter.
  lemma Ticked(g: State, t: State)
    requires WF(t) && Later(g, t)
    ensures var t' := t.(clock := t.clock + 1); WF(t') && Later(g, t') && forall r :: Plain(t, r) ==> Plain(t', r)
  {
    var t' := t.(clock := t.clock + 1);
    forall id | id in t'.heap ensures CellOk(t', id) { assert CellOk(t, id); }
  }

  lemma NothingCollected(g: State)
    ensures Later(g, g)
  {
    NothingLogged(g, g);
  }

  lemma SafePointAgree(cfg0: Config, cfg: Config, f: State, g: State)
    requires Never(cfg0) && Both(f, g)
    ensures var f', g' := SafePoint(cfg0, f), SafePoint(cfg, g);
            Both(f', g') && Later(g, g') && forall r :: r in g.bases && Plain(g, r) ==> Plain(g', r)
  {
    hide WF, Later, Plain;
    CollectWF(g);
    NothingCollected(g);
    if cfg.collectAt(g.clock) { Ticked(g, Collect(g)); } else { Ticked(g, g); }
  }
  // ---------------------------------------------------------------- what is protected

  ghost predicate Child(s: State, y: nat, x: Ref) {
    y in s.heap && s.heap[y].Pair? &&
    (x == s.heap[y].car || (x == s.heap[y].cdr && !(y in s.roles && s.roles[y] == Entry)))
  }

  // x hangs off a base block along links that nothing overwrites.
  ghost predicate KeptIn(s: State, x: Ref, n: nat)
    decreases n
  {
    !x.Cell? || x in s.bases || (n > 0 && exists y: nat :: Child(s, y, x) && KeptIn(s, Cell(y), n - 1))
  }

  ghost predicate Kept(s: State, x: Ref) {
    exists n: nat :: KeptIn(s, x, n)
  }

  ghost predicate Held(s: State, x: Ref) {
    Kept(s, x) && Plain(s, x)
  }

  ghost predicate HeldEnv(s: State, a: Ref) {
    Kept(s, a) && Env(s, a)
  }

  lemma {:induction false} KeptInLater(s: State, t: State, x: Ref, n: nat)
    requires WF(s) && WF(t) && Later(s, t) && KeptIn(s, x, n)
    ensures Present(t, x) && KeptIn(t, x, n)
    decreases n
  {
    if x.Cell? && x !in s.bases {
      var y: nat :| Child(s, y, x) && KeptIn(s, Cell(y), n - 1);
      KeptInLater(s, t, Cell(y), n - 1);
      assert CellOk(s, y) && CellOk(t, y);
      assert SameCell(s, t, y);
      assert Child(t, y, x);
    }
  }

  // Protection lasts: whatever was held before a run of the evaluator still is after.
  lemma StillHeld(s: State, t: State, x: Ref)
    requires WF(s) && WF(t) && Later(s, t)
    ensures Held(s, x) ==> Held(t, x)
    ensures HeldEnv(s, x) ==> HeldEnv(t, x)
  {
    if Kept(s, x) {
      var n: nat :| KeptIn(s, x, n);
      KeptInLater(s, t, x, n);
      if x.Cell? && x.id in s.heap { assert CellOk(s, x.id); }
    }
  }

  lemma BaseHeld(s: State, x: Ref)
    requires x in s.bases
    ensures Plain(s, x) ==> Held(s, x)
    ensures Env(s, x) ==> HeldEnv(s, x)
  {
    assert KeptIn(s, x, 0);
  }

  lemma StaticHeld(s: State, x: Ref)
    requires !x.Cell?
    ensures Held(s, x)
    ensures x == Nil ==> HeldEnv(s, x)
  {
    assert KeptIn(s, x, 0);
  }

  lemma PartsHeld(s: State, x: Ref)
    requires WF(s) && Held(s, x) && Car(s, x).Ok?
    ensures Held(s, Car(s, x).value) && Held(s, Cdr(s, x).value)
  {
    var n: nat :| KeptIn(s, x, n);
    assert CellOk(s, x.id);
    var c := s.heap[x.id];
    assert Child(s, x.id, c.car) && Child(s, x.id, c.cdr);
    assert KeptIn(s, c.car, n + 1) && KeptIn(s, c.cdr, n + 1);
  }

  // Pushing more base blocks only protects more.
  lemma {:induction false} KeptPush(s: State, r: Ref, x: Ref, n: nat)
    requires KeptIn(s, x, n)
    ensures KeptIn(Push(s, r), x, n)
    decreases n
  {
    if x.Cell? && x !in s.bases {
      var y: nat :| Child(s, y, x) && KeptIn(s, Cell(y), n - 1);
      KeptPush(s, r, Cell(y), n - 1);
      assert Child(Push(s, r), y, x);
    }
  }

  lemma HeldPush(s: State, r: Ref, x: Ref)
    ensures Held(s, x) ==> Held(Push(s, r), x)
    ensures HeldEnv(s, x) ==> HeldEnv(Push(s, r), x)
  {
    if Kept(s, x) {
      var n: nat :| KeptIn(s, x, n);
      KeptPush(s, r, x, n);
    }
  }

  lemma PushBoth(f: State, g: State, r: Ref)
    requires Both(f, g) && Present(g, r)
    ensures Both(Push(f, r), Push(g, r))
  {
    var t := Push(g, r);
    forall id | id in t.heap ensures CellOk(t, id) { assert CellOk(g, id); }
  }

  lemma LastReleased(q: seq<Ref>, r: Ref)
    ensures BaseBlocks.RemoveTop(q + [r], r) == q
  {
    assert (q + [r])[..|q|] == q;
  }

  // Removing the two base blocks of yleval, in the order in which they were pushed,
  // restores the stack even though removal looks for the topmost occurrence.
  lemma BothReleased(q: seq<Ref>, e: Ref, a: Ref)
    ensures BaseBlocks.RemoveTop(BaseBlocks.RemoveTop(q + [e] + [a], e), a) == q
  {
    assert q + [e] + [a] == q + [e, a];
    BaseBlocks.ReleasedInAnyOrder(q, [e, a], [e, a]);
    var w := BaseBlocks.RemoveTop(q + [e, a], e);
    assert [e, a][1..] == [a] && [a][1..] == [];
    assert BaseBlocks.RemoveAll(w, [a]) == BaseBlocks.RemoveTop(w, a);
  }

  ghost function Rebased(s: State, q: seq<Ref>): State {
    s.(bases := q)
  }

  // Fewer base blocks protect less, and nothing else.
  lemma RebasedBoth(f: State, g: State, q: seq<Ref>)
    requires Both(f, g) && forall r :: r in q ==> r in g.bases
    ensures Both(Rebased(f, q), Rebased(g, q)) && forall x :: Plain(g, x) ==> Plain(Rebased(g, q), x)
  {
    var t := Rebased(g, q);
    forall r | r in t.bases ensures Present(t, r) { assert r in g.bases; }
    forall id | id in t.heap ensures CellOk(t, id) { assert CellOk(g, id); }
  }

  lemma RebasedLater(g: State, gp: State, g': State)
    requires Later(gp, g') && gp == Rebased(g, gp.bases)
    ensures Later(g, Rebased(g', g.bases))
  {
    hide IsRun;
    var t := Rebased(g', g.bases);
    forall id | id in t.heap && id < g.next ensures id in g.heap && SameCell(g, t, id) {
      assert SameCell(gp, g', id);
    }
  }

  // Balanced use of the stack around a run of the evaluator.
  lemma PopBoth(f: State, g: State, r: Ref, f': State, g': State)
    requires Both(f', g') && Later(Push(g, r), g')
    ensures Both(Pop(f', r), Pop(g', r)) && Later(g, Pop(g', r))
    ensures forall x :: Plain(g', x) ==> Plain(Pop(g', r), x)
  {
    hide WF, Replays, Plain;
    LastReleased(g.bases, r);
    RebasedBoth(f', g', g.bases);
    RebasedLater(g, Push(g, r), g');
    assert Pop(g', r) == Rebased(g', g.bases) && Pop(f', r) == Rebased(f', g.bases);
  }

  lemma PopTwo(f: State, g: State, e: Ref, a: Ref, f': State, g': State)
    requires Both(f', g') && Later(Push(Push(g, e), a), g')
    ensures var u, v := Pop(Pop(f', e), a), Pop(Pop(g', e), a);
            Both(u, v) && Later(g, v) && forall x :: Plain(g', x) ==> Plain(v, x)
  {
    hide WF, Replays, Plain;
    BothReleased(g.bases, e, a);
    RebasedBoth(f', g', g.bases);
    RebasedLater(g, Push(Push(g, e), a), g');
    assert Pop(Pop(g', e), a) == Rebased(g', g.bases) && Pop(Pop(f', e), a) == Rebased(f', g.bases);
  }
}
