// The evaluator's heap in the pool. The evaluator names allocations and never uses a name
// twice; the pool uses a block again as soon as it is free. Up to a renaming of the live
// cells into blocks, every operation on the heap is the same on both: since no evaluation
// reads a collected cell, none follows a pointer into a block that has a new owner.
module PooledHeap {
  import A = Agreement
  import C = Collector
  import E = Evaluator
  import opened HeapRuns
  import opened Reachability
  import T = Transparency
  import V = Values

  // `place` is the renaming, `atoms` says what the data of an atom's block stands for.
  datatype Layout = Layout(place: map<nat, nat>, atoms: map<nat, V.Atom>)

  ghost predicate RefIs(l: Layout, r: V.Ref, c: C.Ref) {
    match r
    case Nil => c == C.Predefined(0)
    case True => c == C.Predefined(1)
    case Quote => c == C.Predefined(2)
    case Lambda => c == C.Predefined(3)
    case Progn => c == C.Predefined(4)
    case Cell(id) => id in l.place && c == C.Block(l.place[id])
  }

  ghost predicate BodyIs(l: Layout, n: E.Node, b: C.Body) {
    match n
    case Pair(car, cdr) => b.Pair? && RefIs(l, car, b.car) && RefIs(l, cdr, b.cdr)
    case Leaf(atom) => b.Atom? && b.refs == [] && b.data in l.atoms && l.atoms[b.data] == atom
  }

  ghost predicate InPlace(heap: map<nat, E.Node>, slots: seq<C.Slot>, free: nat, l: Layout, id: nat)
    requires id in heap && id in l.place
  {
    l.place[id] < |slots| && slots[l.place[id]].i >= free && BodyIs(l, heap[id], slots[l.place[id]].body)
  }

  // Every live cell lies in a used block of its own, and every used block holds one.
  ghost predicate Realises(heap: map<nat, E.Node>, slots: seq<C.Slot>, free: nat, l: Layout) {
    && l.place.Keys == heap.Keys
    && (forall id :: id in heap ==> InPlace(heap, slots, free, l, id))
    && Injective(l.place)
    && (forall k :: 0 <= k < |slots| && slots[k].i >= free ==> Owned(l, k))
  }

  ghost predicate Injective(place: map<nat, nat>) {
    forall i, j :: i in place && j in place && place[i] == place[j] ==> i == j
  }

  ghost predicate Owned(l: Layout, k: nat) {
    exists id :: id in l.place && l.place[id] == k
  }

  // ---------------------------------------------------------------- reachability

  ghost function Image(l: Layout, ids: set<nat>): set<nat>
    requires ids <= l.place.Keys
  {
    set id | id in ids :: l.place[id]
  }

  lemma EdgeInPlace(heap: map<nat, E.Node>, slots: seq<C.Slot>, free: nat, l: Layout, y: nat, x: nat)
    requires Realises(heap, slots, free, l) && Edge(E.GraphOf(heap), y, x)
    ensures y in heap && x in heap && Edge(C.GraphOf(slots), l.place[y], l.place[x])
  {
    assert InPlace(heap, slots, free, l, y);
    var b := slots[l.place[y]].body;
    assert b.Pair? && (C.Block(l.place[x]) == b.car || C.Block(l.place[x]) == b.cdr);
    assert C.Block(l.place[x]) in [b.car, b.cdr];
  }

  lemma EdgeFromPlace(heap: map<nat, E.Node>, slots: seq<C.Slot>, free: nat, l: Layout, y: nat, k: nat)
    returns (x: nat)
    requires Realises(heap, slots, free, l) && y in heap && Edge(C.GraphOf(slots), l.place[y], k)
    ensures x in heap && l.place[x] == k && Edge(E.GraphOf(heap), y, x)
  {
    assert InPlace(heap, slots, free, l, y);
    var b := slots[l.place[y]].body;
    assert C.Targets([]) == {} && k in C.Children(b);
    assert heap[y].Pair? && C.Block(k) in [b.car, b.cdr];
    x := if b.car == C.Block(k) then heap[y].car.id else heap[y].cdr.id;
  }

  lemma {:induction false} WithinInPlace(heap: map<nat, E.Node>, slots: seq<C.Slot>, free: nat, l: Layout,
      roots: set<nat>, x: nat, n: nat)
    requires Realises(heap, slots, free, l) && roots <= heap.Keys && Within(E.GraphOf(heap), roots, x, n)
    ensures x in heap && Within(C.GraphOf(slots), Image(l, roots), l.place[x], n)
    decreases n
  {
    if x !in roots {
      var y :| Edge(E.GraphOf(heap), y, x) && Within(E.GraphOf(heap), roots, y, n - 1);
      WithinInPlace(heap, slots, free, l, roots, y, n - 1);
      EdgeInPlace(heap, slots, free, l, y, x);
    }
  }

  lemma {:induction false} WithinFromPlace(heap: map<nat, E.Node>, slots: seq<C.Slot>, free: nat, l: Layout,
      roots: set<nat>, k: nat, n: nat) returns (x: nat)
    requires Realises(heap, slots, free, l) && roots <= heap.Keys
    requires Within(C.GraphOf(slots), Image(l, roots), k, n)
    ensures x in heap && l.place[x] == k && Within(E.GraphOf(heap), roots, x, n)
    decreases n
  {
    if k in Image(l, roots) {
      x :| x in roots && l.place[x] == k;
    } else {
      var j :| Edge(C.GraphOf(slots), j, k) && Within(C.GraphOf(slots), Image(l, roots), j, n - 1);
      var y := WithinFromPlace(heap, slots, free, l, roots, j, n - 1);
      x := EdgeFromPlace(heap, slots, free, l, y, k);
    }
  }

  // A live cell is reachable exactly when its block is.
  lemma SameReach(heap: map<nat, E.Node>, slots: seq<C.Slot>, free: nat, l: Layout, roots: set<nat>, x: nat)
    requires Realises(heap, slots, free, l) && roots <= heap.Keys && x in heap
    ensures Reachable(E.GraphOf(heap), roots, x) <==> Reachable(C.GraphOf(slots), Image(l, roots), l.place[x])
  {
    if Reachable(E.GraphOf(heap), roots, x) {
      var n: nat :| Within(E.GraphOf(heap), roots, x, n);
      WithinInPlace(heap, slots, free, l, roots, x, n);
    }
    if Reachable(C.GraphOf(slots), Image(l, roots), l.place[x]) {
      var n: nat :| Within(C.GraphOf(slots), Image(l, roots), l.place[x], n);
      var y := WithinFromPlace(heap, slots, free, l, roots, l.place[x], n);
    }
  }

  // ---------------------------------------------------------------- the operations

  // The block k, free before, is now used, with this body; nothing else has changed.
  ghost predicate Taken(before: seq<C.Slot>, after: seq<C.Slot>, free: nat, k: nat, b: C.Body) {
    && |after| == |before| && k < |before| && before[k].i == free && after[k].i == free && after[k].body == b
    && forall j :: 0 <= j < |before| && j != k ==> after[j] == before[j] && before[j].i != free
  }

  // A name more, for the block k, and perhaps atoms more.
  ghost predicate Named(l: Layout, l': Layout, id: nat, k: nat) {
    id !in l.place && l'.place == l.place[id := k] &&
    forall d :: d in l.atoms ==> d in l'.atoms && l'.atoms[d] == l.atoms[d]
  }

  lemma OldInPlace(heap: map<nat, E.Node>, id: nat, n: E.Node, before: seq<C.Slot>, after: seq<C.Slot>, free: nat,
      l: Layout, l': Layout, k: nat, b: C.Body, x: nat)
    requires x in heap && x in l.place && InPlace(heap, before, free + 1, l, x)
    requires Taken(before, after, free, k, b) && Named(l, l', id, k) && id !in heap
    ensures InPlace(heap[id := n], after, free, l', x) && l'.place[x] != k
  {
    KeptBody(l, l', heap[x], before[l.place[x]].body);
  }

  lemma NewOwned(before: seq<C.Slot>, after: seq<C.Slot>, free: nat, l: Layout, l': Layout, id: nat, k: nat,
      b: C.Body, j: nat)
    requires Taken(before, after, free, k, b) && Named(l, l', id, k)
    requires j < |after| && (j != k ==> Owned(l, j))
    ensures Owned(l', j)
  {
    if j == k {
      assert id in l'.place && l'.place[id] == k;
    } else {
      var x :| x in l.place && l.place[x] == j;
      assert x in l'.place && l'.place[x] == j;
    }
  }

  lemma StillInjective(place: map<nat, nat>, id: nat, k: nat)
    requires Injective(place) && forall i :: i in place ==> place[i] != k
    ensures Injective(place[id := k])
  {}

  // A new cell for the evaluator is a free block for the pool, whoever had it before.
  lemma NewRealised(heap: map<nat, E.Node>, next: nat, n: E.Node, before: seq<C.Slot>, after: seq<C.Slot>, free: nat,
      l: Layout, l': Layout, k: nat, b: C.Body)
    requires Realises(heap, before, free + 1, l) && next !in heap
    requires Taken(before, after, free, k, b) && Named(l, l', next, k) && BodyIs(l', n, b)
    ensures Realises(heap[next := n], after, free, l')
    ensures RefIs(l', V.Cell(next), C.Block(k))
  {
    var heap' := heap[next := n];
    forall id | id in heap ensures InPlace(heap', after, free, l', id) && l'.place[id] != k {
      OldInPlace(heap, next, n, before, after, free, l, l', k, b, id);
    }
    assert InPlace(heap', after, free, l', next);
    StillInjective(l.place, next, k);
    hide InPlace, Owned, BodyIs, Injective;
    forall j | 0 <= j < |after| && after[j].i >= free ensures Owned(l', j) {
      NewOwned(before, after, free, l, l', next, k, b, j);
    }
  }

  // More names and more atoms change nothing for the old bodies.
  lemma KeptBody(l: Layout, l': Layout, n: E.Node, b: C.Body)
    requires BodyIs(l, n, b)
    requires forall id :: id in l.place ==> id in l'.place && l'.place[id] == l.place[id]
    requires forall d :: d in l.atoms ==> d in l'.atoms && l'.atoms[d] == l.atoms[d]
    ensures BodyIs(l', n, b)
  {}

  // Overwriting a cell is overwriting its block.
  lemma WriteRealised(heap: map<nat, E.Node>, id: nat, n: E.Node, before: seq<C.Slot>, after: seq<C.Slot>,
      free: nat, l: Layout)
    requires Realises(heap, before, free, l) && id in heap
    requires InPlace(heap, before, free, l, id)
    requires |after| == |before| && forall j :: 0 <= j < |before| && j != l.place[id] ==> after[j] == before[j]
    requires after[l.place[id]].i == before[l.place[id]].i && BodyIs(l, n, after[l.place[id]].body)
    ensures Realises(heap[id := n], after, free, l)
  {
    forall x | x in heap ensures InPlace(heap[id := n], after, free, l, x) {
      assert InPlace(heap, before, free, l, x);
    }
  }

  ghost predicate Rooted(heap: map<nat, E.Node>, from: set<nat>, l: Layout, roots: set<nat>) {
    from <= heap.Keys && heap.Keys == l.place.Keys && roots == Image(l, from)
  }

  // The layout of the cells that survive.
  ghost function Surviving(l: Layout, heap: map<nat, E.Node>): Layout {
    l.(place := map id | id in l.place && id in heap :: l.place[id])
  }

  // Collecting the pool from the blocks of the roots is collecting the evaluator's heap.
  lemma CollectRealised(heap: map<nat, E.Node>, from: set<nat>, before: seq<C.Slot>, after: seq<C.Slot>,
      lo: nat, hi: nat, l: Layout, roots: set<nat>)
    requires Realises(heap, before, lo, l) && Rooted(heap, from, l, roots) && |after| == |before|
    requires forall k :: 0 <= k < |before| ==>
               (after[k].i >= hi <==> before[k].i >= lo && Reachable(C.GraphOf(before), roots, k)) &&
               (after[k].i >= hi ==> after[k].body == before[k].body)
    ensures Realises(E.Reached(heap, from), after, hi, Surviving(l, E.Reached(heap, from)))
  {
    hide InPlace, Owned, Reachable;
    var heap' := E.Reached(heap, from);
    var l' := Surviving(l, heap');
    CollectShrinks(heap, from);
    forall id | id in heap' ensures InPlace(heap', after, hi, l', id) {
      CollectInPlace(heap, from, before, after, lo, hi, l, roots, id);
    }
    forall k | 0 <= k < |after| && after[k].i >= hi ensures Owned(l', k) {
      CollectOwned(heap, from, before, lo, l, roots, k);
    }
  }

  lemma CollectInPlace(heap: map<nat, E.Node>, from: set<nat>, before: seq<C.Slot>, after: seq<C.Slot>,
      lo: nat, hi: nat, l: Layout, roots: set<nat>, id: nat)
    requires Realises(heap, before, lo, l) && Rooted(heap, from, l, roots) && |after| == |before|
    requires forall k :: 0 <= k < |before| ==>
               (after[k].i >= hi <==> before[k].i >= lo && Reachable(C.GraphOf(before), roots, k)) &&
               (after[k].i >= hi ==> after[k].body == before[k].body)
    requires id in E.Reached(heap, from)
    ensures id in Surviving(l, E.Reached(heap, from)).place
    ensures InPlace(E.Reached(heap, from), after, hi, Surviving(l, E.Reached(heap, from)), id)
  {
    hide BodyIs, Reachable, Realises;
    CollectShrinks(heap, from);
    SurvivorInPlace(heap, from, before, lo, l, roots, id);
  }

  lemma CollectOwned(heap: map<nat, E.Node>, from: set<nat>, before: seq<C.Slot>, lo: nat, l: Layout,
      roots: set<nat>, k: nat)
    requires Realises(heap, before, lo, l) && Rooted(heap, from, l, roots) && k < |before| && before[k].i >= lo
    requires Reachable(C.GraphOf(before), roots, k)
    ensures Owned(Surviving(l, E.Reached(heap, from)), k)
  {
    hide BodyIs, Reachable;
    assert Owned(l, k);
    var id :| id in l.place && l.place[id] == k;
    SameReach(heap, before, lo, l, from, id);
    CollectKeeps(heap, from, id);
    assert id in Surviving(l, E.Reached(heap, from)).place;
  }

  lemma CollectShrinks(heap: map<nat, E.Node>, from: set<nat>)
    ensures forall id :: id in E.Reached(heap, from) ==> id in heap && E.Reached(heap, from)[id] == heap[id]
  {}

  lemma CollectKeeps(heap: map<nat, E.Node>, from: set<nat>, id: nat)
    requires id in heap && Reachable(E.GraphOf(heap), from, id)
    ensures id in E.Reached(heap, from)
  {}

  // What a survivor refers to survives.
  lemma ChildSurvives(heap: map<nat, E.Node>, from: set<nat>, id: nat, r: V.Ref)
    requires id in E.Reached(heap, from) && heap[id].Pair? && r in {heap[id].car, heap[id].cdr} && r.Cell?
    requires r.id in heap
    ensures r.id in E.Reached(heap, from)
  {
    hide Reachable;
    assert Edge(E.GraphOf(heap), id, r.id);
    ReachableStep(E.GraphOf(heap), from, id, r.id);
  }

  lemma SurvivingBody(l: Layout, heap: map<nat, E.Node>, n: E.Node, b: C.Body)
    requires BodyIs(l, n, b)
    requires n.Pair? ==> (n.car.Cell? ==> n.car.id in heap) && (n.cdr.Cell? ==> n.cdr.id in heap)
    ensures BodyIs(Surviving(l, heap), n, b)
  {}

  lemma SurvivorInPlace(heap: map<nat, E.Node>, from: set<nat>, before: seq<C.Slot>, lo: nat, l: Layout,
      roots: set<nat>, id: nat)
    requires Realises(heap, before, lo, l) && Rooted(heap, from, l, roots) && id in E.Reached(heap, from)
    ensures InPlace(heap, before, lo, l, id) && Reachable(C.GraphOf(before), roots, l.place[id])
    ensures BodyIs(Surviving(l, E.Reached(heap, from)), heap[id], before[l.place[id]].body)
  {
    SameReach(heap, before, lo, l, from, id);
    assert InPlace(heap, before, lo, l, id);
    var n := heap[id];
    ChildrenLive(l, heap, n, before[l.place[id]].body);
    hide Reachable, Realises, BodyIs, InPlace;
    if n.Pair? && n.car.Cell? { ChildSurvives(heap, from, id, n.car); }
    if n.Pair? && n.cdr.Cell? { ChildSurvives(heap, from, id, n.cdr); }
    SurvivingBody(l, E.Reached(heap, from), n, before[l.place[id]].body);
  }

  lemma ChildrenLive(l: Layout, heap: map<nat, E.Node>, n: E.Node, b: C.Body)
    requires BodyIs(l, n, b) && l.place.Keys == heap.Keys
    ensures n.Pair? ==> (n.car.Cell? ==> n.car.id in heap) && (n.cdr.Cell? ==> n.cdr.id in heap)
  {}

  // ---------------------------------------------------------------- runs

  function RefFor(l: Layout, r: V.Ref): (c: C.Ref)
    requires r.Cell? ==> r.id in l.place
    ensures RefIs(l, r, c)
  {
    match r
    case Nil => C.Predefined(0)
    case True => C.Predefined(1)
    case Quote => C.Predefined(2)
    case Lambda => C.Predefined(3)
    case Progn => C.Predefined(4)
    case Cell(id) => C.Block(l.place[id])
  }

  // The invariant of a run: the pool realises the heap, and `next` is a new name.
  ghost predicate Mirrors(heap: map<nat, E.Node>, next: nat, slots: seq<C.Slot>, free: nat, l: Layout) {
    && Realises(heap, slots, free, l)
    && (forall id :: id in l.place ==> id < next)
    && (forall d :: d in l.atoms ==> d < next)
  }

  function BodyFor(l: Layout, n: E.Node, data: nat): C.Body
    requires n.Pair? ==> (n.car.Cell? ==> n.car.id in l.place) && (n.cdr.Cell? ==> n.cdr.id in l.place)
  {
    match n
    case Pair(car, cdr) => C.Pair(RefFor(l, car), RefFor(l, cdr))
    case Leaf(_) => C.Atom(data, [])
  }

  function AtomsWith(l: Layout, n: E.Node, data: nat): map<nat, V.Atom> {
    if n.Leaf? then l.atoms[data := n.atom] else l.atoms
  }

  lemma LiveIsPlaced(heap: map<nat, E.Node>, slots: seq<C.Slot>, free: nat, l: Layout, n: E.Node, data: nat)
    requires Realises(heap, slots, free, l) && LiveNode(heap, n)
    ensures n.Pair? ==> (n.car.Cell? ==> n.car.id in l.place) && (n.cdr.Cell? ==> n.cdr.id in l.place)
    ensures C.BodyInPool(BodyFor(l, n, data), |slots|)
    ensures BodyIs(l.(atoms := AtomsWith(l, n, data)), n, BodyFor(l, n, data))
  {
    if n.Pair? && n.car.Cell? { assert InPlace(heap, slots, free, l, n.car.id); }
    if n.Pair? && n.cdr.Cell? { assert InPlace(heap, slots, free, l, n.cdr.id); }
  }

  // A new cell: a free block is taken, and the name is bound to it. Fails when no block
  // is free.
  method Make(pool: C.Pool, n: E.Node, next: nat, l: Layout, ghost heap: map<nat, E.Node>)
    returns (ok: bool, l': Layout)
    requires pool.Valid() && Mirrors(heap, next, pool.slots[..], pool.free, l) && LiveNode(heap, n)
    modifies pool`free, pool.slots
    ensures pool.Valid()
    ensures ok <==> old(pool.free) > 0
    ensures ok ==> Mirrors(heap[next := n], next + 1, pool.slots[..], pool.free, l')
    ensures !ok ==> pool.free == 0 && Mirrors(heap, next, pool.slots[..], pool.free, l) && l' == l
  {
    hide C.Arranged, C.Stocked, C.BodyInPool, Realises, BodyIs;
    ghost var before := pool.slots[..];
    ghost var p := pool.pointers[..];
    LiveIsPlaced(heap, before, pool.free, l, n, next);
    var k;
    ok, k := pool.Allocate();
    if !ok {
      return false, l;
    }
    var b := BodyFor(l, n, next);
    ghost var mid := pool.slots[..];
    C.BodyKeeps(mid, p, pool.free, k, b);
    pool.slots[k] := pool.slots[k].(body := b);
    assert pool.slots[..] == mid[k := mid[k].(body := b)];
    var atoms := AtomsWith(l, n, next);
    l' := Layout(l.place[next := k], atoms);
    OnlyTaken(before, pool.slots[..], p, pool.free, k, b);
    MadeMirrors(heap, next, n, before, pool.slots[..], pool.free, l, l', k, b);
  }

  lemma OnlyTaken(before: seq<C.Slot>, after: seq<C.Slot>, p: seq<nat>, free: nat, k: nat, b: C.Body)
    requires C.Arranged(before, p) && |after| == |before| && k < |before| && before[k].i == free
    requires after[k].i == free && after[k].body == b
    requires forall j :: 0 <= j < |before| && j != k ==> after[j] == before[j]
    ensures Taken(before, after, free, k, b)
  {}

  lemma MadeMirrors(heap: map<nat, E.Node>, next: nat, n: E.Node, before: seq<C.Slot>, after: seq<C.Slot>, free: nat,
      l: Layout, l': Layout, k: nat, b: C.Body)
    requires Mirrors(heap, next, before, free + 1, l) && Taken(before, after, free, k, b)
    requires l'.place == l.place[next := k] && l'.atoms == AtomsWith(l, n, next)
    requires BodyIs(l.(atoms := l'.atoms), n, b)
    ensures Mirrors(heap[next := n], next + 1, after, free, l')
  {
    KeptBody(l.(atoms := l'.atoms), l', n, b);
    NewRealised(heap, next, n, before, after, free, l, l', k, b);
  }

  // Overwriting a pair: its block is written.
  method Overwrite(pool: C.Pool, id: nat, car: V.Ref, cdr: V.Ref, l: Layout,
                   ghost heap: map<nat, E.Node>, ghost next: nat)
    requires pool.Valid() && Mirrors(heap, next, pool.slots[..], pool.free, l)
    requires id in heap && Live(heap, car) && Live(heap, cdr)
    modifies pool.slots
    ensures pool.Valid() && Mirrors(heap[id := E.Pair(car, cdr)], next, pool.slots[..], pool.free, l)
  {
    hide C.Arranged, C.Stocked, C.BodyInPool, BodyIs;
    ghost var before := pool.slots[..];
    LiveIsPlaced(heap, before, pool.free, l, E.Pair(car, cdr), next);
    assert InPlace(heap, before, pool.free, l, id);
    var k, b := l.place[id], C.Pair(RefFor(l, car), RefFor(l, cdr));
    C.BodyKeeps(before, pool.pointers[..], pool.free, k, b);
    pool.slots[k] := pool.slots[k].(body := b);
    assert pool.slots[..] == before[k := before[k].(body := b)];
    WriteRealised(heap, id, E.Pair(car, cdr), before, pool.slots[..], pool.free, l);
  }

  lemma RootsPlaced(heap: map<nat, E.Node>, slots: seq<C.Slot>, free: nat, l: Layout, roots: seq<V.Ref>)
    requires Realises(heap, slots, free, l) && forall r :: r in roots ==> Live(heap, r)
    ensures forall r :: r in roots ==> r.Cell? ==> r.id in l.place && l.place[r.id] < |slots|
  {
    forall r | r in roots && r.Cell? ensures r.id in l.place && l.place[r.id] < |slots| {
      assert InPlace(heap, slots, free, l, r.id);
    }
  }

  function RefsFor(l: Layout, roots: seq<V.Ref>): (cs: seq<C.Ref>)
    requires forall r :: r in roots ==> r.Cell? ==> r.id in l.place
    ensures |cs| == |roots| && forall i :: 0 <= i < |roots| ==> RefIs(l, roots[i], cs[i])
  {
    if roots == [] then [] else [RefFor(l, roots[0])] + RefsFor(l, roots[1..])
  }

  lemma RootTargets(l: Layout, roots: seq<V.Ref>, size: nat)
    requires forall r :: r in roots ==> r.Cell? ==> r.id in l.place && l.place[r.id] < size
    ensures E.Ids(set r | r in roots) <= l.place.Keys
    ensures C.RootSet(RefsFor(l, roots), [], []) == Image(l, E.Ids(set r | r in roots))
    ensures C.InPool(RefsFor(l, roots), size) && C.InPool([], size)
  {
    var cs, ids := RefsFor(l, roots), E.Ids(set r | r in roots);
    forall k | k in C.Targets(cs) ensures k in Image(l, ids) && k < size {
      var i :| 0 <= i < |cs| && cs[i] == C.Block(k);
      assert RefIs(l, roots[i], cs[i]) && roots[i] in roots && roots[i].id in ids;
    }
    forall k | k in Image(l, ids) ensures k in C.Targets(cs) {
      var id :| id in ids && l.place[id] == k;
      var i :| 0 <= i < |roots| && roots[i] == V.Cell(id);
      assert cs[i] == C.Block(k) && cs[i] in cs;
    }
    assert C.RootSet(cs, [], []) == C.Targets(cs);
    forall c | c in cs && c.Block? ensures c.k < size { assert c.k in C.Targets(cs); }
  }

  function StillUsed(place: map<nat, nat>, slots: seq<C.Slot>, free: nat): map<nat, nat> {
    map id | id in place && place[id] < |slots| && slots[place[id]].i >= free :: place[id]
  }

  method Listed(roots: set<V.Ref>) returns (rs: seq<V.Ref>)
    ensures forall r :: r in rs <==> r in roots
  {
    rs := [];
    var rest := roots;
    while rest != {}
      invariant rest <= roots && forall r :: r in rs <==> r in roots && r !in rest
      decreases |rest|
    {
      var r :| r in rest;
      rs, rest := rs + [r], rest - {r};
    }
  }

  // A collection: the pool is collected from the blocks of the roots, and the names of
  // the cells that are gone are forgotten. Their blocks may be taken again.
  method Gather(pool: C.Pool, roots: set<V.Ref>, l: Layout, ghost heap: map<nat, E.Node>, ghost next: nat)
    returns (l': Layout)
    requires pool.Valid() && Mirrors(heap, next, pool.slots[..], pool.free, l)
    requires forall r :: r in roots ==> Live(heap, r)
    modifies pool, pool.slots, pool.pointers
    ensures pool.Valid()
    ensures Mirrors(E.Reached(heap, E.Ids(roots)), next, pool.slots[..], pool.free, l')
  {
    hide C.Arranged, C.Stocked, C.InPool, C.Sound, C.RootSet, C.GraphOf, Reachable, Realises, E.Reached, Image, BodyIs;
    ghost var before, lo := pool.slots[..], pool.free;
    ghost var from := E.Ids(roots);
    var rs := Listed(roots);
    assert (set r | r in rs) == roots;
    RootsPlaced(heap, before, lo, l, rs);
    RootTargets(l, rs, |before|);
    var cs := RefsFor(l, rs);
    PlaceKeys(heap, before, lo, l);
    pool.Collect(cs, [], []);
    CollectRealised(heap, from, before, pool.slots[..], lo, pool.free, l, C.RootSet(cs, [], []));
    SurvivorsUsed(heap, from, before, pool.slots[..], lo, pool.free, l, C.RootSet(cs, [], []));
    l' := l.(place := StillUsed(l.place, pool.slots[..], pool.free));
  }

  lemma PlaceKeys(heap: map<nat, E.Node>, slots: seq<C.Slot>, free: nat, l: Layout)
    requires Realises(heap, slots, free, l)
    ensures l.place.Keys == heap.Keys && forall id :: id in l.place ==> l.place[id] < |slots|
  {
    forall id | id in l.place ensures l.place[id] < |slots| { assert InPlace(heap, slots, free, l, id); }
  }

  lemma SurvivorsUsed(heap: map<nat, E.Node>, from: set<nat>, before: seq<C.Slot>, after: seq<C.Slot>, lo: nat, hi: nat,
      l: Layout, roots: set<nat>)
    requires Realises(heap, before, lo, l) && Rooted(heap, from, l, roots) && |after| == |before|
    requires forall k :: 0 <= k < |before| ==>
               (after[k].i >= hi <==> before[k].i >= lo && Reachable(C.GraphOf(before), roots, k))
    ensures l.(place := StillUsed(l.place, after, hi)) == Surviving(l, E.Reached(heap, from))
  {
    hide Reachable, E.Reached;
    forall id | id in l.place
      ensures l.place[id] < |after| && (after[l.place[id]].i >= hi <==> id in E.Reached(heap, from))
    {
      assert InPlace(heap, before, lo, l, id);
      SameReach(heap, before, lo, l, from, id);
      ReachedIff(heap, from, id);
    }
    assert StillUsed(l.place, after, hi) == Surviving(l, E.Reached(heap, from)).place;
  }

  lemma ReachedIff(heap: map<nat, E.Node>, from: set<nat>, id: nat)
    requires id in heap
    ensures id in E.Reached(heap, from) <==> Reachable(E.GraphOf(heap), from, id)
  {}

  // A run of heap operations on the pool, from a heap that it realises: it realises every
  // heap on the way, until no block is free and one more cell is asked for.
  method Execute(pool: C.Pool, ops: seq<E.HeapOp>, next: nat, l: Layout, ghost from: Cells, ghost to: Cells)
    returns (done: nat, l': Layout, ghost h: Cells)
    requires pool.Valid() && IsRun(from, ops, to)
    requires from.next == next && Mirrors(from.heap, next, pool.slots[..], pool.free, l)
    modifies pool, pool.slots, pool.pointers
    ensures pool.Valid() && done <= |ops|
    ensures IsRun(from, ops[..done], h) && IsRun(h, ops[done..], to)
    ensures Mirrors(h.heap, h.next, pool.slots[..], pool.free, l')
    ensures done == |ops| ==> h == to
    ensures done < |ops| ==> ops[done].New? && pool.free == 0
  {
    hide C.Arranged, C.Stocked, Mirrors;
    var n := next;
    done, l', h := 0, l, from;
    assert ops[..0] == [] && ops[0..] == ops;
    while done < |ops|
      invariant pool.Valid() && done <= |ops|
      invariant IsRun(from, ops[..done], h) && IsRun(h, ops[done..], to)
      invariant Mirrors(h.heap, n, pool.slots[..], pool.free, l') && h.next == n
      modifies pool, pool.slots, pool.pointers
    {
      OneMore(from, ops, done, h, to);
      match ops[done] {
        case New(c) =>
          var ok;
          ok, l' := Make(pool, c, n, l', h.heap);
          if !ok {
            return;
          }
          n := n + 1;
        case Write(id, car, cdr) =>
          Overwrite(pool, id, car, cdr, l', h.heap, n);
        case Gc(roots) =>
          l' := Gather(pool, roots, l', h.heap, n);
      }
      h := Effect(h, ops[done]);
      done := done + 1;
    }
  }

  lemma OneMore(from: Cells, ops: seq<E.HeapOp>, done: nat, h: Cells, to: Cells)
    requires done < |ops| && IsRun(from, ops[..done], h) && IsRun(h, ops[done..], to)
    ensures Allowed(h, ops[done])
    ensures IsRun(from, ops[..done + 1], Effect(h, ops[done])) && IsRun(Effect(h, ops[done]), ops[done + 1..], to)
  {
    hide Effect, Allowed;
    assert ops[done..][1..] == ops[done + 1..] && ops[..done] + [ops[done]] == ops[..done + 1];
    OneStep(h, ops[done]);
    RunsCompose(from, ops[..done], h, [ops[done]], Effect(h, ops[done]));
  }

  // An empty pool realises the empty heap.
  lemma NothingRealised(slots: seq<C.Slot>, p: seq<nat>)
    requires C.Arranged(slots, p)
    ensures Mirrors(map[], 0, slots, |slots|, Layout(map[], map[]))
  {}

  // ---------------------------------------------------------------- evaluations

  // The pool holds the value of an evaluation that ended in t.
  ghost predicate Holds(t: E.State, r: V.Ref, slots: seq<C.Slot>, free: nat, l: Layout) {
    Mirrors(t.heap, t.next, slots, free, l) && (r.Cell? ==> r.id in l.place)
  }

  // An evaluation in the pool, with whatever collections: `log` is what it does to its
  // heap. If the pool realises the heap in which it starts, then carrying out the log,
  // operation by operation, leaves a pool that realises the heap in which it returns, the
  // value included; or it stops where the log asks for a cell and no block is free.
  method RunEvaluation(pool: C.Pool, log: seq<E.HeapOp>, next: nat, l: Layout,
                       ghost cfg: E.Config, ghost fuel: nat, ghost s: E.State, ghost e: V.Ref, ghost a: V.Ref)
    returns (done: nat, l': Layout, ghost h: Cells)
    requires A.WF(s) && A.Plain(s, e) && A.Env(s, a) && E.Eval(cfg, fuel, s, e, a).Ok?
    requires E.Eval(cfg, fuel, s, e, a).value.1.log == s.log + log
    requires pool.Valid() && s.next == next && Mirrors(s.heap, next, pool.slots[..], pool.free, l)
    modifies pool, pool.slots, pool.pointers
    ensures pool.Valid() && done <= |log|
    ensures IsRun(CellsOf(s), log[..done], h) && Mirrors(h.heap, h.next, pool.slots[..], pool.free, l')
    ensures var (r, t) := E.Eval(cfg, fuel, s, e, a).value;
            done == |log| ==> h == CellsOf(t) && Holds(t, r, pool.slots[..], pool.free, l')
    ensures done < |log| ==> log[done].New? && pool.free == 0
  {
    hide A.WF, A.Plain, A.Env, E.Eval, C.Arranged, C.Stocked, IsRun, Mirrors;
    ghost var (r, t) := E.Eval(cfg, fuel, s, e, a).value;
    T.EvaluationIsRun(cfg, fuel, s, e, a);
    assert t.log[|s.log|..] == log;
    done, l', h := Execute(pool, log, next, l, CellsOf(s), CellsOf(t));
    if done == |log| { ValueHeld(t, r, pool.slots[..], pool.free, l'); }
  }

  // A session from an empty pool. `s` is the state in which it starts, whose log leads
  // from the empty heap to what is predefined; then the expressions are read and
  // evaluated in turn. Up to each value, the pool realises the heap, until it is full.
  method RunSession(pool: C.Pool, log: seq<E.HeapOp>, ghost cfg: E.Config, ghost fuel: nat, ghost s: E.State,
                    ghost xs: seq<T.Expr>, ghost i: nat)
    returns (done: nat, l: Layout, ghost h: Cells)
    requires A.WF(s) && IsRun(Cells(map[], 0), s.log, CellsOf(s)) && i < |T.Session(cfg, fuel, s, xs).0|
    requires T.Session(cfg, fuel, s, xs).0[i].1.log == log
    requires pool.Valid() && pool.free == pool.slots.Length
    modifies pool, pool.slots, pool.pointers
    ensures pool.Valid() && done <= |log|
    ensures IsRun(Cells(map[], 0), log[..done], h) && Mirrors(h.heap, h.next, pool.slots[..], pool.free, l)
    ensures var (r, t) := T.Session(cfg, fuel, s, xs).0[i];
            done == |log| ==> h == CellsOf(t) && Holds(t, r, pool.slots[..], pool.free, l)
    ensures done < |log| ==> log[done].New? && pool.free == 0
  {
    hide A.WF, T.Session, A.Plain, C.Arranged, C.Stocked, IsRun, Mirrors;
    ghost var (r, t) := T.Session(cfg, fuel, s, xs).0[i];
    T.SessionIsRun(cfg, fuel, s, xs, i);
    RunsCompose(Cells(map[], 0), s.log, CellsOf(s), t.log[|s.log|..], CellsOf(t));
    assert s.log + t.log[|s.log|..] == log;
    NothingRealised(pool.slots[..], pool.pointers[..]);
    done, l, h := Execute(pool, log, 0, Layout(map[], map[]), Cells(map[], 0), CellsOf(t));
    if done == |log| { ValueHeld(t, r, pool.slots[..], pool.free, l); }
  }

  lemma ValueHeld(t: E.State, r: V.Ref, slots: seq<C.Slot>, free: nat, l: Layout)
    requires A.Plain(t, r) && Mirrors(t.heap, t.next, slots, free, l)
    ensures Holds(t, r, slots, free, l)
  {}
}
