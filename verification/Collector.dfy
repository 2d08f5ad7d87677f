// The fixed block pool (a permutation of block pointers split at `free`) and the
// mark-and-sweep collector that runs over it.
module Collector {
  import opened Reachability

  // What a block pointer may hold. The predefined atoms (nil, t, quote, ...) lie
  // outside the pool and refer to nothing.
  datatype Ref = Null | Predefined(id: nat) | Block(k: nat)

  // Clean is a pair whose car and cdr are both NULL; a pair never has just one of
  // them NULL. `refs` is what the atom's visit callback reports.
  datatype Body = Clean | Pair(car: Ref, cdr: Ref) | Atom(data: nat, refs: seq<Ref>)

  // `i` is the position of the block's pointer in the pointer table.
  datatype Slot = Slot(i: nat, marked: bool, body: Body)

  ghost function Targets(rs: seq<Ref>): set<nat> {
    set r | r in rs && r.Block? :: r.k
  }

  ghost function Children(b: Body): set<nat> {
    match b
    case Clean => {}
    case Pair(car, cdr) => Targets([car, cdr])
    case Atom(_, refs) => Targets(refs)
  }

  ghost function GraphOf(s: seq<Slot>): Graph {
    map k | 0 <= k < |s| :: Children(s[k].body)
  }

  ghost function Marked(s: seq<Slot>): set<nat> {
    set k | 0 <= k < |s| && s[k].marked
  }

  ghost function Unmarked(s: seq<Slot>): set<nat> {
    set k | 0 <= k < |s| && !s[k].marked
  }

  ghost predicate InPool(rs: seq<Ref>, size: nat) {
    forall r :: r in rs && r.Block? ==> r.k < size
  }

  ghost predicate BodyInPool(b: Body, size: nat) {
    match b
    case Clean => true
    case Pair(car, cdr) => InPool([car, cdr], size)
    case Atom(_, refs) => InPool(refs, size)
  }

  // Two states of the pool that differ in marks only.
  ghost predicate SameButMarks(s: seq<Slot>, t: seq<Slot>) {
    |s| == |t| && forall k :: 0 <= k < |s| ==> s[k].i == t[k].i && s[k].body == t[k].body
  }

  ghost predicate Names(s: seq<Slot>, k: nat, c: nat) {
    k < |s| && c in Children(s[k].body)
  }

  // Every marked block outside `open` has all its children marked.
  ghost predicate MarksClosed(s: seq<Slot>, open: set<nat>) {
    forall k: nat, c: nat :: Names(s, k, c) && s[k].marked && k !in open ==> c in Marked(s)
  }

  // One marking step: marks only grow, only by blocks reachable from `from`, and
  // everything `from` names is marked.
  ghost predicate MarkedFrom(s: seq<Slot>, t: seq<Slot>, from: set<nat>) {
    && SameButMarks(s, t)
    && Marked(s) <= Marked(t)
    && from <= Marked(t)
    && forall k :: k in Marked(t) ==> k in Marked(s) || Reachable(GraphOf(s), from, k)
  }

  lemma SameGraph(s: seq<Slot>, t: seq<Slot>)
    requires SameButMarks(s, t)
    ensures GraphOf(s) == GraphOf(t)
  {}

  lemma MarkedFromCompose(s: seq<Slot>, t: seq<Slot>, u: seq<Slot>, a: set<nat>, b: set<nat>)
    requires MarkedFrom(s, t, a) && MarkedFrom(t, u, b)
    ensures MarkedFrom(s, u, a + b)
  {
    SameGraph(s, t);
    var g := GraphOf(s);
    forall r | r in a + b ensures Reachable(g, a + b, r) { ReachableRoot(g, a + b, r); }
    ReachableCompose(g, a + b, a);
    ReachableCompose(g, a + b, b);
  }

  // Marking the children of a freshly marked block marks the block's whole reach.
  lemma MarkedFromParent(s: seq<Slot>, t: seq<Slot>, u: seq<Slot>, k: nat)
    requires k < |s| && t == s[k := s[k].(marked := true)]
    requires MarkedFrom(t, u, Children(s[k].body))
    ensures MarkedFrom(s, u, {k})
  {
    SameGraph(s, t);
    var g := GraphOf(s);
    ReachableRoot(g, {k}, k);
    forall r | r in Children(s[k].body) ensures Reachable(g, {k}, r) {
      assert Edge(g, k, r);
      ReachableStep(g, {k}, k, r);
    }
    ReachableCompose(g, {k}, Children(s[k].body));
    assert k in Marked(t);
    forall j | j in Marked(u) ensures j in Marked(s) || Reachable(g, {k}, j) {
      if j in Marked(t) { assert j == k || j in Marked(s); }
    }
  }

  // The back-indices and the pointer table are inverse to each other.
  ghost predicate Arranged(s: seq<Slot>, p: seq<nat>) {
    && |s| == |p|
    && (forall k :: 0 <= k < |s| ==> s[k].i < |p| && p[s[k].i] == k)
    && (forall j :: 0 <= j < |p| ==> p[j] < |s| && s[p[j]].i == j)
  }

  // Two blocks with their back-indices exchanged.
  ghost function Exchanged(s: seq<Slot>, b: nat, c: nat): seq<Slot>
    requires b < |s| && c < |s|
  {
    s[b := s[b].(i := s[c].i)][c := s[c].(i := s[b].i)]
  }

  // Exchanging the block at `free` with another keeps the table arranged.
  lemma ExchangeArranges(s: seq<Slot>, p: seq<nat>, free: nat, b: nat)
    requires Arranged(s, p) && free < |p| && b < |s|
    ensures var t, q := Exchanged(s, b, p[free]), p[free := b][s[b].i := p[free]];
            && Arranged(t, q) && |t| == |s| && t[b].i == free && t[p[free]].i == s[b].i
            && (forall k :: 0 <= k < |s| && k != b && k != p[free] ==> t[k] == s[k])
            && (forall k :: 0 <= k < |s| ==> t[k].marked == s[k].marked && t[k].body == s[k].body)
  {}

  // Blocks refer to blocks of the pool, and the free ones are clean.
  ghost predicate Stocked(s: seq<Slot>, free: nat) {
    forall k :: 0 <= k < |s| ==> BodyInPool(s[k].body, |s|) && (s[k].i < free ==> s[k].body == Clean)
  }

  ghost function Cleaned(s: seq<Slot>, b: nat): seq<Slot>
    requires b < |s|
  {
    s[b := s[b].(marked := false, body := Clean)]
  }

  // Cleaning a used block and exchanging it with the first used one frees it, and only it.
  lemma ReleaseFrees(s: seq<Slot>, p: seq<nat>, free: nat, b: nat)
    requires Arranged(s, p) && Stocked(s, free) && b < |s| && free <= s[b].i
    ensures var t, q := Exchanged(Cleaned(s, b), b, p[free]), p[free := b][s[b].i := p[free]];
            && Arranged(t, q) && Stocked(t, free + 1) && |t| == |s|
            && t[b].i == free && t[b].body == Clean && !t[b].marked
            && (forall k :: 0 <= k < |s| && k != b ==>
                  (t[k].i >= free + 1 <==> s[k].i >= free) && t[k].marked == s[k].marked && t[k].body == s[k].body)
            && (forall k :: 0 <= k < |s| && k != b && k != p[free] ==> t[k] == s[k])
  {
    hide Exchanged;
    ExchangeArranges(Cleaned(s, b), p, free, b);
  }

  lemma CleanedArranged(s: seq<Slot>, p: seq<nat>, b: nat)
    requires Arranged(s, p) && b < |s|
    ensures Arranged(Cleaned(s, b), p) && |Cleaned(s, b)| == |s| == |p|
    ensures Cleaned(s, b)[b].i == s[b].i < |p|
    ensures forall j :: 0 <= j < |p| ==> p[j] < |s|
  {}

  lemma SameSize(s: seq<Slot>, p: seq<nat>)
    requires Arranged(s, p)
    ensures |s| == |p|
  {}

  lemma ChildrenInPool(s: seq<Slot>, free: nat, k: nat)
    requires Stocked(s, free) && k < |s|
    ensures BodyInPool(s[k].body, |s|)
  {}

  // Marks do not matter to the table.
  lemma MarkKeeps(s: seq<Slot>, p: seq<nat>, free: nat, k: nat, m: bool)
    requires Arranged(s, p) && Stocked(s, free) && k < |s|
    ensures var t := s[k := s[k].(marked := m)]; Arranged(t, p) && Stocked(t, free) && SameButMarks(s, t)
  {}

  // Neither do the bodies of used blocks, as long as they refer to blocks of the pool.
  lemma BodyKeeps(s: seq<Slot>, p: seq<nat>, free: nat, k: nat, b: Body)
    requires Arranged(s, p) && Stocked(s, free) && k < |s| && s[k].i >= free && BodyInPool(b, |s|)
    ensures var t := s[k := s[k].(body := b)]; Arranged(t, p) && Stocked(t, free)
  {}

  // The marks of the used blocks before position i are gone, and nothing else is.
  ghost predicate Cleared(s: seq<Slot>, t: seq<Slot>, free: nat, i: nat) {
    SameButMarks(s, t) && forall k :: 0 <= k < |t| ==>
      (free <= t[k].i < i ==> !t[k].marked) && (t[k].i < free ==> t[k] == s[k])
  }

  lemma NothingCleared(s: seq<Slot>, free: nat)
    ensures Cleared(s, s, free, free)
  {}

  lemma ClearOne(s: seq<Slot>, t: seq<Slot>, p: seq<nat>, free: nat, i: nat)
    requires Arranged(t, p) && Cleared(s, t, free, i) && free <= i < |p| && p[i] < |t|
    ensures Cleared(s, t[p[i] := t[p[i]].(marked := false)], free, i + 1)
  {}

  lemma AllCleared(s: seq<Slot>, t: seq<Slot>, p: seq<nat>, free: nat)
    requires Arranged(t, p) && Cleared(s, t, free, |p|)
    ensures SameButMarks(s, t)
    ensures forall k :: 0 <= k < |t| && t[k].i >= free ==> !t[k].marked
    ensures forall k :: 0 <= k < |t| && t[k].i < free ==> t[k] == s[k]
  {}

  lemma ClearedIsClosed(s: seq<Slot>, free: nat)
    requires Stocked(s, free) && forall k :: 0 <= k < |s| && s[k].i >= free ==> !s[k].marked
    ensures MarksClosed(s, {})
  {}

  // What the sweep has done when it has come to i: [lo, free) is reclaimed, [free, i) has
  // survived, [i, size) is as it was in s and p.
  ghost predicate Swept(s: seq<Slot>, p: seq<nat>, lo: nat, t: seq<Slot>, q: seq<nat>, free: nat, i: nat) {
    && Arranged(s, p) && Arranged(t, q) && |t| == |s| && lo <= free <= i <= |s| && Stocked(t, free)
    && (forall j :: i <= j < |q| ==> q[j] == p[j])
    && (forall k :: 0 <= k < |t| ==>
          && (t[k].i >= i ==> t[k] == s[k])
          && (t[k].i >= lo <==> s[k].i >= lo)
          && (free <= t[k].i < i ==> s[k].marked && t[k].body == s[k].body)
          && (lo <= t[k].i < free ==> !s[k].marked))
  }

  lemma SweptStart(s: seq<Slot>, p: seq<nat>, lo: nat)
    requires Arranged(s, p) && lo <= |s| && Stocked(s, lo)
    ensures Swept(s, p, lo, s, p, lo, lo)
  {}

  lemma InTable(t: seq<Slot>, q: seq<nat>, i: nat)
    requires Arranged(t, q) && i < |q|
    ensures q[i] < |t| && t[q[i]].i == i
  {}

  lemma SweptSurvivor(s: seq<Slot>, p: seq<nat>, lo: nat, t: seq<Slot>, q: seq<nat>, free: nat, i: nat)
    requires Swept(s, p, lo, t, q, free, i) && i < |q| && q[i] < |t| && t[q[i]].marked
    ensures Swept(s, p, lo, t, q, free, i + 1)
  {}

  lemma SweptRelease(s: seq<Slot>, p: seq<nat>, lo: nat, t: seq<Slot>, q: seq<nat>, free: nat, i: nat)
    requires Swept(s, p, lo, t, q, free, i) && i < |q| && q[i] < |t| && !t[q[i]].marked
    ensures q[free] < |t|
    ensures Swept(s, p, lo, Exchanged(Cleaned(t, q[i]), q[i], q[free]), q[free := q[i]][i := q[free]], free + 1, i + 1)
  {
    ReleaseFrees(t, q, free, q[i]);
  }

  // Used afterwards: used before and marked.
  ghost predicate SweepsTo(s: seq<Slot>, t: seq<Slot>, lo: nat, hi: nat) {
    |t| == |s| && forall k :: 0 <= k < |t| ==>
      (t[k].i >= hi <==> s[k].i >= lo && s[k].marked) && t[k].body == if t[k].i >= hi then s[k].body else Clean
  }

  lemma SweptEnd(s: seq<Slot>, p: seq<nat>, lo: nat, t: seq<Slot>, q: seq<nat>, free: nat)
    requires Swept(s, p, lo, t, q, free, |q|)
    ensures SweepsTo(s, t, lo, free)
  {}

  // Used afterwards: used before and reachable.
  ghost predicate CollectsTo(s: seq<Slot>, t: seq<Slot>, lo: nat, hi: nat, roots: set<nat>) {
    |t| == |s| && forall k :: 0 <= k < |t| ==>
      (t[k].i >= hi <==> s[k].i >= lo && Reachable(GraphOf(s), roots, k)) &&
      t[k].body == if t[k].i >= hi then s[k].body else Clean
  }

  // What a survivor refers to survives: the car and the cdr of a pair, and every reference
  // that an atom reports.
  ghost predicate KeepsReferred(s: seq<Slot>, t: seq<Slot>, lo: nat, hi: nat) {
    |t| == |s| && forall k, c :: 0 <= k < |s| && 0 <= c < |s| && t[k].i >= hi && s[c].i >= lo ==>
      (s[k].body.Pair? && s[k].body.car == Block(c) ==> t[c].i >= hi) &&
      (s[k].body.Pair? && s[k].body.cdr == Block(c) ==> t[c].i >= hi) &&
      (s[k].body.Atom? && Block(c) in s[k].body.refs ==> t[c].i >= hi)
  }

  // So does every root.
  ghost predicate KeepsRoots(s: seq<Slot>, t: seq<Slot>, lo: nat, hi: nat, roots: seq<Ref>) {
    |t| == |s| && forall c :: 0 <= c < |s| && s[c].i >= lo && Block(c) in roots ==> t[c].i >= hi
  }

  // Nothing else does: whatever set holds the roots and what its blocks refer to holds all
  // survivors.
  ghost predicate KeepsNoMore(s: seq<Slot>, t: seq<Slot>, hi: nat, bases: seq<Ref>, threads: seq<seq<Ref>>,
                              globals: seq<Ref>)
  {
    |t| == |s| && forall x: set<nat> ::
      HoldsAll(x, bases) && (forall l :: l in threads ==> HoldsAll(x, l)) && HoldsAll(x, globals) &&
      ClosedUnder(s, x) ==>
        forall k :: 0 <= k < |t| && t[k].i >= hi ==> k in x
  }

  ghost predicate HoldsAll(x: set<nat>, rs: seq<Ref>) {
    forall c: nat :: Block(c) in rs ==> c in x
  }

  ghost predicate ClosedUnder(s: seq<Slot>, x: set<nat>) {
    forall k, c :: 0 <= k < |s| && k in x && 0 <= c ==>
      (s[k].body.Pair? && s[k].body.car == Block(c) ==> c in x) &&
      (s[k].body.Pair? && s[k].body.cdr == Block(c) ==> c in x) &&
      (s[k].body.Atom? && Block(c) in s[k].body.refs ==> c in x)
  }

  lemma ReferredSurvive(s: seq<Slot>, t: seq<Slot>, lo: nat, hi: nat, roots: set<nat>)
    requires CollectsTo(s, t, lo, hi, roots)
    ensures KeepsReferred(s, t, lo, hi)
  {
    hide Reachable;
    var g := GraphOf(s);
    forall k, c | 0 <= k < |s| && 0 <= c < |s| && t[k].i >= hi && s[c].i >= lo && RefersTo(s[k].body, c)
      ensures t[c].i >= hi
    {
      ChildIs(s[k].body, c);
      assert Edge(g, k, c);
      ReachableStep(g, roots, k, c);
    }
    hide CollectsTo, GraphOf;
    forall k, c | 0 <= k < |s| && 0 <= c < |s| && t[k].i >= hi && s[c].i >= lo
      ensures s[k].body.Pair? && s[k].body.car == Block(c) ==> t[c].i >= hi
      ensures s[k].body.Pair? && s[k].body.cdr == Block(c) ==> t[c].i >= hi
      ensures s[k].body.Atom? && Block(c) in s[k].body.refs ==> t[c].i >= hi
    {
      assert RefersTo(s[k].body, c) ==> t[c].i >= hi;
    }
  }

  ghost predicate RefersTo(b: Body, c: nat) {
    match b
    case Clean => false
    case Pair(car, cdr) => car == Block(c) || cdr == Block(c)
    case Atom(_, refs) => Block(c) in refs
  }

  lemma ChildIs(b: Body, c: nat)
    ensures c in Children(b) <==> RefersTo(b, c)
  {
    match b
    case Clean =>
    case Pair(car, cdr) => assert Block(c) in [car, cdr] <==> car == Block(c) || cdr == Block(c);
    case Atom(_, refs) =>
  }

  lemma RootsSurvive(s: seq<Slot>, t: seq<Slot>, lo: nat, hi: nat, roots: set<nat>, rs: seq<Ref>)
    requires CollectsTo(s, t, lo, hi, roots) && Targets(rs) <= roots
    ensures KeepsRoots(s, t, lo, hi, rs)
  {
    hide GraphOf, Reachable;
    forall c | 0 <= c < |s| && s[c].i >= lo && Block(c) in rs ensures t[c].i >= hi {
      assert c in Targets(rs);
      ReachableRoot(GraphOf(s), roots, c);
    }
  }

  lemma AllRootsSurvive(s: seq<Slot>, t: seq<Slot>, lo: nat, hi: nat, bases: seq<Ref>, threads: seq<seq<Ref>>,
      globals: seq<Ref>)
    requires CollectsTo(s, t, lo, hi, RootSet(bases, threads, globals))
    ensures KeepsRoots(s, t, lo, hi, bases) && KeepsRoots(s, t, lo, hi, globals)
    ensures forall l :: l in threads ==> KeepsRoots(s, t, lo, hi, l)
  {
    hide CollectsTo, KeepsRoots;
    var roots := RootSet(bases, threads, globals);
    RootsSurvive(s, t, lo, hi, roots, bases);
    RootsSurvive(s, t, lo, hi, roots, globals);
    forall l | l in threads ensures KeepsRoots(s, t, lo, hi, l) { RootsSurvive(s, t, lo, hi, roots, l); }
  }

  lemma NoMoreSurvive(s: seq<Slot>, t: seq<Slot>, lo: nat, hi: nat, bases: seq<Ref>, threads: seq<seq<Ref>>,
      globals: seq<Ref>)
    requires CollectsTo(s, t, lo, hi, RootSet(bases, threads, globals))
    ensures KeepsNoMore(s, t, hi, bases, threads, globals)
  {
    hide Reachable;
    var g, roots := GraphOf(s), RootSet(bases, threads, globals);
    forall x: set<nat> |
      HoldsAll(x, bases) && (forall l :: l in threads ==> HoldsAll(x, l)) && HoldsAll(x, globals) && ClosedUnder(s, x)
      ensures forall k :: 0 <= k < |t| && t[k].i >= hi ==> k in x
    {
      forall y, c | y in x && Edge(g, y, c) ensures c in x { ChildIs(s[y].body, c); }
      ReachableLeast(g, roots, x);
    }
  }

  // Clearing, marking and sweeping collect.
  lemma PhasesCollect(s: seq<Slot>, t: seq<Slot>, u: seq<Slot>, v: seq<Slot>, lo: nat, hi: nat, roots: set<nat>)
    requires SameButMarks(s, t) && forall k :: 0 <= k < |t| && t[k].i >= lo ==> !t[k].marked
    requires MarkedFrom(t, u, roots) && MarksClosed(u, {}) && SweepsTo(u, v, lo, hi)
    ensures CollectsTo(s, v, lo, hi, roots)
  {
    hide Reachable, GraphOf;
    SameGraph(s, t);
    MarkedIsReachable(t, u, roots);
  }

  class Pool {
    const slots: array<Slot>   // pool
    const pointers: array<nat>      // block pointers: [0, free) free, [free, size) in use
    var free: nat
    var staticMarks: set<nat>  // marks of predefined atoms; never cleared

    ghost predicate Permutation()
      reads this, slots, pointers
    {
      free <= pointers.Length && Arranged(slots[..], pointers[..])
    }

    ghost predicate Valid()
      reads this, slots, pointers
    {
      Permutation() && Stocked(slots[..], free)
    }

    predicate Used(k: nat)
      requires k < slots.Length
      reads this, slots
    {
      slots[k].i >= free
    }

    // _mbt_create followed by ylmp_clean_block on every block
    constructor (size: nat)
      ensures Valid() && fresh(slots) && fresh(pointers)
      ensures slots.Length == size
      ensures forall k :: 0 <= k < size ==> !Used(k)
    {
      slots := new Slot[size](k => Slot(k, false, Clean));
      pointers := new nat[size](k => k);
      free := size;
      staticMarks := {};
    }

    // ylmp_block: hand out a free block, if there is one, in the clean state.
    method Allocate() returns (ok: bool, k: nat)
      requires Valid()
      modifies this`free, slots
      ensures Valid()
      ensures ok == (old(free) > 0)
      ensures !ok ==> free == old(free) && slots[..] == old(slots[..])
      ensures ok ==> k < slots.Length && !old(Used(k)) && Used(k)
      ensures ok ==> free == old(free) - 1 && slots[k].i == old(slots[k].i)
      ensures ok ==> slots[k].body == Clean && !slots[k].marked
      ensures forall j :: 0 <= j < slots.Length && (!ok || j != k) ==>
                            slots[j] == old(slots[j]) && Used(j) == old(Used(j))
    {
      if free <= 0 {
        return false, 0;
      }
      free := free - 1;
      k := pointers[free];
      slots[k] := slots[k].(marked := false, body := Clean);
      ok := true;
    }

    // _mbt_put: exchange the block with the first used one, and move the split up.
    method Put(b: nat)
      requires Permutation() && b < slots.Length && Used(b)
      modifies this`free, slots, pointers
      ensures free == old(free) + 1
      ensures var c := old(pointers[free]);
              slots[..] == Exchanged(old(slots[..]), b, c) &&
              pointers[..] == old(pointers[..])[old(free) := b][old(slots[b].i) := c]
    {
      var c := pointers[free];
      var ib, ic := slots[b].i, slots[c].i;
      slots[b] := slots[b].(i := ic);
      slots[c] := slots[c].(i := ib);
      if b == c { slots[b] := slots[b].(i := ib); }
      pointers[slots[b].i] := b;
      pointers[slots[c].i] := c;
      free := free + 1;
    }

    // _clean_block: yleclean, then _mbt_put.
    method Release(b: nat)
      requires Valid()
      requires b < slots.Length && Used(b)
      modifies this`free, slots, pointers
      ensures Valid()
      ensures free == old(free) + 1
      ensures !Used(b)
      ensures forall k :: 0 <= k < slots.Length && k != b ==> Used(k) == old(Used(k))
      ensures forall k :: 0 <= k < slots.Length && k != b ==>
                slots[k].marked == old(slots[k].marked) && slots[k].body == old(slots[k].body)
      ensures slots[b].body == Clean && !slots[b].marked
      ensures slots[..] == Exchanged(Cleaned(old(slots[..]), b), b, old(pointers[free]))
      ensures pointers[..] == old(pointers[..])[old(free) := b][old(slots[b].i) := old(pointers[free])]
    {
      hide Exchanged, Arranged, Stocked;
      ghost var s, p, n := slots[..], pointers[..], free;
      CleanedArranged(s, p, b);
      ReleaseFrees(s, p, n, b);
      slots[b] := slots[b].(marked := false, body := Clean);
      assert slots[..] == Cleaned(s, b);
      CleanedArranged(s, p, b);
      Put(b);
    }

    // _gcmark: depth-first over a graph that may share and cycle.
    method Mark(e: Ref, ghost open: set<nat>)
      requires Valid() && InPool([e], slots.Length)
      requires MarksClosed(slots[..], open)
      modifies slots, this`staticMarks
      ensures Valid()
      ensures MarkedFrom(old(slots[..]), slots[..], Targets([e]))
      ensures MarksClosed(slots[..], open)
      decreases Unmarked(slots[..]), 0
    {
      hide Arranged, Stocked, MarksClosed, MarkedFrom;
      match e
      case Null =>
        assert Targets([e]) == {};
        AlreadyMarked(slots[..], {});
      case Predefined(id) =>
        assert Targets([e]) == {};
        AlreadyMarked(slots[..], {});
        staticMarks := staticMarks + {id};
        assert slots[..] == old(slots[..]);
      case Block(k) =>
        assert Targets([e]) == {k} by { assert e in [e]; }
        if !slots[k].marked {
          ghost var s := slots[..];
          MarkKeeps(s, pointers[..], free, k, true);
          slots[k] := slots[k].(marked := true);
          ghost var t := s[k := s[k].(marked := true)];
          assert slots[..] == t;
          ChildrenInPool(s, free, k);
          assert slots[k].body == s[k].body;
          MarkOneClosed(s, t, open, k);
          assert Unmarked(t) < Unmarked(s) by { assert k in Unmarked(s) && k !in Unmarked(t); }
          match slots[k].body {
            case Clean =>
              AlreadyMarked(t, {});
            case Pair(car, cdr) =>
              MarkEach([car, cdr], open + {k});
            case Atom(_, refs) =>
              MarkEach(refs, open + {k});
          }
          MarkedFromParent(s, t, slots[..], k);
          CloseParent(t, slots[..], open, k);
        } else {
          assert k in Marked(slots[..]);
          AlreadyMarked(slots[..], {k});
        }
    }

    // A block being visited is open until its children are marked.
    lemma MarkOneClosed(s: seq<Slot>, t: seq<Slot>, open: set<nat>, k: nat)
      requires k < |s| && t == s[k := s[k].(marked := true)]
      requires MarksClosed(s, open)
      ensures MarksClosed(t, open + {k})
    {
      assert Marked(s) <= Marked(t);
    }

    lemma MoreMarksLessUnmarked(s: seq<Slot>, t: seq<Slot>)
      requires |s| == |t| && Marked(s) <= Marked(t)
      ensures Unmarked(t) <= Unmarked(s)
    {
      forall j | j in Unmarked(t) ensures j in Unmarked(s) { assert j !in Marked(t); }
    }

    lemma CloseParent(t: seq<Slot>, u: seq<Slot>, open: set<nat>, k: nat)
      requires k < |t| && MarkedFrom(t, u, Children(t[k].body)) && MarksClosed(u, open + {k})
      ensures MarksClosed(u, open)
    {}

    lemma AlreadyMarked(s: seq<Slot>, from: set<nat>)
      requires from <= Marked(s)
      ensures MarkedFrom(s, s, from)
    {}

    // Mark every reference of a list in turn.
    method MarkEach(rs: seq<Ref>, ghost open: set<nat>)
      requires Valid() && InPool(rs, slots.Length)
      requires MarksClosed(slots[..], open)
      modifies slots, this`staticMarks
      ensures Valid()
      ensures MarkedFrom(old(slots[..]), slots[..], Targets(rs))
      ensures MarksClosed(slots[..], open)
      decreases Unmarked(slots[..]), 1
    {
      ghost var s := slots[..];
      AlreadyMarked(s, {});
      var n := 0;
      assert Targets(rs[..0]) == {};
      while n < |rs|
        invariant 0 <= n <= |rs|
        invariant Valid()
        invariant MarkedFrom(s, slots[..], Targets(rs[..n]))
        invariant MarksClosed(slots[..], open)
        modifies slots, this`staticMarks
      {
        ghost var t := slots[..];
        MoreMarksLessUnmarked(s, t);
        assert rs[n] in rs;
        Mark(rs[n], open);
        MarkedFromCompose(s, t, slots[..], Targets(rs[..n]), Targets([rs[n]]));
        assert rs[..n + 1] == rs[..n] + [rs[n]];
        assert Targets(rs[..n + 1]) == Targets(rs[..n]) + Targets([rs[n]]);
        n := n + 1;
      }
      assert rs[..n] == rs;
    }

    method ClearMarks()
      requires Valid()
      modifies slots
      ensures Valid() && SameButMarks(old(slots[..]), slots[..])
      ensures forall k :: 0 <= k < slots.Length && Used(k) ==> !slots[k].marked
      ensures forall k :: 0 <= k < slots.Length && !Used(k) ==> slots[k] == old(slots[k])
    {
      hide Arranged, Stocked, SameButMarks, Cleared;
      ghost var s, p := slots[..], pointers[..];
      SameSize(s, p);
      NothingCleared(s, free);
      var i := free;
      while i < pointers.Length
        invariant free <= i <= pointers.Length && Valid() && Cleared(s, slots[..], free, i)
      {
        InTable(slots[..], pointers[..], i);
        var e := pointers[i];
        ghost var t := slots[..];
        MarkKeeps(t, pointers[..], free, e, false);
        ClearOne(s, t, pointers[..], free, i);
        slots[e] := slots[e].(marked := false);
        assert slots[..] == t[e := t[e].(marked := false)];
        i := i + 1;
      }
      SameSize(slots[..], pointers[..]);
      AllCleared(s, slots[..], pointers[..], free);
    }

    // Reclaim every used block without a mark. `_mbt_put` permutes the very table
    // that is being walked: [lo, free) is reclaimed, [free, i) has survived, [i, size)
    // is as it was.
    method Sweep()
      requires Valid()
      modifies this`free, slots, pointers
      ensures Valid()
      ensures forall k :: 0 <= k < slots.Length ==>
                (Used(k) <==> old(Used(k)) && old(slots[k].marked))
      ensures forall k :: 0 <= k < slots.Length ==>
                slots[k].body == if Used(k) then old(slots[k].body) else Clean
      ensures SweepsTo(old(slots[..]), slots[..], old(free), free)
    {
      hide Arranged, Stocked, Swept, Exchanged, Cleaned;
      ghost var s, p, lo := slots[..], pointers[..], free;
      SameSize(s, p);
      SweptStart(s, p, lo);
      var i := free;
      while i < pointers.Length
        invariant Valid() && Swept(s, p, lo, slots[..], pointers[..], free, i)
        invariant lo <= free <= i <= pointers.Length
      {
        InTable(slots[..], pointers[..], i);
        var e := pointers[i];
        assert slots[..][e] == slots[e] && Used(e);
        if !slots[e].marked {
          SweptRelease(s, p, lo, slots[..], pointers[..], free, i);
          Release(e);
        } else {
          SweptSurvivor(s, p, lo, slots[..], pointers[..], free, i);
        }
        i := i + 1;
      }
      SameSize(slots[..], pointers[..]);
      SweptEnd(s, p, lo, slots[..], pointers[..], free);
      forall k | 0 <= k < slots.Length
        ensures Used(k) <==> old(Used(k)) && old(slots[k].marked)
        ensures slots[k].body == if Used(k) then old(slots[k].body) else Clean
      {
        assert slots[..][k] == slots[k] && s[k] == old(slots[k]);
      }
    }

    // The marking phase of _gc: base blocks, every thread's symbols, global symbols.
    method MarkRoots(bases: seq<Ref>, threads: seq<seq<Ref>>, globals: seq<Ref>)
      requires Valid() && InPool(bases, slots.Length) && InPool(globals, slots.Length)
      requires forall t :: t in threads ==> InPool(t, slots.Length)
      requires MarksClosed(slots[..], {})
      modifies slots, this`staticMarks
      ensures Valid()
      ensures MarkedFrom(old(slots[..]), slots[..], RootSet(bases, threads, globals))
      ensures MarksClosed(slots[..], {})
    {
      ghost var t, u := slots[..], slots[..];
      MarkEach(bases, {});
      var n := 0;
      ghost var done := Targets(bases);
      while n < |threads|
        invariant 0 <= n <= |threads|
        invariant Valid() && MarksClosed(slots[..], {})
        invariant done == RootSet(bases, threads[..n], [])
        invariant MarkedFrom(t, slots[..], done)
      {
        u := slots[..];
        assert threads[n] in threads;
        MarkEach(threads[n], {});
        MarkedFromCompose(t, u, slots[..], done, Targets(threads[n]));
        RootSetStep(bases, threads, n);
        done := done + Targets(threads[n]);
        n := n + 1;
      }
      assert threads[..n] == threads;
      u := slots[..];
      MarkEach(globals, {});
      MarkedFromCompose(t, u, slots[..], done, Targets(globals));
      assert RootSet(bases, threads, globals) == done + Targets(globals);
    }

    // _gc: clear, mark, sweep. A block is in use afterwards exactly when it was in use
    // and can be reached from a root; what survives keeps its contents.
    method Collect(bases: seq<Ref>, threads: seq<seq<Ref>>, globals: seq<Ref>)
      requires Valid() && InPool(bases, slots.Length) && InPool(globals, slots.Length)
      requires forall t :: t in threads ==> InPool(t, slots.Length)
      modifies this, slots, pointers
      ensures Valid()
      ensures forall k :: 0 <= k < slots.Length ==>
                (Used(k) <==>
                 old(Used(k)) && Reachable(old(GraphOf(slots[..])), RootSet(bases, threads, globals), k))
      ensures forall k :: 0 <= k < slots.Length ==>
                slots[k].body == if Used(k) then old(slots[k].body) else Clean
      ensures CollectsTo(old(slots[..]), slots[..], old(free), free, RootSet(bases, threads, globals))
      ensures KeepsReferred(old(slots[..]), slots[..], old(free), free)
      ensures KeepsRoots(old(slots[..]), slots[..], old(free), free, bases)
      ensures KeepsRoots(old(slots[..]), slots[..], old(free), free, globals)
      ensures forall t :: t in threads ==> KeepsRoots(old(slots[..]), slots[..], old(free), free, t)
      ensures KeepsNoMore(old(slots[..]), slots[..], free, bases, threads, globals)
      ensures Sound(old(slots[..]), old(free), RootSet(bases, threads, globals)) ==>
                Sound(slots[..], free, RootSet(bases, threads, globals))
    {
      hide Arranged, Stocked, MarksClosed, MarkedFrom, Sound, RootSet, GraphOf, Reachable, SweepsTo, SameButMarks;
      hide KeepsReferred, KeepsRoots, KeepsNoMore;
      ghost var s, lo, roots := slots[..], free, RootSet(bases, threads, globals);
      ClearMarks();
      ghost var t := slots[..];
      assert forall k :: 0 <= k < |t| && t[k].i >= free ==> !t[k].marked by {
        assert forall k :: 0 <= k < slots.Length ==> t[k] == slots[k];
      }
      ClearedIsClosed(t, free);
      MarkRoots(bases, threads, globals);
      ghost var u := slots[..];
      Sweep();
      PhasesCollect(s, t, u, slots[..], lo, free, roots);
      ReferredSurvive(s, slots[..], lo, free, roots);
      AllRootsSurvive(s, slots[..], lo, free, bases, threads, globals);
      NoMoreSurvive(s, slots[..], lo, free, bases, threads, globals);
      if Sound(s, lo, roots) {
        ReachedStaysSound(s, lo, slots[..], free, roots);
      }
      forall k | 0 <= k < slots.Length
        ensures Used(k) <==> old(Used(k)) && Reachable(old(GraphOf(slots[..])), roots, k)
        ensures slots[k].body == if Used(k) then old(slots[k].body) else Clean
      {
        assert slots[..][k] == slots[k] && s[k] == old(slots[k]);
      }
    }
  }

  ghost function RootSet(bases: seq<Ref>, threads: seq<seq<Ref>>, globals: seq<Ref>): set<nat> {
    Targets(bases) + (set t, k | t in threads && k in Targets(t) :: k) + Targets(globals)
  }

  lemma RootSetStep(bases: seq<Ref>, threads: seq<seq<Ref>>, n: nat)
    requires n < |threads|
    ensures RootSet(bases, threads[..n + 1], []) == RootSet(bases, threads[..n], []) + Targets(threads[n])
  {
    assert threads[..n + 1] == threads[..n] + [threads[n]];
  }

  // No dangling reference: the roots and the blocks in use (those whose pointer lies at
  // `lo` or above) lead to blocks in use only.
  ghost predicate Sound(s: seq<Slot>, lo: nat, roots: set<nat>) {
    && (forall r :: r in roots ==> r < |s| && s[r].i >= lo)
    && (forall k: nat, c: nat :: Names(s, k, c) && s[k].i >= lo ==> c < |s| && s[c].i >= lo)
  }

  lemma ReachedStaysSound(s: seq<Slot>, lo: nat, u: seq<Slot>, hi: nat, roots: set<nat>)
    requires |s| == |u| && Sound(s, lo, roots)
    requires forall k :: 0 <= k < |s| ==>
               (u[k].i >= hi <==> s[k].i >= lo && Reachable(GraphOf(s), roots, k))
    requires forall k :: 0 <= k < |s| && u[k].i >= hi ==> u[k].body == s[k].body
    ensures Sound(u, hi, roots)
  {
    var g := GraphOf(s);
    forall r | r in roots ensures r < |u| && u[r].i >= hi { ReachableRoot(g, roots, r); }
    forall k: nat, c: nat | Names(u, k, c) && u[k].i >= hi
      ensures c < |u| && u[c].i >= hi
    {
      assert Names(s, k, c);
      assert Edge(g, k, c);
      ReachableStep(g, roots, k, c);
    }
  }

  // After marking, on used blocks a mark means exactly: reachable from the roots.
  lemma MarkedIsReachable(t: seq<Slot>, u: seq<Slot>, roots: set<nat>)
    requires MarkedFrom(t, u, roots) && MarksClosed(u, {})
    ensures forall k :: 0 <= k < |u| && !t[k].marked ==>
              (u[k].marked <==> Reachable(GraphOf(t), roots, k))
  {
    SameGraph(t, u);
    var g := GraphOf(t);
    forall y, x | y in Marked(u) && Edge(g, y, x) ensures x in Marked(u) { assert Names(u, y, x); }
    ReachableLeast(g, roots, Marked(u));
    forall k | 0 <= k < |u| && !t[k].marked
      ensures u[k].marked <==> Reachable(g, roots, k)
    {
      assert u[k].marked <==> k in Marked(u);
    }
  }
}
