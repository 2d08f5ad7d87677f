// Macro expansion: cloning the body and replacing in place, against the pure sublis.
module Macro {
  import opened Wrappers

  type Ref = nat

  const NIL: Ref := 0

  datatype Cell<+A> = Atom(a: A) | Pair(car: Ref, cdr: Ref)

  type Cells<A> = map<Ref, Cell<A>>

  // ---------------------------------------------------------------- terms

  // A term in the heap: its own pairs, with their addresses, down to references that
  // belong to somebody else.
  datatype Tree = Leaf(ref: Ref) | Node(at: Ref, l: Tree, r: Tree)

  // The same without the addresses.
  datatype Term = Opaque(ref: Ref) | Cons(l: Term, r: Term)

  ghost function Erase(t: Tree): Term {
    match t
    case Leaf(x) => Opaque(x)
    case Node(_, l, r) => Cons(Erase(l), Erase(r))
  }

  ghost function Nodes(t: Tree): set<Ref> {
    match t
    case Leaf(_) => {}
    case Node(at, l, r) => {at} + Nodes(l) + Nodes(r)
  }

  // No pair is used twice.
  ghost predicate Unshared(t: Tree) {
    match t
    case Leaf(_) => true
    case Node(at, l, r) =>
      at !in Nodes(l) + Nodes(r) && Nodes(l) !! Nodes(r) && Unshared(l) && Unshared(r)
  }

  ghost predicate IsAt<A>(cells: Cells<A>, e: Ref, t: Tree)
    decreases t
  {
    match t
    case Leaf(x) => e == x
    case Node(at, l, r) =>
      e == at && at in cells && cells[at].Pair? &&
      IsAt(cells, cells[at].car, l) && IsAt(cells, cells[at].cdr, r)
  }

  ghost predicate AtomLeaves<A>(cells: Cells<A>, t: Tree) {
    match t
    case Leaf(x) => x in cells && cells[x].Atom?
    case Node(_, l, r) => AtomLeaves(cells, l) && AtomLeaves(cells, r)
  }

  // Atoms are never written, and a pair stays a pair.
  ghost predicate Grown<A>(before: Cells<A>, after: Cells<A>) {
    forall r :: r in before ==>
      r in after && (before[r].Atom? ==> after[r] == before[r]) && (before[r].Pair? ==> after[r].Pair?)
  }

  ghost predicate SameOn<A>(before: Cells<A>, after: Cells<A>, rs: set<Ref>) {
    forall r :: r in rs && r in before ==> r in after && after[r] == before[r]
  }

  lemma {:induction false} StillAt<A>(cells: Cells<A>, cells': Cells<A>, e: Ref, t: Tree)
    requires IsAt(cells, e, t) && SameOn(cells, cells', Nodes(t))
    ensures IsAt(cells', e, t)
    decreases t
  {
    if t.Node? {
      assert t.at in Nodes(t);
      StillAt(cells, cells', cells[t.at].car, t.l);
      StillAt(cells, cells', cells[t.at].cdr, t.r);
    }
  }

  lemma {:induction false} StillAtoms<A>(cells: Cells<A>, cells': Cells<A>, t: Tree)
    requires AtomLeaves(cells, t) && Grown(cells, cells')
    ensures AtomLeaves(cells', t)
  {
    if t.Node? {
      StillAtoms(cells, cells', t.l);
      StillAtoms(cells, cells', t.r);
    }
  }

  // Only the pairs in `ws` are written.
  ghost predicate WritesOnly<A>(before: Cells<A>, after: Cells<A>, ws: set<Ref>) {
    after.Keys == before.Keys && Grown(before, after) && SameOn(before, after, before.Keys - ws)
  }

  lemma WriteOne<A>(cells: Cells<A>, e: Ref, p: Cell<A>)
    requires e in cells && cells[e].Pair? && p.Pair?
    ensures WritesOnly(cells, cells[e := p], {e})
  {}

  // ---------------------------------------------------------------- substitution

  // yleq of any reference and an atom
  predicate EqAtom<A>(eq: (A, A) -> bool, cells: Cells<A>, u: Ref, x: Ref) {
    u == x || (u in cells && x in cells && cells[u].Atom? && cells[x].Atom? && eq(cells[u].a, cells[x].a))
  }

  // __ylsub2: the partner of the first match, or x itself.
  ghost function Sub2<A>(eq: (A, A) -> bool, cells: Cells<A>, al: seq<(Ref, Ref)>, x: Ref): Ref {
    if al == [] then x
    else if EqAtom(eq, cells, al[0].0, x) then al[0].1
    else Sub2(eq, cells, al[1..], x)
  }

  // ylsublis on a term: every atom of the term is looked up at once, and what is put in
  // is not looked at again.
  ghost function Sublis<A>(eq: (A, A) -> bool, cells: Cells<A>, al: seq<(Ref, Ref)>, t: Term): Term {
    match t
    case Opaque(x) => Opaque(Sub2(eq, cells, al, x))
    case Cons(l, r) => Cons(Sublis(eq, cells, al, l), Sublis(eq, cells, al, r))
  }

  // The same, keeping the pairs where they are.
  ghost function Replaced<A>(eq: (A, A) -> bool, cells: Cells<A>, al: seq<(Ref, Ref)>, t: Tree): (t': Tree)
    ensures Nodes(t') == Nodes(t)
    ensures Erase(t') == Sublis(eq, cells, al, Erase(t))
    ensures Unshared(t) ==> Unshared(t')
  {
    match t
    case Leaf(x) => Leaf(Sub2(eq, cells, al, x))
    case Node(at, l, r) => Node(at, Replaced(eq, cells, al, l), Replaced(eq, cells, al, r))
  }

  // The keys of the list are in the heap.
  ghost predicate KeysIn<A>(cells: Cells<A>, al: seq<(Ref, Ref)>) {
    forall i :: 0 <= i < |al| ==> al[i].0 in cells
  }

  lemma {:induction false} Sub2Stable<A>(eq: (A, A) -> bool, cells: Cells<A>, cells': Cells<A>,
      al: seq<(Ref, Ref)>, x: Ref)
    requires Grown(cells, cells') && KeysIn(cells, al) && x in cells
    ensures Sub2(eq, cells', al, x) == Sub2(eq, cells, al, x)
  {
    if al != [] {
      assert al[0].0 in cells;
      Sub2Stable(eq, cells, cells', al[1..], x);
    }
  }

  lemma {:induction false} ReplacedStable<A>(eq: (A, A) -> bool, cells: Cells<A>, cells': Cells<A>,
      al: seq<(Ref, Ref)>, t: Tree)
    requires Grown(cells, cells') && KeysIn(cells, al) && AtomLeaves(cells, t)
    ensures Replaced(eq, cells', al, t) == Replaced(eq, cells, al, t)
  {
    match t
    case Leaf(x) => Sub2Stable(eq, cells, cells', al, x);
    case Node(_, l, r) =>
      ReplacedStable(eq, cells, cells', al, l);
      ReplacedStable(eq, cells, cells', al, r);
  }

  lemma SublisStable<A>(eq: (A, A) -> bool, cells: Cells<A>, cells': Cells<A>, al: seq<(Ref, Ref)>, t: Tree)
    requires Grown(cells, cells') && KeysIn(cells, al) && AtomLeaves(cells, t)
    ensures Sublis(eq, cells', al, Erase(t)) == Sublis(eq, cells, al, Erase(t))
  {
    ReplacedStable(eq, cells, cells', al, t);
    assert Erase(Replaced(eq, cells, al, t)) == Sublis(eq, cells, al, Erase(t));
    assert Erase(Replaced(eq, cells', al, t)) == Sublis(eq, cells', al, Erase(t));
  }

  // Parameters with their arguments.
  ghost function Zip(us: seq<Ref>, vs: seq<Ref>): seq<(Ref, Ref)>
    requires |us| == |vs|
  {
    seq(|us|, i requires 0 <= i < |us| => (us[i], vs[i]))
  }

  lemma KeysOfZip<A>(cells: Cells<A>, us: seq<Ref>, vs: seq<Ref>)
    requires |us| == |vs| && forall u :: u in us ==> u in cells
    ensures KeysIn(cells, Zip(us, vs))
  {}

  // What counts as the same atom: the same cell, or two atoms that `eq` accepts.
  predicate Alike<A>(eq: (A, A) -> bool, cells: Cells<A>, u: Ref, x: Ref) {
    u == x || (u in cells && x in cells && cells[u].Atom? && cells[x].Atom? && eq(cells[u].a, cells[x].a))
  }

  // The i-th key is the first one that is like x.
  ghost predicate FirstAlike<A>(eq: (A, A) -> bool, cells: Cells<A>, al: seq<(Ref, Ref)>, x: Ref, i: nat) {
    i < |al| && Alike(eq, cells, al[i].0, x) && forall j :: 0 <= j < i ==> !Alike(eq, cells, al[j].0, x)
  }

  ghost predicate NoneAlike<A>(eq: (A, A) -> bool, cells: Cells<A>, al: seq<(Ref, Ref)>, x: Ref) {
    forall j :: 0 <= j < |al| ==> !Alike(eq, cells, al[j].0, x)
  }

  lemma AlikeIs<A>(eq: (A, A) -> bool, cells: Cells<A>, u: Ref, x: Ref)
    ensures EqAtom(eq, cells, u, x) <==> Alike(eq, cells, u, x)
  {}

  // Simultaneous first-match substitution, spelled out for one atom.
  lemma {:induction false} Sub2IsFirstMatch<A>(eq: (A, A) -> bool, cells: Cells<A>, al: seq<(Ref, Ref)>, x: Ref)
    ensures forall i: nat :: FirstAlike(eq, cells, al, x, i) ==> Sub2(eq, cells, al, x) == al[i].1
    ensures NoneAlike(eq, cells, al, x) ==> Sub2(eq, cells, al, x) == x
    ensures NoneAlike(eq, cells, al, x) || exists i: nat :: FirstAlike(eq, cells, al, x, i)
    decreases |al|
  {
    hide Alike, EqAtom;
    if al != [] {
      AlikeIs(eq, cells, al[0].0, x);
      if Alike(eq, cells, al[0].0, x) {
        assert FirstAlike(eq, cells, al, x, 0);
      } else {
        Sub2IsFirstMatch(eq, cells, al[1..], x);
        forall i: nat | FirstAlike(eq, cells, al, x, i)
          ensures i > 0 && FirstAlike(eq, cells, al[1..], x, i - 1)
        {
          forall j | 0 <= j < i - 1 ensures !Alike(eq, cells, al[1..][j].0, x) {
            assert !Alike(eq, cells, al[j + 1].0, x);
          }
        }
        if i: nat :| FirstAlike(eq, cells, al[1..], x, i) {
          forall j | 0 <= j < i + 1 ensures !Alike(eq, cells, al[j].0, x) {
            if j > 0 { assert !Alike(eq, cells, al[1..][j - 1].0, x); }
          }
          assert FirstAlike(eq, cells, al, x, i + 1);
        } else {
          assert forall j :: 0 < j < |al| ==> al[j] == al[1..][j - 1];
        }
      }
    }
  }

  // c is t with every atom replaced: by the argument of the first parameter it is like, or
  // by itself.
  ghost predicate Instance<A>(eq: (A, A) -> bool, cells: Cells<A>, us: seq<Ref>, vs: seq<Ref>, t: Tree, c: Tree)
    requires |us| == |vs|
  {
    match t
    case Leaf(x) => c.Leaf? && Becomes(eq, cells, us, vs, x, c.ref)
    case Node(_, l, r) => c.Node? && Instance(eq, cells, us, vs, l, c.l) && Instance(eq, cells, us, vs, r, c.r)
  }

  ghost predicate Becomes<A>(eq: (A, A) -> bool, cells: Cells<A>, us: seq<Ref>, vs: seq<Ref>, x: Ref, y: Ref)
    requires |us| == |vs|
  {
    && (forall i | 0 <= i < |us| && (forall j :: 0 <= j < i ==> !Alike(eq, cells, us[j], x)) ::
          Alike(eq, cells, us[i], x) ==> y == vs[i])
    && ((forall i :: 0 <= i < |us| ==> !Alike(eq, cells, us[i], x)) ==> y == x)
  }

  lemma LeafBecomes<A>(eq: (A, A) -> bool, cells: Cells<A>, us: seq<Ref>, vs: seq<Ref>, x: Ref)
    requires |us| == |vs|
    ensures Becomes(eq, cells, us, vs, x, Sub2(eq, cells, Zip(us, vs), x))
  {
    hide Alike, Sub2;
    var al := Zip(us, vs);
    Sub2IsFirstMatch(eq, cells, al, x);
    assert forall i :: 0 <= i < |us| ==> al[i].0 == us[i] && al[i].1 == vs[i];
    forall i | 0 <= i < |us| && Alike(eq, cells, us[i], x) && (forall j :: 0 <= j < i ==> !Alike(eq, cells, us[j], x))
      ensures Sub2(eq, cells, al, x) == vs[i]
    {
      assert FirstAlike(eq, cells, al, x, i);
    }
  }

  lemma {:induction false} SublisInstance<A>(eq: (A, A) -> bool, cells: Cells<A>, us: seq<Ref>, vs: seq<Ref>, t: Tree,
      c: Tree)
    requires |us| == |vs| && Erase(c) == Sublis(eq, cells, Zip(us, vs), Erase(t))
    ensures Instance(eq, cells, us, vs, t, c)
    decreases t
  {
    hide Becomes, Sub2, Zip;
    match t
    case Leaf(x) => LeafBecomes(eq, cells, us, vs, x);
    case Node(_, l, r) =>
      SublisInstance(eq, cells, us, vs, l, c.l);
      SublisInstance(eq, cells, us, vs, r, c.r);
  }

  // Where a path of cars (false) and cdrs (true) leads
  ghost function LeafAt(t: Tree, path: seq<bool>): Option<Ref> {
    match t
    case Leaf(x) => if path == [] then Some(x) else None
    case Node(_, l, r) => if path == [] then None else LeafAt(if path[0] then r else l, path[1..])
  }

  // One leaf of an instance, wherever it is: two atoms that `eq` accepts are enough, though
  // they are different cells.
  lemma {:induction false} InstanceLeaf<A>(eq: (A, A) -> bool, cells: Cells<A>, us: seq<Ref>, vs: seq<Ref>, t: Tree,
      c: Tree, path: seq<bool>, x: Ref)
    requires |us| == |vs| && Instance(eq, cells, us, vs, t, c) && LeafAt(t, path) == Some(x)
    ensures forall i | 0 <= i < |us| && (forall j :: 0 <= j < i ==> !Alike(eq, cells, us[j], x)) ::
              us[i] in cells && cells[us[i]].Atom? && x in cells && cells[x].Atom? && eq(cells[us[i]].a, cells[x].a) ==>
                LeafAt(c, path) == Some(vs[i])
    ensures (forall j :: 0 <= j < |us| ==> !Alike(eq, cells, us[j], x)) ==> LeafAt(c, path) == Some(x)
    decreases path
  {
    if path != [] {
      InstanceLeaf(eq, cells, us, vs, if path[0] then t.r else t.l, if path[0] then c.r else c.l, path[1..], x);
    }
  }

  // ---------------------------------------------------------------- lists in the heap

  // A chain of pairs holding xs, up to the atom e.
  ghost predicate Chain<A>(cells: Cells<A>, p: Ref, xs: seq<Ref>, e: Ref)
    decreases |xs|
  {
    if xs == [] then p == e && e in cells && cells[e].Atom?
    else p in cells && cells[p].Pair? && cells[p].car == xs[0] && Chain(cells, cells[p].cdr, xs[1..], e)
  }

  // The list (u v)
  ghost predicate IsBinding<A>(cells: Cells<A>, b: Ref, u: Ref, v: Ref, own: set<Ref>) {
    && b in own && b in cells && cells[b].Pair? && cells[b].car == u
    && cells[b].cdr in own && cells[b].cdr in cells && cells[cells[b].cdr] == Pair(v, NIL)
  }

  // The list ((u1 v1) ... (uN vN)), built of the pairs in `own`.
  ghost predicate Assoc<A>(cells: Cells<A>, y: Ref, al: seq<(Ref, Ref)>, own: set<Ref>)
    decreases |al|
  {
    if al == [] then y == NIL && NIL in cells && cells[NIL].Atom?
    else
      && y in own && y in cells && cells[y].Pair?
      && IsBinding(cells, cells[y].car, al[0].0, al[0].1, own)
      && Assoc(cells, cells[y].cdr, al[1..], own)
  }

  lemma {:induction false} StillAssoc<A>(cells: Cells<A>, cells': Cells<A>, y: Ref, al: seq<(Ref, Ref)>, own: set<Ref>)
    requires Assoc(cells, y, al, own) && SameOn(cells, cells', own) && Grown(cells, cells')
    ensures Assoc(cells', y, al, own)
    decreases |al|
  {
    if al != [] { StillAssoc(cells, cells', cells[y].cdr, al[1..], own); }
  }

  lemma {:induction false} StillChain<A>(cells: Cells<A>, cells': Cells<A>, p: Ref, xs: seq<Ref>, e: Ref)
    requires Chain(cells, p, xs, e) && SameOn(cells, cells', cells.Keys)
    ensures Chain(cells', p, xs, e)
    decreases |xs|
  {
    if xs != [] { StillChain(cells, cells', cells[p].cdr, xs[1..], e); }
  }

  lemma {:induction false} AssocGrows<A>(cells: Cells<A>, y: Ref, al: seq<(Ref, Ref)>, own: set<Ref>, own': set<Ref>)
    requires Assoc(cells, y, al, own) && own <= own'
    ensures Assoc(cells, y, al, own')
    decreases |al|
  {
    if al != [] { AssocGrows(cells, cells[y].cdr, al[1..], own, own'); }
  }

  // ---------------------------------------------------------------- appending

  ghost predicate ProperList(t: Tree) {
    t.Node? && (t.r == Leaf(NIL) || ProperList(t.r))
  }

  // Being a proper list, or an atom, does not depend on where the pairs are.
  lemma {:induction false} SameErasure(t: Tree, c: Tree)
    requires Erase(t) == Erase(c)
    ensures ProperList(t) <==> ProperList(c)
    ensures t.Leaf? <==> c.Leaf?
  {
    if t.Node? { SameErasure(t.r, c.r); }
  }

  ghost function LastPair(t: Tree): Ref
    requires ProperList(t)
  {
    if t.r == Leaf(NIL) then t.at else LastPair(t.r)
  }

  // The list with `args` in the place of its final NIL.
  ghost function Appended(t: Term, args: Ref): Term {
    match t
    case Opaque(x) => Opaque(args)
    case Cons(l, r) => Cons(l, Appended(r, args))
  }

  ghost function WithTail(t: Tree, args: Ref): (t': Tree)
    requires ProperList(t)
    ensures Erase(t') == Appended(Erase(t), args)
  {
    Node(t.at, t.l, if t.r == Leaf(NIL) then Leaf(args) else WithTail(t.r, args))
  }

  lemma {:induction false} LastPairIn(t: Tree)
    requires ProperList(t)
    ensures LastPair(t) in Nodes(t)
  {
    if t.r != Leaf(NIL) { LastPairIn(t.r); }
  }

  lemma {:induction false} TailWritten<A>(cells: Cells<A>, cells': Cells<A>, e: Ref, t: Tree, args: Ref)
    requires IsAt(cells, e, t) && Unshared(t) && ProperList(t) && LastPair(t) in cells && cells[LastPair(t)].Pair?
    requires cells' == cells[LastPair(t) := Pair(cells[LastPair(t)].car, args)]
    ensures IsAt(cells', e, WithTail(t, args))
    decreases t
  {
    if t.r == Leaf(NIL) {
      StillAt(cells, cells', cells[t.at].car, t.l);
    } else {
      LastPairIn(t.r);
      StillAt(cells, cells', cells[t.at].car, t.l);
      TailWritten(cells, cells', cells[t.at].cdr, t.r, args);
    }
  }

  // ---------------------------------------------------------------- the interpreter

  class Heap<A> {
    const eq: (A, A) -> bool
    var cells: Cells<A>
    var next: Ref

    ghost predicate Valid()
      reads this
    {
      NIL in cells && cells[NIL].Atom? && forall r :: r in cells ==> r < next
    }

    // ylcons
    method NewPair(car: Ref, cdr: Ref) returns (r: Ref)
      requires Valid()
      modifies this
      ensures Valid() && r !in old(cells) && cells == old(cells)[r := Pair(car, cdr)]
      ensures SameOn(old(cells), cells, old(cells.Keys))
    {
      r := next;
      cells := cells[r := Pair(car, cdr)];
      next := next + 1;
    }

    // What is there stays when the heap only grows.
    lemma CloneKept(c0: Cells<A>, c1: Cells<A>, e: Ref, t: Tree)
      requires IsAt(c0, e, t) && AtomLeaves(c0, t) && SameOn(c0, c1, c0.Keys)
      ensures IsAt(c1, e, t) && AtomLeaves(c1, t)
    {
      StillAt(c0, c1, e, t);
      StillAtoms(c0, c1, t);
    }

    // _list_clone: copies the pairs, not the atoms.
    method ListClone(e: Ref, ghost t: Tree) returns (r: Ref, ghost c: Tree)
      requires Valid() && IsAt(cells, e, t) && AtomLeaves(cells, t)
      modifies this
      ensures Valid() && SameOn(old(cells), cells, old(cells.Keys))
      ensures IsAt(cells, r, c) && Unshared(c) && AtomLeaves(cells, c) && Erase(c) == Erase(t)
      ensures Nodes(c) !! old(cells.Keys) && Nodes(c) <= cells.Keys
      decreases t
    {
      if cells[e].Atom? {
        return e, t;
      }
      ghost var was := cells;
      var a, ca := ListClone(cells[e].car, t.l);
      CloneKept(was, cells, was[e].cdr, t.r);
      ghost var mid := cells;
      var d, cd := ListClone(cells[e].cdr, t.r);
      ghost var end := cells;
      r := NewPair(a, d);
      c := Node(r, ca, cd);
      CloneKept(mid, cells, a, ca);
      CloneKept(end, cells, d, cd);
    }

    // _list_find
    method ListFind(x: Ref, y: Ref, ghost al: seq<(Ref, Ref)>, ghost own: set<Ref>) returns (n: Option<Ref>)
      requires Valid() && Assoc(cells, y, al, own) && x in cells && cells[x].Atom? && KeysIn(cells, al)
      ensures n.None? ==> Sub2(eq, cells, al, x) == x && NoneAlike(eq, cells, al, x)
      ensures n.Some? ==> exists i: nat :: FirstAlike(eq, cells, al, x, i)
      ensures n.Some? ==> n.value in cells && cells[n.value].Pair? && cells[n.value].cdr in cells &&
                          cells[cells[n.value].cdr] == Pair(Sub2(eq, cells, al, x), NIL)
      decreases |al|
    {
      if cells[y].Atom? || cells[cells[y].car].Atom? {
        return None;
      }
      Sub2IsFirstMatch(eq, cells, al, x);
      var u := cells[cells[y].car].car;
      assert u == al[0].0 && u in cells;
      AlikeIs(eq, cells, u, x);
      if EqAtom(eq, cells, u, x) {
        assert FirstAlike(eq, cells, al, x, 0);
        return Some(cells[y].car);
      }
      n := ListFind(x, cells[y].cdr, al[1..], own);
    }

    // _mreplace: the pairs of e are overwritten in place, and nothing else is.
    method Replace(e: Ref, a: Ref, ghost t: Tree, ghost al: seq<(Ref, Ref)>, ghost own: set<Ref>) returns (r: int)
      requires Valid() && IsAt(cells, e, t) && Unshared(t) && AtomLeaves(cells, t) && e in cells
      requires Assoc(cells, a, al, own) && KeysIn(cells, al) && own !! Nodes(t)
      modifies this`cells
      ensures Valid() && WritesOnly(old(cells), cells, Nodes(t))
      ensures r == if t.Leaf? then -1 else 0
      ensures t.Node? ==> IsAt(cells, e, Replaced(eq, old(cells), al, t))
      decreases t
    {
      hide KeysIn, Assoc, Erase, Sublis, EqAtom;
      if cells[e].Atom? {
        return -1;
      }
      ghost var c0 := cells;
      r := 0;
      if cells[cells[e].car].Atom? {
        var n := ListFind(cells[e].car, a, al, own);
        if n.Some? {
          WriteOne(cells, e, Pair(cells[cells[n.value].cdr].car, cells[e].cdr));
          cells := cells[e := Pair(cells[cells[n.value].cdr].car, cells[e].cdr)];
        }
      } else {
        r := Replace(cells[e].car, a, t.l, al, own);
      }
      if 0 > r {
        return -1;
      }
      FirstHalf(c0, cells, a, t, al, own);
      ghost var c1 := cells;
      if cells[cells[e].cdr].Atom? {
        var n := ListFind(cells[e].cdr, a, al, own);
        if n.Some? {
          WriteOne(cells, e, Pair(cells[e].car, cells[cells[n.value].cdr].car));
          cells := cells[e := Pair(cells[e].car, cells[cells[n.value].cdr].car)];
        }
      } else {
        r := Replace(cells[e].cdr, a, t.r, al, own);
      }
      SecondHalf(c0, c1, cells, t, al);
    }

    // After the car: it is replaced, and the cdr and the list are as they were.
    lemma FirstHalf(c0: Cells<A>, c1: Cells<A>, a: Ref, t: Tree, al: seq<(Ref, Ref)>, own: set<Ref>)
      requires t.Node? && IsAt(c0, t.at, t) && Unshared(t) && AtomLeaves(c0, t)
      requires Assoc(c0, a, al, own) && KeysIn(c0, al) && own !! Nodes(t)
      requires WritesOnly(c0, c1, {t.at}) || WritesOnly(c0, c1, Nodes(t.l))
      ensures t.at in c1 && c1[t.at].Pair? && WritesOnly(c0, c1, {t.at} + Nodes(t.l))
      ensures c1[t.at].cdr == c0[t.at].cdr ==> IsAt(c1, c1[t.at].cdr, t.r)
      ensures AtomLeaves(c1, t.r) && KeysIn(c1, al) && Assoc(c1, a, al, own)
      ensures Replaced(eq, c1, al, t.r) == Replaced(eq, c0, al, t.r)
    {
      hide Erase, Sublis, EqAtom;
      StillAt(c0, c1, c0[t.at].cdr, t.r);
      StillAtoms(c0, c1, t.r);
      StillAssoc(c0, c1, a, al, own);
      ReplacedStable(eq, c0, c1, al, t.r);
    }

    // After the cdr: both are replaced.
    lemma SecondHalf(c0: Cells<A>, c1: Cells<A>, c2: Cells<A>, t: Tree, al: seq<(Ref, Ref)>)
      requires t.Node? && Unshared(t) && WritesOnly(c0, c1, {t.at} + Nodes(t.l))
      requires t.at in c1 && c1[t.at].Pair? && IsAt(c1, c1[t.at].car, Replaced(eq, c0, al, t.l))
      requires WritesOnly(c1, c2, {t.at}) || WritesOnly(c1, c2, Nodes(t.r))
      requires t.at in c2 && c2[t.at].Pair? && c2[t.at].car == c1[t.at].car
      requires IsAt(c2, c2[t.at].cdr, Replaced(eq, c0, al, t.r))
      ensures WritesOnly(c0, c2, Nodes(t)) && IsAt(c2, t.at, Replaced(eq, c0, al, t))
    {
      hide Erase, Sublis, EqAtom;
      StillAt(c1, c2, c1[t.at].car, Replaced(eq, c0, al, t.l));
    }

    // __ylsub2
    method Substitute(x: Ref, z: Ref, ghost al: seq<(Ref, Ref)>, ghost own: set<Ref>) returns (r: Ref)
      requires Valid() && Assoc(cells, x, al, own) && z in cells && cells[z].Atom? && KeysIn(cells, al)
      ensures r == Sub2(eq, cells, al, z)
      ensures (NoneAlike(eq, cells, al, z) && r == z) ||
              exists i: nat :: FirstAlike(eq, cells, al, z, i) && r == al[i].1
      decreases |al|
    {
      Sub2IsFirstMatch(eq, cells, al, z);
      if x == NIL {
        return z;
      }
      var u := cells[cells[x].car].car;
      assert u == al[0].0 && u in cells;
      if EqAtom(eq, cells, u, z) {
        return cells[cells[cells[x].car].cdr].car;
      }
      r := Substitute(cells[x].cdr, z, al[1..], own);
    }

    // ylsublis: builds a new term.
    method SublisCopy(x: Ref, y: Ref, ghost t: Tree, ghost al: seq<(Ref, Ref)>, ghost own: set<Ref>)
      returns (r: Ref, ghost c: Tree)
      requires Valid() && IsAt(cells, y, t) && AtomLeaves(cells, t) && Assoc(cells, x, al, own) && KeysIn(cells, al)
      modifies this
      ensures Valid() && SameOn(old(cells), cells, old(cells.Keys))
      ensures IsAt(cells, r, c) && Erase(c) == Sublis(eq, old(cells), al, Erase(t))
      ensures Nodes(c) !! old(cells.Keys) && Nodes(c) <= cells.Keys
      decreases t
    {
      hide KeysIn, Assoc, EqAtom, Unshared, Replaced, Sub2, SameOn;
      if cells[y].Atom? {
        var z := Substitute(x, y, al, own);
        Unchanged(cells);
        return z, Leaf(z);
      }
      ghost var was := cells;
      var a, ca := SublisCopy(x, cells[y].car, t.l, al, own);
      assert cells[y] == was[y] by { Unchanged(cells); GrewThrice(was, cells, cells, cells); }
      Unaffected(was, cells, was[y].cdr, t.r, x, al, own);
      ghost var mid := cells;
      var d, cd := SublisCopy(x, cells[y].cdr, t.r, al, own);
      ghost var end := cells;
      r := NewPair(a, d);
      c := Node(r, ca, cd);
      Built(mid, end, cells, r, a, ca, d, cd);
      GrewThrice(was, mid, end, cells);
    }

    lemma Unchanged(c0: Cells<A>)
      ensures SameOn(c0, c0, c0.Keys)
    {}

    lemma GrewThrice(c0: Cells<A>, c1: Cells<A>, c2: Cells<A>, c3: Cells<A>)
      requires SameOn(c0, c1, c0.Keys) && SameOn(c1, c2, c1.Keys) && SameOn(c2, c3, c2.Keys)
      ensures SameOn(c0, c3, c0.Keys) && c0.Keys <= c1.Keys <= c2.Keys <= c3.Keys
      ensures forall p :: p in c0 ==> c1[p] == c0[p]
    {}

    // A new pair over two terms that are already there.
    lemma Built(c0: Cells<A>, c1: Cells<A>, c2: Cells<A>, r: Ref, a: Ref, ca: Tree, d: Ref, cd: Tree)
      requires IsAt(c0, a, ca) && SameOn(c0, c1, c0.Keys) && IsAt(c1, d, cd)
      requires r !in c1 && c2 == c1[r := Pair(a, d)] && Nodes(ca) <= c0.Keys && Nodes(cd) <= c1.Keys
      ensures IsAt(c2, r, Node(r, ca, cd))
    {
      StillAt(c0, c1, a, ca);
      StillAt(c1, c2, a, ca);
      StillAt(c1, c2, d, cd);
    }

    lemma Unaffected(c0: Cells<A>, c1: Cells<A>, e: Ref, t: Tree, a: Ref, al: seq<(Ref, Ref)>, own: set<Ref>)
      requires SameOn(c0, c1, c0.Keys) && IsAt(c0, e, t) && AtomLeaves(c0, t)
      requires Assoc(c0, a, al, own) && KeysIn(c0, al)
      ensures IsAt(c1, e, t) && AtomLeaves(c1, t) && Assoc(c1, a, al, own) && KeysIn(c1, al)
      ensures Sublis(eq, c1, al, Erase(t)) == Sublis(eq, c0, al, Erase(t))
    {
      hide EqAtom, Erase, Sublis;
      StillAt(c0, c1, e, t);
      StillAtoms(c0, c1, t);
      StillAssoc(c0, c1, a, al, own);
      SublisStable(eq, c0, c1, al, t);
    }

    lemma NothingBound(cs: Cells<A>, us: seq<Ref>, vs: seq<Ref>)
      requires us == [] && vs == [] && NIL in cs && cs[NIL].Atom?
      ensures Assoc(cs, NIL, Zip(us, vs), {})
    {}

    // ylpair: fails unless both lists end, properly, at the same length.
    method PairUp(x: Ref, y: Ref, ghost us: seq<Ref>, ghost eu: Ref, ghost vs: seq<Ref>, ghost ev: Ref)
      returns (r: Option<Ref>, ghost own: set<Ref>)
      requires Valid() && Chain(cells, x, us, eu) && Chain(cells, y, vs, ev)
      modifies this
      ensures Valid() && SameOn(old(cells), cells, old(cells.Keys)) && own !! old(cells.Keys) && own <= cells.Keys
      ensures r.Some? <==> |us| == |vs| && eu == NIL && ev == NIL
      ensures r.Some? ==> Assoc(cells, r.value, Zip(us, vs), own)
      decreases |us|
    {
      hide Assoc;
      own := {};
      if x == NIL && y == NIL {
        NothingBound(cells, us, vs);
        return Some(NIL), {};
      }
      if cells[x].Atom? || cells[y].Atom? {
        return None, {};
      }
      ghost var c0 := cells;
      var v := NewPair(cells[y].car, NIL);
      var b := NewPair(cells[x].car, v);
      StillChain(c0, cells, c0[x].cdr, us[1..], eu);
      StillChain(c0, cells, c0[y].cdr, vs[1..], ev);
      ghost var c1 := cells;
      r, own := PairUp(cells[x].cdr, cells[y].cdr, us[1..], eu, vs[1..], ev);
      if r.None? {
        return;
      }
      ghost var c2 := cells;
      var p := NewPair(b, r.value);
      Pushed(c2, cells, p, b, v, r.value, us, vs, own);
      own := own + {v, b, p};
      r := Some(p);
    }

    lemma Pushed(c0: Cells<A>, c1: Cells<A>, p: Ref, b: Ref, v: Ref, rest: Ref, us: seq<Ref>, vs: seq<Ref>,
        own: set<Ref>)
      requires |us| == |vs| > 0 && Assoc(c0, rest, Zip(us[1..], vs[1..]), own) && own <= c0.Keys
      requires p !in c0 && c1 == c0[p := Pair(b, rest)]
      requires b in c0 && c0[b] == Pair(us[0], v) && v in c0 && c0[v] == Pair(vs[0], NIL)
      ensures Assoc(c1, p, Zip(us, vs), own + {v, b, p})
    {
      StillAssoc(c0, c1, rest, Zip(us[1..], vs[1..]), own);
      AssocGrows(c1, rest, Zip(us[1..], vs[1..]), own, own + {v, b, p});
      assert Zip(us, vs)[1..] == Zip(us[1..], vs[1..]);
    }

    // ylappend with NIL: a copy of the spine.
    method CopySpine(x: Ref, ghost al: seq<(Ref, Ref)>, ghost own0: set<Ref>) returns (r: Ref, ghost own: set<Ref>)
      requires Valid() && Assoc(cells, x, al, own0) && own0 <= cells.Keys
      modifies this
      ensures Valid() && SameOn(old(cells), cells, old(cells.Keys))
      ensures own0 <= own <= cells.Keys && own - own0 !! old(cells.Keys)
      ensures Assoc(cells, r, al, own)
      decreases |al|
    {
      if x == NIL {
        return NIL, own0;
      }
      ghost var c0 := cells;
      var rest;
      rest, own := CopySpine(cells[x].cdr, al[1..], own0);
      ghost var c1 := cells;
      r := NewPair(cells[x].car, rest);
      StillAssoc(c1, cells, rest, al[1..], own);
      AssocGrows(cells, rest, al[1..], own, own + {r});
      own := own + {r};
    }

    // The loop that finds the last pair of the copied body, and the link to the arguments.
    method AppendArgs(exp: Ref, args: Ref, ghost t: Tree) returns (ok: bool)
      requires Valid() && IsAt(cells, exp, t) && Unshared(t) && AtomLeaves(cells, t) && exp in cells
      modifies this`cells
      ensures Valid() && WritesOnly(old(cells), cells, Nodes(t))
      ensures ok <==> ProperList(t)
      ensures ok ==> IsAt(cells, exp, WithTail(t, args))
    {
      var we := exp;
      ghost var w := t;
      while true
        invariant IsAt(cells, we, w) && AtomLeaves(cells, w) && we in cells && cells == old(cells)
        invariant ProperList(w) <==> ProperList(t)
        invariant ProperList(t) ==> LastPair(w) == LastPair(t)
        decreases w
      {
        if cells[we].Atom? {
          return false;
        }
        if cells[we].cdr == NIL {
          break;
        }
        w := w.r;
        we := cells[we].cdr;
      }
      LastPairIn(t);
      WriteOne(cells, we, Pair(cells[we].car, args));
      TailWritten(cells, cells[we := Pair(cells[we].car, args)], exp, t, args);
      cells := cells[we := Pair(cells[we].car, args)];
      ok := true;
    }

    // _evlf_mlambda up to the final evaluation: the expression to evaluate, or nothing
    // when the expansion fails. No pair that was there before is changed.
    method Expand(params: Ref, body: Ref, args: Ref, ghost t: Tree,
                  ghost us: seq<Ref>, ghost eu: Ref, ghost vs: seq<Ref>, ghost ev: Ref)
      returns (r: Option<Ref>, ghost c: Tree)
      requires Valid() && IsAt(cells, body, t) && AtomLeaves(cells, t)
      requires Chain(cells, params, us, eu) && Chain(cells, args, vs, ev) && forall u :: u in us ==> u in cells
      modifies this
      ensures Valid() && SameOn(old(cells), cells, old(cells.Keys))
      ensures r.Some? ==> IsAt(cells, r.value, c)
      ensures params == NIL && body != NIL ==>
                (r.Some? <==> ProperList(t)) &&
                (r.Some? ==> Erase(c) == Appended(Erase(t), args))
      ensures !(params == NIL && body != NIL) ==>
                (r.Some? <==> |us| == |vs| && eu == NIL && ev == NIL && t.Node?) &&
                (r.Some? ==> Erase(c) == Sublis(eq, old(cells), Zip(us, vs), Erase(t))) &&
                (r.Some? ==> Instance(eq, old(cells), us, vs, t, c))
    {
      hide Assoc, EqAtom, Erase, Sublis, Appended, ProperList, KeysIn, IsAt, AtomLeaves, Unshared, Chain, Zip;
      var exp;
      ghost var c0 := cells;
      exp, c := ListClone(body, t);
      ghost var c1 := cells;
      SameErasure(t, c);
      RootIn(cells, exp, c);
      if params == NIL && body != NIL {
        var ok := AppendArgs(exp, args, c);
        if !ok {
          return None, c;
        }
        return Some(exp), WithTail(c, args);
      }
      StillChain(c0, cells, params, us, eu);
      StillChain(c0, cells, args, vs, ev);
      var pairs, own := PairUp(params, args, us, eu, vs, ev);
      if pairs.None? {
        return None, c;
      }
      ghost var al := Zip(us, vs);
      KeysOfZip(c0, us, vs);
      var a;
      a, own := CopySpine(pairs.value, al, own);
      KeysStay(c0, cells, al);
      CloneKept(c1, cells, exp, c);
      ghost var c2 := cells;
      SublisStable(eq, c0, c2, al, t);
      var m := Replace(exp, a, c, al, own);
      if 0 > m {
        return None, c;
      }
      r := Some(exp);
      c := Replaced(eq, c2, al, c);
      SublisInstance(eq, c0, us, vs, t, c);
    }

    lemma KeysStay(c0: Cells<A>, c1: Cells<A>, al: seq<(Ref, Ref)>)
      requires KeysIn(c0, al) && SameOn(c0, c1, c0.Keys)
      ensures KeysIn(c1, al)
    {}

    lemma RootIn(cs: Cells<A>, e: Ref, t: Tree)
      requires IsAt(cs, e, t) && AtomLeaves(cs, t)
      ensures e in cs
    {}
  }
}
