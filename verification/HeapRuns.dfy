// Runs of heap operations. The log of an evaluation is replayed on the heap that it
// started from: each operation names live cells only, and the heap at the end is the
// evaluation's own.
module HeapRuns {
  import opened Evaluator
  import opened Reachability
  import opened Values

  datatype Cells = Cells(heap: map<nat, Node>, next: nat)

  function CellsOf(s: State): Cells {
    Cells(s.heap, s.next)
  }

  predicate Live(heap: map<nat, Node>, r: Ref) {
    r.Cell? ==> r.id in heap
  }

  predicate LiveNode(heap: map<nat, Node>, n: Node) {
    n.Pair? ==> Live(heap, n.car) && Live(heap, n.cdr)
  }

  // A new cell gets a new name, and only a pair is overwritten.
  predicate Allowed(h: Cells, op: HeapOp) {
    match op
    case New(n) => h.next !in h.heap && LiveNode(h.heap, n)
    case Write(id, car, cdr) => id in h.heap && h.heap[id].Pair? && Live(h.heap, car) && Live(h.heap, cdr)
    case Gc(roots) => forall r :: r in roots ==> Live(h.heap, r)
  }

  ghost function Effect(h: Cells, op: HeapOp): Cells {
    match op
    case New(n) => Cells(h.heap[h.next := n], h.next + 1)
    case Write(id, car, cdr) => h.(heap := h.heap[id := Pair(car, cdr)])
    case Gc(roots) => h.(heap := Reached(h.heap, Ids(roots)))
  }

  // Replaying ops from h ends in h'.
  ghost predicate IsRun(h: Cells, ops: seq<HeapOp>, h': Cells)
    decreases |ops|
  {
    if ops == [] then h == h' else Allowed(h, ops[0]) && IsRun(Effect(h, ops[0]), ops[1..], h')
  }

  lemma {:induction false} RunsCompose(h: Cells, ops: seq<HeapOp>, h': Cells, ops': seq<HeapOp>, h'': Cells)
    requires IsRun(h, ops, h') && IsRun(h', ops', h'')
    ensures IsRun(h, ops + ops', h'')
    decreases |ops|
  {
    hide Effect, Allowed;
    if ops == [] {
      assert ops + ops' == ops';
    } else {
      RunsCompose(Effect(h, ops[0]), ops[1..], h', ops', h'');
      assert (ops + ops')[1..] == ops[1..] + ops';
    }
  }

  lemma OneStep(h: Cells, op: HeapOp)
    requires Allowed(h, op)
    ensures IsRun(h, [op], Effect(h, op))
  {
    hide Effect, Allowed;
    assert IsRun(Effect(h, op), [op][1..], Effect(h, op));
  }

  // What s has logged on its way to t leads from its heap to that of t.
  ghost predicate Replays(s: State, t: State) {
    s.log <= t.log && IsRun(CellsOf(s), t.log[|s.log|..], CellsOf(t))
  }

  lemma NothingLogged(s: State, t: State)
    requires s.log == t.log && CellsOf(s) == CellsOf(t)
    ensures Replays(s, t)
  {
    assert t.log[|s.log|..] == [];
  }

  lemma OpLogged(s: State, op: HeapOp, t: State)
    requires Allowed(CellsOf(s), op) && t.log == s.log + [op] && CellsOf(t) == Effect(CellsOf(s), op)
    ensures Replays(s, t)
  {
    hide Effect, Allowed, IsRun;
    assert t.log[|s.log|..] == [op];
    OneStep(CellsOf(s), op);
  }

  lemma ReplaysTrans(s: State, t: State, u: State)
    requires Replays(s, t) && Replays(t, u)
    ensures Replays(s, u)
  {
    hide IsRun;
    RunsCompose(CellsOf(s), t.log[|s.log|..], CellsOf(t), u.log[|t.log|..], CellsOf(u));
    assert t.log[|s.log|..] + u.log[|t.log|..] == u.log[|s.log|..];
  }

  // A collection is one operation, from the base blocks and the symbol tables.
  lemma CollectReplays(s: State)
    requires forall r :: r in RootRefs(s) ==> Live(s.heap, r)
    ensures Collect(s).log == s.log + [Gc(RootRefs(s))] && Replays(s, Collect(s))
  {
    OpLogged(s, Gc(RootRefs(s)), Collect(s));
  }
}
