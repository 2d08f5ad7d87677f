// yleval and its forms over an explicit heap. A block freed by a collection is absent
// from the heap, and reading it stops the evaluation with Dangling. Identifiers name
// allocations: they are never reused, so a stale pointer can never be mistaken for the
// block that took its place in the pool.
module Evaluator {
  import BaseBlocks
  import opened Reachability
  import opened Values
  import opened Wrappers

  datatype Node = Pair(car: Ref, cdr: Ref) | Leaf(atom: Atom)

  datatype Binding = Binding(value: Ref, macro: bool)

  // The cells of the local association list: its spine, an entry (u v), and the cell
  // that holds v. Of the cells that an evaluation finds, only an entry's cdr is ever
  // overwritten, and only by `set`.
  datatype Role = Spine | Entry | Slot

  // What is done to the heap: a cell is made, a pair is overwritten, or everything that
  // the roots do not reach is collected.
  datatype HeapOp = New(n: Node) | Write(id: nat, car: Ref, cdr: Ref) | Gc(roots: set<Ref>)

  // `bases` is the base-block stack, `thread` and `global` the symbol tables, `clock`
  // counts safe points. `macros` are the symbol atoms whose subtype says macro. `roles`
  // and `log`, everything done to the heap so far, are history variables: no step depends
  // on them.
  datatype State = State(heap: map<nat, Node>, next: nat, bases: seq<Ref>,
                         thread: map<string, Binding>, global: map<string, Binding>,
                         clock: nat, macros: set<Ref>, roles: map<nat, Role>, log: seq<HeapOp>)

  // When to collect, and which symbols strtod reads as numbers.
  datatype Config = Config(collectAt: nat -> bool, numeral: string -> Option<nat>)

  // ---------------------------------------------------------------- reading

  ghost function Deref(s: State, r: Ref): Result<Node> {
    match r
    case Nil => Ok(Leaf(NilAtom))
    case True => Ok(Leaf(Sym("t")))
    case Quote => Ok(Leaf(Sym("quote")))
    case Lambda => Ok(Leaf(Sym("lambda")))
    case Progn => Ok(Leaf(Sym("progn")))
    case Cell(id) => if id in s.heap then Ok(s.heap[id]) else Stop(Dangling)
  }

  ghost function Car(s: State, r: Ref): Result<Ref> {
    var c :- Deref(s, r);
    if c.Pair? then Ok(c.car) else Stop(Failed)
  }

  ghost function Cdr(s: State, r: Ref): Result<Ref> {
    var c :- Deref(s, r);
    if c.Pair? then Ok(c.cdr) else Stop(Failed)
  }

  ghost function Cadr(s: State, r: Ref): Result<Ref> {
    var d :- Cdr(s, r);
    Car(s, d)
  }

  // yleq
  ghost function Equal(fuel: nat, s: State, x: Ref, y: Ref): Result<bool>
    decreases fuel
  {
    if x == y then Ok(true) else
    if fuel == 0 then Stop(OutOfSteps) else
    var c :- Deref(s, x);
    var d :- Deref(s, y);
    if c.Leaf? && d.Leaf? then Ok(c.atom == d.atom && !c.atom.NilAtom?)
    else if c.Pair? && d.Pair? then
      var cars :- Equal(fuel - 1, s, c.car, d.car);
      if !cars then Ok(false) else Equal(fuel - 1, s, c.cdr, d.cdr)
    else Ok(false)
  }

  // _list_find
  ghost function ListFind(fuel: nat, s: State, x: Ref, y: Ref): Result<Option<Ref>>
    decreases fuel
  {
    if fuel == 0 then Stop(OutOfSteps) else
    var c :- Deref(s, y);
    if c.Leaf? then Ok(None) else
    var entry :- Deref(s, c.car);
    if entry.Leaf? then Ok(None) else
    var same :- Equal(fuel - 1, s, entry.car, x);
    if same then Ok(Some(c.car)) else ListFind(fuel - 1, s, x, c.cdr)
  }

  // ylelist_size
  ghost function ListSize(fuel: nat, s: State, e: Ref): Result<nat>
    decreases fuel
  {
    if e == Nil then Ok(0) else
    var c :- Deref(s, e);
    if c.Leaf? then Ok(1) else CountCells(fuel, s, e)
  }

  ghost function CountCells(fuel: nat, s: State, e: Ref): Result<nat>
    decreases fuel
  {
    if fuel == 0 then Stop(OutOfSteps) else
    var c :- Deref(s, e);
    if c.Leaf? then Ok(0) else
    var n :- CountCells(fuel - 1, s, c.cdr);
    Ok(n + 1)
  }

  // ---------------------------------------------------------------- allocation

  ghost function Alloc(s: State, c: Node): (Ref, State) {
    (Cell(s.next), s.(heap := s.heap[s.next := c], next := s.next + 1, log := s.log + [New(c)]))
  }

  ghost function Cons(s: State, car: Ref, cdr: Ref): (Ref, State) {
    Alloc(s, Pair(car, cdr))
  }

  // ylpsetcar, ylpsetcdr
  ghost function Overwrite(s: State, id: nat, car: Ref, cdr: Ref): State {
    s.(heap := s.heap[id := Pair(car, cdr)], log := s.log + [Write(id, car, cdr)])
  }

  // ylcons for a cell of an association list.
  ghost function Link(s: State, role: Role, car: Ref, cdr: Ref): (Ref, State) {
    var (r, t) := Alloc(s, Pair(car, cdr));
    (r, t.(roles := t.roles[s.next := role]))
  }

  // yllist (u, v) as an entry of an association list
  ghost function NewEntry(s: State, u: Ref, v: Ref): (Ref, State) {
    var (slot, t) := Link(s, Slot, v, Nil);
    Link(t, Entry, u, slot)
  }

  // _list_clone
  ghost function Clone(fuel: nat, s: State, e: Ref): Result<(Ref, State)>
    decreases fuel
  {
    if fuel == 0 then Stop(OutOfSteps) else
    var c :- Deref(s, e);
    if c.Leaf? then Ok((e, s)) else
    var (x, t) :- Clone(fuel - 1, s, c.car);
    var (y, u) :- Clone(fuel - 1, t, c.cdr);
    Ok(Cons(u, x, y))
  }

  // ylpair: bind parameters to values
  ghost function Bind(fuel: nat, s: State, x: Ref, y: Ref): Result<(Ref, State)>
    decreases fuel
  {
    if x == Nil && y == Nil then Ok((Nil, s)) else
    if fuel == 0 then Stop(OutOfSteps) else
    var c :- Deref(s, x);
    var d :- Deref(s, y);
    if c.Leaf? || d.Leaf? then Stop(Failed) else
    var (entry, t) := NewEntry(s, c.car, d.car);
    var (rest, u) :- Bind(fuel - 1, t, c.cdr, d.cdr);
    Ok(Link(u, Spine, entry, rest))
  }

  // ylappend onto an association list
  ghost function Append(fuel: nat, s: State, x: Ref, y: Ref): Result<(Ref, State)>
    decreases fuel
  {
    if x == Nil then Ok((y, s)) else
    if fuel == 0 then Stop(OutOfSteps) else
    var c :- Deref(s, x);
    if c.Leaf? then Stop(Failed) else
    var (rest, t) :- Append(fuel - 1, s, c.cdr, y);
    Ok(Link(t, Spine, c.car, rest))
  }

  // _list_cons
  ghost function CopyList(fuel: nat, s: State, e: Ref): Result<(Ref, State)>
    decreases fuel
  {
    if e == Nil then Ok((Nil, s)) else
    if fuel == 0 then Stop(OutOfSteps) else
    var c :- Deref(s, e);
    if c.Leaf? then Stop(Failed) else
    var (rest, t) :- CopyList(fuel - 1, s, c.cdr);
    Ok(Cons(t, c.car, rest))
  }

  // _appq: quote every argument
  ghost function QuoteAll(fuel: nat, s: State, m: Ref): Result<(Ref, State)>
    decreases fuel
  {
    if m == Nil then Ok((Nil, s)) else
    if fuel == 0 then Stop(OutOfSteps) else
    var c :- Deref(s, m);
    if c.Leaf? then Stop(Failed) else
    var (arg, t) := Cons(s, c.car, Nil);
    var (quoted, u) := Cons(t, Quote, arg);
    var (rest, v) :- QuoteAll(fuel - 1, u, c.cdr);
    Ok(Cons(v, quoted, rest))
  }

  // ---------------------------------------------------------------- base blocks

  ghost function Push(s: State, r: Ref): State {
    s.(bases := s.bases + [r])
  }

  // ylmp_rm_bb
  ghost function Pop(s: State, r: Ref): State {
    s.(bases := BaseBlocks.RemoveTop(s.bases, r))
  }

  // ---------------------------------------------------------------- collection

  ghost function Ids(rs: set<Ref>): set<nat> {
    set r | r in rs && r.Cell? :: r.id
  }

  ghost function Names(n: Node): set<nat> {
    match n
    case Pair(car, cdr) => Ids({car, cdr})
    case Leaf(_) => {}
  }

  ghost function GraphOf(heap: map<nat, Node>): Graph {
    map id | id in heap :: Names(heap[id])
  }

  ghost function RootRefs(s: State): set<Ref> {
    (set r | r in s.bases) + (set n | n in s.thread :: s.thread[n].value)
    + (set n | n in s.global :: s.global[n].value)
  }

  // What a collection leaves behind: the blocks reachable from the roots.
  ghost function Reached(heap: map<nat, Node>, from: set<nat>): map<nat, Node> {
    map id | id in heap && Reachable(GraphOf(heap), from, id) :: heap[id]
  }

  // _gc: the roots are the base blocks and the values in the symbol tables.
  ghost function Collect(s: State): State {
    s.(heap := Reached(s.heap, Ids(RootRefs(s))), log := s.log + [Gc(RootRefs(s))])
  }

  ghost function SafePoint(cfg: Config, s: State): State {
    var t := if cfg.collectAt(s.clock) then Collect(s) else s;
    t.(clock := s.clock + 1)
  }

  // ---------------------------------------------------------------- symbols

  // _assoc: local list, then thread table, then global table, then numbers. The flag
  // says that the value is a (cloned) macro.
  ghost function Assoc(cfg: Config, fuel: nat, s: State, x: Ref, name: string, a: Ref)
    : Result<(Ref, bool, State)>
  {
    var hit :- ListFind(fuel, s, x, a);
    if hit.Some? then
      var key :- Car(s, hit.value);
      var v :- Cadr(s, hit.value);
      Expanded(fuel, s, v, key in s.macros)
    else
      var bound := if name in s.thread then Some(s.thread[name])
                   else if name in s.global then Some(s.global[name]) else None;
      if bound.Some? then Expanded(fuel, s, bound.value.value, bound.value.macro)
      else
        match cfg.numeral(name)
        case Some(d) =>
          var (r, t) := Alloc(s, Leaf(Number(d)));
          Ok((r, false, t))
        case None => Stop(Failed)
  }

  ghost function Expanded(fuel: nat, s: State, v: Ref, macro: bool): Result<(Ref, bool, State)> {
    if macro then
      var (r, t) :- Clone(fuel, s, v);
      Ok((r, true, t))
    else Ok((v, false, s))
  }

  // _set: overwrite the local binding, or write the table. A name that the trie does
  // not take is dropped without an error.
  ghost function Assign(fuel: nat, s: State, x: Ref, v: Ref, a: Ref, macro: bool, toGlobal: bool)
    : Result<(Ref, State)>
  {
    var c :- Deref(s, x);
    if !(c.Leaf? && c.atom.Sym? && c.atom.name != "") then Stop(Failed) else
    var hit :- ListFind(fuel, s, x, a);
    if hit.Some? then Rebind(s, hit.value, v, macro) else Ok((v, Store(s, c.atom.name, v, macro, toGlobal)))
  }

  // _set on an entry (u v) of the local list: the subtype of u is written, and the cdr
  // becomes a fresh cell.
  ghost function Rebind(s: State, r: Ref, v: Ref, macro: bool): Result<(Ref, State)> {
    var entry :- Deref(s, r);
    if !(entry.Pair? && r.Cell?) then Stop(Failed) else
    var cell :- Deref(s, entry.cdr);
    if cell.Leaf? then Stop(Failed) else
    var (slot, t) := Link(Subtype(s, entry.car, macro), Slot, v, Nil);
    Ok((v, Overwrite(t, r.id, entry.car, slot)))
  }

  ghost function Subtype(s: State, key: Ref, macro: bool): State {
    s.(macros := if macro then s.macros + {key} else s.macros - {key})
  }

  ghost function Store(s: State, name: string, v: Ref, macro: bool, toGlobal: bool): State {
    if |name| >= MAX_KEY_LEN then s
    else if toGlobal then s.(global := s.global[name := Binding(v, macro)])
    else s.(thread := s.thread[name := Binding(v, macro)])
  }

  // unset and tunset
  ghost function Unset(s: State, x: Ref, inGlobal: bool): Result<(Ref, State)> {
    var c :- Deref(s, x);
    if !(c.Leaf? && c.atom.Sym?) then Stop(Failed) else
    var table := if inGlobal then s.global else s.thread;
    var t := if inGlobal then s.(global := s.global - {c.atom.name}) else s.(thread := s.thread - {c.atom.name});
    Ok((Truth(c.atom.name in table), t))
  }

  // set? and tset?
  ghost function IsSet(s: State, x: Ref, inGlobal: bool): Result<(Ref, State)> {
    var c :- Deref(s, x);
    if !(c.Leaf? && c.atom.Sym?) then Stop(Failed) else
    Ok((Truth(c.atom.name in if inGlobal then s.global else s.thread), s))
  }

  // ---------------------------------------------------------------- macro forms

  // _mreplace: every atom of the tree that is a parameter is overwritten, in its place,
  // by its argument.
  ghost function Replace(fuel: nat, s: State, e: Ref, a: Ref): Result<State>
    decreases fuel, 1
  {
    if fuel == 0 then Stop(OutOfSteps) else
    var c :- Deref(s, e);
    if c.Leaf? || !e.Cell? then Stop(Failed) else
    var t :- ReplacePart(fuel, s, e.id, true, a);
    ReplacePart(fuel, t, e.id, false, a)
  }

  // the car of a cell, or its cdr
  ghost function ReplacePart(fuel: nat, s: State, id: nat, inCar: bool, a: Ref): Result<State>
    requires fuel > 0
    decreases fuel, 0
  {
    var n :- Deref(s, Cell(id));
    if n.Leaf? then Stop(Failed) else
    var x := if inCar then n.car else n.cdr;
    var c :- Deref(s, x);
    if c.Pair? then Replace(fuel - 1, s, x, a) else
    var hit :- ListFind(fuel, s, x, a);
    if hit.None? then Ok(s) else
    var v :- Cadr(s, hit.value);
    Ok(if inCar then Overwrite(s, id, v, n.cdr) else Overwrite(s, id, n.car, v))
  }

  // mlambda without parameters: the last cdr of the list becomes the arguments.
  ghost function Attach(fuel: nat, s: State, e: Ref, args: Ref): Result<State>
    decreases fuel
  {
    if fuel == 0 then Stop(OutOfSteps) else
    var c :- Deref(s, e);
    if c.Leaf? || !e.Cell? then Stop(Failed)
    else if c.cdr == Nil then Ok(Overwrite(s, e.id, c.car, args))
    else Attach(fuel - 1, s, c.cdr, args)
  }

  // The expression that _evlf_mlambda evaluates.
  ghost function ExpandMacro(fuel: nat, s: State, e: Ref): Result<(Ref, State)> {
    var args :- Cdr(s, e);
    var (params, body) :- LambdaParts(s, e);
    var (r, t) :- Clone(fuel, s, body);
    if params == Nil && body != Nil then
      var u :- Attach(fuel, t, r, args);
      Ok((r, u))
    else
      SubstituteInto(fuel, t, r, params, args)
  }

  ghost function SubstituteInto(fuel: nat, s: State, r: Ref, params: Ref, args: Ref): Result<(Ref, State)> {
    var (frame, t) :- Bind(fuel, s, params, args);
    var (env, u) :- Append(fuel, t, frame, Nil);
    var v :- Replace(fuel, u, r, env);
    Ok((r, v))
  }

  // ---------------------------------------------------------------- evaluation

  ghost function Eval(cfg: Config, fuel: nat, s: State, e: Ref, a: Ref): Result<(Ref, State)>
    decreases fuel
  {
    if fuel == 0 then Stop(OutOfSteps) else
    var (r, t) :- EvalForm(cfg, fuel - 1, Push(Push(s, e), a), e, a);
    var u := SafePoint(cfg, Push(Pop(Pop(t, e), a), r));
    Ok((r, Pop(u, r)))
  }

  ghost function EvalForm(cfg: Config, fuel: nat, s: State, e: Ref, a: Ref): Result<(Ref, State)>
    decreases fuel
  {
    if fuel == 0 then Stop(OutOfSteps) else
    var c :- Deref(s, e);
    if c.Leaf? then EvalAtom(cfg, fuel - 1, s, e, c.atom, a) else
    var head :- Deref(s, c.car);
    if head.Leaf? then EvalCall(cfg, fuel - 1, s, c.car, head.atom, c.cdr, a) else
    var headhead :- Deref(s, head.car);
    if headhead.Leaf? then EvalLambdaForm(cfg, fuel - 1, s, e, headhead.atom, a)
    else Stop(Failed)
  }

  // _evatom_form
  ghost function EvalAtom(cfg: Config, fuel: nat, s: State, e: Ref, atom: Atom, a: Ref)
    : Result<(Ref, State)>
    decreases fuel
  {
    if fuel == 0 then Stop(OutOfSteps) else
    if !atom.Sym? then Stop(Failed) else
    var (r, macro, t) :- Assoc(cfg, fuel, s, e, atom.name, a);
    if macro then Eval(cfg, fuel - 1, t, r, a) else Ok((r, t))
  }

  // _evfunc_form
  ghost function EvalCall(cfg: Config, fuel: nat, s: State, f: Ref, atom: Atom, args: Ref, a: Ref)
    : Result<(Ref, State)>
    decreases fuel
  {
    if fuel == 0 then Stop(OutOfSteps) else
    if !atom.Sym? then Stop(Failed) else
    var (r, macro, t) :- Assoc(cfg, fuel, s, f, atom.name, a);
    if macro then
      var (e', u) := Cons(t, r, args);
      Eval(cfg, fuel - 1, u, e', a)
    else CallFunction(cfg, fuel, t, r, args, a)
  }

  ghost function CallFunction(cfg: Config, fuel: nat, s: State, r: Ref, args: Ref, a: Ref): Result<(Ref, State)>
    requires fuel > 0
    decreases fuel, 1
  {
    var fn :- Deref(s, r);
    if fn.Pair? then Stop(Failed) else
    match fn.atom
    case SFunc(sf) => CallSpecial(cfg, fuel - 1, s, sf, args, a)
    case NFunc(nf) => ApplyNative(cfg, fuel, s, r, nf, args, a)
    case _ => Stop(Failed)
  }

  // The function is a base block while its parameters are evaluated, the list of
  // parameter values while it runs.
  ghost function ApplyNative(cfg: Config, fuel: nat, s: State, r: Ref, nf: Native, args: Ref, a: Ref)
    : Result<(Ref, State)>
    requires fuel > 0
    decreases fuel, 0
  {
    var (param, t) :- EvalList(cfg, fuel - 1, Push(s, r), args, a);
    RunNative(cfg, fuel - 1, Pop(t, r), nf, param, a)
  }

  ghost function RunNative(cfg: Config, fuel: nat, s: State, nf: Native, param: Ref, a: Ref)
    : Result<(Ref, State)>
    decreases fuel, 2
  {
    var (v, t) :- CallNative(cfg, fuel, Push(s, param), nf, param, a);
    Ok((v, Pop(t, param)))
  }

  // ylevlis
  ghost function EvalList(cfg: Config, fuel: nat, s: State, m: Ref, a: Ref): Result<(Ref, State)>
    decreases fuel
  {
    if m == Nil then Ok((Nil, s)) else
    if fuel == 0 then Stop(OutOfSteps) else
    var first :- Car(s, m);
    var (p, t) :- Eval(cfg, fuel - 1, s, first, a);
    var rest :- Cdr(t, m);
    var (q, u) :- EvalList(cfg, fuel - 1, Push(t, p), rest, a);
    var (r, v) := Cons(u, p, q);
    Ok((r, Pop(v, p)))
  }

  // _evlambda_form
  ghost function EvalLambdaForm(cfg: Config, fuel: nat, s: State, e: Ref, atom: Atom, a: Ref)
    : Result<(Ref, State)>
    decreases fuel
  {
    if fuel == 0 then Stop(OutOfSteps) else
    if !atom.Sym? then Stop(Failed) else
    var head :- Car(s, e);
    var args :- Cdr(s, e);
    if atom.name == "lambda" then
      var (values, t) :- EvalList(cfg, fuel - 1, s, args, a);
      Enter(cfg, fuel, t, e, values, a)
    else if atom.name == "mlambda" then
      var (e', t) :- ExpandMacro(fuel, s, e);
      Eval(cfg, fuel - 1, t, e', a)
    else if atom.name == "label" then EnterLabel(cfg, fuel, s, e, head, args, a)
    else if atom.name == "flabel" then EvalMacroLabel(cfg, fuel, s, e, head, args, a)
    else
      var (f, t) :- Eval(cfg, fuel - 1, s, head, a);
      var args' :- Cdr(t, e);
      var (e', u) := Cons(t, f, args');
      Eval(cfg, fuel - 1, u, e', a)
  }

  // _evlf_lambda, once the arguments are evaluated
  ghost function Enter(cfg: Config, fuel: nat, s: State, e: Ref, values: Ref, a: Ref)
    : Result<(Ref, State)>
    requires fuel > 0
    decreases fuel, 0
  {
    var (params, body) :- LambdaParts(s, e);
    var (frame, t) :- Bind(fuel, s, params, values);
    var (env, u) :- Append(fuel, t, frame, a);
    Eval(cfg, fuel - 1, u, body, env)
  }

  // _evlf_label: evaluate the labelled function with its own name bound
  ghost function EnterLabel(cfg: Config, fuel: nat, s: State, e: Ref, head: Ref, args: Ref, a: Ref)
    : Result<(Ref, State)>
    requires fuel > 0
    decreases fuel, 0
  {
    var (name, body) :- LambdaParts(s, e);
    var c :- Deref(s, name);
    if !(c.Leaf? && c.atom.Sym?) then Stop(Failed) else
    var (e', t) := Cons(s, body, args);
    var (entry, u) := NewEntry(t, name, head);
    var (env, v) := Link(u, Spine, entry, a);
    Eval(cfg, fuel - 1, v, e', env)
  }

  // _evlf_flabel
  ghost function EvalMacroLabel(cfg: Config, fuel: nat, s: State, e: Ref, head: Ref, args: Ref, a: Ref)
    : Result<(Ref, State)>
    requires fuel > 0
    decreases fuel, 1
  {
    var (name, params, body) :- LabelParts(s, e);
    var c :- Deref(s, name);
    if !(c.Leaf? && c.atom.Sym?) then Stop(Failed) else
    var (values, t) :- EvalList(cfg, fuel - 1, Subtype(s, name, true), args, a);
    EnterMacroLabel(cfg, fuel, t, name, head, params, body, values)
  }

  // Once the arguments are evaluated: the body sees its parameters and its
  // own name, as a macro, and nothing else.
  ghost function EnterMacroLabel(cfg: Config, fuel: nat, s: State, name: Ref, head: Ref, params: Ref, body: Ref,
                                 values: Ref): Result<(Ref, State)>
    requires fuel > 0
    decreases fuel, 0
  {
    var (frame, t) :- Bind(fuel, s, params, values);
    var (entry, u) := NewEntry(t, name, head);
    var (env, v) := Link(u, Spine, entry, frame);
    Eval(cfg, fuel - 1, v, body, env)
  }

  // cadr, caddr and cadddr of a flabel form
  ghost function LabelParts(s: State, e: Ref): Result<(Ref, Ref, Ref)> {
    var (name, params) :- LambdaParts(s, e);
    var form :- Car(s, e);
    var tail :- Cdr(s, form);
    var tail2 :- Cdr(s, tail);
    var tail3 :- Cdr(s, tail2);
    var body :- Car(s, tail3);
    Ok((name, params, body))
  }

  // cadar and caddar of a lambda-like form
  ghost function LambdaParts(s: State, e: Ref): Result<(Ref, Ref)> {
    var form :- Car(s, e);
    var tail :- Cdr(s, form);
    var params :- Car(s, tail);
    var tail2 :- Cdr(s, tail);
    var body :- Car(s, tail2);
    Ok((params, body))
  }

  // ---------------------------------------------------------------- native functions

  ghost function Truth(b: bool): Ref {
    if b then True else Nil
  }

  // Smallest and largest number of parameters.
  ghost function Arity(f: Native): (nat, nat) {
    match f
    case CarF | CdrF | AtomF | NullF | EvalF | UnsetF | TUnsetF | IsSetF | IsTSetF => (1, 1)
    case ConsF | EqF | EqualF => (2, 2)
    case SetF | TSetF | MSetF | TMSetF => (2, 3)
    case ListF => (0, 9999)
    case CondF | AndF | OrF => (1, 9999)
    case LetF | CaseF | WhileF => (2, 9999)
  }

  ghost function CallNative(cfg: Config, fuel: nat, s: State, f: Native, e: Ref, a: Ref)
    : Result<(Ref, State)>
    decreases fuel, 1
  {
    if fuel == 0 then Stop(OutOfSteps) else
    var n :- ListSize(fuel, s, e);
    var (lo, hi) := Arity(f);
    if !(lo <= n <= hi) then Stop(Failed) else
    if f in {EvalF, CondF, AndF, OrF} then CallControl(cfg, fuel, s, f, e, a)
    else if f in {LetF, CaseF, WhileF} then CallBlock(cfg, fuel, s, f, e, a)
    else CallStrict(fuel, s, f, n, e, a)
  }

  // The native functions that evaluate expressions.
  ghost function CallControl(cfg: Config, fuel: nat, s: State, f: Native, e: Ref, a: Ref)
    : Result<(Ref, State)>
    requires fuel > 0
    decreases fuel, 0
  {
    if f == CondF then EvalCond(cfg, fuel - 1, s, e, a)
    else if f == AndF || f == OrF then EvalJunction(cfg, fuel - 1, s, e, a, f == OrF)
    else
      var x :- Car(s, e);
      Eval(cfg, fuel - 1, s, x, a)
  }

  ghost function CallBlock(cfg: Config, fuel: nat, s: State, f: Native, e: Ref, a: Ref)
    : Result<(Ref, State)>
    requires fuel > 0
    decreases fuel, 0
  {
    if f == LetF then EvalLet(cfg, fuel - 1, s, e, a)
    else if f == CaseF then EvalCase(cfg, fuel - 1, s, e, a)
    else
      var test :- Car(s, e);
      EvalWhile(cfg, fuel - 1, s, test, e, a)
  }

  // The native functions that evaluate nothing.
  ghost function CallStrict(fuel: nat, s: State, f: Native, n: nat, e: Ref, a: Ref)
    : Result<(Ref, State)>
  {
    if f == ListF then CopyList(fuel, s, e) else
    var x :- Car(s, e);
    if f in {CarF, CdrF, AtomF, NullF, UnsetF, TUnsetF, IsSetF, IsTSetF} then CallUnary(s, f, x)
    else
      var y :- Cadr(s, e);
      CallBinary(fuel, s, f, n, e, x, y, a)
  }

  ghost function CallUnary(s: State, f: Native, x: Ref): Result<(Ref, State)> {
    if f == CarF then
      var r :- Car(s, x);
      Ok((r, s))
    else if f == CdrF then
      var r :- Cdr(s, x);
      Ok((r, s))
    else if f == AtomF then
      var c :- Deref(s, x);
      Ok((Truth(c.Leaf?), s))
    else if f == NullF then Ok((Truth(x == Nil), s))
    else if f == UnsetF || f == TUnsetF then Unset(s, x, f == UnsetF)
    else IsSet(s, x, f == IsSetF)
  }

  ghost function CallBinary(fuel: nat, s: State, f: Native, n: nat, e: Ref, x: Ref, y: Ref, a: Ref)
    : Result<(Ref, State)>
  {
    if f == ConsF then Ok(Cons(s, x, y))
    else if f == EqF then Ok((Truth(x == y), s))
    else if f == EqualF then
      var same :- Equal(fuel, s, x, y);
      Ok((Truth(same), s))
    else CallSet(fuel, s, f, n, e, x, y, a)
  }

  ghost function CallSet(fuel: nat, s: State, f: Native, n: nat, e: Ref, x: Ref, y: Ref, a: Ref)
    : Result<(Ref, State)>
  {
    var described :- Described(s, n, e);
    if described then Assign(fuel, s, x, y, a, f in {MSetF, TMSetF}, f in {SetF, MSetF}) else Stop(Failed)
  }

  // The third parameter of `set` is a description and has to be a symbol.
  ghost function Described(s: State, n: nat, e: Ref): Result<bool> {
    if n <= 2 then Ok(true) else
    var d :- Cdr(s, e);
    var z :- Cadr(s, d);
    var c :- Deref(s, z);
    Ok(c.Leaf? && c.atom.Sym?)
  }

  ghost function CallSpecial(cfg: Config, fuel: nat, s: State, f: Special, e: Ref, a: Ref)
    : Result<(Ref, State)>
    decreases fuel
  {
    if fuel == 0 then Stop(OutOfSteps) else
    var n :- ListSize(fuel, s, e);
    if n < 1 || n > 9999 || (f == QuoteF && n > 1) then Stop(Failed) else
    match f
    case QuoteF =>
      var x :- Car(s, e);
      Ok((x, s))
    case PrognF => EvalEach(cfg, fuel - 1, s, e, a, Nil)
    case ApplyF =>
      var fn :- Car(s, e);
      var args :- Cdr(s, e);
      var (quoted, t) :- QuoteAll(fuel, s, args);
      var (e', u) := Cons(t, fn, quoted);
      Eval(cfg, fuel - 1, u, e', a)
  }

  // progn: evaluate in turn, return the last value
  ghost function EvalEach(cfg: Config, fuel: nat, s: State, e: Ref, a: Ref, last: Ref)
    : Result<(Ref, State)>
    decreases fuel
  {
    if e == Nil then Ok((last, s)) else
    if fuel == 0 then Stop(OutOfSteps) else
    var x :- Car(s, e);
    var (r, t) :- Eval(cfg, fuel - 1, s, x, a);
    var rest :- Cdr(t, e);
    EvalEach(cfg, fuel - 1, t, rest, a, r)
  }

  // _evcon
  ghost function EvalCond(cfg: Config, fuel: nat, s: State, c: Ref, a: Ref): Result<(Ref, State)>
    decreases fuel
  {
    if c == Nil then Ok((Nil, s)) else
    if fuel == 0 then Stop(OutOfSteps) else
    var clause :- Car(s, c);
    var test :- Car(s, clause);
    if test == Nil then Stop(Failed) else
    var (v, t) :- Eval(cfg, fuel - 1, s, test, a);
    if v != Nil then
      var body :- Cadr(t, clause);
      Eval(cfg, fuel - 1, t, body, a)
    else
      var rest :- Cdr(t, c);
      EvalCond(cfg, fuel - 1, t, rest, a)
  }

  // f-and stops at the first false value, f-or at the first true one.
  ghost function EvalJunction(cfg: Config, fuel: nat, s: State, e: Ref, a: Ref, stopAt: bool)
    : Result<(Ref, State)>
    decreases fuel
  {
    if e == Nil then Ok((Truth(!stopAt), s)) else
    if fuel == 0 then Stop(OutOfSteps) else
    var x :- Car(s, e);
    var (v, t) :- Eval(cfg, fuel - 1, s, x, a);
    if (v != Nil) == stopAt then Ok((Truth(stopAt), t)) else
    var rest :- Cdr(t, e);
    EvalJunction(cfg, fuel - 1, t, rest, a, stopAt)
  }

  // _pair_to_1st_element_list and _pair_to_2nd_element_list: one element of each
  // binding, in reverse, in front of r.
  ghost function Elements(fuel: nat, s: State, p: Ref, second: bool, r: Ref): Result<(Ref, State)>
    decreases fuel
  {
    if p == Nil then Ok((r, s)) else
    if fuel == 0 then Stop(OutOfSteps) else
    var binding :- Car(s, p);
    var x :- if second then Cadr(s, binding) else Car(s, binding);
    var rest :- Cdr(s, p);
    var (r', t) := Cons(s, x, r);
    Elements(fuel - 1, t, rest, second, r')
  }

  // f-let
  ghost function EvalLet(cfg: Config, fuel: nat, s: State, e: Ref, a: Ref): Result<(Ref, State)>
    decreases fuel
  {
    if fuel == 0 then Stop(OutOfSteps) else
    var (exp, t) :- LetAsLambda(fuel, s, e);
    Eval(cfg, fuel - 1, t, exp, a)
  }

  ghost function LetAsLambda(fuel: nat, s: State, e: Ref): Result<(Ref, State)> {
    var bindings :- Car(s, e);
    var c :- Deref(s, bindings);
    if c.Leaf? && bindings != Nil then Stop(Failed) else
    var (params, t) :- Elements(fuel, s, bindings, false, Nil);
    var (args, u) :- Elements(fuel, t, bindings, true, Nil);
    var exps :- Cdr(u, e);
    LetBody(u, exps, params, args)
  }

  ghost function LetBody(s: State, exps: Ref, params: Ref, args: Ref): Result<(Ref, State)> {
    var (body, t) := Cons(s, Progn, exps);
    if params == Nil then Ok((body, t))
    else if args == Nil then Stop(Failed)
    else Ok(LambdaOf(t, params, body, args))
  }

  ghost function LambdaOf(s: State, params: Ref, body: Ref, args: Ref): (Ref, State) {
    var (b, t) := Cons(s, body, Nil);
    var (p, u) := Cons(t, params, b);
    var (l, v) := Cons(u, Lambda, p);
    Cons(v, l, args)
  }

  // f-case: the key is a base block while the clauses are searched.
  ghost function EvalCase(cfg: Config, fuel: nat, s: State, e: Ref, a: Ref): Result<(Ref, State)>
    decreases fuel
  {
    if fuel == 0 then Stop(OutOfSteps) else
    var x :- Car(s, e);
    var clauses :- Cdr(s, e);
    var paired :- PairChain(fuel, s, clauses);
    if !paired then Stop(Failed) else
    var (key, t) :- Eval(cfg, fuel - 1, s, x, a);
    var clauses' :- Cdr(t, e);
    var (hit, u) :- FindCase(cfg, fuel - 1, Push(t, key), key, clauses', a);
    EvalClause(cfg, fuel - 1, Pop(u, key), hit, a)
  }

  // yleis_pair_chain
  ghost function PairChain(fuel: nat, s: State, e: Ref): Result<bool>
    decreases fuel
  {
    if e == Nil then Ok(true) else
    if fuel == 0 then Stop(OutOfSteps) else
    var x :- Car(s, e);
    var c :- Deref(s, x);
    if c.Leaf? then Ok(false) else
    var rest :- Cdr(s, e);
    PairChain(fuel - 1, s, rest)
  }

  ghost function EvalClause(cfg: Config, fuel: nat, s: State, hit: Ref, a: Ref): Result<(Ref, State)>
    decreases fuel
  {
    if hit == Nil then Ok((Nil, s)) else
    if fuel == 0 then Stop(OutOfSteps) else
    var clause :- Car(s, hit);
    var exps :- Cdr(s, clause);
    EvalEach(cfg, fuel - 1, s, exps, a, Nil)
  }

  // The clauses from the first one that matches on.
  ghost function FindCase(cfg: Config, fuel: nat, s: State, key: Ref, e: Ref, a: Ref): Result<(Ref, State)>
    decreases fuel
  {
    if e == Nil then Ok((Nil, s)) else
    if fuel == 0 then Stop(OutOfSteps) else
    var clause :- Car(s, e);
    var (found, t) :- TestClause(cfg, fuel, s, key, clause, a);
    FindNext(cfg, fuel, t, key, found, e, a)
  }

  ghost function FindNext(cfg: Config, fuel: nat, s: State, key: Ref, found: bool, e: Ref, a: Ref)
    : Result<(Ref, State)>
    requires fuel > 0
    decreases fuel, 0
  {
    if found then Ok((e, s)) else
    var rest :- Cdr(s, e);
    FindCase(cfg, fuel - 1, s, key, rest, a)
  }

  ghost function TestClause(cfg: Config, fuel: nat, s: State, key: Ref, clause: Ref, a: Ref): Result<(bool, State)>
    requires fuel > 0
    decreases fuel, 0
  {
    var x :- Car(s, clause);
    var c :- Deref(s, x);
    if c == Leaf(Sym("otherwise")) then Ok((true, s))
    else if c.Leaf? then MatchKey(cfg, fuel - 1, s, key, x, a)
    else MatchKeys(cfg, fuel - 1, s, key, x, a)
  }

  ghost function MatchKey(cfg: Config, fuel: nat, s: State, key: Ref, x: Ref, a: Ref): Result<(bool, State)>
    decreases fuel
  {
    if fuel == 0 then Stop(OutOfSteps) else
    var (v, t) :- Eval(cfg, fuel - 1, s, x, a);
    IsKey(fuel, t, key, v)
  }

  ghost function IsKey(fuel: nat, s: State, key: Ref, v: Ref): Result<(bool, State)> {
    var same :- Equal(fuel, s, key, v);
    Ok((same, s))
  }

  ghost function MatchKeys(cfg: Config, fuel: nat, s: State, key: Ref, w: Ref, a: Ref): Result<(bool, State)>
    decreases fuel
  {
    if w == Nil then Ok((false, s)) else
    if fuel == 0 then Stop(OutOfSteps) else
    var x :- Car(s, w);
    var (found, t) :- MatchKey(cfg, fuel - 1, s, key, x, a);
    if found then Ok((true, t)) else
    var rest :- Cdr(t, w);
    MatchKeys(cfg, fuel - 1, t, key, rest, a)
  }

  // f-while
  ghost function EvalWhile(cfg: Config, fuel: nat, s: State, test: Ref, e: Ref, a: Ref): Result<(Ref, State)>
    decreases fuel
  {
    if fuel == 0 then Stop(OutOfSteps) else
    var (v, t) :- Eval(cfg, fuel - 1, s, test, a);
    if v == Nil then Ok((True, t)) else
    var exps :- Cdr(t, e);
    var (_, u) :- EvalEach(cfg, fuel - 1, t, exps, a, Nil);
    EvalWhile(cfg, fuel - 1, u, test, e, a)
  }
}
