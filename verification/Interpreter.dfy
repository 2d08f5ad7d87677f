// What an expression evaluates to, said of trees: no heap, no base blocks, no safe points.
module Interpreter {
  import opened Values
  import opened Wrappers

  // A value as it can be seen from its root. `at` is its address, which `eq` compares; it
  // is the number of the allocation that made it.
  datatype Tree = Tip(at: Ref, atom: Atom) | Fork(at: Ref, car: Tree, cdr: Tree)

  const NIL := Tip(Nil, NilAtom)
  const T := Tip(True, Sym("t"))
  const QUOTE := Tip(Quote, Sym("quote"))
  const LAMBDA := Tip(Lambda, Sym("lambda"))
  const PROGN := Tip(Progn, Sym("progn"))

  datatype Bound = Bound(value: Tree, macro: bool)

  // A local variable: its symbol, and where its value is kept.
  datatype Local = Local(key: Tree, place: nat)

  type Env = seq<Local>

  // `next` counts allocations. `store` has the values of the local variables, which `set`
  // may change; `macros` the symbols that are marked as macros.
  datatype World = World(next: nat, store: map<nat, Tree>, thread: map<string, Bound>,
                         global: map<string, Bound>, macros: set<Ref>)

  type Numerals = string -> Option<nat>

  // ---------------------------------------------------------------- trees

  function Car(t: Tree): Result<Tree> {
    if t.Fork? then Ok(t.car) else Stop(Failed)
  }

  function Cdr(t: Tree): Result<Tree> {
    if t.Fork? then Ok(t.cdr) else Stop(Failed)
  }

  function Cadr(t: Tree): Result<Tree> {
    if t.Fork? then Car(t.cdr) else Stop(Failed)
  }

  // equal: the same address, or the same atoms in the same places
  predicate Match(x: Tree, y: Tree) {
    x.at == y.at ||
    match (x, y)
    case (Tip(_, a), Tip(_, b)) => a == b && !a.NilAtom?
    case (Fork(_, a, b), Fork(_, c, d)) => Match(a, c) && Match(b, d)
    case _ => false
  }

  // How many parameters a parameter list has.
  function Length(t: Tree): nat {
    if t.at == Nil then 0 else if t.Tip? then 1 else Pairs(t)
  }

  function Pairs(t: Tree): nat {
    if t.Tip? then 0 else 1 + Pairs(t.cdr)
  }

  function Truth(b: bool): Tree {
    if b then T else NIL
  }

  function Cons(w: World, car: Tree, cdr: Tree): (Tree, World) {
    (Fork(Cell(w.next), car, cdr), w.(next := w.next + 1))
  }

  // The same tree from new pairs.
  function Copy(w: World, t: Tree): (Tree, World)
    decreases t
  {
    match t
    case Tip(_, _) => (t, w)
    case Fork(_, a, d) =>
      var (car, w1) := Copy(w, a);
      var (cdr, w2) := Copy(w1, d);
      Cons(w2, car, cdr)
  }

  function CopyList(w: World, t: Tree): Result<(Tree, World)>
    decreases t
  {
    if t.at == Nil then Ok((NIL, w))
    else if t.Tip? then Stop(Failed)
    else
      var (rest, w1) :- CopyList(w, t.cdr);
      Ok(Cons(w1, t.car, rest))
  }

  // Every argument with a quote in front.
  function QuoteAll(w: World, t: Tree): Result<(Tree, World)>
    decreases t
  {
    if t.at == Nil then Ok((NIL, w))
    else if t.Tip? then Stop(Failed)
    else
      var (arg, w1) := Cons(w, t.car, NIL);
      var (quoted, w2) := Cons(w1, QUOTE, arg);
      var (rest, w3) :- QuoteAll(w2, t.cdr);
      Ok(Cons(w3, quoted, rest))
  }

  // ---------------------------------------------------------------- variables

  // A new local variable takes two cells of the association list.
  function Bind(w: World, key: Tree, v: Tree): (Local, World) {
    (Local(key, w.next + 1), w.(next := w.next + 2, store := w.store[w.next + 1 := v]))
  }

  // n more cells
  function Skip(w: World, n: nat): World {
    w.(next := w.next + n)
  }

  // One variable for each parameter; the lists have to be proper and equally long.
  function BindAll(w: World, params: Tree, values: Tree): Result<(Env, World)>
    decreases params
  {
    if params.at == Nil && values.at == Nil then Ok(([], w))
    else if params.Tip? || values.Tip? then Stop(Failed)
    else
      var (local, w1) := Bind(w, params.car, values.car);
      var (rest, w2) :- BindAll(w1, params.cdr, values.cdr);
      Ok(([local] + rest, Skip(w2, 1)))
  }

  // The innermost variable of that name.
  function Find(env: Env, x: Tree): Option<Local> {
    if env == [] then None
    else if Match(env[0].key, x) then Some(env[0])
    else Find(env[1..], x)
  }

  function ValueOf(w: World, l: Local): Tree {
    if l.place in w.store then w.store[l.place] else NIL
  }

  // The value of a symbol, and whether it is a macro, which is copied for its use: locals
  // first, then the symbols of the thread, then the global ones, then numbers.
  function Lookup(num: Numerals, w: World, env: Env, x: Tree, name: string): Result<(Tree, bool, World)> {
    match Find(env, x)
    case Some(l) => Ok(Used(w, Bound(ValueOf(w, l), l.key.at in w.macros)))
    case None =>
      if name in w.thread then Ok(Used(w, w.thread[name]))
      else if name in w.global then Ok(Used(w, w.global[name]))
      else
        match num(name)
        case Some(d) => Ok((Tip(Cell(w.next), Number(d)), false, Skip(w, 1)))
        case None => Stop(Failed)
  }

  function Used(w: World, b: Bound): (Tree, bool, World) {
    if b.macro then var (t, w1) := Copy(w, b.value); (t, true, w1) else (b.value, false, w)
  }

  function Mark(w: World, key: Tree, macro: bool): World {
    w.(macros := if macro then w.macros + {key.at} else w.macros - {key.at})
  }

  // set and its kin: the local variable of that name, or else the table, which drops a
  // name that is too long.
  function Assign(w: World, env: Env, x: Tree, v: Tree, macro: bool, toGlobal: bool): Result<(Tree, World)> {
    if !(x.Tip? && x.atom.Sym? && x.atom.name != "") then Stop(Failed) else
    match Find(env, x)
    case Some(l) => Ok((v, Skip(Mark(w, l.key, macro), 1).(store := w.store[l.place := v])))
    case None => Ok((v, Store(w, x.atom.name, Bound(v, macro), toGlobal)))
  }

  function Store(w: World, name: string, b: Bound, toGlobal: bool): World {
    if |name| >= MAX_KEY_LEN then w
    else if toGlobal then w.(global := w.global[name := b])
    else w.(thread := w.thread[name := b])
  }

  // ---------------------------------------------------------------- macro forms

  // The body with every parameter replaced by its argument.
  function Replaced(t: Tree, frame: Env, w: World): Tree {
    match t
    case Fork(at, a, d) => Fork(at, Replaced(a, frame, w), Replaced(d, frame, w))
    case Tip(_, _) => match Find(frame, t) case Some(l) => ValueOf(w, l) case None => t
  }

  // The list with `last` in place of its final nil.
  function Attached(t: Tree, last: Tree): Result<Tree> {
    match t
    case Tip(_, _) => Stop(Failed)
    case Fork(at, a, d) =>
      if d.at == Nil then Ok(Fork(at, a, last))
      else
        var rest :- Attached(d, last);
        Ok(Fork(at, a, rest))
  }

  // What ((mlambda params body) . args) stands for.
  function Expansion(w: World, head: Tree, args: Tree): Result<(Tree, World)> {
    var (params, body) :- Parts(head);
    var (copy, w1) := Copy(w, body);
    if params.at == Nil && body.at != Nil then
      var t :- Attached(copy, args);
      Ok((t, w1))
    else Substituted(w1, copy, params, args)
  }

  function Substituted(w: World, copy: Tree, params: Tree, args: Tree): Result<(Tree, World)> {
    var (frame, w1) :- BindAll(w, params, args);
    if copy.Tip? then Stop(Failed) else
    var w2 := Skip(w1, |frame|);
    Ok((Replaced(copy, frame, w2), w2))
  }

  // (form params body ...)
  function Parts(head: Tree): Result<(Tree, Tree)> {
    match head
    case Fork(_, _, Fork(_, params, Fork(_, body, _))) => Ok((params, body))
    case _ => Stop(Failed)
  }

  // (flabel name params body ...)
  function LabelParts(head: Tree): Result<(Tree, Tree, Tree)> {
    match head
    case Fork(_, _, Fork(_, name, Fork(_, params, Fork(_, body, _)))) => Ok((name, params, body))
    case _ => Stop(Failed)
  }

  predicate IsSymbol(t: Tree) {
    t.Tip? && t.atom.Sym?
  }

  // ---------------------------------------------------------------- evaluation

  // k bounds how deeply evaluations are nested.
  function Interp(num: Numerals, k: nat, w: World, e: Tree, env: Env): Result<(Tree, World)>
    decreases k, 0
  {
    if k == 0 then Stop(OutOfSteps) else
    match e
    case Tip(_, Sym(name)) =>
      var (v, macro, w1) :- Lookup(num, w, env, e, name);
      if macro then Interp(num, k - 1, w1, v, env) else Ok((v, w1))
    case Tip(_, _) => Stop(Failed)
    case Fork(_, head, args) => Apply(num, k - 1, w, head, args, env)
  }

  // A form: a function with its arguments, or a lambda form.
  function Apply(num: Numerals, k: nat, w: World, head: Tree, args: Tree, env: Env): Result<(Tree, World)>
    decreases k, 9
  {
    match head
    case Tip(_, Sym(name)) => Call(num, k, w, head, name, args, env)
    case Fork(_, Tip(_, Sym(form)), _) => Enter(num, k, w, head, form, args, env)
    case _ => Stop(Failed)
  }

  // A macro symbol is replaced by what it stands for, and the result evaluated. A native
  // function gets its arguments evaluated, a special one as they stand.
  function Call(num: Numerals, k: nat, w: World, f: Tree, name: string, args: Tree, env: Env)
    : Result<(Tree, World)>
    decreases k, 8
  {
    var (r, macro, w1) :- Lookup(num, w, env, f, name);
    if macro then
      var (e, w2) := Cons(w1, r, args);
      Interp(num, k, w2, e, env)
    else
      match r
      case Tip(_, SFunc(sf)) => RunSpecial(num, k, w1, sf, args, env)
      case Tip(_, NFunc(nf)) =>
        var (values, w2) :- ValuesOf(num, k, w1, args, env);
        RunNative(num, k, w2, nf, values, env)
      case _ => Stop(Failed)
  }

  // The arguments from left to right.
  function ValuesOf(num: Numerals, k: nat, w: World, args: Tree, env: Env): Result<(Tree, World)>
    decreases k, 1, args
  {
    if args.at == Nil then Ok((NIL, w))
    else if args.Tip? then Stop(Failed)
    else
      var (v, w1) :- Interp(num, k, w, args.car, env);
      var (rest, w2) :- ValuesOf(num, k, w1, args.cdr, env);
      Ok(Cons(w2, v, rest))
  }

  // The lambda forms; any other form in their place is evaluated first.
  function Enter(num: Numerals, k: nat, w: World, head: Tree, form: string, args: Tree, env: Env)
    : Result<(Tree, World)>
    decreases k, 8
  {
    if form == "lambda" then
      var (values, w1) :- ValuesOf(num, k, w, args, env);
      var (params, body) :- Parts(head);
      var (frame, w2) :- BindAll(w1, params, values);
      Interp(num, k, Skip(w2, |frame|), body, frame + env)
    else if form == "mlambda" then
      var (e, w1) :- Expansion(w, head, args);
      Interp(num, k, w1, e, env)
    else if form == "label" then
      var (name, body) :- Parts(head);
      if !IsSymbol(name) then Stop(Failed) else
      var (e, w1) := Cons(w, body, args);
      var (local, w2) := Bind(w1, name, head);
      Interp(num, k, Skip(w2, 1), e, [local] + env)
    else if form == "flabel" then
      var (name, params, body) :- LabelParts(head);
      if !IsSymbol(name) then Stop(Failed) else
      var (values, w1) :- ValuesOf(num, k, Mark(w, name, true), args, env);
      var (frame, w2) :- BindAll(w1, params, values);
      var (local, w3) := Bind(w2, name, head);
      Interp(num, k, Skip(w3, 1), body, [local] + frame)
    else
      var (f, w1) :- Interp(num, k, w, head, env);
      var (e, w2) := Cons(w1, f, args);
      Interp(num, k, w2, e, env)
  }

  // quote, progn and apply
  function RunSpecial(num: Numerals, k: nat, w: World, f: Special, args: Tree, env: Env): Result<(Tree, World)>
    decreases k, 7
  {
    if Length(args) < 1 || Length(args) > 9999 || (f.QuoteF? && Length(args) > 1) then Stop(Failed) else
    match f
    case QuoteF =>
      var x :- Car(args);
      Ok((x, w))
    case PrognF => Sequence(num, k, w, args, env, NIL)
    case ApplyF =>
      if args.Tip? then Stop(Failed) else
      var (quoted, w1) :- QuoteAll(w, args.cdr);
      var (e, w2) := Cons(w1, args.car, quoted);
      Interp(num, k, w2, e, env)
  }

  // One expression after the other; the value of the last one.
  function Sequence(num: Numerals, k: nat, w: World, es: Tree, env: Env, last: Tree): Result<(Tree, World)>
    decreases k, 1, es
  {
    if es.at == Nil then Ok((last, w))
    else if es.Tip? then Stop(Failed)
    else
      var (v, w1) :- Interp(num, k, w, es.car, env);
      Sequence(num, k, w1, es.cdr, env, v)
  }

  predicate Takes(f: Native, n: nat) {
    match f
    case CarF | CdrF | AtomF | NullF | EvalF | UnsetF | TUnsetF | IsSetF | IsTSetF => n == 1
    case ConsF | EqF | EqualF => n == 2
    case SetF | TSetF | MSetF | TMSetF => 2 <= n <= 3
    case ListF => n <= 9999
    case CondF | AndF | OrF => 1 <= n <= 9999
    case LetF | CaseF | WhileF => 2 <= n <= 9999
  }

  function RunNative(num: Numerals, k: nat, w: World, f: Native, vs: Tree, env: Env): Result<(Tree, World)>
    decreases k, 7
  {
    if !Takes(f, Length(vs)) then Stop(Failed)
    else if f.CondF? then Cond(num, k, w, vs, env)
    else if f.AndF? then And(num, k, w, vs, env)
    else if f.OrF? then Or(num, k, w, vs, env)
    else if f.ListF? then CopyList(w, vs)
    else if vs.Tip? then Stop(Failed)
    else if f.EvalF? then Interp(num, k, w, vs.car, env)
    else if f.LetF? then Let(num, k, w, vs.car, vs.cdr, env)
    else if f.CaseF? then Case(num, k, w, vs.car, vs.cdr, env)
    else if f.WhileF? then While(num, k, w, vs.car, vs.cdr, env)
    else if Takes(f, 1) then Unary(w, f, vs.car)
    else
      var y :- Cadr(vs);
      Binary(w, f, vs, vs.car, y, env)
  }

  function Unary(w: World, f: Native, x: Tree): Result<(Tree, World)> {
    if f.CarF? then
      var r :- Car(x);
      Ok((r, w))
    else if f.CdrF? then
      var r :- Cdr(x);
      Ok((r, w))
    else if f.AtomF? then Ok((Truth(x.Tip?), w))
    else if f.NullF? then Ok((Truth(x.at == Nil), w))
    else if !IsSymbol(x) then Stop(Failed)
    else if f.UnsetF? then Ok((Truth(x.atom.name in w.global), w.(global := w.global - {x.atom.name})))
    else if f.TUnsetF? then Ok((Truth(x.atom.name in w.thread), w.(thread := w.thread - {x.atom.name})))
    else if f.IsSetF? then Ok((Truth(x.atom.name in w.global), w))
    else Ok((Truth(x.atom.name in w.thread), w))
  }

  function Binary(w: World, f: Native, vs: Tree, x: Tree, y: Tree, env: Env): Result<(Tree, World)> {
    if f.ConsF? then Ok(Cons(w, x, y))
    else if f.EqF? then Ok((Truth(x.at == y.at), w))
    else if f.EqualF? then Ok((Truth(Match(x, y)), w))
    else Set(w, f, vs, x, y, env)
  }

  // The third parameter, if there is one, describes the symbol, and is a symbol itself.
  function Set(w: World, f: Native, vs: Tree, x: Tree, y: Tree, env: Env): Result<(Tree, World)> {
    if Length(vs) > 2 then
      match vs
      case Fork(_, _, Fork(_, _, Fork(_, z, _))) =>
        if IsSymbol(z) then Assign(w, env, x, y, f.MSetF? || f.TMSetF?, f.SetF? || f.MSetF?) else Stop(Failed)
      case _ => Stop(Failed)
    else Assign(w, env, x, y, f.MSetF? || f.TMSetF?, f.SetF? || f.MSetF?)
  }

  // The first clause whose test is not nil.
  function Cond(num: Numerals, k: nat, w: World, cs: Tree, env: Env): Result<(Tree, World)>
    decreases k, 1, cs
  {
    if cs.at == Nil then Ok((NIL, w)) else
    match cs
    case Fork(_, Fork(_, test, rest), others) =>
      if test.at == Nil then Stop(Failed) else
      var (v, w1) :- Interp(num, k, w, test, env);
      if v.at == Nil then Cond(num, k, w1, others, env)
      else
        var body :- Car(rest);
        Interp(num, k, w1, body, env)
    case _ => Stop(Failed)
  }

  function And(num: Numerals, k: nat, w: World, es: Tree, env: Env): Result<(Tree, World)>
    decreases k, 1, es
  {
    if es.at == Nil then Ok((T, w))
    else if es.Tip? then Stop(Failed)
    else
      var (v, w1) :- Interp(num, k, w, es.car, env);
      if v.at == Nil then Ok((NIL, w1)) else And(num, k, w1, es.cdr, env)
  }

  function Or(num: Numerals, k: nat, w: World, es: Tree, env: Env): Result<(Tree, World)>
    decreases k, 1, es
  {
    if es.at == Nil then Ok((NIL, w))
    else if es.Tip? then Stop(Failed)
    else
      var (v, w1) :- Interp(num, k, w, es.car, env);
      if v.at == Nil then Or(num, k, w1, es.cdr, env) else Ok((T, w1))
  }

  // Name or initial value of each binding, in reverse.
  function Elements(w: World, bs: Tree, second: bool, r: Tree): Result<(Tree, World)>
    decreases bs
  {
    if bs.at == Nil then Ok((r, w))
    else if bs.Tip? then Stop(Failed)
    else
      var x :- if second then Cadr(bs.car) else Car(bs.car);
      var (r1, w1) := Cons(w, x, r);
      Elements(w1, bs.cdr, second, r1)
  }

  // ((lambda (names ...) (progn . es)) values ...)
  function Let(num: Numerals, k: nat, w: World, bs: Tree, es: Tree, env: Env): Result<(Tree, World)>
    decreases k, 2
  {
    if bs.Tip? && bs.at != Nil then Stop(Failed) else
    var (names, w1) :- Elements(w, bs, false, NIL);
    var (values, w2) :- Elements(w1, bs, true, NIL);
    var (body, w3) := Cons(w2, PROGN, es);
    if names.at == Nil then Interp(num, k, w3, body, env)
    else if values.at == Nil then Stop(Failed)
    else
      var (b, w4) := Cons(w3, body, NIL);
      var (p, w5) := Cons(w4, names, b);
      var (l, w6) := Cons(w5, LAMBDA, p);
      var (e, w7) := Cons(w6, l, values);
      Interp(num, k, w7, e, env)
  }

  predicate AllForks(cs: Tree) {
    cs.at == Nil || (cs.Fork? && cs.car.Fork? && AllForks(cs.cdr))
  }

  // The expressions of the first clause that has the key.
  function Case(num: Numerals, k: nat, w: World, x: Tree, cs: Tree, env: Env): Result<(Tree, World)>
    decreases k, 2
  {
    if !AllForks(cs) then Stop(Failed) else
    var (key, w1) :- Interp(num, k, w, x, env);
    var (hit, w2) :- Search(num, k, w1, key, cs, env);
    if hit.at == Nil then Ok((NIL, w2)) else
    match hit
    case Fork(_, Fork(_, _, es), _) => Sequence(num, k, w2, es, env, NIL)
    case _ => Stop(Failed)
  }

  // The clauses from that one on.
  function Search(num: Numerals, k: nat, w: World, key: Tree, cs: Tree, env: Env): Result<(Tree, World)>
    decreases k, 1, cs, 1
  {
    if cs.at == Nil then Ok((NIL, w)) else
    match cs
    case Fork(_, Fork(_, x, _), others) =>
      var (found, w1) :- HasKey(num, k, w, key, x, env);
      if found then Ok((cs, w1)) else Search(num, k, w1, key, others, env)
    case _ => Stop(Failed)
  }

  function HasKey(num: Numerals, k: nat, w: World, key: Tree, x: Tree, env: Env): Result<(bool, World)>
    decreases k, 1, x, 1
  {
    match x
    case Tip(_, Sym("otherwise")) => Ok((true, w))
    case Tip(_, _) =>
      var (v, w1) :- Interp(num, k, w, x, env);
      Ok((Match(key, v), w1))
    case Fork(_, _, _) => Among(num, k, w, key, x, env)
  }

  function Among(num: Numerals, k: nat, w: World, key: Tree, xs: Tree, env: Env): Result<(bool, World)>
    decreases k, 1, xs, 0
  {
    if xs.at == Nil then Ok((false, w))
    else if xs.Tip? then Stop(Failed)
    else
      var (v, w1) :- Interp(num, k, w, xs.car, env);
      if Match(key, v) then Ok((true, w1)) else Among(num, k, w1, key, xs.cdr, env)
  }

  // As long as the test is not nil; every round counts as one more level of nesting.
  function While(num: Numerals, k: nat, w: World, test: Tree, es: Tree, env: Env): Result<(Tree, World)>
    decreases k, 2
  {
    var (v, w1) :- Interp(num, k, w, test, env);
    if v.at == Nil then Ok((T, w1)) else
    var (_, w2) :- Sequence(num, k, w1, es, env, NIL);
    if k == 0 then Stop(OutOfSteps) else While(num, k - 1, w2, test, es, env)
  }
}
