// What each form means, said of the values of its parts.
module Laws {
  import opened Interpreter
  import opened Values
  import opened Wrappers

  // ---------------------------------------------------------------- lists of trees

  ghost predicate IsList(t: Tree, xs: seq<Tree>)
    decreases |xs|
  {
    if xs == [] then t == NIL else t.at != Nil && t.Fork? && t.car == xs[0] && IsList(t.cdr, xs[1..])
  }

  // A tree without addresses.
  datatype Bare = One(atom: Atom) | Two(car: Bare, cdr: Bare)

  function Strip(t: Tree): Bare {
    match t
    case Tip(_, a) => One(a)
    case Fork(_, a, d) => Two(Strip(a), Strip(d))
  }

  // ---------------------------------------------------------------- names

  // No local variable has the name of x.
  ghost predicate NotLocal(env: Env, x: Tree) {
    x.Tip? && x.atom.Sym? &&
    forall l :: l in env ==> l.key.at != x.at && (l.key.Tip? ==> l.key.atom != x.atom)
  }

  // The symbol f names this function, in the table of the thread or the global one.
  ghost predicate Names(w: World, env: Env, f: Tree, atom: Atom) {
    && NotLocal(env, f)
    && var n := f.atom.name;
       if n in w.thread then !w.thread[n].macro && w.thread[n].value.Tip? && w.thread[n].value.atom == atom
       else n in w.global && !w.global[n].macro && w.global[n].value.Tip? && w.global[n].value.atom == atom
  }

  lemma {:induction false} NotFound(env: Env, x: Tree)
    requires NotLocal(env, x)
    ensures Find(env, x) == None
    decreases |env|
  {
    if env != [] {
      assert env[0] in env;
      NotFound(env[1..], x);
    }
  }

  lemma {:induction false} FoundAfter(pre: Env, l: Local, post: Env, x: Tree)
    requires NotLocal(pre, x) && l.key.Tip? && l.key.atom == x.atom
    ensures Find(pre + [l] + post, x) == Some(l)
    decreases |pre|
  {
    if pre != [] {
      assert pre[0] in pre;
      FoundAfter(pre[1..], l, post, x);
      assert (pre + [l] + post)[1..] == pre[1..] + [l] + post;
    }
  }

  // A symbol has the value of the innermost local variable of its name.
  lemma LocalLaw(num: Numerals, k: nat, w: World, x: Tree, pre: Env, l: Local, post: Env)
    requires k > 0 && NotLocal(pre, x) && l.key.Tip? && l.key.atom == x.atom && l.key.at !in w.macros
    requires l.place in w.store
    ensures Interp(num, k, w, x, pre + [l] + post) == Ok((w.store[l.place], w))
  {
    FoundAfter(pre, l, post, x);
  }

  // Without one, that of the thread's table, then of the global one, then a number.
  lemma GlobalLaw(num: Numerals, k: nat, w: World, x: Tree, env: Env)
    requires k > 0 && NotLocal(env, x)
    ensures var n := x.atom.name;
            && (n in w.thread && !w.thread[n].macro ==> Interp(num, k, w, x, env) == Ok((w.thread[n].value, w)))
            && (n !in w.thread && n in w.global && !w.global[n].macro ==>
                  Interp(num, k, w, x, env) == Ok((w.global[n].value, w)))
            && (n !in w.thread && n !in w.global ==>
                  if num(n).Some? then
                    Interp(num, k, w, x, env).Ok? &&
                    Strip(Interp(num, k, w, x, env).value.0) == One(Number(num(n).value))
                  else Interp(num, k, w, x, env) == Stop(Failed))
  {
    NotFound(env, x);
  }

  lemma FunctionFound(num: Numerals, w: World, env: Env, f: Tree, atom: Atom)
    requires Names(w, env, f, atom)
    ensures exists r: Tree :: r.Tip? && r.atom == atom && Lookup(num, w, env, f, f.atom.name) == Ok((r, false, w))
  {
    NotFound(env, f);
    var n := f.atom.name;
    var r := if n in w.thread then w.thread[n].value else w.global[n].value;
    assert r.Tip? && r.atom == atom && Lookup(num, w, env, f, n) == Ok((r, false, w));
  }

  // ---------------------------------------------------------------- expressions in turn

  // The expressions xs have the values vs, one after the other, from ws[0] on.
  ghost predicate InTurn(num: Numerals, k: nat, xs: seq<Tree>, env: Env, ws: seq<World>, vs: seq<Tree>) {
    |ws| == |xs| + 1 && |vs| == |xs| &&
    forall i :: 0 <= i < |xs| ==> Interp(num, k, ws[i], xs[i], env) == Ok((vs[i], ws[i + 1]))
  }

  lemma TurnLength(num: Numerals, k: nat, xs: seq<Tree>, env: Env, ws: seq<World>, vs: seq<Tree>)
    requires InTurn(num, k, xs, env, ws, vs)
    ensures |ws| == |xs| + 1 && |vs| == |xs|
  {}

  lemma TurnRest(num: Numerals, k: nat, xs: seq<Tree>, env: Env, ws: seq<World>, vs: seq<Tree>)
    requires InTurn(num, k, xs, env, ws, vs) && xs != []
    ensures InTurn(num, k, xs[1..], env, ws[1..], vs[1..])
    ensures Interp(num, k, ws[0], xs[0], env) == Ok((vs[0], ws[1]))
  {
    forall i | 0 <= i < |xs| - 1
      ensures Interp(num, k, ws[1..][i], xs[1..][i], env) == Ok((vs[1..][i], ws[1..][i + 1]))
    {
      assert Interp(num, k, ws[i + 1], xs[i + 1], env) == Ok((vs[i + 1], ws[i + 1 + 1]));
    }
  }

  // The world after n more allocations.
  function Past(w: World, n: nat): World {
    w.(next := w.next + n)
  }

  lemma {:induction false} ListLength(t: Tree, xs: seq<Tree>)
    requires IsList(t, xs)
    ensures Length(t) == |xs| == Pairs(t)
    decreases |xs|
  {
    if xs == [] {
    } else {
      ListLength(t.cdr, xs[1..]);
    }
  }

  lemma {:induction false} ArgumentValues(num: Numerals, k: nat, args: Tree, xs: seq<Tree>, env: Env, ws: seq<World>,
      vs: seq<Tree>) returns (list: Tree)
    requires IsList(args, xs) && InTurn(num, k, xs, env, ws, vs)
    ensures ValuesOf(num, k, ws[0], args, env) == Ok((list, Past(ws[|xs|], |xs|)))
    ensures IsList(list, vs) && (|xs| > 0 ==> list.Fork?)
    decreases |xs|
  {
    hide Interp;
    if xs == [] {
      list := NIL;
    } else {
      TurnRest(num, k, xs, env, ws, vs);
      var rest := ArgumentValues(num, k, args.cdr, xs[1..], env, ws[1..], vs[1..]);
      list := Cons(Past(ws[|xs|], |xs| - 1), vs[0], rest).0;
    }
  }

  // e is a form whose function f names the atom, and whose arguments xs have the values
  // vs, from ws[0] on.
  ghost predicate Calls(num: Numerals, k: nat, e: Tree, atom: Atom, xs: seq<Tree>, env: Env, ws: seq<World>,
                        vs: seq<Tree>)
  {
    e.Fork? && IsList(e.cdr, xs) && InTurn(num, k, xs, env, ws, vs) && Names(ws[0], env, e.car, atom)
  }

  lemma NativeCall(num: Numerals, k: nat, e: Tree, nf: Native, xs: seq<Tree>, env: Env, ws: seq<World>, vs: seq<Tree>)
    returns (list: Tree)
    requires Calls(num, k, e, NFunc(nf), xs, env, ws, vs)
    ensures Interp(num, k + 1, ws[0], e, env) == RunNative(num, k, Past(ws[|xs|], |xs|), nf, list, env)
    ensures IsList(list, vs) && Length(list) == |vs| && (|xs| > 0 ==> list.Fork?)
  {
    hide Interp, RunNative, ValuesOf, Lookup;
    FunctionFound(num, ws[0], env, e.car, NFunc(nf));
    list := ArgumentValues(num, k, e.cdr, xs, env, ws, vs);
    ListLength(list, vs);
    Unfold(num, k, ws[0], e, env);
  }

  lemma SpecialCall(num: Numerals, k: nat, w: World, e: Tree, sf: Special, env: Env)
    requires e.Fork? && Names(w, env, e.car, SFunc(sf))
    ensures Interp(num, k + 1, w, e, env) == RunSpecial(num, k, w, sf, e.cdr, env)
  {
    hide Interp, RunSpecial, Lookup;
    FunctionFound(num, w, env, e.car, SFunc(sf));
    Unfold(num, k, w, e, env);
  }

  lemma Unfold(num: Numerals, k: nat, w: World, e: Tree, env: Env)
    requires e.Fork?
    ensures Interp(num, k + 1, w, e, env) == Apply(num, k, w, e.car, e.cdr, env)
  {
    hide Apply;
  }

  // ---------------------------------------------------------------- functions on values

  // quote: the argument as it stands
  lemma QuoteLaw(num: Numerals, k: nat, w: World, e: Tree, x: Tree, env: Env)
    requires e.Fork? && Names(w, env, e.car, SFunc(QuoteF)) && IsList(e.cdr, [x])
    ensures Interp(num, k + 1, w, e, env) == Ok((x, w))
  {
    hide Interp, Names;
    SpecialCall(num, k, w, e, QuoteF, env);
    ListLength(e.cdr, [x]);
  }

  lemma OneLaw(num: Numerals, k: nat, e: Tree, nf: Native, x: Tree, env: Env, ws: seq<World>, v: Tree)
    requires Calls(num, k, e, NFunc(nf), [x], env, ws, [v])
    ensures var r, w := Interp(num, k + 1, ws[0], e, env), Past(ws[1], 1);
            match nf
            case CarF => r == if v.Fork? then Ok((v.car, w)) else Stop(Failed)
            case CdrF => r == if v.Fork? then Ok((v.cdr, w)) else Stop(Failed)
            case AtomF => r == Ok((if v.Tip? then T else NIL, w))
            case NullF => r == Ok((if v.at == Nil then T else NIL, w))
            case EvalF => r == Interp(num, k, w, v, env)
            case _ => true
  {
    hide Interp, Names;
    var list := NativeCall(num, k, e, nf, [x], env, ws, [v]);
    assert ws[|[x]|] == ws[1];
  }

  lemma TwoLaw(num: Numerals, k: nat, e: Tree, nf: Native, x: Tree, y: Tree, env: Env, ws: seq<World>, u: Tree, v: Tree)
    requires Calls(num, k, e, NFunc(nf), [x, y], env, ws, [u, v])
    ensures var r, w := Interp(num, k + 1, ws[0], e, env), Past(ws[2], 2);
            match nf
            case ConsF => r == Ok((Fork(Cell(w.next), u, v), Past(w, 1)))
            case EqF => r == Ok((if u.at == v.at then T else NIL, w))
            case EqualF => r == Ok((if Match(u, v) then T else NIL, w))
            case _ => true
  {
    hide Interp, Names, Match;
    var list := NativeCall(num, k, e, nf, [x, y], env, ws, [u, v]);
    assert [u, v][1..] == [v] && ws[|[x, y]|] == ws[2];
    assert IsList(list.cdr, [v]);
  }

  lemma {:induction false} ListCopied(w: World, t: Tree, xs: seq<Tree>)
    requires IsList(t, xs)
    ensures var p := CopyList(w, t); p.Ok? && IsList(p.value.0, xs) && p.value.1 == Past(w, |xs|)
    decreases |xs|
  {
    if xs != [] { ListCopied(w, t.cdr, xs[1..]); }
  }

  // list: the values, in a new list
  lemma ListLaw(num: Numerals, k: nat, e: Tree, xs: seq<Tree>, env: Env, ws: seq<World>, vs: seq<Tree>)
    requires Calls(num, k, e, NFunc(ListF), xs, env, ws, vs) && |xs| <= 9999
    ensures var r := Interp(num, k + 1, ws[0], e, env); r.Ok? && IsList(r.value.0, vs)
  {
    hide Interp, Names;
    var list := NativeCall(num, k, e, ListF, xs, env, ws, vs);
    ListCopied(Past(ws[|xs|], |xs|), list, vs);
  }

  function PartsOf(t: Tree): set<Tree> {
    match t
    case Tip(_, _) => {t}
    case Fork(_, a, d) => {t} + PartsOf(a) + PartsOf(d)
  }

  // An address has one tree below it, and nil one address: so it is in every heap.
  ghost predicate Coherent(x: Tree, y: Tree) {
    && (forall p, q :: p in PartsOf(x) && q in PartsOf(y) && p.at == q.at ==> p == q)
    && (forall p :: p in PartsOf(x) + PartsOf(y) && p.Tip? && p.atom.NilAtom? ==> p.at == Nil)
  }

  lemma {:induction false} CoherentParts(x: Tree, y: Tree)
    requires Coherent(x, y)
    ensures x.Fork? && y.Fork? ==> Coherent(x.car, y.car) && Coherent(x.cdr, y.cdr)
    ensures x.at == y.at ==> x == y
    ensures x.Tip? && x.atom.NilAtom? ==> x.at == Nil
    ensures y.Tip? && y.atom.NilAtom? ==> y.at == Nil
  {
    assert x in PartsOf(x) && y in PartsOf(y);
  }

  // equal compares values without their addresses.
  lemma {:induction false} EqualLaw(x: Tree, y: Tree)
    requires Coherent(x, y)
    ensures Match(x, y) <==> Strip(x) == Strip(y)
    decreases x
  {
    hide Coherent;
    CoherentParts(x, y);
    if x.Fork? && y.Fork? {
      EqualLaw(x.car, y.car);
      EqualLaw(x.cdr, y.cdr);
    }
  }

  // ---------------------------------------------------------------- control

  // A clause (test body ...)
  ghost predicate Clause(c: Tree, test: Tree, body: Tree) {
    c.Fork? && c.car == test && test.at != Nil && c.cdr.Fork? && c.cdr.car == body
  }

  // x, evaluated in u, is nil or not, and leaves the world u'.
  ghost predicate GoesOn(num: Numerals, k: nat, u: World, x: Tree, env: Env, u': World, isNil: bool) {
    var r := Interp(num, k, u, x, env);
    r.Ok? && (r.value.0.at == Nil) == isNil && r.value.1 == u'
  }

  // The tests before the j-th are nil, from us[0] on.
  ghost predicate AllNil(num: Numerals, k: nat, tests: seq<Tree>, env: Env, us: seq<World>, j: nat) {
    j <= |tests| && j < |us| &&
    forall i :: 0 <= i < j ==> GoesOn(num, k, us[i], tests[i], env, us[i + 1], true)
  }

  lemma {:induction false} CondRuns(num: Numerals, k: nat, cs: Tree, clauses: seq<Tree>, tests: seq<Tree>,
      bodies: seq<Tree>, env: Env, us: seq<World>, j: nat)
    requires IsList(cs, clauses) && |clauses| == |tests| == |bodies|
    requires forall i :: 0 <= i < |clauses| ==> Clause(clauses[i], tests[i], bodies[i])
    requires AllNil(num, k, tests, env, us, j)
    ensures j == |clauses| ==> Cond(num, k, us[0], cs, env) == Ok((NIL, us[j]))
    ensures j < |clauses| ==>
              var r := Interp(num, k, us[j], tests[j], env);
              (r.Stop? ==> Cond(num, k, us[0], cs, env) == Stop(r.why)) &&
              (r.Ok? && r.value.0.at != Nil ==>
                 Cond(num, k, us[0], cs, env) == Interp(num, k, r.value.1, bodies[j], env))
    decreases j
  {
    hide Interp;
    if j > 0 {
      assert GoesOn(num, k, us[0], tests[0], env, us[0 + 1], true);
      assert Clause(clauses[0], tests[0], bodies[0]);
      assert forall i :: 0 <= i < |clauses| - 1 ==> Clause(clauses[1..][i], tests[1..][i], bodies[1..][i]);
      forall i | 0 <= i < j - 1
        ensures GoesOn(num, k, us[1..][i], tests[1..][i], env, us[1..][i + 1], true)
      {
        assert GoesOn(num, k, us[i + 1], tests[i + 1], env, us[i + 1 + 1], true);
      }
      CondRuns(num, k, cs.cdr, clauses[1..], tests[1..], bodies[1..], env, us[1..], j - 1);
    } else if clauses != [] {
      assert Clause(clauses[0], tests[0], bodies[0]);
    }
  }

  // f-cond: the body of the first clause whose test is not nil; nil without one.
  lemma CondLaw(num: Numerals, k: nat, e: Tree, xs: seq<Tree>, env: Env, ws: seq<World>, clauses: seq<Tree>,
      tests: seq<Tree>, bodies: seq<Tree>, us: seq<World>, j: nat)
    requires Calls(num, k, e, NFunc(CondF), xs, env, ws, clauses) && 1 <= |xs| <= 9999
    requires |clauses| == |tests| == |bodies|
    requires forall i :: 0 <= i < |clauses| ==> Clause(clauses[i], tests[i], bodies[i])
    requires AllNil(num, k, tests, env, us, j) && us[0] == Past(ws[|xs|], |xs|)
    ensures j == |clauses| ==> Interp(num, k + 1, ws[0], e, env) == Ok((NIL, us[j]))
    ensures j < |clauses| ==>
              var r := Interp(num, k, us[j], tests[j], env);
              (r.Stop? ==> Interp(num, k + 1, ws[0], e, env) == Stop(r.why)) &&
              (r.Ok? && r.value.0.at != Nil ==>
                 Interp(num, k + 1, ws[0], e, env) == Interp(num, k, r.value.1, bodies[j], env))
  {
    hide Interp, Names, Clause, Cond, AllNil;
    var list := NativeCall(num, k, e, CondF, xs, env, ws, clauses);
    CondRuns(num, k, list, clauses, tests, bodies, env, us, j);
  }

  lemma {:induction false} OrRuns(num: Numerals, k: nat, t: Tree, xs: seq<Tree>, env: Env, us: seq<World>, j: nat)
    requires IsList(t, xs) && AllNil(num, k, xs, env, us, j)
    ensures j == |xs| ==> Or(num, k, us[0], t, env) == Ok((NIL, us[j]))
    ensures j < |xs| ==>
              var r := Interp(num, k, us[j], xs[j], env);
              (r.Stop? ==> Or(num, k, us[0], t, env) == Stop(r.why)) &&
              (r.Ok? && r.value.0.at != Nil ==> Or(num, k, us[0], t, env) == Ok((T, r.value.1)))
    decreases j
  {
    hide Interp;
    if j > 0 {
      assert GoesOn(num, k, us[0], xs[0], env, us[0 + 1], true);
      forall i | 0 <= i < j - 1
        ensures GoesOn(num, k, us[1..][i], xs[1..][i], env, us[1..][i + 1], true)
      {
        assert GoesOn(num, k, us[i + 1], xs[i + 1], env, us[i + 1 + 1], true);
      }
      OrRuns(num, k, t.cdr, xs[1..], env, us[1..], j - 1);
    }
  }

  // f-or: t as soon as an expression is not nil
  lemma OrLaw(num: Numerals, k: nat, e: Tree, xs: seq<Tree>, env: Env, ws: seq<World>, es: seq<Tree>, us: seq<World>,
      j: nat)
    requires Calls(num, k, e, NFunc(OrF), xs, env, ws, es) && 1 <= |xs| <= 9999
    requires AllNil(num, k, es, env, us, j) && us[0] == Past(ws[|xs|], |xs|)
    ensures j == |es| ==> Interp(num, k + 1, ws[0], e, env) == Ok((NIL, us[j]))
    ensures j < |es| ==>
              var r := Interp(num, k, us[j], es[j], env);
              (r.Stop? ==> Interp(num, k + 1, ws[0], e, env) == Stop(r.why)) &&
              (r.Ok? && r.value.0.at != Nil ==> Interp(num, k + 1, ws[0], e, env) == Ok((T, r.value.1)))
  {
    hide Interp, Names, Or, AllNil;
    var list := NativeCall(num, k, e, OrF, xs, env, ws, es);
    OrRuns(num, k, list, es, env, us, j);
  }

  // The expressions before the j-th are not nil, from us[0] on.
  ghost predicate NoneNil(num: Numerals, k: nat, xs: seq<Tree>, env: Env, us: seq<World>, j: nat) {
    j <= |xs| && j < |us| &&
    forall i :: 0 <= i < j ==> GoesOn(num, k, us[i], xs[i], env, us[i + 1], false)
  }

  lemma {:induction false} AndRuns(num: Numerals, k: nat, t: Tree, xs: seq<Tree>, env: Env, us: seq<World>, j: nat)
    requires IsList(t, xs) && NoneNil(num, k, xs, env, us, j)
    ensures j == |xs| ==> And(num, k, us[0], t, env) == Ok((T, us[j]))
    ensures j < |xs| ==>
              var r := Interp(num, k, us[j], xs[j], env);
              (r.Stop? ==> And(num, k, us[0], t, env) == Stop(r.why)) &&
              (r.Ok? && r.value.0.at == Nil ==> And(num, k, us[0], t, env) == Ok((NIL, r.value.1)))
    decreases j
  {
    hide Interp;
    if j > 0 {
      assert GoesOn(num, k, us[0], xs[0], env, us[0 + 1], false);
      forall i | 0 <= i < j - 1
        ensures GoesOn(num, k, us[1..][i], xs[1..][i], env, us[1..][i + 1], false)
      {
        assert GoesOn(num, k, us[i + 1], xs[i + 1], env, us[i + 1 + 1], false);
      }
      AndRuns(num, k, t.cdr, xs[1..], env, us[1..], j - 1);
    }
  }

  // f-and: nil as soon as an expression is nil
  lemma AndLaw(num: Numerals, k: nat, e: Tree, xs: seq<Tree>, env: Env, ws: seq<World>, es: seq<Tree>, us: seq<World>,
      j: nat)
    requires Calls(num, k, e, NFunc(AndF), xs, env, ws, es) && 1 <= |xs| <= 9999
    requires NoneNil(num, k, es, env, us, j) && us[0] == Past(ws[|xs|], |xs|)
    ensures j == |es| ==> Interp(num, k + 1, ws[0], e, env) == Ok((T, us[j]))
    ensures j < |es| ==>
              var r := Interp(num, k, us[j], es[j], env);
              (r.Stop? ==> Interp(num, k + 1, ws[0], e, env) == Stop(r.why)) &&
              (r.Ok? && r.value.0.at == Nil ==> Interp(num, k + 1, ws[0], e, env) == Ok((NIL, r.value.1)))
  {
    hide Interp, Names, And, NoneNil;
    var list := NativeCall(num, k, e, AndF, xs, env, ws, es);
    AndRuns(num, k, list, es, env, us, j);
  }

  lemma {:induction false} SequenceRuns(num: Numerals, k: nat, t: Tree, xs: seq<Tree>, env: Env, ws: seq<World>,
      vs: seq<Tree>, last: Tree)
    requires IsList(t, xs) && InTurn(num, k, xs, env, ws, vs)
    ensures Sequence(num, k, ws[0], t, env, last) == Ok((if xs == [] then last else vs[|xs| - 1], ws[|xs|]))
    decreases |xs|
  {
    hide Interp;
    if xs != [] {
      TurnRest(num, k, xs, env, ws, vs);
      SequenceRuns(num, k, t.cdr, xs[1..], env, ws[1..], vs[1..], vs[0]);
    }
  }

  // progn: the value of the last one
  lemma PrognLaw(num: Numerals, k: nat, e: Tree, xs: seq<Tree>, env: Env, ws: seq<World>, vs: seq<Tree>)
    requires Calls(num, k, e, SFunc(PrognF), xs, env, ws, vs) && 1 <= |xs| <= 9999
    ensures Interp(num, k + 1, ws[0], e, env) == Ok((vs[|xs| - 1], ws[|xs|]))
  {
    hide Interp, Names, Sequence;
    SpecialCall(num, k, ws[0], e, PrognF, env);
    ListLength(e.cdr, xs);
    SequenceRuns(num, k, e.cdr, xs, env, ws, vs, NIL);
  }

  // f-while: rounds of the body as long as the test is not nil, then t. A round starts in
  // us[i], and its body in ts[i].
  ghost predicate Rounds(num: Numerals, k: nat, test: Tree, body: seq<Tree>, env: Env, us: seq<World>, ts: seq<World>,
                         n: nat)
  {
    n <= k && |us| == n + 1 && |ts| == n &&
    forall i :: 0 <= i < n ==> Round(num, k - i, test, body, env, us[i], ts[i], us[i + 1])
  }

  ghost predicate Round(num: Numerals, k: nat, test: Tree, body: seq<Tree>, env: Env, u: World, t: World, u': World) {
    var r := Interp(num, k, u, test, env);
    r.Ok? && r.value.0.at != Nil && r.value.1 == t && k > 0 &&
    exists ws, vs :: InTurn(num, k, body, env, ws, vs) && ws[0] == t && ws[|body|] == u'
  }

  lemma {:induction false} WhileRuns(num: Numerals, k: nat, test: Tree, t: Tree, body: seq<Tree>, env: Env,
      us: seq<World>, ts: seq<World>, n: nat)
    requires IsList(t, body) && Rounds(num, k, test, body, env, us, ts, n)
    ensures var r := Interp(num, k - n, us[n], test, env);
            r.Ok? && r.value.0.at == Nil ==> While(num, k, us[0], test, t, env) == Ok((T, r.value.1))
    decreases n
  {
    hide Interp;
    if n > 0 {
      assert Round(num, k - 0, test, body, env, us[0], ts[0], us[1]);
      var ws, vs :| InTurn(num, k, body, env, ws, vs) && ws[0] == ts[0] && ws[|body|] == us[1];
      SequenceRuns(num, k, t, body, env, ws, vs, NIL);
      forall i | 0 <= i < n - 1
        ensures Round(num, k - 1 - i, test, body, env, us[1..][i], ts[1..][i], us[1..][i + 1])
      {
        assert Round(num, k - (i + 1), test, body, env, us[i + 1], ts[i + 1], us[i + 1 + 1]);
      }
      WhileRuns(num, k - 1, test, t, body, env, us[1..], ts[1..], n - 1);
    }
  }

  lemma WhileLaw(num: Numerals, k: nat, e: Tree, xs: seq<Tree>, env: Env, ws: seq<World>, test: Tree, body: seq<Tree>,
      us: seq<World>, ts: seq<World>, n: nat)
    requires Calls(num, k, e, NFunc(WhileF), xs, env, ws, [test] + body) && 2 <= |xs| <= 9999
    requires Rounds(num, k, test, body, env, us, ts, n) && us[0] == Past(ws[|xs|], |xs|)
    ensures var r := Interp(num, k - n, us[n], test, env);
            r.Ok? && r.value.0.at == Nil ==> Interp(num, k + 1, ws[0], e, env) == Ok((T, r.value.1))
  {
    hide Interp, Names, While, Rounds;
    var list := NativeCall(num, k, e, WhileF, xs, env, ws, [test] + body);
    assert ([test] + body)[1..] == body;
    WhileRuns(num, k, test, list.cdr, body, env, us, ts, n);
  }
}
