// What the lambda and macro forms, the assignments, f-let and f-case mean, said of the
// values of their parts.
module FormLaws {
  import opened Interpreter
  import opened Laws
  import opened Values
  import opened Wrappers

  // ---------------------------------------------------------------- parameters

  // (name params body ...)
  ghost predicate Form(t: Tree, name: string, params: Tree, body: Tree) {
    && t.Fork? && t.car.Tip? && t.car.atom == Sym(name)
    && t.cdr.Fork? && t.cdr.car == params && t.cdr.cdr.Fork? && t.cdr.cdr.car == body
  }

  // The places of the variables are older than the next allocation.
  ghost predicate Placed(w: World) {
    forall id :: id in w.store ==> id < w.next
  }

  ghost predicate SameTables(w: World, u: World) {
    u.thread == w.thread && u.global == w.global && u.macros == w.macros
  }

  // The frame gives every parameter its value in a new place of its own; u is w otherwise.
  ghost predicate Framed(w: World, u: World, ps: seq<Tree>, vs: seq<Tree>, frame: Env) {
    && |frame| == |ps| == |vs|
    && (forall i :: 0 <= i < |ps| ==> HasPlace(w, u, ps[i], vs[i], frame[i]))
    && (forall i, j :: 0 <= i < j < |ps| ==> frame[i].place != frame[j].place)
    && (forall id :: id in w.store ==> id in u.store && u.store[id] == w.store[id])
    && SameTables(w, u) && Placed(u) && w.next <= u.next
  }

  ghost predicate HasPlace(w: World, u: World, p: Tree, v: Tree, l: Local) {
    l.key == p && w.next <= l.place && l.place in u.store && u.store[l.place] == v
  }

  lemma FrameExtended(w: World, w1: World, u: World, p: Tree, v: Tree, l: Local, ps: seq<Tree>, vs: seq<Tree>,
      frame: Env)
    requires Framed(w, w1, [p], [v], [l]) && Framed(w1, u, ps, vs, frame)
    ensures Framed(w, u, [p] + ps, [v] + vs, [l] + frame)
  {
    assert HasPlace(w, w1, [p][0], [v][0], [l][0]);
    forall i | 0 <= i < |ps| + 1
      ensures HasPlace(w, u, ([p] + ps)[i], ([v] + vs)[i], ([l] + frame)[i])
    {
      if i > 0 { assert HasPlace(w1, u, ps[i - 1], vs[i - 1], frame[i - 1]); }
    }
    forall i, j | 0 <= i < j < |ps| + 1 ensures ([l] + frame)[i].place != ([l] + frame)[j].place {
      assert HasPlace(w1, u, ps[j - 1], vs[j - 1], frame[j - 1]);
    }
  }

  lemma BindFrames(w: World, p: Tree, v: Tree)
    requires Placed(w)
    ensures var (l, u) := Bind(w, p, v); Framed(w, u, [p], [v], [l])
  {}

  lemma FrameSkips(w: World, u: World, ps: seq<Tree>, vs: seq<Tree>, frame: Env, n: nat)
    requires Framed(w, u, ps, vs, frame)
    ensures Framed(w, Skip(u, n), ps, vs, frame)
  {
    forall i | 0 <= i < |ps| ensures HasPlace(w, Skip(u, n), ps[i], vs[i], frame[i]) {
      assert HasPlace(w, u, ps[i], vs[i], frame[i]);
    }
  }

  lemma NoFrame(w: World)
    requires Placed(w)
    ensures Framed(w, w, [], [], [])
  {}

  lemma FrameShape(w: World, u: World, ps: seq<Tree>, vs: seq<Tree>, frame: Env)
    requires Framed(w, u, ps, vs, frame)
    ensures Placed(u) && |frame| == |ps| == |vs| && SameTables(w, u)
    ensures forall id :: id in w.store ==> id in u.store && u.store[id] == w.store[id]
  {}

  lemma {:induction false} BindRuns(w: World, params: Tree, values: Tree, ps: seq<Tree>, vs: seq<Tree>)
    requires IsList(params, ps) && IsList(values, vs) && Placed(w)
    ensures var p := BindAll(w, params, values);
            if |ps| == |vs| then p.Ok? && Framed(w, p.value.1, ps, vs, p.value.0) else p == Stop(Failed)
    decreases |ps|
  {
    hide Framed, Bind, Skip, Placed;
    if ps == [] || vs == [] {
      NoFrame(w);
    } else {
      var (l, w1) := Bind(w, ps[0], vs[0]);
      BindFrames(w, ps[0], vs[0]);
      FrameShape(w, w1, [ps[0]], [vs[0]], [l]);
      BindRuns(w1, params.cdr, values.cdr, ps[1..], vs[1..]);
      var p := BindAll(w1, params.cdr, values.cdr);
      if |ps| == |vs| {
        FrameExtended(w, w1, p.value.1, ps[0], vs[0], l, ps[1..], vs[1..], p.value.0);
        FrameSkips(w, p.value.1, [ps[0]] + ps[1..], [vs[0]] + vs[1..], [l] + p.value.0, 1);
        assert [ps[0]] + ps[1..] == ps && [vs[0]] + vs[1..] == vs;
      }
    }
  }

  // ---------------------------------------------------------------- lambda forms

  // lambda: the body, with every parameter bound to the value of its argument
  lemma LambdaLaw(num: Numerals, k: nat, e: Tree, params: Tree, body: Tree, ps: seq<Tree>, xs: seq<Tree>, env: Env,
      ws: seq<World>, vs: seq<Tree>) returns (frame: Env, u: World)
    requires e.Fork? && Form(e.car, "lambda", params, body) && IsList(params, ps)
    requires IsList(e.cdr, xs) && InTurn(num, k, xs, env, ws, vs) && Placed(ws[|xs|])
    ensures |ps| != |xs| ==> Interp(num, k + 1, ws[0], e, env) == Stop(Failed)
    ensures |ps| == |xs| ==>
              && Framed(ws[|xs|], u, ps, vs, frame)
              && Interp(num, k + 1, ws[0], e, env) == Interp(num, k, u, body, frame + env)
  {
    hide Interp, Framed, ValuesOf, BindAll, InTurn, IsList;
    TurnLength(num, k, xs, env, ws, vs);
    Unfold(num, k, ws[0], e, env);
    var list := ArgumentValues(num, k, e.cdr, xs, env, ws, vs);
    var w := Past(ws[|xs|], |xs|);
    BindRuns(w, params, list, ps, vs);
    var p := BindAll(w, params, list);
    frame, u := [], w;
    if |ps| == |xs| {
      frame, u := p.value.0, Skip(p.value.1, |p.value.0|);
      FrameSkips(w, p.value.1, ps, vs, frame, |frame|);
      FrameEarlier(ws[|xs|], w, u, ps, vs, frame);
    }
  }

  lemma FrameEarlier(w0: World, w: World, u: World, ps: seq<Tree>, vs: seq<Tree>, frame: Env)
    requires Framed(w, u, ps, vs, frame) && SameTables(w0, w) && w0.store == w.store && w0.next <= w.next
    ensures Framed(w0, u, ps, vs, frame)
  {
    forall i | 0 <= i < |ps| ensures HasPlace(w0, u, ps[i], vs[i], frame[i]) {
      assert HasPlace(w, u, ps[i], vs[i], frame[i]);
    }
  }

  // In the body a parameter stands for the value of its argument.
  lemma ParameterLaw(num: Numerals, k: nat, w: World, u: World, ps: seq<Tree>, vs: seq<Tree>, frame: Env, env: Env,
      x: Tree, i: nat)
    requires k > 0 && Framed(w, u, ps, vs, frame) && i < |ps|
    requires ps[i].Tip? && x.Tip? && x.atom.Sym? && ps[i].atom == x.atom && ps[i].at !in w.macros
    requires forall j :: 0 <= j < i ==> ps[j].at != x.at && (ps[j].Tip? ==> ps[j].atom != x.atom)
    ensures Interp(num, k, u, x, frame + env) == Ok((vs[i], u))
  {
    hide Interp;
    assert HasPlace(w, u, ps[i], vs[i], frame[i]);
    assert NotLocal(frame[..i], x) by {
      forall l | l in frame[..i] ensures l.key.at != x.at && (l.key.Tip? ==> l.key.atom != x.atom) {
        var j :| 0 <= j < i && frame[j] == l;
        assert HasPlace(w, u, ps[j], vs[j], frame[j]);
      }
    }
    assert frame[..i] + [frame[i]] + (frame[i + 1..] + env) == frame + env;
    LocalLaw(num, k, u, x, frame[..i], frame[i], frame[i + 1..] + env);
  }

  // label: the body in the place of the form, with the name bound to the whole form
  lemma LabelLaw(num: Numerals, k: nat, w: World, e: Tree, name: Tree, body: Tree, env: Env)
    returns (l: Local, u: World)
    requires e.Fork? && Form(e.car, "label", name, body) && Placed(w)
    ensures if name.Tip? && name.atom.Sym? then
              && Framed(w, u, [name], [e.car], [l])
              && Interp(num, k + 1, w, e, env) == Interp(num, k, u, Fork(Cell(w.next), body, e.cdr), [l] + env)
            else Interp(num, k + 1, w, e, env) == Stop(Failed)
  {
    hide Interp, Framed;
    Unfold(num, k, w, e, env);
    var w1 := Past(w, 1);
    var (l1, w2) := Bind(w1, name, e.car);
    l, u := l1, Skip(w2, 1);
    BindFrames(w1, name, e.car);
    FrameSkips(w1, w2, [name], [e.car], [l], 1);
    FrameEarlier(w, w1, u, [name], [e.car], [l]);
  }

  // flabel: as lambda, without the variables around it, the name being bound to the form
  // and marked as a macro
  lemma FlabelLaw(num: Numerals, k: nat, w: World, e: Tree, name: Tree, rest: Tree, params: Tree, body: Tree,
      ps: seq<Tree>, xs: seq<Tree>, env: Env, ws: seq<World>, vs: seq<Tree>) returns (frame: Env, u: World)
    requires e.Fork? && Form(e.car, "flabel", name, params)
    requires e.car.cdr.cdr.cdr == rest && rest.Fork? && rest.car == body
    requires name.Tip? && name.atom.Sym? && IsList(params, ps) && IsList(e.cdr, xs)
    requires InTurn(num, k, xs, env, ws, vs) && Placed(ws[|xs|]) && ws[0] == w.(macros := w.macros + {name.at})
    ensures |ps| != |xs| ==> Interp(num, k + 1, w, e, env) == Stop(Failed)
    ensures |ps| == |xs| ==>
              && frame != [] && Framed(ws[|xs|], u, ps + [name], vs + [e.car], frame[1..] + frame[..1])
              && Interp(num, k + 1, w, e, env) == Interp(num, k, u, body, frame)
  {
    hide Interp, Framed, ValuesOf, BindAll, InTurn, IsList;
    Unfold(num, k, w, e, env);
    TurnLength(num, k, xs, env, ws, vs);
    var list := ArgumentValues(num, k, e.cdr, xs, env, ws, vs);
    var w1 := Past(ws[|xs|], |xs|);
    BindRuns(w1, params, list, ps, vs);
    var p := BindAll(w1, params, list);
    frame, u := [], w;
    if |ps| == |xs| {
      FrameShape(w1, p.value.1, ps, vs, p.value.0);
      var (l, w2) := Bind(p.value.1, name, e.car);
      frame, u := [l] + p.value.0, Skip(w2, 1);
      BindFrames(p.value.1, name, e.car);
      FrameJoined(w1, p.value.1, w2, ps, vs, p.value.0, name, e.car, l);
      FrameSkips(w1, w2, ps + [name], vs + [e.car], p.value.0 + [l], 1);
      FrameEarlier(ws[|xs|], w1, u, ps + [name], vs + [e.car], p.value.0 + [l]);
      assert frame[1..] + frame[..1] == p.value.0 + [l];
    }
  }

  lemma FrameJoined(w: World, w1: World, u: World, ps: seq<Tree>, vs: seq<Tree>, frame: Env, p: Tree, v: Tree,
      l: Local)
    requires Framed(w, w1, ps, vs, frame) && Framed(w1, u, [p], [v], [l])
    ensures Framed(w, u, ps + [p], vs + [v], frame + [l])
  {
    assert HasPlace(w1, u, [p][0], [v][0], [l][0]);
    forall i | 0 <= i < |ps| + 1
      ensures HasPlace(w, u, (ps + [p])[i], (vs + [v])[i], (frame + [l])[i])
    {
      if i < |ps| { assert HasPlace(w, w1, ps[i], vs[i], frame[i]); }
    }
    forall i, j | 0 <= i < j < |ps| + 1 ensures (frame + [l])[i].place != (frame + [l])[j].place {
      assert HasPlace(w, w1, ps[i], vs[i], frame[i]);
    }
  }

  // A form in the place of a function that is none of these is evaluated first.
  lemma HeadLaw(num: Numerals, k: nat, w: World, e: Tree, env: Env)
    requires e.Fork? && e.car.Fork? && e.car.car.Tip? && e.car.car.atom.Sym?
    requires e.car.car.atom.name !in {"lambda", "mlambda", "label", "flabel"}
    ensures match Interp(num, k, w, e.car, env)
            case Stop(why) => Interp(num, k + 1, w, e, env) == Stop(why)
            case Ok((f, u)) =>
              Interp(num, k + 1, w, e, env) == Interp(num, k, Past(u, 1), Fork(Cell(u.next), f, e.cdr), env)
  {
    hide Interp;
    Unfold(num, k, w, e, env);
  }

  // ---------------------------------------------------------------- macro forms

  // The same tree, from other pairs
  ghost predicate Copied(t: Tree, c: Tree) {
    if t.Tip? then c == t else c.Fork? && Copied(t.car, c.car) && Copied(t.cdr, c.cdr)
  }

  // p and x are one cell or have the same atom.
  ghost predicate Alike(p: Tree, x: Tree) {
    p.at == x.at || (p.Tip? && x.Tip? && p.atom == x.atom && !x.atom.NilAtom?)
  }

  // What the atom x becomes: the argument of the first parameter it is like, or x.
  ghost predicate Becomes(ps: seq<Tree>, vs: seq<Tree>, x: Tree, c: Tree)
    requires |ps| == |vs|
  {
    && (forall i :: 0 <= i < |ps| && Alike(ps[i], x) && (forall j :: 0 <= j < i ==> !Alike(ps[j], x)) ==> c == vs[i])
    && ((forall i :: 0 <= i < |ps| ==> !Alike(ps[i], x)) ==> c == x)
  }

  // The body with every atom replaced by what it becomes
  ghost predicate Instance(t: Tree, c: Tree, ps: seq<Tree>, vs: seq<Tree>)
    requires |ps| == |vs|
  {
    if t.Tip? then Becomes(ps, vs, t, c)
    else c.Fork? && Instance(t.car, c.car, ps, vs) && Instance(t.cdr, c.cdr, ps, vs)
  }

  // The elements of the list t, and after them the list `last`
  ghost predicate Joined(t: Tree, c: Tree, last: Tree) {
    && t.Fork? && c.Fork? && Copied(t.car, c.car)
    && if t.cdr.at == Nil then c.cdr == last else Joined(t.cdr, c.cdr, last)
  }

  lemma {:induction false} CopyCopies(w: World, t: Tree)
    ensures var (c, u) := Copy(w, t);
            Copied(t, c) && (t.Fork? ==> c.at.Cell?) && u == w.(next := u.next) && w.next <= u.next
    decreases t
  {
    if t.Fork? {
      CopyCopies(w, t.car);
      CopyCopies(Copy(w, t.car).1, t.cdr);
    }
  }

  // A chain of pairs that does not end in nil
  ghost predicate Dotted(t: Tree) {
    t.at != Nil && (t.Fork? ==> Dotted(t.cdr))
  }

  lemma {:induction false} AttachedJoins(t: Tree, c: Tree, bs: seq<Tree>, last: Tree)
    requires Copied(t, c) && IsList(t, bs) && bs != []
    requires forall p :: p in Cdrs(c) && p.Fork? ==> p.at != Nil
    ensures Attached(c, last).Ok? && Joined(t, Attached(c, last).value, last)
    decreases |bs|
  {
    assert c.cdr in Cdrs(c.cdr);
    if |bs| > 1 { AttachedJoins(t.cdr, c.cdr, bs[1..], last); }
  }

  lemma {:induction false} AttachedFails(t: Tree, c: Tree, last: Tree)
    requires Copied(t, c) && Dotted(t)
    requires forall p :: p in Cdrs(c) && p.Fork? ==> p.at != Nil
    ensures Attached(c, last) == Stop(Failed)
    decreases t
  {
    if t.Fork? {
      assert c.cdr in Cdrs(c.cdr);
      AttachedFails(t.cdr, c.cdr, last);
    }
  }

  // The pairs and the atom along a list
  ghost function Cdrs(t: Tree): set<Tree> {
    if t.Tip? then {t} else {t} + Cdrs(t.cdr)
  }

  lemma {:induction false} CopyNew(w: World, t: Tree)
    ensures forall p :: p in Cdrs(Copy(w, t).0) && p.Fork? ==> p.at != Nil
    decreases t
  {
    if t.Fork? { CopyNew(Copy(w, t.car).1, t.cdr); }
  }

  // What is found for x is the first variable whose key is like it.
  lemma {:induction false} FindBecomes(w: World, u: World, ps: seq<Tree>, vs: seq<Tree>, frame: Env, x: Tree, from: nat)
    requires Framed(w, u, ps, vs, frame) && from <= |ps| && x.Tip?
    requires forall j :: 0 <= j < from ==> !Alike(ps[j], x)
    ensures Becomes(ps, vs, x, match Find(frame[from..], x) case Some(l) => ValueOf(u, l) case None => x)
    decreases |ps| - from
  {
    if from < |ps| {
      assert HasPlace(w, u, ps[from], vs[from], frame[from]);
      assert frame[from..][0] == frame[from] && frame[from..][1..] == frame[from + 1..];
      if !Alike(ps[from], x) { FindBecomes(w, u, ps, vs, frame, x, from + 1); }
    }
  }

  lemma {:induction false} ReplacedInstance(w: World, u: World, t: Tree, c: Tree, ps: seq<Tree>, vs: seq<Tree>,
      frame: Env)
    requires Framed(w, u, ps, vs, frame) && Copied(t, c)
    ensures |ps| == |vs| && Instance(t, Replaced(c, frame, u), ps, vs)
    decreases t
  {
    hide Framed, Becomes;
    FrameShape(w, u, ps, vs, frame);
    match t
    case Tip(_, _) =>
      FindBecomes(w, u, ps, vs, frame, t, 0);
      assert frame[0..] == frame;
    case Fork(_, a, d) =>
      ReplacedInstance(w, u, a, c.car, ps, vs, frame);
      ReplacedInstance(w, u, d, c.cdr, ps, vs, frame);
  }

  // mlambda: an instance of the body, or, without parameters, the body with the arguments
  // at its end; whatever it is, it is evaluated in the place of the form.
  lemma MlambdaLaw(num: Numerals, k: nat, w: World, e: Tree, params: Tree, body: Tree, ps: seq<Tree>, xs: seq<Tree>,
      env: Env) returns (x: Tree, u: World)
    requires e.Fork? && Form(e.car, "mlambda", params, body) && Placed(w)
    requires IsList(params, ps) && IsList(e.cdr, xs) && (ps != [] || body.at == Nil)
    ensures |ps| != |xs| || body.Tip? ==> Interp(num, k + 1, w, e, env) == Stop(Failed)
    ensures |ps| == |xs| && body.Fork? ==>
              && Interp(num, k + 1, w, e, env) == Interp(num, k, u, x, env)
              && Instance(body, x, ps, xs) && SameTables(w, u)
              && forall id :: id in w.store ==> id in u.store && u.store[id] == w.store[id]
  {
    hide Interp, Framed, BindAll, Replaced, Copy, Instance;
    Unfold(num, k, w, e, env);
    CopyCopies(w, body);
    var (c, w1) := Copy(w, body);
    BindRuns(w1, params, e.cdr, ps, xs);
    var p := BindAll(w1, params, e.cdr);
    x, u := body, w1;
    if |ps| == |xs| && body.Fork? {
      u := Skip(p.value.1, |p.value.0|);
      FrameSkips(w1, p.value.1, ps, xs, p.value.0, |p.value.0|);
      x := Replaced(c, p.value.0, u);
      ReplacedInstance(w1, u, body, c, ps, xs, p.value.0);
      FrameShape(w1, u, ps, xs, p.value.0);
    }
  }

  lemma MlambdaJoins(num: Numerals, k: nat, w: World, e: Tree, body: Tree, env: Env) returns (x: Tree, n: nat)
    requires e.Fork? && Form(e.car, "mlambda", NIL, body) && body.at != Nil
    ensures Dotted(body) ==> Interp(num, k + 1, w, e, env) == Stop(Failed)
    ensures forall bs :: IsList(body, bs) ==>
              Joined(body, x, e.cdr) && Interp(num, k + 1, w, e, env) == Interp(num, k, Past(w, n), x, env)
  {
    hide Interp, Copy, Copied, Attached, Joined;
    Unfold(num, k, w, e, env);
    CopyCopies(w, body);
    CopyNew(w, body);
    var (c, w1) := Copy(w, body);
    if Dotted(body) { AttachedFails(body, c, e.cdr); }
    x, n := body, w1.next - w.next;
    var r := Attached(c, e.cdr);
    if r.Ok? { x := r.value; }
    forall bs | IsList(body, bs)
      ensures Joined(body, x, e.cdr) && Interp(num, k + 1, w, e, env) == Interp(num, k, Past(w, n), x, env)
    {
      AttachedJoins(body, c, bs, e.cdr);
    }
  }

  // A macro symbol stands for a copy of its value, before the arguments are looked at.
  lemma MacroLaw(num: Numerals, k: nat, w: World, e: Tree, b: Bound, env: Env) returns (c: Tree, u: World)
    requires e.Fork? && NotLocal(env, e.car) && b.macro
    requires var n := e.car.atom.name; if n in w.thread then w.thread[n] == b else n in w.global && w.global[n] == b
    ensures Copied(b.value, c) && w.next <= u.next && u == Past(w, u.next - w.next)
    ensures Interp(num, k + 1, w, e, env) == Interp(num, k, Past(u, 1), Fork(Cell(u.next), c, e.cdr), env)
  {
    hide Interp, Copy;
    Unfold(num, k, w, e, env);
    NotFound(env, e.car);
    CopyCopies(w, b.value);
    c, u := Copy(w, b.value).0, Copy(w, b.value).1;
  }

  // The symbol alone stands for a copy that is evaluated.
  lemma MacroSymbolLaw(num: Numerals, k: nat, w: World, x: Tree, b: Bound, env: Env) returns (c: Tree, u: World)
    requires NotLocal(env, x) && b.macro
    requires var n := x.atom.name; if n in w.thread then w.thread[n] == b else n in w.global && w.global[n] == b
    ensures Copied(b.value, c) && w.next <= u.next && u == Past(w, u.next - w.next)
    ensures Interp(num, k + 1, w, x, env) == Interp(num, k, u, c, env)
  {
    hide Copy;
    NotFound(env, x);
    CopyCopies(w, b.value);
    c, u := Copy(w, b.value).0, Copy(w, b.value).1;
  }

  lemma LocalMacroFound(num: Numerals, w: World, x: Tree, pre: Env, l: Local, post: Env)
    requires NotLocal(pre, x) && l.key.Tip? && l.key.atom == x.atom && l.key.at in w.macros && l.place in w.store
    ensures var (c, u) := Copy(w, w.store[l.place]);
            Lookup(num, w, pre + [l] + post, x, x.atom.name) == Ok((c, true, u))
  {
    hide Copy;
    FoundAfter(pre, l, post, x);
  }

  // A local variable whose symbol is marked as a macro is one as well, in both places.
  lemma LocalMacroLaw(num: Numerals, k: nat, w: World, x: Tree, args: Tree, e: Tree, pre: Env, l: Local, post: Env)
    returns (c: Tree, u: World)
    requires NotLocal(pre, x) && l.key.Tip? && l.key.atom == x.atom && l.key.at in w.macros && l.place in w.store
    requires e.Fork? && e.car == x && e.cdr == args
    ensures Copied(w.store[l.place], c) && w.next <= u.next && u == Past(w, u.next - w.next)
    ensures var env := pre + [l] + post;
            && Interp(num, k + 1, w, x, env) == Interp(num, k, u, c, env)
            && Interp(num, k + 1, w, e, env) == Interp(num, k, Past(u, 1), Fork(Cell(u.next), c, args), env)
  {
    hide Copy;
    var t := w.store[l.place];
    CopyCopies(w, t);
    c, u := Copy(w, t).0, Copy(w, t).1;
    LocalMacroFound(num, w, x, pre, l, post);
    Unfold(num, k, w, e, pre + [l] + post);
  }

  // ---------------------------------------------------------------- assignments

  // What set and its kin do to the symbol x: u is w with that one change.
  ghost predicate SetLocal(w: World, u: World, l: Local, v: Tree, macro: bool) {
    && u.store == w.store[l.place := v] && u.thread == w.thread && u.global == w.global
    && u.macros == if macro then w.macros + {l.key.at} else w.macros - {l.key.at}
  }

  ghost predicate SetTable(w: World, u: World, name: string, v: Tree, macro: bool, global: bool) {
    && u.store == w.store && u.macros == w.macros
    && u.thread == (if !global && |name| < 1024 then w.thread[name := Bound(v, macro)] else w.thread)
    && u.global == if global && |name| < 1024 then w.global[name := Bound(v, macro)] else w.global
  }

  // set changes the innermost variable of the name.
  lemma SetLocalLaw(num: Numerals, k: nat, e: Tree, nf: Native, a: Tree, b: Tree, env: Env, ws: seq<World>, x: Tree,
      v: Tree, pre: Env, l: Local, post: Env) returns (u: World)
    requires nf in {SetF, TSetF, MSetF, TMSetF} && Calls(num, k, e, NFunc(nf), [a, b], env, ws, [x, v])
    requires env == pre + [l] + post && NotLocal(pre, x) && l.key.Tip? && l.key.atom == x.atom && x.atom.name != ""
    ensures Interp(num, k + 1, ws[0], e, env) == Ok((v, u))
    ensures SetLocal(ws[2], u, l, v, nf in {MSetF, TMSetF})
  {
    hide Interp, Names;
    var list := NativeCall(num, k, e, nf, [a, b], env, ws, [x, v]);
    assert [x, v][1..] == [v] && ws[|[a, b]|] == ws[2];
    assert IsList(list.cdr, [v]);
    FoundAfter(pre, l, post, x);
    var w := Past(ws[2], 2);
    var macro := nf == MSetF || nf == TMSetF;
    u := Skip(Interpreter.Mark(w, l.key, macro), 1).(store := w.store[l.place := v]);
  }

  // Without one, it changes the table of the thread or the global one, unless the name is
  // too long.
  lemma SetTableLaw(num: Numerals, k: nat, e: Tree, nf: Native, a: Tree, b: Tree, env: Env, ws: seq<World>, x: Tree,
      v: Tree) returns (u: World)
    requires nf in {SetF, TSetF, MSetF, TMSetF} && Calls(num, k, e, NFunc(nf), [a, b], env, ws, [x, v])
    requires NotLocal(env, x) && x.atom.name != ""
    ensures Interp(num, k + 1, ws[0], e, env) == Ok((v, u))
    ensures SetTable(ws[2], u, x.atom.name, v, nf in {MSetF, TMSetF}, nf in {SetF, MSetF})
  {
    hide Interp, Names;
    var list := NativeCall(num, k, e, nf, [a, b], env, ws, [x, v]);
    assert [x, v][1..] == [v] && ws[|[a, b]|] == ws[2];
    assert IsList(list.cdr, [v]);
    NotFound(env, x);
    u := Store(Past(ws[2], 2), x.atom.name, Bound(v, nf == MSetF || nf == TMSetF), nf == SetF || nf == MSetF);
  }

  // Only a symbol with a name can be set.
  lemma SetNamelessLaw(num: Numerals, k: nat, e: Tree, nf: Native, a: Tree, b: Tree, env: Env, ws: seq<World>, x: Tree,
      v: Tree)
    requires nf in {SetF, TSetF, MSetF, TMSetF} && Calls(num, k, e, NFunc(nf), [a, b], env, ws, [x, v])
    requires x.Tip? && x.atom.Sym? ==> x.atom.name == ""
    ensures Interp(num, k + 1, ws[0], e, env) == Stop(Failed)
  {
    hide Interp, Names;
    var list := NativeCall(num, k, e, nf, [a, b], env, ws, [x, v]);
    assert [x, v][1..] == [v] && ws[|[a, b]|] == ws[2];
    assert IsList(list.cdr, [v]);
  }

  // After set, the symbol has the value.
  lemma SetThenLookup(num: Numerals, k: nat, j: nat, e: Tree, a: Tree, b: Tree, env: Env, ws: seq<World>, x: Tree,
      v: Tree, y: Tree)
    requires Calls(num, k, e, NFunc(SetF), [a, b], env, ws, [x, v]) && NotLocal(env, x) && x.atom.name != ""
    requires j > 0 && NotLocal(env, y) && y.atom == x.atom && x.atom.name !in ws[2].thread && |x.atom.name| < 1024
    ensures var r := Interp(num, k + 1, ws[0], e, env);
            r.Ok? && Interp(num, j, r.value.1, y, env) == Ok((v, r.value.1))
  {
    hide Interp, Calls;
    var u := SetTableLaw(num, k, e, SetF, a, b, env, ws, x, v);
    GlobalLaw(num, j, u, y, env);
  }

  lemma SetThenLookupLocal(num: Numerals, k: nat, j: nat, e: Tree, a: Tree, b: Tree, env: Env, ws: seq<World>, x: Tree,
      v: Tree, y: Tree, pre: Env, l: Local, post: Env)
    requires Calls(num, k, e, NFunc(SetF), [a, b], env, ws, [x, v]) && NotLocal(pre, x) && x.atom.name != ""
    requires env == pre + [l] + post && l.key.Tip? && l.key.atom == x.atom
    requires j > 0 && NotLocal(pre, y) && y.atom == x.atom
    ensures var r := Interp(num, k + 1, ws[0], e, env);
            r.Ok? && Interp(num, j, r.value.1, y, env) == Ok((v, r.value.1))
  {
    hide Interp, Calls;
    var u := SetLocalLaw(num, k, e, SetF, a, b, env, ws, x, v, pre, l, post);
    LocalLaw(num, j, u, y, pre, l, post);
  }

  // unset and set?: t when the table has the symbol; unset takes it out and changes
  // nothing else.
  lemma UnsetLaw(num: Numerals, k: nat, e: Tree, nf: Native, a: Tree, env: Env, ws: seq<World>, x: Tree)
    requires nf in {UnsetF, TUnsetF, IsSetF, IsTSetF} && Calls(num, k, e, NFunc(nf), [a], env, ws, [x])
    ensures var r, w := Interp(num, k + 1, ws[0], e, env), ws[1];
            if x.Tip? && x.atom.Sym? then
              var n := x.atom.name;
              && r.Ok? && r.value.0 == (if n in (if nf in {UnsetF, IsSetF} then w.global else w.thread) then T else NIL)
              && r.value.1.global == (if nf == UnsetF then w.global - {n} else w.global)
              && r.value.1.thread == (if nf == TUnsetF then w.thread - {n} else w.thread)
              && r.value.1.store == w.store && r.value.1.macros == w.macros
            else r == Stop(Failed)
  {
    hide Interp, Names;
    var list := NativeCall(num, k, e, nf, [a], env, ws, [x]);
    assert ws[|[a]|] == ws[1];
  }

  // ---------------------------------------------------------------- let, case and apply

  function Backwards(xs: seq<Tree>): (r: seq<Tree>)
    ensures |r| == |xs| && forall i :: 0 <= i < |xs| ==> r[i] == xs[|xs| - 1 - i]
  {
    if xs == [] then [] else Backwards(xs[1..]) + [xs[0]]
  }

  lemma BackwardsMore(xs: seq<Tree>, rs: seq<Tree>)
    ensures xs == [] ==> Backwards(xs) + rs == rs
    ensures xs != [] ==> Backwards(xs) + rs == Backwards(xs[1..]) + ([xs[0]] + rs)
  {}

  // (name value ...)
  ghost predicate Binds(b: Tree, name: Tree, value: Tree) {
    b.Fork? && b.car == name && b.cdr.Fork? && b.cdr.car == value
  }

  lemma {:induction false} ElementsRun(w: World, t: Tree, bs: seq<Tree>, names: seq<Tree>, values: seq<Tree>,
      second: bool, r: Tree, rs: seq<Tree>)
    requires IsList(t, bs) && |bs| == |names| == |values| && IsList(r, rs)
    requires forall i :: 0 <= i < |bs| ==> Binds(bs[i], names[i], values[i])
    ensures var p := Elements(w, t, second, r);
            && p.Ok? && p.value.1 == Past(w, |bs|)
            && IsList(p.value.0, Backwards(if second then values else names) + rs)
    decreases |bs|
  {
    hide Backwards;
    BackwardsMore(if second then values else names, rs);
    if bs == [] {
    } else {
      assert Binds(bs[0], names[0], values[0]);
      forall i | 0 <= i < |bs| - 1 ensures Binds(bs[1..][i], names[1..][i], values[1..][i]) {
        assert Binds(bs[i + 1], names[i + 1], values[i + 1]);
      }
      var x := if second then values[0] else names[0];
      var (r1, w1) := Interpreter.Cons(w, x, r);
      assert ([x] + rs)[1..] == rs;
      ElementsRun(w1, t.cdr, bs[1..], names[1..], values[1..], second, r1, [x] + rs);
      var all := if second then values else names;
      assert all[1..] == if second then values[1..] else names[1..];
    }
  }

  // f-let: a lambda form with names and values in reverse, its body a progn
  lemma LetLaw(num: Numerals, k: nat, e: Tree, xs: seq<Tree>, env: Env, ws: seq<World>, t: Tree, es: seq<Tree>,
      bs: seq<Tree>, names: seq<Tree>, values: seq<Tree>) returns (x: Tree, params: Tree, body: Tree, u: World)
    requires Calls(num, k, e, NFunc(LetF), xs, env, ws, [t] + es) && 2 <= |xs| <= 9999
    requires IsList(t, bs) && |bs| == |names| == |values|
    requires forall i :: 0 <= i < |bs| ==> Binds(bs[i], names[i], values[i])
    ensures Interp(num, k + 1, ws[0], e, env) == Interp(num, k, u, x, env)
    ensures ws[|xs|].next <= u.next && u == Past(ws[|xs|], u.next - ws[|xs|].next)
    ensures body.Fork? && body.car == PROGN && IsList(body.cdr, es)
    ensures bs == [] ==> x == body
    ensures bs != [] ==>
              && x.Fork? && Form(x.car, "lambda", params, body)
              && IsList(params, Backwards(names)) && IsList(x.cdr, Backwards(values))
  {
    hide Interp, Names, Elements, Backwards;
    var list := NativeCall(num, k, e, LetF, xs, env, ws, [t] + es);
    assert ([t] + es)[1..] == es;
    var w := Past(ws[|xs|], |xs|);
    ElementsRun(w, t, bs, names, values, false, NIL, []);
    var w1 := Past(w, |bs|);
    ElementsRun(w1, t, bs, names, values, true, NIL, []);
    params := Elements(w, t, false, NIL).value.0;
    var inits := Elements(w1, t, true, NIL).value.0;
    assert Backwards(names) + [] == Backwards(names) && Backwards(values) + [] == Backwards(values);
    var w2 := Past(w1, |bs|);
    body := Fork(Cell(w2.next), PROGN, list.cdr);
    if bs == [] {
      assert |Backwards(names)| == 0;
      x, u := body, Past(w2, 1);
    } else {
      assert |Backwards(names)| > 0 && |Backwards(values)| > 0;
      var n := w2.next;
      x := Fork(Cell(n + 4), Fork(Cell(n + 3), LAMBDA, Fork(Cell(n + 2), params, Fork(Cell(n + 1), body, NIL))), inits);
      u := Past(w2, 5);
    }
  }

  // The clause with this label has the key, or has not, and trying it leads from u to u'.
  ghost predicate Tried(num: Numerals, k: nat, env: Env, key: Tree, tag: Tree, u: World, u': World, hit: bool) {
    if tag.Tip? then
      if tag.atom == Sym("otherwise") then hit && u' == u
      else
        var r := Interp(num, k, u, tag, env);
        r.Ok? && r.value.1 == u' && hit == Match(key, r.value.0)
    else exists xs, n, us, vs :: TriedEach(num, k, env, key, tag, u, u', hit, xs, n, us, vs)
  }

  // The first n of the label's expressions xs are evaluated; only the last can be the key.
  ghost predicate TriedEach(num: Numerals, k: nat, env: Env, key: Tree, tag: Tree, u: World, u': World, hit: bool,
                            xs: seq<Tree>, n: nat, us: seq<World>, vs: seq<Tree>)
  {
    && IsList(tag, xs) && n <= |xs| && InTurn(num, k, xs[..n], env, us, vs) && us[0] == u && us[n] == u'
    && if hit then n > 0 && Match(key, vs[n - 1]) && forall i :: 0 <= i < n - 1 ==> !Match(key, vs[i])
       else n == |xs| && forall i :: 0 <= i < n ==> !Match(key, vs[i])
  }

  lemma {:induction false} AmongRuns(num: Numerals, k: nat, env: Env, key: Tree, tag: Tree, u: World, u': World,
      hit: bool, xs: seq<Tree>, n: nat, us: seq<World>, vs: seq<Tree>)
    requires TriedEach(num, k, env, key, tag, u, u', hit, xs, n, us, vs)
    ensures Among(num, k, u, key, tag, env) == Ok((hit, u'))
    decreases n
  {
    hide Interp, Match;
    if n > 0 {
      TurnRest(num, k, xs[..n], env, us, vs);
      assert xs[..n][1..] == xs[1..][..n - 1];
      if !Match(key, vs[0]) {
        AmongRuns(num, k, env, key, tag.cdr, us[1], u', hit, xs[1..], n - 1, us[1..], vs[1..]);
      }
    }
  }

  lemma TriedRuns(num: Numerals, k: nat, env: Env, key: Tree, tag: Tree, u: World, u': World, hit: bool)
    requires Tried(num, k, env, key, tag, u, u', hit)
    ensures HasKey(num, k, u, key, tag, env) == Ok((hit, u'))
  {
    hide Interp, Match, TriedEach, Among;
    if tag.Fork? {
      var xs, n, us, vs :| TriedEach(num, k, env, key, tag, u, u', hit, xs, n, us, vs);
      AmongRuns(num, k, env, key, tag, u, u', hit, xs, n, us, vs);
    }
  }

  // Trying the clauses leads to the j-th, if there are that many, and no earlier one has
  // the key.
  ghost predicate Passed(num: Numerals, k: nat, env: Env, key: Tree, labels: seq<Tree>, us: seq<World>, j: nat) {
    j <= |labels| && j < |us| &&
    forall i :: 0 <= i < j ==> Tried(num, k, env, key, labels[i], us[i], us[i + 1], false)
  }

  lemma PassedSome(num: Numerals, k: nat, env: Env, key: Tree, labels: seq<Tree>, us: seq<World>, j: nat)
    requires Passed(num, k, env, key, labels, us, j)
    ensures j <= |labels|
  {}

  ghost predicate Labelled(c: Tree, tag: Tree, body: Tree) {
    c.Fork? && c.car == tag && c.cdr == body
  }

  lemma {:induction false} SearchRuns(num: Numerals, k: nat, env: Env, key: Tree, cs: Tree, clauses: seq<Tree>,
      labels: seq<Tree>, bodies: seq<Tree>, us: seq<World>, j: nat, u: World)
    requires IsList(cs, clauses) && |clauses| == |labels| == |bodies| && Passed(num, k, env, key, labels, us, j)
    requires forall i :: 0 <= i < |clauses| ==> Labelled(clauses[i], labels[i], bodies[i])
    requires j < |labels| ==> Tried(num, k, env, key, labels[j], us[j], u, true)
    ensures AllForks(cs)
    ensures var r := Search(num, k, us[0], key, cs, env);
            if j == |labels| then r == Ok((NIL, us[j]))
            else
              r.Ok? && r.value.1 == u && r.value.0.at != Nil &&
              r.value.0.Fork? && r.value.0.car.Fork? && r.value.0.car.cdr == bodies[j]
    decreases |clauses|
  {
    hide Interp, Tried, HasKey;
    if clauses != [] {
      assert Labelled(clauses[0], labels[0], bodies[0]);
      assert forall i :: 0 <= i < |clauses| - 1 ==> Labelled(clauses[1..][i], labels[1..][i], bodies[1..][i]);
      if j > 0 {
        assert Tried(num, k, env, key, labels[0], us[0], us[0 + 1], false);
        TriedRuns(num, k, env, key, labels[0], us[0], us[1], false);
        forall i | 0 <= i < j - 1
          ensures Tried(num, k, env, key, labels[1..][i], us[1..][i], us[1..][i + 1], false)
        {
          assert Tried(num, k, env, key, labels[i + 1], us[i + 1], us[i + 1 + 1], false);
        }
        SearchRuns(num, k, env, key, cs.cdr, clauses[1..], labels[1..], bodies[1..], us[1..], j - 1, u);
      } else {
        TriedRuns(num, k, env, key, labels[0], us[0], u, true);
        ForksAll(cs, clauses, labels, bodies);
      }
    }
  }

  lemma {:induction false} ForksAll(cs: Tree, clauses: seq<Tree>, labels: seq<Tree>, bodies: seq<Tree>)
    requires IsList(cs, clauses) && |clauses| == |labels| == |bodies|
    requires forall i :: 0 <= i < |clauses| ==> Labelled(clauses[i], labels[i], bodies[i])
    ensures AllForks(cs)
    decreases |clauses|
  {
    if clauses != [] {
      assert Labelled(clauses[0], labels[0], bodies[0]);
      assert forall i :: 0 <= i < |clauses| - 1 ==> Labelled(clauses[1..][i], labels[1..][i], bodies[1..][i]);
      ForksAll(cs.cdr, clauses[1..], labels[1..], bodies[1..]);
    }
  }

  // f-case: the expressions of the first clause that has the key, or nil
  lemma CaseLaw(num: Numerals, k: nat, e: Tree, xs: seq<Tree>, env: Env, ws: seq<World>, x: Tree, clauses: seq<Tree>,
      key: Tree, labels: seq<Tree>, bodies: seq<Tree>, us: seq<World>, j: nat, es: seq<Tree>, ts: seq<World>,
      vs: seq<Tree>)
    requires Calls(num, k, e, NFunc(CaseF), xs, env, ws, [x] + clauses) && 2 <= |xs| <= 9999
    requires us != [] && Interp(num, k, Past(ws[|xs|], |xs|), x, env) == Ok((key, us[0]))
    requires |clauses| == |labels| == |bodies| && Passed(num, k, env, key, labels, us, j)
    requires forall i :: 0 <= i < |clauses| ==> Labelled(clauses[i], labels[i], bodies[i])
    requires j < |labels| ==> IsList(bodies[j], es) && InTurn(num, k, es, env, ts, vs)
    requires j < |labels| ==> Tried(num, k, env, key, labels[j], us[j], ts[0], true)
    ensures j == |labels| ==> Interp(num, k + 1, ws[0], e, env) == Ok((NIL, us[j]))
    ensures j < |labels| ==>
              Interp(num, k + 1, ws[0], e, env) == Ok((if es == [] then NIL else vs[|es| - 1], ts[|es|]))
  {
    hide Interp, Names, Search, Sequence, Passed, Tried, Labelled;
    var list := NativeCall(num, k, e, CaseF, xs, env, ws, [x] + clauses);
    assert ([x] + clauses)[1..] == clauses;
    var u := if j < |labels| then ts[0] else us[0];
    PassedSome(num, k, env, key, labels, us, j);
    SearchRuns(num, k, env, key, list.cdr, clauses, labels, bodies, us, j, u);
    if j < |labels| { SequenceRuns(num, k, bodies[j], es, env, ts, vs, NIL); }
  }

  // (quote x)
  ghost predicate Quotes(q: Tree, x: Tree) {
    q.Fork? && q.car == QUOTE && q.cdr.Fork? && q.cdr.car == x && q.cdr.cdr == NIL
  }

  lemma {:induction false} QuotesAll(w: World, t: Tree, xs: seq<Tree>) returns (qs: seq<Tree>)
    requires IsList(t, xs)
    ensures var p := QuoteAll(w, t); p.Ok? && p.value.1 == Past(w, 3 * |xs|) && IsList(p.value.0, qs)
    ensures |qs| == |xs| && forall i :: 0 <= i < |xs| ==> Quotes(qs[i], xs[i])
    decreases |xs|
  {
    qs := [];
    if xs != [] {
      var rest := QuotesAll(Past(w, 2), t.cdr, xs[1..]);
      var q := Fork(Cell(w.next + 1), QUOTE, Fork(Cell(w.next), xs[0], NIL));
      qs := [q] + rest;
      assert qs[1..] == rest;
      forall i | 0 <= i < |xs| ensures Quotes(qs[i], xs[i]) {
        if i > 0 { assert Quotes(rest[i - 1], xs[1..][i - 1]); }
      }
    }
  }

  // apply: the function with its arguments as they stand
  lemma ApplyLaw(num: Numerals, k: nat, w: World, e: Tree, f: Tree, xs: seq<Tree>, env: Env)
    returns (x: Tree, qs: seq<Tree>)
    requires e.Fork? && Names(w, env, e.car, SFunc(ApplyF)) && IsList(e.cdr, [f] + xs) && |xs| < 9999
    ensures Interp(num, k + 1, w, e, env) == Interp(num, k, Past(w, 3 * |xs| + 1), x, env)
    ensures x.Fork? && x.car == f && IsList(x.cdr, qs)
    ensures |qs| == |xs| && forall i :: 0 <= i < |xs| ==> Quotes(qs[i], xs[i])
  {
    hide Interp, Names, QuoteAll;
    SpecialCall(num, k, w, e, ApplyF, env);
    ListLength(e.cdr, [f] + xs);
    assert ([f] + xs)[1..] == xs;
    qs := QuotesAll(w, e.cdr.cdr, xs);
    x := Fork(Cell(w.next + 3 * |xs|), f, QuoteAll(w, e.cdr.cdr).value.0);
  }

  // ---------------------------------------------------------------- failure

  // How many arguments a function takes.
  lemma ArityLaw(num: Numerals, k: nat, e: Tree, nf: Native, xs: seq<Tree>, env: Env, ws: seq<World>, vs: seq<Tree>)
    requires Calls(num, k, e, NFunc(nf), xs, env, ws, vs)
    requires
      if nf in {CarF, CdrF, AtomF, NullF, EvalF, UnsetF, TUnsetF, IsSetF, IsTSetF} then |xs| != 1
      else if nf in {ConsF, EqF, EqualF} then |xs| != 2
      else if nf in {SetF, TSetF, MSetF, TMSetF} then |xs| < 2 || |xs| > 3
      else if nf in {CondF, AndF, OrF} then |xs| < 1 || |xs| > 9999
      else if nf == ListF then |xs| > 9999
      else |xs| < 2 || |xs| > 9999
    ensures Interp(num, k + 1, ws[0], e, env) == Stop(Failed)
  {
    hide Interp, Names;
    var list := NativeCall(num, k, e, nf, xs, env, ws, vs);
  }

  // quote takes one argument, progn and apply at least one.
  lemma SpecialArityLaw(num: Numerals, k: nat, w: World, e: Tree, sf: Special, xs: seq<Tree>, env: Env)
    requires e.Fork? && Names(w, env, e.car, SFunc(sf)) && IsList(e.cdr, xs)
    requires |xs| == 0 || |xs| > (if sf == QuoteF then 1 else 9999)
    ensures Interp(num, k + 1, w, e, env) == Stop(Failed)
  {
    hide Interp, Names;
    SpecialCall(num, k, w, e, sf, env);
    ListLength(e.cdr, xs);
  }

  // An atom that is no symbol has no value, and what is neither a symbol nor such a form
  // is no function.
  lemma NoFunctionLaw(num: Numerals, k: nat, w: World, e: Tree, env: Env)
    requires e.Tip? ==> !e.atom.Sym?
    requires e.Fork? && e.car.Tip? ==> !e.car.atom.Sym?
    requires e.Fork? && e.car.Fork? ==> e.car.car.Fork? || !e.car.car.atom.Sym?
    ensures Interp(num, k + 1, w, e, env) == Stop(Failed)
  {
    if e.Fork? { Unfold(num, k, w, e, env); }
  }

  lemma {:induction false} ArgumentsStop(num: Numerals, k: nat, args: Tree, xs: seq<Tree>, env: Env, ws: seq<World>,
      vs: seq<Tree>, j: nat, why: Reason)
    requires IsList(args, xs) && j < |xs| && InTurn(num, k, xs[..j], env, ws, vs)
    requires Interp(num, k, ws[j], xs[j], env) == Stop(why)
    ensures ValuesOf(num, k, ws[0], args, env) == Stop(why)
    decreases j
  {
    hide Interp;
    if j > 0 {
      TurnRest(num, k, xs[..j], env, ws, vs);
      assert xs[..j][1..] == xs[1..][..j - 1];
      ArgumentsStop(num, k, args.cdr, xs[1..], env, ws[1..], vs[1..], j - 1, why);
    }
  }

  // An argument that fails ends the call, and the later ones are not evaluated.
  lemma StopLaw(num: Numerals, k: nat, e: Tree, nf: Native, xs: seq<Tree>, env: Env, ws: seq<World>, vs: seq<Tree>,
      j: nat, why: Reason)
    requires e.Fork? && IsList(e.cdr, xs) && j < |xs| && InTurn(num, k, xs[..j], env, ws, vs)
    requires Names(ws[0], env, e.car, NFunc(nf)) && Interp(num, k, ws[j], xs[j], env) == Stop(why)
    ensures Interp(num, k + 1, ws[0], e, env) == Stop(why)
  {
    hide Interp, Lookup, ValuesOf;
    FunctionFound(num, ws[0], env, e.car, NFunc(nf));
    ArgumentsStop(num, k, e.cdr, xs, env, ws, vs, j, why);
    Unfold(num, k, ws[0], e, env);
  }
}
