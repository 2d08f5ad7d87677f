// yleval computes what the interpreter says: the value of the expression in the environment,
// whatever is collected on the way.
module Refinement {
  import opened Agreement
  import BaseBlocks
  import opened Evaluator
  import opened Expansion
  import opened HeapRuns
  import I = Interpreter
  import L = Laws
  import opened Meaning
  import opened Reachability
  import opened Transparency
  import opened Values
  import opened Wrappers

  // ---------------------------------------------------------------- base blocks and clock

  // Only base blocks and clock differ.
  ghost predicate Alike(s: State, t: State) {
    t == s.(bases := t.bases, clock := t.clock)
  }

  lemma {:induction false} HoldsAlike(s: State, t: State, v: I.Tree)
    requires Alike(s, t) && Reads(s, v)
    ensures Reads(t, v)
    decreases v
  {
    if v.Fork? {
      HoldsAlike2(s, t, v.car);
      HoldsAlike2(s, t, v.cdr);
    }
  }

  lemma {:induction false} HoldsAlike2(s: State, t: State, v: I.Tree)
    requires Alike(s, t) && Holds(s, v)
    ensures Holds(t, v)
    decreases v
  {
    if v.Fork? {
      HoldsAlike2(s, t, v.car);
      HoldsAlike2(s, t, v.cdr);
    }
  }

  lemma {:induction false} EnvAlike(s: State, t: State, a: Ref, env: I.Env)
    requires Alike(s, t) && EnvIs(s, a, env)
    ensures EnvIs(t, a, env)
    decreases |env|
  {
    hide Reads;
    if env != [] {
      HoldsAlike(s, t, env[0].key);
      EnvAlike(s, t, s.heap[a.id].cdr, env[1..]);
    }
  }

  lemma SeesAlike(s: State, t: State, w: I.World)
    requires Alike(s, t) && Sees(s, w)
    ensures Sees(t, w)
  {
    hide Reads;
    forall n | n in s.thread ensures Reads(t, w.thread[n].value) { HoldsAlike(s, t, w.thread[n].value); }
    forall n | n in s.global ensures Reads(t, w.global[n].value) { HoldsAlike(s, t, w.global[n].value); }
    forall id: nat | Has(t, Cell(id), Entry) ensures Valued(t, w, id) {
      assert Has(s, Cell(id), Entry) && Valued(s, w, id);
      HoldsAlike(s, t, w.store[id]);
    }
  }

  lemma PushGood(s: State, w: I.World, r: Ref, a: Ref, env: I.Env)
    requires Good(s, w) && Present(s, r) && EnvIs(s, a, env)
    ensures Good(Push(s, r), w) && EnvIs(Push(s, r), a, env)
  {
    hide WF, Sees, EnvIs;
    Self(s);
    PushBoth(s, s, r);
    SeesAlike(s, Push(s, r), w);
    EnvAlike(s, Push(s, r), a, env);
  }

  lemma PushReads(s: State, r: Ref, v: I.Tree)
    requires Reads(s, v)
    ensures Reads(Push(s, r), v)
  {
    hide Reads;
    HoldsAlike(s, Push(s, r), v);
  }

  // The block r was protected while something was done.
  lemma PopIs(s: State, r: Ref, x: Result<(Ref, State)>, p: Result<(I.Tree, I.World)>)
    requires Is(Push(s, r), x, p)
    ensures Is(s, if x.Ok? then Ok((x.value.0, Pop(x.value.1, r))) else Stop(x.why), p)
  {
    hide WF, Sees, Reads, BaseBlocks.RemoveTop;
    if x.Ok? && p.Ok? {
      var t := x.value.1;
      Self(t);
      PopBoth(s, s, r, t, t);
      SeesAlike(t, Pop(t, r), p.value.1);
      HoldsAlike(t, Pop(t, r), p.value.0);
      hide Later;
    }
  }

  lemma PopTwoIs(s: State, e: Ref, a: Ref, x: Result<(Ref, State)>, p: Result<(I.Tree, I.World)>)
    requires Is(Push(Push(s, e), a), x, p)
    ensures Is(s, if x.Ok? then Ok((x.value.0, Pop(Pop(x.value.1, e), a))) else Stop(x.why), p)
  {
    hide WF, Sees, Reads, BaseBlocks.RemoveTop;
    if x.Ok? && p.Ok? {
      var t := x.value.1;
      Self(t);
      PopTwo(s, s, e, a, t, t);
      SeesAlike(t, Pop(Pop(t, e), a), p.value.1);
      HoldsAlike(t, Pop(Pop(t, e), a), p.value.0);
      hide Later;
    }
  }

  // A safe point without a collection.
  lemma LeaveIs(cfg: Config, s: State, r: Ref, u: State, p: Result<(I.Tree, I.World)>)
    requires Never(cfg) && Is(s, Ok((r, u)), p)
    ensures Is(s, Ok((r, Pop(SafePoint(cfg, Push(u, r)), r))), p)
  {
    hide WF, Sees, Reads, Replays;
    LastReleased(u.bases, r);
    var t := u.(clock := u.clock + 1);
    assert Pop(SafePoint(cfg, Push(u, r)), r) == t;
    Ticked(s, u);
    SeesAlike(u, t, p.value.1);
    HoldsAlike(u, t, p.value.0);
  }

  // ---------------------------------------------------------------- evaluation

  // An expression and an environment in a state that nothing is collected from; k allows
  // at least as deep an evaluation as fuel.
  ghost predicate Ready(cfg: Config, fuel: nat, k: nat, s: State, w: I.World, e: I.Tree, a: Ref, env: I.Env) {
    Never(cfg) && fuel <= k && Good(s, w) && Reads(s, e) && EnvIs(s, a, env)
  }

  lemma Onward(cfg: Config, fuel: nat, k: nat, s: State, w: I.World, e: I.Tree, a: Ref, env: I.Env,
      fuel': nat, k': nat, t: State, w': I.World, e': I.Tree)
    requires Ready(cfg, fuel, k, s, w, e, a, env) && Grows(s, t) && Good(t, w') && fuel' <= k'
    requires Reads(s, e') || Reads(t, e')
    ensures Ready(cfg, fuel', k', t, w', e', a, env) && Reads(t, e)
  {
    hide Sees, WF, Grows, Reads, EnvIs;
    EnvGrows(s, t, a, env);
    HoldsGrows(s, t, e);
    if Reads(s, e') { HoldsGrows(s, t, e'); }
  }

  lemma {:induction false} EvalIs(cfg: Config, fuel: nat, k: nat, s: State, w: I.World, e: I.Tree, a: Ref, env: I.Env)
    requires Ready(cfg, fuel, k, s, w, e, a, env)
    ensures Is(s, Eval(cfg, fuel, s, e.at, a), I.Interp(cfg.numeral, k, w, e, env))
    decreases fuel, 5
  {
    hide WF, Sees, Reads, EnvIs, Is, EvalForm, SafePoint, Push, Pop, I.Interp;
    if fuel > 0 {
      PlainOf(s, e);
      EnvOf(s, a, env);
      PushGood(s, w, e.at, a, env);
      PushReads(s, e.at, e);
      var s1 := Push(s, e.at);
      EnvOf(s1, a, env);
      PushGood(s1, w, a, a, env);
      PushReads(s1, a, e);
      var s2 := Push(s1, a);
      FormIs(cfg, fuel - 1, k, s2, w, e, a, env);
      var x := EvalForm(cfg, fuel - 1, s2, e.at, a);
      var p := I.Interp(cfg.numeral, k, w, e, env);
      PopTwoIs(s, e.at, a, x, p);
      if x.Ok? {
        LeaveIs(cfg, s, x.value.0, Pop(Pop(x.value.1, e.at), a), p);
      }
    }
    OutIs(s, I.Interp(cfg.numeral, k, w, e, env));
  }

  lemma OutIs(s: State, p: Result<(I.Tree, I.World)>)
    ensures Is(s, Stop(OutOfSteps), p)
  {}

  lemma FailIs(s: State)
    ensures Is(s, Stop(Failed), Stop(Failed))
  {}

  lemma {:induction false} FormIs(cfg: Config, fuel: nat, k: nat, s: State, w: I.World, e: I.Tree, a: Ref,
      env: I.Env)
    requires Ready(cfg, fuel, k, s, w, e, a, env) && fuel < k
    ensures Is(s, EvalForm(cfg, fuel, s, e.at, a), I.Interp(cfg.numeral, k, w, e, env))
    decreases fuel, 4
  {
    hide WF, Sees, Reads, EnvIs, Is, EvalAtom, EvalCall, EvalLambdaForm, I.Call, I.Enter, Deref;
    OutIs(s, I.Interp(cfg.numeral, k, w, e, env));
    FailIs(s);
    ReadParts(s, e);
    if fuel > 0 {
      if e.Tip? {
        AtomIs(cfg, fuel - 1, k, s, w, e, a, env);
      } else {
        ReadParts(s, e.car);
        if e.car.Tip? {
          CallIs(cfg, fuel - 1, k - 1, s, w, e, a, env);
        } else {
          ReadParts(s, e.car.car);
          if e.car.car.Tip? { LambdaIs(cfg, fuel - 1, k - 1, s, w, e, a, env); }
        }
      }
    }
  }

  lemma {:induction false} AtomIs(cfg: Config, fuel: nat, k: nat, s: State, w: I.World, e: I.Tree, a: Ref,
      env: I.Env)
    requires Ready(cfg, fuel, k, s, w, e, a, env) && fuel < k && e.Tip?
    ensures Is(s, EvalAtom(cfg, fuel, s, e.at, e.atom, a), I.Interp(cfg.numeral, k, w, e, env))
    decreases fuel, 4
  {
    hide WF, Sees, Reads, EnvIs, Later, Assoc, Eval, I.Lookup;
    OutIs(s, I.Interp(cfg.numeral, k, w, e, env));
    if fuel > 0 && e.atom.Sym? {
      LookupIs(cfg, fuel, s, w, a, env, e, e.atom.name);
      var x, p := Assoc(cfg, fuel, s, e.at, e.atom.name, a), I.Lookup(cfg.numeral, w, env, e, e.atom.name);
      if x.Ok? && p.Ok? && x.value.1 {
        var (v, _, w1) := p.value;
        var t := x.value.2;
        Onward(cfg, fuel, k, s, w, e, a, env, fuel - 1, k - 1, t, w1, v);
        EvalIs(cfg, fuel - 1, k - 1, t, w1, v, a, env);
        ThenIs(s, t, Eval(cfg, fuel - 1, t, v.at, a), I.Interp(cfg.numeral, k - 1, w1, v, env));
      }
    }
  }

  // A pair that has just been built is evaluated.
  lemma {:induction false} ConsEvalIs(cfg: Config, fuel: nat, k: nat, s: State, w: I.World, x: I.Tree, y: I.Tree,
      a: Ref, env: I.Env)
    requires Ready(cfg, fuel, k, s, w, x, a, env) && Reads(s, y)
    ensures var (r, t) := Cons(s, x.at, y.at);
            var (e, w1) := I.Cons(w, x, y);
            Is(s, Eval(cfg, fuel, t, r, a), I.Interp(cfg.numeral, k, w1, e, env))
    decreases fuel, 6
  {
    hide WF, Sees, Reads, EnvIs, Later, Cons, I.Cons, Eval, I.Interp;
    ConsIs(s, w, x, y);
    var (r, t) := Cons(s, x.at, y.at);
    var (e, w1) := I.Cons(w, x, y);
    Onward(cfg, fuel, k, s, w, x, a, env, fuel, k, t, w1, e);
    EvalIs(cfg, fuel, k, t, w1, e, a, env);
    ThenIs(s, t, Eval(cfg, fuel, t, r, a), I.Interp(cfg.numeral, k, w1, e, env));
  }

  lemma {:induction false} CallIs(cfg: Config, fuel: nat, k: nat, s: State, w: I.World, e: I.Tree, a: Ref,
      env: I.Env)
    requires Ready(cfg, fuel, k, s, w, e, a, env) && e.Fork? && e.car.Tip?
    ensures Is(s, EvalCall(cfg, fuel, s, e.car.at, e.car.atom, e.cdr.at, a),
               if e.car.atom.Sym? then I.Call(cfg.numeral, k, w, e.car, e.car.atom.name, e.cdr, env) else Stop(Failed))
    decreases fuel, 4
  {
    hide WF, Sees, Reads, EnvIs, Later, Assoc, Eval, CallFunction, I.Lookup;
    hide I.Interp, I.RunSpecial, I.RunNative, Cons, I.Cons;
    ReadParts(s, e);
    if fuel > 0 && e.car.atom.Sym? {
      LookupIs(cfg, fuel, s, w, a, env, e.car, e.car.atom.name);
      var x := Assoc(cfg, fuel, s, e.car.at, e.car.atom.name, a);
      var p := I.Lookup(cfg.numeral, w, env, e.car, e.car.atom.name);
      if x.Ok? && p.Ok? {
        var (v, macro, w1) := p.value;
        var t := x.value.2;
        Onward(cfg, fuel, k, s, w, e, a, env, fuel - 1, k, t, w1, v);
        HoldsGrows(s, t, e.cdr);
        if macro {
          ConsEvalIs(cfg, fuel - 1, k, t, w1, v, e.cdr, a, env);
          var (q, w2) := I.Cons(w1, v, e.cdr);
          var (r, u) := Cons(t, v.at, e.cdr.at);
          ThenIs(s, t, Eval(cfg, fuel - 1, u, r, a), I.Interp(cfg.numeral, k, w2, q, env));
        } else {
          FunctionIs(cfg, fuel, k, t, w1, v, e.cdr, a, env);
          ThenIs(s, t, CallFunction(cfg, fuel, t, v.at, e.cdr.at, a), Called(cfg, k, w1, v, e.cdr, env));
        }
      }
    }
  }

  // What a call does with the function it has found.
  ghost function Called(cfg: Config, k: nat, w: I.World, r: I.Tree, args: I.Tree, env: I.Env)
    : Result<(I.Tree, I.World)>
  {
    match r
    case Tip(_, SFunc(sf)) => I.RunSpecial(cfg.numeral, k, w, sf, args, env)
    case Tip(_, NFunc(nf)) =>
      var (values, w1) :- I.ValuesOf(cfg.numeral, k, w, args, env);
      I.RunNative(cfg.numeral, k, w1, nf, values, env)
    case _ => Stop(Failed)
  }

  lemma {:induction false} FunctionIs(cfg: Config, fuel: nat, k: nat, s: State, w: I.World, r: I.Tree, args: I.Tree,
      a: Ref, env: I.Env)
    requires Never(cfg) && fuel <= k && Good(s, w) && Reads(s, r) && Reads(s, args) && EnvIs(s, a, env) && fuel > 0
    ensures Is(s, CallFunction(cfg, fuel, s, r.at, args.at, a), Called(cfg, k, w, r, args, env))
    decreases fuel, 3
  {
    hide WF, Sees, Reads, EnvIs, Later, CallSpecial, ApplyNative, I.RunSpecial, I.RunNative, I.ValuesOf;
    ReadParts(s, r);
    if r.Tip? && r.atom.SFunc? {
      SpecialIs(cfg, fuel - 1, k, s, w, r.atom.sf, args, a, env);
    } else if r.Tip? && r.atom.NFunc? {
      ApplyNativeIs(cfg, fuel, k, s, w, r, r.atom.nf, args, a, env);
    }
  }

  lemma {:induction false} ApplyNativeIs(cfg: Config, fuel: nat, k: nat, s: State, w: I.World, r: I.Tree, nf: Native,
      args: I.Tree, a: Ref, env: I.Env)
    requires Ready(cfg, fuel, k, s, w, args, a, env) && Reads(s, r) && fuel > 0
    ensures Is(s, ApplyNative(cfg, fuel, s, r.at, nf, args.at, a),
               var p := I.ValuesOf(cfg.numeral, k, w, args, env);
               if p.Stop? then Stop(p.why) else I.RunNative(cfg.numeral, k, p.value.1, nf, p.value.0, env))
    decreases fuel, 2
  {
    hide WF, Sees, Reads, EnvIs, Later, EvalList, RunNative, I.ValuesOf, I.RunNative, Push, Pop;
    PlainOf(s, r);
    PushGood(s, w, r.at, a, env);
    PushReads(s, r.at, args);
    ListIs(cfg, fuel - 1, k, Push(s, r.at), w, args, a, env);
    var x, p := EvalList(cfg, fuel - 1, Push(s, r.at), args.at, a), I.ValuesOf(cfg.numeral, k, w, args, env);
    PopIs(s, r.at, x, p);
    if x.Ok? && p.Ok? {
      AppliedIs(cfg, fuel, k, s, w, args, a, env, nf, Pop(x.value.1, r.at), p.value.1, p.value.0);
    }
  }

  // The function runs, once the values of its arguments are known.
  lemma {:induction false} AppliedIs(cfg: Config, fuel: nat, k: nat, s: State, w: I.World, args: I.Tree, a: Ref,
      env: I.Env, nf: Native, t: State, w1: I.World, vs: I.Tree)
    requires Ready(cfg, fuel, k, s, w, args, a, env) && fuel > 0 && Is(s, Ok((vs.at, t)), Ok((vs, w1)))
    ensures Is(s, RunNative(cfg, fuel - 1, t, nf, vs.at, a), I.RunNative(cfg.numeral, k, w1, nf, vs, env))
    decreases fuel, 1
  {
    hide WF, Sees, Reads, EnvIs, Later, RunNative, I.RunNative;
    Onward(cfg, fuel, k, s, w, args, a, env, fuel - 1, k, t, w1, vs);
    RunNativeIs(cfg, fuel - 1, k, t, w1, nf, vs, a, env);
    ThenIs(s, t, RunNative(cfg, fuel - 1, t, nf, vs.at, a), I.RunNative(cfg.numeral, k, w1, nf, vs, env));
  }

  lemma {:induction false} RunNativeIs(cfg: Config, fuel: nat, k: nat, s: State, w: I.World, nf: Native, vs: I.Tree,
      a: Ref, env: I.Env)
    requires Ready(cfg, fuel, k, s, w, vs, a, env)
    ensures Is(s, RunNative(cfg, fuel, s, nf, vs.at, a), I.RunNative(cfg.numeral, k, w, nf, vs, env))
    decreases fuel, 4
  {
    hide WF, Sees, Reads, EnvIs, Is, CallNative, I.RunNative, Push, Pop;
    PlainOf(s, vs);
    PushGood(s, w, vs.at, a, env);
    PushReads(s, vs.at, vs);
    NativeIs(cfg, fuel, k, Push(s, vs.at), w, nf, vs, a, env);
    PopIs(s, vs.at, CallNative(cfg, fuel, Push(s, vs.at), nf, vs.at, a), I.RunNative(cfg.numeral, k, w, nf, vs, env));
  }

  lemma {:induction false} ListIs(cfg: Config, fuel: nat, k: nat, s: State, w: I.World, m: I.Tree, a: Ref,
      env: I.Env)
    requires Ready(cfg, fuel, k, s, w, m, a, env)
    ensures Is(s, EvalList(cfg, fuel, s, m.at, a), I.ValuesOf(cfg.numeral, k, w, m, env))
    decreases fuel
  {
    hide WF, Sees, Reads, EnvIs, Later, Eval, I.Interp, Push, Pop, Cons, I.Cons, Car, Cdr;
    ReadParts(s, m);
    ReadStatic(s);
    SameIs(s, w, I.NIL);
    if m.at != Nil && fuel > 0 && m.Fork? {
      Onward(cfg, fuel, k, s, w, m, a, env, fuel - 1, k, s, w, m.car);
      EvalIs(cfg, fuel - 1, k, s, w, m.car, a, env);
      var x, p := Eval(cfg, fuel - 1, s, m.car.at, a), I.Interp(cfg.numeral, k, w, m.car, env);
      if x.Ok? && p.Ok? {
        var t := x.value.1;
        var (v, w1) := p.value;
        Onward(cfg, fuel, k, s, w, m, a, env, fuel - 1, k, t, w1, m.cdr);
        ReadParts(t, m);
        PlainOf(t, v);
        PushGood(t, w1, v.at, a, env);
        PushReads(t, v.at, m.cdr);
        PushReads(t, v.at, v);
        ListIs(cfg, fuel - 1, k, Push(t, v.at), w1, m.cdr, a, env);
        RestIs(cfg, fuel - 1, k, s, t, w1, v, m.cdr, a, env);
      }
    }
  }

  // The end of ylevlis: the value in front of the values of the others.
  lemma RestIs(cfg: Config, fuel: nat, k: nat, s: State, t: State, w: I.World, v: I.Tree, rest: I.Tree, a: Ref,
      env: I.Env)
    requires Grows(s, t) && Reads(Push(t, v.at), v) && WF(Push(t, v.at))
    requires Is(Push(t, v.at), EvalList(cfg, fuel, Push(t, v.at), rest.at, a), I.ValuesOf(cfg.numeral, k, w, rest, env))
    ensures var x, p := EvalList(cfg, fuel, Push(t, v.at), rest.at, a), I.ValuesOf(cfg.numeral, k, w, rest, env);
            Is(s, if x.Stop? then Stop(x.why)
                  else var (r, u) := Cons(x.value.1, v.at, x.value.0); Ok((r, Pop(u, v.at))),
               if p.Stop? then Stop(p.why) else Ok(I.Cons(p.value.1, v, p.value.0)))
  {
    hide WF, Sees, Reads, EnvIs, Later, EvalList, I.ValuesOf, Push, Pop, Cons, I.Cons;
    var x, p := EvalList(cfg, fuel, Push(t, v.at), rest.at, a), I.ValuesOf(cfg.numeral, k, w, rest, env);
    if x.Ok? && p.Ok? {
      var (q, u) := x.value;
      var (vs, w1) := p.value;
      HoldsGrows(Push(t, v.at), u, v);
      ConsIs(u, w1, v, vs);
      ThenIs(Push(t, v.at), u, Ok(Cons(u, v.at, q)), Ok(I.Cons(w1, v, vs)));
      PopIs(t, v.at, Ok(Cons(u, v.at, q)), Ok(I.Cons(w1, v, vs)));
      var (r, z) := Cons(u, v.at, q);
      ThenIs(s, t, Ok((r, Pop(z, v.at))), Ok(I.Cons(w1, v, vs)));
    }
  }

  // ---------------------------------------------------------------- lambda forms

  lemma {:induction false} LambdaIs(cfg: Config, fuel: nat, k: nat, s: State, w: I.World, e: I.Tree, a: Ref,
      env: I.Env)
    requires Ready(cfg, fuel, k, s, w, e, a, env) && e.Fork? && e.car.Fork? && e.car.car.Tip?
    ensures Is(s, EvalLambdaForm(cfg, fuel, s, e.at, e.car.car.atom, a),
               if e.car.car.atom.Sym? then I.Enter(cfg.numeral, k, w, e.car, e.car.car.atom.name, e.cdr, env)
               else Stop(Failed))
    decreases fuel, 4
  {
    hide WF, Sees, Reads, EnvIs, Later, Eval, EvalList, Enter, EnterLabel, EvalMacroLabel, ExpandMacro, I.Interp,
         I.ValuesOf, I.Expansion, I.BindAll, I.Parts, I.LabelParts, Cons, I.Cons, I.Bind, Car, Cdr;
    var num, name := cfg.numeral, e.car.car.atom;
    ReadParts(s, e);
    Self(s);
    if fuel > 0 && name.Sym? {
      if name.name == "lambda" {
        EnterIs(cfg, fuel, k, s, w, e, a, env);
      } else if name.name == "mlambda" {
        ExpandMacroIs(fuel, s, w, e);
        var x, p := ExpandMacro(fuel, s, e.at), I.Expansion(w, e.car, e.cdr);
        if x.Ok? && p.Ok? { ThenEvalIs(cfg, fuel, k, s, w, e, a, env, fuel - 1, x, p); }
      } else if name.name == "label" {
        LabelIs(cfg, fuel, k, s, w, e, a, env);
      } else if name.name == "flabel" {
        MacroLabelIs(cfg, fuel, k, s, w, e, a, env);
      } else {
        Onward(cfg, fuel, k, s, w, e, a, env, fuel - 1, k, s, w, e.car);
        EvalIs(cfg, fuel - 1, k, s, w, e.car, a, env);
        var x, p := Eval(cfg, fuel - 1, s, e.car.at, a), I.Interp(num, k, w, e.car, env);
        if x.Ok? && p.Ok? {
          var t := x.value.1;
          var (f, w1) := p.value;
          Onward(cfg, fuel, k, s, w, e, a, env, fuel - 1, k, t, w1, f);
          ReadParts(t, e);
          ConsEvalIs(cfg, fuel - 1, k, t, w1, f, e.cdr, a, env);
          var (q, w2) := I.Cons(w1, f, e.cdr);
          var (r, u) := Cons(t, f.at, e.cdr.at);
          ThenIs(s, t, Eval(cfg, fuel - 1, u, r, a), I.Interp(num, k, w2, q, env));
        }
      }
    }
  }

  // Evaluating what a step has built.
  lemma {:induction false} ThenEvalIs(cfg: Config, fuel: nat, k: nat, s: State, w: I.World, e: I.Tree, a: Ref,
      env: I.Env, fuel': nat, x: Result<(Ref, State)>, p: Result<(I.Tree, I.World)>)
    requires Ready(cfg, fuel, k, s, w, e, a, env) && Is(s, x, p) && x.Ok? && p.Ok? && fuel' < fuel
    ensures Is(s, Eval(cfg, fuel', x.value.1, x.value.0, a), I.Interp(cfg.numeral, k, p.value.1, p.value.0, env))
    decreases fuel', 6
  {
    hide WF, Sees, Reads, EnvIs, Later, Eval, I.Interp;
    var t := x.value.1;
    var (v, w1) := p.value;
    Onward(cfg, fuel, k, s, w, e, a, env, fuel', k, t, w1, v);
    EvalIs(cfg, fuel', k, t, w1, v, a, env);
    ThenIs(s, t, Eval(cfg, fuel', t, v.at, a), I.Interp(cfg.numeral, k, w1, v, env));
  }

  lemma {:induction false} EnterIs(cfg: Config, fuel: nat, k: nat, s: State, w: I.World, e: I.Tree, a: Ref,
      env: I.Env)
    requires Ready(cfg, fuel, k, s, w, e, a, env) && e.Fork? && fuel > 0
    ensures Is(s, var x := EvalList(cfg, fuel - 1, s, e.cdr.at, a);
                  if x.Stop? then Stop(x.why) else Enter(cfg, fuel, x.value.1, e.at, x.value.0, a),
               I.Enter(cfg.numeral, k, w, e.car, "lambda", e.cdr, env))
    decreases fuel, 3
  {
    hide WF, Sees, Reads, EnvIs, Later, Eval, EvalList, Enter, I.Interp, I.ValuesOf, I.BindAll, I.Parts;
    ReadParts(s, e);
    Onward(cfg, fuel, k, s, w, e, a, env, fuel - 1, k, s, w, e.cdr) by { Self(s); }
    ListIs(cfg, fuel - 1, k, s, w, e.cdr, a, env);
    var x, p := EvalList(cfg, fuel - 1, s, e.cdr.at, a), I.ValuesOf(cfg.numeral, k, w, e.cdr, env);
    if x.Ok? && p.Ok? {
      var t := x.value.1;
      var (vs, w1) := p.value;
      Onward(cfg, fuel, k, s, w, e, a, env, fuel, k, t, w1, vs);
      BodyIs(cfg, fuel, k, t, w1, e, vs, a, env);
      ThenIs(s, t, Enter(cfg, fuel, t, e.at, vs.at, a), Entered(cfg, k, w1, e.car, vs, env));
    }
  }

  // A lambda form whose arguments have these values.
  ghost function Entered(cfg: Config, k: nat, w: I.World, head: I.Tree, values: I.Tree, env: I.Env)
    : Result<(I.Tree, I.World)>
  {
    var (params, body) :- I.Parts(head);
    var (frame, w1) :- I.BindAll(w, params, values);
    I.Interp(cfg.numeral, k, I.Skip(w1, |frame|), body, frame + env)
  }

  lemma {:induction false} BodyIs(cfg: Config, fuel: nat, k: nat, s: State, w: I.World, e: I.Tree, values: I.Tree,
      a: Ref, env: I.Env)
    requires Ready(cfg, fuel, k, s, w, e, a, env) && e.Fork? && Reads(s, values) && fuel > 0
    ensures Is(s, Enter(cfg, fuel, s, e.at, values.at, a), Entered(cfg, k, w, e.car, values, env))
    decreases fuel, 2
  {
    hide WF, Sees, Reads, EnvIs, Later, Eval, LambdaParts, Bind, Append, I.Interp, I.BindAll, I.Parts;
    PartsIs(s, e);
    if I.Parts(e.car).Ok? {
      var (params, body) := I.Parts(e.car).value;
      BindAllIs(fuel, s, w, params, values);
      var x, p := Bind(fuel, s, params.at, values.at), I.BindAll(w, params, values);
      if x.Ok? && p.Ok? {
        var (f, t) := x.value;
        var (frame, w1) := p.value;
        EnvGrows(s, t, a, env);
        AppendIs(fuel, t, w1, f, frame, a, env);
        var y := Append(fuel, t, f, a);
        if y.Ok? {
          var (b, u) := y.value;
          var w2 := I.Skip(w1, |frame|);
          GrowsTrans(s, t, u);
          HoldsGrows(s, u, body);
          EvalIs(cfg, fuel - 1, k, u, w2, body, b, frame + env);
          ThenIs(s, u, Eval(cfg, fuel - 1, u, body.at, b), I.Interp(cfg.numeral, k, w2, body, frame + env));
        }
      }
    }
  }

  lemma {:induction false} LabelIs(cfg: Config, fuel: nat, k: nat, s: State, w: I.World, e: I.Tree, a: Ref,
      env: I.Env)
    requires Ready(cfg, fuel, k, s, w, e, a, env) && e.Fork? && fuel > 0
    ensures Is(s, EnterLabel(cfg, fuel, s, e.at, e.car.at, e.cdr.at, a),
               I.Enter(cfg.numeral, k, w, e.car, "label", e.cdr, env))
    decreases fuel, 3
  {
    hide WF, Sees, Reads, EnvIs, Later, Eval, LambdaParts, Cons, NewEntry, Link;
    hide I.Cons, I.Bind, I.Interp, I.Parts, Deref;
    ReadParts(s, e);
    PartsIs(s, e);
    if I.Parts(e.car).Ok? {
      var (name, body) := I.Parts(e.car).value;
      ReadParts(s, name);
      if I.IsSymbol(name) {
        ConsIs(s, w, body, e.cdr);
        var (r, t) := Cons(s, body.at, e.cdr.at);
        var (q, w1) := I.Cons(w, body, e.cdr);
        HoldsGrows(s, t, name);
        HoldsGrows(s, t, e.car);
        NewEntryIs(t, w1, name, e.car);
        var (entry, u) := NewEntry(t, name.at, e.car.at);
        var (l, w2) := I.Bind(w1, name, e.car);
        GrowsTrans(s, t, u);
        EnvGrows(s, u, a, env);
        SpineIs(u, w2, l, a, env);
        var (b, v) := Link(u, Spine, entry, a);
        GrowsTrans(t, u, v);
        GrowsTrans(s, t, v);
        HoldsGrows(t, v, q);
        EvalIs(cfg, fuel - 1, k, v, I.Skip(w2, 1), q, b, [l] + env);
        ThenIs(s, v, Eval(cfg, fuel - 1, v, r, b), I.Interp(cfg.numeral, k, I.Skip(w2, 1), q, [l] + env));
      }
    }
  }

  lemma LabelPartsIs(s: State, e: I.Tree)
    requires WF(s) && Reads(s, e) && e.Fork?
    ensures var x, p := LabelParts(s, e.at), I.LabelParts(e.car);
            if p.Ok? then
              x == Ok((p.value.0.at, p.value.1.at, p.value.2.at)) &&
              Reads(s, p.value.0) && Reads(s, p.value.1) && Reads(s, p.value.2)
            else x == Stop(Failed) && p.why == Failed
  {
    hide WF, Reads, Car, Cdr, Deref;
    PartsIs(s, e);
    ReadParts(s, e);
    ReadParts(s, e.car);
    if e.car.Fork? {
      ReadParts(s, e.car.cdr);
      if e.car.cdr.Fork? {
        ReadParts(s, e.car.cdr.cdr);
        if e.car.cdr.cdr.Fork? { ReadParts(s, e.car.cdr.cdr.cdr); }
      }
    }
  }

  lemma {:induction false} MacroLabelIs(cfg: Config, fuel: nat, k: nat, s: State, w: I.World, e: I.Tree, a: Ref,
      env: I.Env)
    requires Ready(cfg, fuel, k, s, w, e, a, env) && e.Fork? && fuel > 0
    ensures Is(s, EvalMacroLabel(cfg, fuel, s, e.at, e.car.at, e.cdr.at, a),
               I.Enter(cfg.numeral, k, w, e.car, "flabel", e.cdr, env))
    decreases fuel, 3
  {
    hide WF, Sees, Reads, EnvIs, Later, Subtype, EvalList, EnterMacroLabel, LabelParts, I.LabelParts, I.ValuesOf,
         I.BindAll, I.Bind, I.Interp, I.Mark, Deref;
    ReadParts(s, e);
    LabelPartsIs(s, e);
    if I.LabelParts(e.car).Ok? {
      var (name, params, body) := I.LabelParts(e.car).value;
      ReadParts(s, name);
      if I.IsSymbol(name) {
        MarkIs(s, w, name, true);
        var t, w1 := Subtype(s, name.at, true), I.Mark(w, name, true);
        Onward(cfg, fuel, k, s, w, e, a, env, fuel - 1, k, t, w1, e.cdr);
        ListIs(cfg, fuel - 1, k, t, w1, e.cdr, a, env);
        var x, p := EvalList(cfg, fuel - 1, t, e.cdr.at, a), I.ValuesOf(cfg.numeral, k, w1, e.cdr, env);
        if x.Ok? && p.Ok? {
          var u := x.value.1;
          var (vs, w2) := p.value;
          GrowsTrans(s, t, u);
          HoldsGrows(s, u, name);
          HoldsGrows(s, u, params);
          HoldsGrows(s, u, body);
          HoldsGrows(s, u, e.car);
          EnterMacroIs(cfg, fuel, k, u, w2, name, e.car, params, body, vs);
          ThenIs(s, u, EnterMacroLabel(cfg, fuel, u, name.at, e.car.at, params.at, body.at, vs.at),
                 MacroEntered(cfg, k, w2, name, e.car, params, body, vs));
        }
      }
    }
  }

  // A flabel form whose arguments have these values.
  ghost function MacroEntered(cfg: Config, k: nat, w: I.World, name: I.Tree, head: I.Tree, params: I.Tree, body: I.Tree,
                              values: I.Tree): Result<(I.Tree, I.World)>
  {
    var (frame, w1) :- I.BindAll(w, params, values);
    var (local, w2) := I.Bind(w1, name, head);
    I.Interp(cfg.numeral, k, I.Skip(w2, 1), body, [local] + frame)
  }

  lemma {:induction false} EnterMacroIs(cfg: Config, fuel: nat, k: nat, s: State, w: I.World, name: I.Tree,
      head: I.Tree, params: I.Tree, body: I.Tree, values: I.Tree)
    requires Never(cfg) && 0 < fuel <= k && Good(s, w) && Reads(s, name) && Reads(s, head) && Reads(s, params)
    requires Reads(s, body) && Reads(s, values)
    ensures Is(s, EnterMacroLabel(cfg, fuel, s, name.at, head.at, params.at, body.at, values.at),
               MacroEntered(cfg, k, w, name, head, params, body, values))
    decreases fuel, 2
  {
    hide WF, Sees, Reads, EnvIs, Later, Eval, Bind, NewEntry, Link, I.BindAll, I.Bind, I.Interp;
    BindAllIs(fuel, s, w, params, values);
    var x, p := Bind(fuel, s, params.at, values.at), I.BindAll(w, params, values);
    if x.Ok? && p.Ok? {
      var (f, t) := x.value;
      var (frame, w1) := p.value;
      HoldsGrows(s, t, name);
      HoldsGrows(s, t, head);
      NewEntryIs(t, w1, name, head);
      var (entry, u) := NewEntry(t, name.at, head.at);
      var (l, w2) := I.Bind(w1, name, head);
      EnvGrows(t, u, f, frame);
      SpineIs(u, w2, l, f, frame);
      var (b, v) := Link(u, Spine, entry, f);
      GrowsTrans(t, u, v);
      GrowsTrans(s, t, v);
      HoldsGrows(s, v, body);
      EvalIs(cfg, fuel - 1, k, v, I.Skip(w2, 1), body, b, [l] + frame);
      ThenIs(s, v, Eval(cfg, fuel - 1, v, body.at, b), I.Interp(cfg.numeral, k, I.Skip(w2, 1), body, [l] + frame));
    }
  }

  // ---------------------------------------------------------------- special functions

  lemma {:induction false} SpecialIs(cfg: Config, fuel: nat, k: nat, s: State, w: I.World, f: Special, e: I.Tree,
      a: Ref, env: I.Env)
    requires Ready(cfg, fuel, k, s, w, e, a, env)
    ensures Is(s, CallSpecial(cfg, fuel, s, f, e.at, a), I.RunSpecial(cfg.numeral, k, w, f, e, env))
    decreases fuel, 3
  {
    hide WF, Sees, Reads, EnvIs, Later, Eval, EvalEach, ListSize, QuoteAll, I.Interp, I.Sequence, I.QuoteAll, Cons,
         I.Cons, Car, Cdr;
    SizeIs(fuel, s, e);
    ReadParts(s, e);
    ReadStatic(s);
    if fuel > 0 {
      if f.QuoteF? {
        if e.Fork? { SameIs(s, w, e.car); }
      } else if f.PrognF? {
        EachIs(cfg, fuel - 1, k, s, w, e, a, env, I.NIL);
      } else if e.Fork? {
        QuoteAllIs(fuel, s, w, e.cdr);
        var x, p := QuoteAll(fuel, s, e.cdr.at), I.QuoteAll(w, e.cdr);
        if x.Ok? && p.Ok? {
          var t := x.value.1;
          var (quoted, w1) := p.value;
          Onward(cfg, fuel, k, s, w, e, a, env, fuel - 1, k, t, w1, e.car);
          ConsEvalIs(cfg, fuel - 1, k, t, w1, e.car, quoted, a, env);
          var (q, w2) := I.Cons(w1, e.car, quoted);
          var (r, u) := Cons(t, e.car.at, quoted.at);
          ThenIs(s, t, Eval(cfg, fuel - 1, u, r, a), I.Interp(cfg.numeral, k, w2, q, env));
        }
      }
    }
  }

  lemma {:induction false} EachIs(cfg: Config, fuel: nat, k: nat, s: State, w: I.World, e: I.Tree, a: Ref, env: I.Env,
      last: I.Tree)
    requires Ready(cfg, fuel, k, s, w, e, a, env) && Reads(s, last)
    ensures Is(s, EvalEach(cfg, fuel, s, e.at, a, last.at), I.Sequence(cfg.numeral, k, w, e, env, last))
    decreases fuel
  {
    hide WF, Sees, Reads, EnvIs, Later, Eval, I.Interp, Car, Cdr;
    ReadParts(s, e);
    SameIs(s, w, last);
    if e.at != Nil && fuel > 0 && e.Fork? {
      Onward(cfg, fuel, k, s, w, e, a, env, fuel - 1, k, s, w, e.car);
      EvalIs(cfg, fuel - 1, k, s, w, e.car, a, env);
      var x, p := Eval(cfg, fuel - 1, s, e.car.at, a), I.Interp(cfg.numeral, k, w, e.car, env);
      if x.Ok? && p.Ok? {
        var t := x.value.1;
        var (v, w1) := p.value;
        Onward(cfg, fuel, k, s, w, e, a, env, fuel - 1, k, t, w1, e.cdr);
        ReadParts(t, e);
        EachIs(cfg, fuel - 1, k, t, w1, e.cdr, a, env, v);
        ThenIs(s, t, EvalEach(cfg, fuel - 1, t, e.cdr.at, a, v.at), I.Sequence(cfg.numeral, k, w1, e.cdr, env, v));
      }
    }
  }

  // ---------------------------------------------------------------- native functions

  lemma {:induction false} NativeIs(cfg: Config, fuel: nat, k: nat, s: State, w: I.World, f: Native, vs: I.Tree,
      a: Ref, env: I.Env)
    requires Ready(cfg, fuel, k, s, w, vs, a, env)
    ensures Is(s, CallNative(cfg, fuel, s, f, vs.at, a), I.RunNative(cfg.numeral, k, w, f, vs, env))
    decreases fuel, 3
  {
    hide WF, Sees, Reads, EnvIs, Later, ListSize, CallControl, CallBlock, CallStrict;
    if fuel > 0 {
      SizeIs(fuel, s, vs);
      if I.Takes(f, I.Length(vs)) {
        if f in {EvalF, CondF, AndF, OrF} { ControlIs(cfg, fuel, k, s, w, f, vs, a, env); }
        else if f in {LetF, CaseF, WhileF} { BlockIs(cfg, fuel, k, s, w, f, vs, a, env); }
        else { StrictIs(fuel, cfg, k, s, w, f, vs, a, env); }
      }
    }
  }

  lemma {:induction false} ControlIs(cfg: Config, fuel: nat, k: nat, s: State, w: I.World, f: Native, vs: I.Tree,
      a: Ref, env: I.Env)
    requires Ready(cfg, fuel, k, s, w, vs, a, env) && fuel > 0 && f in {EvalF, CondF, AndF, OrF}
    requires I.Takes(f, I.Length(vs))
    ensures Is(s, CallControl(cfg, fuel, s, f, vs.at, a), I.RunNative(cfg.numeral, k, w, f, vs, env))
    decreases fuel, 2
  {
    hide WF, Sees, Reads, EnvIs, Is, Eval, EvalCond, EvalJunction, I.Interp, I.Cond, I.And, I.Or, Car, I.Length;
    ReadParts(s, vs);
    FailIs(s);
    if f == CondF {
      CondIs(cfg, fuel - 1, k, s, w, vs, a, env);
    } else if f == AndF {
      AndIs(cfg, fuel - 1, k, s, w, vs, a, env);
    } else if f == OrF {
      OrIs(cfg, fuel - 1, k, s, w, vs, a, env);
    } else if vs.Fork? {
      EvalIs(cfg, fuel - 1, k, s, w, vs.car, a, env);
    }
  }

  lemma {:induction false} CondIs(cfg: Config, fuel: nat, k: nat, s: State, w: I.World, cs: I.Tree, a: Ref, env: I.Env)
    requires Ready(cfg, fuel, k, s, w, cs, a, env)
    ensures Is(s, EvalCond(cfg, fuel, s, cs.at, a), I.Cond(cfg.numeral, k, w, cs, env))
    decreases fuel
  {
    hide WF, Sees, Reads, EnvIs, Later, Eval, I.Interp, Car, Cdr, Cadr;
    ReadParts(s, cs);
    ReadStatic(s);
    SameIs(s, w, I.NIL);
    if cs.at != Nil && fuel > 0 && cs.Fork? {
      ReadParts(s, cs.car);
      if cs.car.Fork? && cs.car.car.at != Nil {
        var test := cs.car.car;
        Onward(cfg, fuel, k, s, w, cs, a, env, fuel - 1, k, s, w, test);
        EvalIs(cfg, fuel - 1, k, s, w, test, a, env);
        var x, p := Eval(cfg, fuel - 1, s, test.at, a), I.Interp(cfg.numeral, k, w, test, env);
        if x.Ok? && p.Ok? {
          var t := x.value.1;
          var (v, w1) := p.value;
          Onward(cfg, fuel, k, s, w, cs, a, env, fuel - 1, k, t, w1, cs.cdr);
          ReadParts(t, cs);
          if v.at == Nil {
            CondIs(cfg, fuel - 1, k, t, w1, cs.cdr, a, env);
            ThenIs(s, t, EvalCond(cfg, fuel - 1, t, cs.cdr.at, a), I.Cond(cfg.numeral, k, w1, cs.cdr, env));
          } else {
            ReadCadr(t, cs.car);
            if cs.car.cdr.Fork? {
              var body := cs.car.cdr.car;
              EvalIs(cfg, fuel - 1, k, t, w1, body, a, env);
              ThenIs(s, t, Eval(cfg, fuel - 1, t, body.at, a), I.Interp(cfg.numeral, k, w1, body, env));
            }
          }
        }
      }
    }
  }

  lemma {:induction false} AndIs(cfg: Config, fuel: nat, k: nat, s: State, w: I.World, es: I.Tree, a: Ref, env: I.Env)
    requires Ready(cfg, fuel, k, s, w, es, a, env)
    ensures Is(s, EvalJunction(cfg, fuel, s, es.at, a, false), I.And(cfg.numeral, k, w, es, env))
    decreases fuel
  {
    hide WF, Sees, Reads, EnvIs, Later, Eval, I.Interp, Car, Cdr;
    ReadParts(s, es);
    ReadStatic(s);
    SameIs(s, w, I.T);
    if es.at != Nil && fuel > 0 && es.Fork? {
      Onward(cfg, fuel, k, s, w, es, a, env, fuel - 1, k, s, w, es.car);
      EvalIs(cfg, fuel - 1, k, s, w, es.car, a, env);
      var x, p := Eval(cfg, fuel - 1, s, es.car.at, a), I.Interp(cfg.numeral, k, w, es.car, env);
      if x.Ok? && p.Ok? {
        var t := x.value.1;
        var (v, w1) := p.value;
        Onward(cfg, fuel, k, s, w, es, a, env, fuel - 1, k, t, w1, es.cdr);
        ReadParts(t, es);
        ReadStatic(t);
        if v.at != Nil {
          AndIs(cfg, fuel - 1, k, t, w1, es.cdr, a, env);
          ThenIs(s, t, EvalJunction(cfg, fuel - 1, t, es.cdr.at, a, false), I.And(cfg.numeral, k, w1, es.cdr, env));
        }
      }
    }
  }

  lemma {:induction false} OrIs(cfg: Config, fuel: nat, k: nat, s: State, w: I.World, es: I.Tree, a: Ref, env: I.Env)
    requires Ready(cfg, fuel, k, s, w, es, a, env)
    ensures Is(s, EvalJunction(cfg, fuel, s, es.at, a, true), I.Or(cfg.numeral, k, w, es, env))
    decreases fuel
  {
    hide WF, Sees, Reads, EnvIs, Later, Eval, I.Interp, Car, Cdr;
    ReadParts(s, es);
    ReadStatic(s);
    SameIs(s, w, I.NIL);
    if es.at != Nil && fuel > 0 && es.Fork? {
      Onward(cfg, fuel, k, s, w, es, a, env, fuel - 1, k, s, w, es.car);
      EvalIs(cfg, fuel - 1, k, s, w, es.car, a, env);
      var x, p := Eval(cfg, fuel - 1, s, es.car.at, a), I.Interp(cfg.numeral, k, w, es.car, env);
      if x.Ok? && p.Ok? {
        var t := x.value.1;
        var (v, w1) := p.value;
        Onward(cfg, fuel, k, s, w, es, a, env, fuel - 1, k, t, w1, es.cdr);
        ReadParts(t, es);
        ReadStatic(t);
        if v.at == Nil {
          OrIs(cfg, fuel - 1, k, t, w1, es.cdr, a, env);
          ThenIs(s, t, EvalJunction(cfg, fuel - 1, t, es.cdr.at, a, true), I.Or(cfg.numeral, k, w1, es.cdr, env));
        }
      }
    }
  }

  lemma StrictIs(fuel: nat, cfg: Config, k: nat, s: State, w: I.World, f: Native, vs: I.Tree, a: Ref, env: I.Env)
    requires Ready(cfg, fuel, k, s, w, vs, a, env) && I.Takes(f, I.Length(vs))
    requires f !in {EvalF, CondF, AndF, OrF, LetF, CaseF, WhileF}
    ensures Is(s, CallStrict(fuel, s, f, I.Length(vs), vs.at, a), I.RunNative(cfg.numeral, k, w, f, vs, env))
  {
    hide WF, Sees, Reads, EnvIs, Is, CallUnary, CallBinary, CopyList, I.CopyList;
    hide I.Unary, I.Binary, Car, Cadr, I.Length;
    ReadParts(s, vs);
    FailIs(s);
    CopyListIs(fuel, s, w, vs);
    if vs.Fork? {
      UnaryIs(s, w, f, vs.car);
      ReadCadr(s, vs);
      if I.Cadr(vs).Ok? { BinaryIs(fuel, s, w, f, vs, vs.car, I.Cadr(vs).value, a, env); }
    }
  }

  lemma UnaryIs(s: State, w: I.World, f: Native, x: I.Tree)
    requires Good(s, w) && Reads(s, x)
    ensures f in {CarF, CdrF, AtomF, NullF, UnsetF, TUnsetF, IsSetF, IsTSetF} ==>
              Is(s, CallUnary(s, f, x.at), I.Unary(w, f, x))
  {
    hide WF, Sees, Reads, Later, Unset, IsSet, Deref, Car, Cdr;
    ReadParts(s, x);
    ReadStatic(s);
    SameIs(s, w, I.T);
    SameIs(s, w, I.NIL);
    if x.Fork? {
      SameIs(s, w, x.car);
      SameIs(s, w, x.cdr);
    }
    UnsetIs(s, w, x, f == UnsetF);
    IsSetIs(s, w, x, f == IsSetF);
  }

  lemma BinaryIs(fuel: nat, s: State, w: I.World, f: Native, vs: I.Tree, x: I.Tree, y: I.Tree, a: Ref, env: I.Env)
    requires Good(s, w) && EnvIs(s, a, env) && Reads(s, vs) && Reads(s, x) && Reads(s, y)
    ensures Is(s, CallBinary(fuel, s, f, I.Length(vs), vs.at, x.at, y.at, a), I.Binary(w, f, vs, x, y, env))
  {
    hide WF, Sees, Reads, EnvIs, Later, Cons, I.Cons, Equal, CallSet, I.Set, I.Match;
    ReadStatic(s);
    SameIs(s, w, I.T);
    SameIs(s, w, I.NIL);
    ConsIs(s, w, x, y);
    EqualIs(fuel, s, x, y);
    SetIs(fuel, s, w, f, vs, x, y, a, env);
  }

  lemma SetIs(fuel: nat, s: State, w: I.World, f: Native, vs: I.Tree, x: I.Tree, y: I.Tree, a: Ref, env: I.Env)
    requires Good(s, w) && EnvIs(s, a, env) && Reads(s, vs) && Reads(s, x) && Reads(s, y)
    ensures Is(s, CallSet(fuel, s, f, I.Length(vs), vs.at, x.at, y.at, a), I.Set(w, f, vs, x, y, env))
  {
    hide WF, Sees, Reads, EnvIs, Later, Assign, I.Assign, I.Length, Car, Cdr, Cadr, Deref;
    AssignIs(fuel, s, w, a, env, x, y, f in {MSetF, TMSetF}, f in {SetF, MSetF});
    ReadParts(s, vs);
    if vs.Fork? {
      ReadCadr(s, vs.cdr);
      if I.Cadr(vs.cdr).Ok? { ReadParts(s, I.Cadr(vs.cdr).value); }
    }
  }

  // ---------------------------------------------------------------- f-let, f-case, f-while

  lemma {:induction false} BlockIs(cfg: Config, fuel: nat, k: nat, s: State, w: I.World, f: Native, vs: I.Tree,
      a: Ref, env: I.Env)
    requires Ready(cfg, fuel, k, s, w, vs, a, env) && fuel > 0 && f in {LetF, CaseF, WhileF}
    requires I.Takes(f, I.Length(vs))
    ensures Is(s, CallBlock(cfg, fuel, s, f, vs.at, a), I.RunNative(cfg.numeral, k, w, f, vs, env))
    decreases fuel, 2
  {
    hide WF, Sees, Reads, EnvIs, Is, EvalLet, EvalCase, EvalWhile, I.Let, I.Case, I.While, Car, I.Length;
    ReadParts(s, vs);
    HasParts(f, vs);
    if vs.Fork? {
      if f == LetF { LetIs(cfg, fuel - 1, k, s, w, vs, a, env); }
      else if f == CaseF { CaseIs(cfg, fuel - 1, k, s, w, vs, a, env); }
      else { WhileIs(cfg, fuel - 1, k, s, w, vs.car, vs, a, env); }
    }
  }

  // With at least two parameters there is a list of them.
  lemma HasParts(f: Native, vs: I.Tree)
    requires I.Takes(f, I.Length(vs)) && f in {LetF, CaseF, WhileF}
    ensures vs.Fork?
  {}

  lemma {:induction false} ElementsIs(fuel: nat, s: State, w: I.World, bs: I.Tree, second: bool, r: I.Tree)
    requires Good(s, w) && Reads(s, bs) && Reads(s, r)
    ensures Is(s, Elements(fuel, s, bs.at, second, r.at), I.Elements(w, bs, second, r))
    decreases fuel
  {
    hide WF, Sees, Reads, Later, Cons, I.Cons, Car, Cdr, Cadr, I.Cadr;
    ReadParts(s, bs);
    SameIs(s, w, r);
    if bs.at != Nil && fuel > 0 && bs.Fork? {
      ReadParts(s, bs.car);
      ReadCadr(s, bs.car);
      var x := if second then I.Cadr(bs.car) else I.Car(bs.car);
      if x.Ok? {
        ConsIs(s, w, x.value, r);
        var t := Cons(s, x.value.at, r.at).1;
        var (r1, w1) := I.Cons(w, x.value, r);
        HoldsGrows(s, t, bs.cdr);
        ElementsIs(fuel - 1, t, w1, bs.cdr, second, r1);
        ThenIs(s, t, Elements(fuel - 1, t, bs.cdr.at, second, r1.at), I.Elements(w1, bs.cdr, second, r1));
      }
    }
  }

  // The expression that f-let evaluates.
  function Lambdas(w: I.World, bs: I.Tree, es: I.Tree): Result<(I.Tree, I.World)> {
    if bs.Tip? && bs.at != Nil then Stop(Failed) else
    var (names, w1) :- I.Elements(w, bs, false, I.NIL);
    var (values, w2) :- I.Elements(w1, bs, true, I.NIL);
    LambdaBody(w2, names, values, es)
  }

  function LambdaBody(w: I.World, names: I.Tree, values: I.Tree, es: I.Tree): Result<(I.Tree, I.World)> {
    var (body, w3) := I.Cons(w, I.PROGN, es);
    if names.at == Nil then Ok((body, w3))
    else if values.at == Nil then Stop(Failed)
    else
      var (b, w4) := I.Cons(w3, body, I.NIL);
      var (p, w5) := I.Cons(w4, names, b);
      var (l, w6) := I.Cons(w5, I.LAMBDA, p);
      Ok(I.Cons(w6, l, values))
  }

  lemma LetBodyIs(s: State, w: I.World, names: I.Tree, values: I.Tree, es: I.Tree)
    requires Good(s, w) && Reads(s, names) && Reads(s, values) && Reads(s, es)
    ensures Is(s, LetBody(s, es.at, names.at, values.at), LambdaBody(w, names, values, es))
  {
    hide WF, Sees, Reads, Later, Cons, I.Cons;
    ReadStatic(s);
    ConsIs(s, w, I.PROGN, es);
    var (body, w3) := I.Cons(w, I.PROGN, es);
    var t3 := Cons(s, Progn, es.at).1;
    HoldsGrows(s, t3, names);
    HoldsGrows(s, t3, values);
    ReadStatic(t3);
    if names.at != Nil && values.at != Nil {
      ConsIs(t3, w3, body, I.NIL);
      var (b, w4) := I.Cons(w3, body, I.NIL);
      var t4 := Cons(t3, body.at, Nil).1;
      HoldsGrows(t3, t4, names);
      HoldsGrows(t3, t4, values);
      ConsIs(t4, w4, names, b);
      var (p, w5) := I.Cons(w4, names, b);
      var t5 := Cons(t4, names.at, b.at).1;
      ReadStatic(t5);
      HoldsGrows(t4, t5, values);
      ConsIs(t5, w5, I.LAMBDA, p);
      var (l, w6) := I.Cons(w5, I.LAMBDA, p);
      var t6 := Cons(t5, Lambda, p.at).1;
      HoldsGrows(t5, t6, values);
      ConsIs(t6, w6, l, values);
      ThenIs(t5, t6, Ok(Cons(t6, l.at, values.at)), Ok(I.Cons(w6, l, values)));
      ThenIs(t4, t5, Ok(Cons(t6, l.at, values.at)), Ok(I.Cons(w6, l, values)));
      ThenIs(t3, t4, Ok(Cons(t6, l.at, values.at)), Ok(I.Cons(w6, l, values)));
      ThenIs(s, t3, Ok(Cons(t6, l.at, values.at)), Ok(I.Cons(w6, l, values)));
    }
  }

  lemma LetAsLambdaIs(fuel: nat, s: State, w: I.World, vs: I.Tree)
    requires Good(s, w) && Reads(s, vs) && vs.Fork?
    ensures Is(s, LetAsLambda(fuel, s, vs.at), Lambdas(w, vs.car, vs.cdr))
  {
    hide WF, Sees, Reads, Later, Elements, I.Elements, LetBody, LambdaBody, Deref, Car, Cdr;
    ReadParts(s, vs);
    ReadParts(s, vs.car);
    ReadStatic(s);
    ElementsIs(fuel, s, w, vs.car, false, I.NIL);
    var x, p := Elements(fuel, s, vs.car.at, false, Nil), I.Elements(w, vs.car, false, I.NIL);
    if x.Ok? && p.Ok? {
      var t := x.value.1;
      var (names, w1) := p.value;
      HoldsGrows(s, t, vs.car);
      ReadStatic(t);
      ElementsIs(fuel, t, w1, vs.car, true, I.NIL);
      var y, q := Elements(fuel, t, vs.car.at, true, Nil), I.Elements(w1, vs.car, true, I.NIL);
      if y.Ok? && q.Ok? {
        var u := y.value.1;
        var (values, w2) := q.value;
        GrowsTrans(s, t, u);
        HoldsGrows(t, u, names);
        HoldsGrows(s, u, vs);
        ReadParts(u, vs);
        LetBodyIs(u, w2, names, values, vs.cdr);
        ThenIs(s, u, LetBody(u, vs.cdr.at, names.at, values.at), LambdaBody(w2, names, values, vs.cdr));
      }
    }
  }

  // f-let is the evaluation of that expression.
  lemma LetIsLambda(cfg: Config, k: nat, w: I.World, bs: I.Tree, es: I.Tree, env: I.Env)
    ensures var p := Lambdas(w, bs, es);
            I.Let(cfg.numeral, k, w, bs, es, env) ==
            if p.Stop? then Stop(p.why) else I.Interp(cfg.numeral, k, p.value.1, p.value.0, env)
  {
    hide I.Interp, I.Elements;
  }

  lemma {:induction false} LetIs(cfg: Config, fuel: nat, k: nat, s: State, w: I.World, vs: I.Tree, a: Ref, env: I.Env)
    requires Ready(cfg, fuel, k, s, w, vs, a, env) && vs.Fork?
    ensures Is(s, EvalLet(cfg, fuel, s, vs.at, a), I.Let(cfg.numeral, k, w, vs.car, vs.cdr, env))
    decreases fuel
  {
    hide WF, Sees, Reads, EnvIs, Later, Eval, LetAsLambda, Lambdas, I.Let, I.Interp;
    LetIsLambda(cfg, k, w, vs.car, vs.cdr, env);
    if fuel > 0 {
      LetAsLambdaIs(fuel, s, w, vs);
      var x, p := LetAsLambda(fuel, s, vs.at), Lambdas(w, vs.car, vs.cdr);
      if x.Ok? && p.Ok? { ThenEvalIs(cfg, fuel, k, s, w, vs, a, env, fuel - 1, x, p); }
    }
  }

  lemma {:induction false} PairChainIs(fuel: nat, s: State, cs: I.Tree)
    requires WF(s) && Reads(s, cs)
    ensures PairChain(fuel, s, cs.at) in {Stop(OutOfSteps), Ok(I.AllForks(cs))} ||
            (PairChain(fuel, s, cs.at) == Stop(Failed) && !I.AllForks(cs))
    decreases fuel
  {
    hide WF, Reads, Car, Cdr, Deref;
    ReadParts(s, cs);
    if cs.at != Nil && fuel > 0 && cs.Fork? {
      ReadParts(s, cs.car);
      PairChainIs(fuel - 1, s, cs.cdr);
    }
  }

  ghost predicate IsTest(s: State, x: Result<(bool, State)>, p: Result<(bool, I.World)>) {
    x == Stop(OutOfSteps) ||
    if p.Stop? then x == Stop(Failed) && p.why == Failed
    else x.Ok? && x.value.0 == p.value.0 && Good(x.value.1, p.value.1) && Grows(s, x.value.1)
  }

  lemma ThenTest(s: State, t: State, x: Result<(bool, State)>, p: Result<(bool, I.World)>)
    requires Grows(s, t) && IsTest(t, x, p)
    ensures IsTest(s, x, p)
  {
    hide Good, Later;
    if x.Ok? { GrowsTrans(s, t, x.value.1); }
  }

  lemma {:induction false} MatchKeyIs(cfg: Config, fuel: nat, k: nat, s: State, w: I.World, key: I.Tree, x: I.Tree,
      a: Ref, env: I.Env)
    requires Ready(cfg, fuel, k, s, w, x, a, env) && Reads(s, key)
    ensures IsTest(s, MatchKey(cfg, fuel, s, key.at, x.at, a),
                   var p := I.Interp(cfg.numeral, k, w, x, env);
                   if p.Stop? then Stop(p.why) else Ok((I.Match(key, p.value.0), p.value.1)))
    decreases fuel
  {
    hide WF, Sees, Reads, EnvIs, Later, Eval, Equal, I.Interp, I.Match;
    if fuel > 0 {
      EvalIs(cfg, fuel - 1, k, s, w, x, a, env);
      var y, p := Eval(cfg, fuel - 1, s, x.at, a), I.Interp(cfg.numeral, k, w, x, env);
      if y.Ok? && p.Ok? {
        HoldsGrows(s, y.value.1, key);
        EqualIs(fuel, y.value.1, key, p.value.0);
      }
    }
  }

  lemma {:induction false} AmongIs(cfg: Config, fuel: nat, k: nat, s: State, w: I.World, key: I.Tree, xs: I.Tree,
      a: Ref, env: I.Env)
    requires Ready(cfg, fuel, k, s, w, xs, a, env) && Reads(s, key)
    ensures IsTest(s, MatchKeys(cfg, fuel, s, key.at, xs.at, a), I.Among(cfg.numeral, k, w, key, xs, env))
    decreases fuel
  {
    hide WF, Sees, Reads, EnvIs, Later, MatchKey, I.Interp, I.Match, Car, Cdr;
    ReadParts(s, xs);
    Self(s);
    if xs.at != Nil && fuel > 0 && xs.Fork? {
      MatchKeyIs(cfg, fuel - 1, k, s, w, key, xs.car, a, env);
      var y, p := MatchKey(cfg, fuel - 1, s, key.at, xs.car.at, a), I.Interp(cfg.numeral, k, w, xs.car, env);
      if y.Ok? && p.Ok? && !y.value.0 {
        var t, w1 := y.value.1, p.value.1;
        Onward(cfg, fuel, k, s, w, xs, a, env, fuel - 1, k, t, w1, xs.cdr);
        ReadParts(t, xs);
        HoldsGrows(s, t, key);
        AmongIs(cfg, fuel - 1, k, t, w1, key, xs.cdr, a, env);
        ThenTest(s, t, MatchKeys(cfg, fuel - 1, t, key.at, xs.cdr.at, a),
                 I.Among(cfg.numeral, k, w1, key, xs.cdr, env));
      }
    }
  }

  lemma {:induction false} TestIs(cfg: Config, fuel: nat, k: nat, s: State, w: I.World, key: I.Tree, clause: I.Tree,
      a: Ref, env: I.Env)
    requires Ready(cfg, fuel, k, s, w, clause, a, env) && Reads(s, key) && fuel > 0
    ensures IsTest(s, TestClause(cfg, fuel, s, key.at, clause.at, a),
                   if clause.Fork? then I.HasKey(cfg.numeral, k, w, key, clause.car, env) else Stop(Failed))
    decreases fuel, 0
  {
    hide WF, Sees, Reads, EnvIs, Later, MatchKey, MatchKeys, I.Interp, I.Match, I.Among, Car, Deref;
    ReadParts(s, clause);
    Self(s);
    if clause.Fork? {
      ReadParts(s, clause.car);
      if clause.car.Tip? { MatchKeyIs(cfg, fuel - 1, k, s, w, key, clause.car, a, env); }
      else { AmongIs(cfg, fuel - 1, k, s, w, key, clause.car, a, env); }
    }
  }

  lemma {:induction false} SearchIs(cfg: Config, fuel: nat, k: nat, s: State, w: I.World, key: I.Tree, cs: I.Tree,
      a: Ref, env: I.Env)
    requires Ready(cfg, fuel, k, s, w, cs, a, env) && Reads(s, key)
    ensures Is(s, FindCase(cfg, fuel, s, key.at, cs.at, a), I.Search(cfg.numeral, k, w, key, cs, env))
    decreases fuel, 1
  {
    hide WF, Sees, Reads, EnvIs, Later, TestClause, I.HasKey, Car, Cdr;
    ReadParts(s, cs);
    ReadStatic(s);
    SameIs(s, w, I.NIL);
    if cs.at != Nil && fuel > 0 && cs.Fork? {
      TestIs(cfg, fuel, k, s, w, key, cs.car, a, env);
      if cs.car.Fork? {
        var x, p := TestClause(cfg, fuel, s, key.at, cs.car.at, a), I.HasKey(cfg.numeral, k, w, key, cs.car.car, env);
        if x.Ok? && p.Ok? {
          var t, w1 := x.value.1, p.value.1;
          Onward(cfg, fuel, k, s, w, cs, a, env, fuel - 1, k, t, w1, cs.cdr);
          ReadParts(t, cs);
          HoldsGrows(s, t, key);
          if !x.value.0 {
            SearchIs(cfg, fuel - 1, k, t, w1, key, cs.cdr, a, env);
            ThenIs(s, t, FindCase(cfg, fuel - 1, t, key.at, cs.cdr.at, a),
                   I.Search(cfg.numeral, k, w1, key, cs.cdr, env));
          }
        }
      }
    }
  }

  lemma {:induction false} CaseIs(cfg: Config, fuel: nat, k: nat, s: State, w: I.World, vs: I.Tree, a: Ref, env: I.Env)
    requires Ready(cfg, fuel, k, s, w, vs, a, env) && vs.Fork?
    ensures Is(s, EvalCase(cfg, fuel, s, vs.at, a), I.Case(cfg.numeral, k, w, vs.car, vs.cdr, env))
    decreases fuel
  {
    hide WF, Sees, Reads, EnvIs, Later, Eval, PairChain, FindCase, EvalClause, I.Interp, I.Search, I.Sequence,
         I.AllForks, Push, Pop, Car, Cdr;
    ReadParts(s, vs);
    if fuel > 0 {
      PairChainIs(fuel, s, vs.cdr);
      Onward(cfg, fuel, k, s, w, vs, a, env, fuel - 1, k, s, w, vs.car) by { Self(s); }
      EvalIs(cfg, fuel - 1, k, s, w, vs.car, a, env);
      var x, p := Eval(cfg, fuel - 1, s, vs.car.at, a), I.Interp(cfg.numeral, k, w, vs.car, env);
      if x.Ok? && p.Ok? {
        var t := x.value.1;
        var (key, w1) := p.value;
        Onward(cfg, fuel, k, s, w, vs, a, env, fuel - 1, k, t, w1, key);
        ReadParts(t, vs);
        ChosenIs(cfg, fuel - 1, k, t, w1, key, vs.cdr, a, env);
        var y := FindCase(cfg, fuel - 1, Push(t, key.at), key.at, vs.cdr.at, a);
        ThenIs(s, t, if y.Stop? then Stop(y.why)
                     else EvalClause(cfg, fuel - 1, Pop(y.value.1, key.at), y.value.0, a),
               Chosen(cfg, k, w1, key, vs.cdr, env));
      }
    }
  }

  // The rest of f-case, once the key is known.
  ghost function Chosen(cfg: Config, k: nat, w: I.World, key: I.Tree, cs: I.Tree, env: I.Env)
    : Result<(I.Tree, I.World)>
  {
    var (hit, w1) :- I.Search(cfg.numeral, k, w, key, cs, env);
    if hit.at == Nil then Ok((I.NIL, w1)) else
    match hit
    case Fork(_, Fork(_, _, es), _) => I.Sequence(cfg.numeral, k, w1, es, env, I.NIL)
    case _ => Stop(Failed)
  }

  lemma {:induction false} ChosenIs(cfg: Config, fuel: nat, k: nat, s: State, w: I.World, key: I.Tree, cs: I.Tree,
      a: Ref, env: I.Env)
    requires Ready(cfg, fuel, k, s, w, key, a, env) && Reads(s, cs)
    ensures Is(s, var y := FindCase(cfg, fuel, Push(s, key.at), key.at, cs.at, a);
                  if y.Stop? then Stop(y.why) else EvalClause(cfg, fuel, Pop(y.value.1, key.at), y.value.0, a),
               Chosen(cfg, k, w, key, cs, env))
    decreases fuel, 2
  {
    hide WF, Sees, Reads, EnvIs, Later, FindCase, EvalEach, I.Search, I.Sequence, Push, Pop, Car, Cdr;
    PlainOf(s, key);
    PushGood(s, w, key.at, a, env);
    PushReads(s, key.at, key);
    PushReads(s, key.at, cs);
    SearchIs(cfg, fuel, k, Push(s, key.at), w, key, cs, a, env);
    var x, p := FindCase(cfg, fuel, Push(s, key.at), key.at, cs.at, a), I.Search(cfg.numeral, k, w, key, cs, env);
    PopIs(s, key.at, x, p);
    if x.Ok? && p.Ok? {
      var t := Pop(x.value.1, key.at);
      var (hit, w1) := p.value;
      ReadParts(t, hit);
      ReadStatic(t);
      SameIs(t, w1, I.NIL);
      Onward(cfg, fuel, k, s, w, key, a, env, fuel, k, t, w1, hit);
      if hit.at != Nil && fuel > 0 && hit.Fork? {
        ReadParts(t, hit.car);
        if hit.car.Fork? {
          EachIs(cfg, fuel - 1, k, t, w1, hit.car.cdr, a, env, I.NIL);
          ThenIs(s, t, EvalEach(cfg, fuel - 1, t, hit.car.cdr.at, a, Nil),
                 I.Sequence(cfg.numeral, k, w1, hit.car.cdr, env, I.NIL));
        }
      }
    }
  }

  lemma {:induction false} WhileIs(cfg: Config, fuel: nat, k: nat, s: State, w: I.World, test: I.Tree, vs: I.Tree,
      a: Ref, env: I.Env)
    requires Ready(cfg, fuel, k, s, w, vs, a, env) && vs.Fork? && Reads(s, test)
    ensures Is(s, EvalWhile(cfg, fuel, s, test.at, vs.at, a), I.While(cfg.numeral, k, w, test, vs.cdr, env))
    decreases fuel
  {
    hide WF, Sees, Reads, EnvIs, Later, Eval, EvalEach, I.Interp, I.Sequence, Car, Cdr;
    if fuel > 0 {
      Onward(cfg, fuel, k, s, w, vs, a, env, fuel - 1, k, s, w, test) by { Self(s); }
      EvalIs(cfg, fuel - 1, k, s, w, test, a, env);
      var x, p := Eval(cfg, fuel - 1, s, test.at, a), I.Interp(cfg.numeral, k, w, test, env);
      if x.Ok? && p.Ok? {
        var t := x.value.1;
        var (v, w1) := p.value;
        Onward(cfg, fuel, k, s, w, vs, a, env, fuel - 1, k, t, w1, v);
        ReadParts(t, vs);
        ReadStatic(t);
        if v.at != Nil {
          EachIs(cfg, fuel - 1, k, t, w1, vs.cdr, a, env, I.NIL);
          var y, q := EvalEach(cfg, fuel - 1, t, vs.cdr.at, a, Nil), I.Sequence(cfg.numeral, k, w1, vs.cdr, env, I.NIL);
          if y.Ok? && q.Ok? {
            var u, w2 := y.value.1, q.value.1;
            GrowsTrans(s, t, u);
            Onward(cfg, fuel, k, s, w, vs, a, env, fuel - 1, k - 1, u, w2, test);
            HoldsGrows(s, u, test);
            WhileIs(cfg, fuel - 1, k - 1, u, w2, test, vs, a, env);
            ThenIs(s, u, EvalWhile(cfg, fuel - 1, u, test.at, vs.at, a),
                   I.While(cfg.numeral, k - 1, w2, test, vs.cdr, env));
          }
        }
      }
    }
  }

  // ---------------------------------------------------------------- main results

  // An evaluation without collections, up to its result, is in step with one that has
  // them: what stays of the world are the tables.
  ghost predicate Outcome(x: Result<(Ref, State)>, p: Result<(I.Tree, I.World)>) {
    x == Stop(OutOfSteps) ||
    if p.Stop? then x == Stop(Failed) && p.why == Failed
    else
      && x.Ok? && x.value.0 == p.value.0.at && Reads(x.value.1, p.value.0)
      && TableIs(x.value.1, x.value.1.thread, p.value.1.thread)
      && TableIs(x.value.1, x.value.1.global, p.value.1.global)
  }

  // A tree that one state holds is held by every state that has the same value there.
  lemma {:induction false} SameHolds(t: State, u: State, r: Ref, v: I.Tree)
    requires Holds(t, v) && SameValue(t, u, r) && (v.at.Cell? ==> Reachable(GraphOf(t.heap), Ids({r}), v.at.id))
    ensures Holds(u, v)
    decreases v
  {
    hide Reachable;
    if v.Fork? {
      var g := GraphOf(t.heap);
      if v.car.at.Cell? {
        assert Edge(g, v.at.id, v.car.at.id);
        ReachableStep(g, Ids({r}), v.at.id, v.car.at.id);
      }
      if v.cdr.at.Cell? {
        assert Edge(g, v.at.id, v.cdr.at.id);
        ReachableStep(g, Ids({r}), v.at.id, v.cdr.at.id);
      }
      SameHolds(t, u, r, v.car);
      SameHolds(t, u, r, v.cdr);
    }
  }

  lemma ReadsSame(t: State, u: State, v: I.Tree)
    requires WF(t) && WF(u) && AgreeOnCommon(t, u) && Reads(t, v) && Plain(u, v.at)
    ensures Reads(u, v)
  {
    hide WF, AgreeOnCommon, SameValue, Reachable;
    CommonIsClosed(t, u, v.at);
    if v.at.Cell? { ReachableRoot(GraphOf(t.heap), Ids({v.at}), v.at.id); }
    SameHolds(t, u, v.at, v);
  }

  lemma TableSame(t: State, u: State, table: map<string, Binding>, bounds: map<string, I.Bound>)
    requires WF(t) && WF(u) && AgreeOnCommon(t, u) && TableIs(t, table, bounds) && Bound(u, table)
    ensures TableIs(u, table, bounds)
  {
    hide WF, AgreeOnCommon, Reads;
    forall n | n in table ensures Reads(u, bounds[n].value) { ReadsSame(t, u, bounds[n].value); }
  }

  lemma OutcomeSame(s: State, x: Result<(Ref, State)>, y: Result<(Ref, State)>, p: Result<(I.Tree, I.World)>)
    requires Is(s, x, p) && SameOutcome(s, x, y)
    ensures Outcome(y, p)
  {
    if x.Ok? && p.Ok? {
      var t, u := x.value.1, y.value.1;
      SeenTables(t, p.value.1);
      BoundsOf(u);
      hide WF, Sees, Reads, SameValue, AgreeOnCommon, TableIs, Later;
      PlainOf(t, p.value.0);
      ReadsSame(t, u, p.value.0);
      TableSame(t, u, t.thread, p.value.1.thread);
      TableSame(t, u, t.global, p.value.1.global);
    }
  }

  lemma BoundsOf(u: State)
    requires WF(u)
    ensures Bound(u, u.thread) && Bound(u, u.global)
  {}

  // yleval computes the value that the interpreter gives the expression in the
  // environment, and leaves the symbol tables as the interpreter says, or fails as it
  // fails, unless the bound on steps is reached; whatever the schedule of collections.
  lemma EvaluatesTo(cfg: Config, fuel: nat, k: nat, s: State, w: I.World, e: I.Tree, a: Ref, env: I.Env)
    requires Good(s, w) && Reads(s, e) && EnvIs(s, a, env) && fuel <= k
    ensures Outcome(Eval(cfg, fuel, s, e.at, a), I.Interp(cfg.numeral, k, w, e, env))
  {
    hide WF, Sees, Reads, EnvIs, Is, Eval, I.Interp, SameOutcome, Outcome;
    var never := Config(_ => false, cfg.numeral);
    EvalIs(never, fuel, k, s, w, e, a, env);
    PlainOf(s, e);
    EnvOf(s, a, env);
    CollectionIsTransparent(never, cfg, fuel, s, e.at, a);
    OutcomeSame(s, Eval(never, fuel, s, e.at, a), Eval(cfg, fuel, s, e.at, a), I.Interp(cfg.numeral, k, w, e, env));
  }

  // ---------------------------------------------------------------- sessions

  // An expression that has been read, as a tree of new cells.
  function Made(w: I.World, x: Expr): (I.Tree, I.World)
    decreases x
  {
    match x
    case NilExpr => (I.NIL, w)
    case QuoteExpr => (I.QUOTE, w)
    case SymExpr(name) => (I.Tip(Cell(w.next), Sym(name)), I.Skip(w, 1))
    case PairExpr(a, d) =>
      var (car, w1) := Made(w, a);
      var (cdr, w2) := Made(w1, d);
      I.Cons(w2, car, cdr)
  }

  // The expression without its addresses
  function Written(x: Expr): L.Bare {
    match x
    case NilExpr => L.One(NilAtom)
    case QuoteExpr => L.One(Sym("quote"))
    case SymExpr(name) => L.One(Sym(name))
    case PairExpr(a, d) => L.Two(Written(a), Written(d))
  }

  // What is made of it is the expression, and nothing but cells is added to the world.
  lemma {:induction false} MadeIs(w: I.World, x: Expr)
    ensures var (t, u) := Made(w, x); L.Strip(t) == Written(x) && w.next <= u.next && u == w.(next := u.next)
    decreases x
  {
    if x.PairExpr? {
      MadeIs(w, x.car);
      MadeIs(Made(w, x.car).1, x.cdr);
    }
  }

  // One expression after the other, until one fails: every value, and the world after it.
  function Told(num: I.Numerals, k: nat, w: I.World, xs: seq<Expr>): (seq<(I.Tree, I.World)>, Option<Reason>)
    decreases |xs|
  {
    if xs == [] then ([], None)
    else
      var (e, w1) := Made(w, xs[0]);
      match I.Interp(num, k, w1, e, [])
      case Stop(why) => ([], Some(why))
      case Ok((v, w2)) =>
        var (rest, end) := Told(num, k, w2, xs[1..]);
        ([(v, w2)] + rest, end)
  }

  lemma SymbolIs(s: State, w: I.World, name: string)
    requires Good(s, w)
    ensures Is(s, Ok(Alloc(s, Leaf(Sym(name)))), Ok((I.Tip(Cell(w.next), Sym(name)), I.Skip(w, 1))))
  {
    hide WF, Sees, Replays;
    Self(s);
    AllocAgree(s, s, Leaf(Sym(name)));
    NewIsPlain(s, Leaf(Sym(name)));
    WorldNext(s, w);
    SeesKept(s, Alloc(s, Leaf(Sym(name))).1, w);
  }

  lemma {:induction false} BuildIs(s: State, w: I.World, x: Expr)
    requires Good(s, w)
    ensures Is(s, Ok(Build(s, x)), Ok(Made(w, x)))
    decreases x
  {
    hide WF, Sees, Reads, Later, Alloc, Cons, I.Cons, I.Skip;
    ReadStatic(s);
    SameIs(s, w, I.NIL);
    SameIs(s, w, I.QUOTE);
    match x
    case NilExpr => {}
    case QuoteExpr => {}
    case SymExpr(name) => SymbolIs(s, w, name);
    case PairExpr(a, d) =>
      BuildIs(s, w, a);
      var t := Build(s, a).1;
      var (car, w1) := Made(w, a);
      BuildIs(t, w1, d);
      var u := Build(t, d).1;
      var (cdr, w2) := Made(w1, d);
      HoldsGrows(t, u, car);
      ConsIs(u, w2, car, cdr);
      GrowsTrans(s, t, u);
      ThenIs(s, u, Ok(Cons(u, car.at, cdr.at)), Ok(I.Cons(w2, car, cdr)));
  }

  ghost predicate IsStep(s: State, x: (Ref, State), p: (I.Tree, I.World)) {
    Is(s, Ok(x), Ok(p))
  }

  ghost predicate StepOutcome(x: (Ref, State), p: (I.Tree, I.World)) {
    Outcome(Ok(x), Ok(p))
  }

  lemma {:induction false} SessionIs(cfg: Config, fuel: nat, k: nat, s: State, w: I.World, xs: seq<Expr>)
    requires Never(cfg) && Good(s, w) && fuel <= k
    ensures var (y, v) := Session(cfg, fuel, s, xs);
            var (p, q) := Told(cfg.numeral, k, w, xs);
            && |y| <= |p| && (v != Some(OutOfSteps) ==> |y| == |p| && v == q)
            && forall i :: 0 <= i < |y| ==> IsStep(s, y[i], p[i])
    decreases |xs|
  {
    hide WF, Sees, Reads, Later, Eval, I.Interp;
    if xs != [] {
      BuildIs(s, w, xs[0]);
      var (e, t) := Build(s, xs[0]);
      var (d, w1) := Made(w, xs[0]);
      NilEnv(t);
      EvalIs(cfg, fuel, k, t, w1, d, Nil, []);
      var x, p := Eval(cfg, fuel, t, e, Nil), I.Interp(cfg.numeral, k, w1, d, []);
      ThenIs(s, t, x, p);
      if x.Ok? && p.Ok? {
        SessionIs(cfg, fuel, k, x.value.1, p.value.1, xs[1..]);
        var (y, _) := Session(cfg, fuel, x.value.1, xs[1..]);
        var (q, _) := Told(cfg.numeral, k, p.value.1, xs[1..]);
        forall i | 0 <= i < |y| ensures IsStep(s, y[i], q[i]) {
          assert IsStep(x.value.1, y[i], q[i]);
          ThenIs(s, x.value.1, Ok(y[i]), Ok(q[i]));
        }
      }
    }
  }

  // A whole session, with whatever collections: every expression gets the value that the
  // interpreter gives it, and the session ends as the interpreter's does, unless the bound
  // on steps is reached.
  lemma SessionTells(cfg: Config, fuel: nat, k: nat, s: State, w: I.World, xs: seq<Expr>)
    requires Good(s, w) && fuel <= k
    ensures var (y, v) := Session(cfg, fuel, s, xs);
            var (p, q) := Told(cfg.numeral, k, w, xs);
            && |y| <= |p| && (v != Some(OutOfSteps) ==> |y| == |p| && v == q)
            && forall i :: 0 <= i < |y| ==> StepOutcome(y[i], p[i])
  {
    hide WF, Sees, Session, Told, Is, Outcome, SameOutcome;
    var never := Config(_ => false, cfg.numeral);
    SessionIs(never, fuel, k, s, w, xs);
    SessionIsTransparent(never, cfg, fuel, s, xs);
    var (z, _) := Session(never, fuel, s, xs);
    var (y, _) := Session(cfg, fuel, s, xs);
    var (p, _) := Told(cfg.numeral, k, w, xs);
    forall i | 0 <= i < |y| ensures StepOutcome(y[i], p[i]) {
      assert IsStep(s, z[i], p[i]) && SameStep(s, z[i], y[i]);
      OutcomeSame(s, Ok(z[i]), Ok(y[i]), Ok(p[i]));
    }
  }

  // A session may start in any state without local variables.
  lemma StartGood(s: State, w: I.World)
    requires WF(s) && s.roles == map[] && w.next == s.next && w.macros == s.macros && w.store == map[]
    requires TableIs(s, s.thread, w.thread) && TableIs(s, s.global, w.global)
    ensures Good(s, w)
  {
    hide TableIs, WF;
  }

  // ---------------------------------------------------------------- addresses

  // In one state an address has one tree.
  lemma {:induction false} OneTree(s: State, x: I.Tree, y: I.Tree)
    requires Holds(s, x) && Holds(s, y) && x.at == y.at
    ensures x == y
    decreases x
  {
    if x.Fork? && y.Fork? {
      OneTree(s, x.car, y.car);
      OneTree(s, x.cdr, y.cdr);
    }
  }

  lemma {:induction false} PartHolds(s: State, x: I.Tree, p: I.Tree)
    requires Holds(s, x) && p in L.PartsOf(x)
    ensures Holds(s, p)
    decreases x
  {
    if x.Fork? && p != x {
      if p in L.PartsOf(x.car) { PartHolds(s, x.car, p); } else { PartHolds(s, x.cdr, p); }
    }
  }

  // So two trees of one state are equal for `equal` exactly if they are without their
  // addresses (there is one nil).
  lemma {:induction false} HeldCoherent(s: State, x: I.Tree, y: I.Tree)
    requires Holds(s, x) && Holds(s, y)
    requires forall id :: id in s.heap ==> s.heap[id] != Leaf(NilAtom)
    ensures I.Match(x, y) <==> L.Strip(x) == L.Strip(y)
  {
    forall p | p in L.PartsOf(x) ensures Holds(s, p) { PartHolds(s, x, p); }
    forall p | p in L.PartsOf(y) ensures Holds(s, p) { PartHolds(s, y, p); }
    forall p, q | p in L.PartsOf(x) && q in L.PartsOf(y) && p.at == q.at ensures p == q { OneTree(s, p, q); }
    L.EqualLaw(x, y);
  }
}
