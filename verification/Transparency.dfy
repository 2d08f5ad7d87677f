// Collecting garbage at safe points does not change what an evaluation computes: the
// evaluator registers, as base blocks, everything it still needs.
module Transparency {
  import opened Agreement
  import BaseBlocks
  import opened Evaluator
  import opened HeapRuns
  import opened Reachability
  import opened Values
  import opened Wrappers

  // One run never collects, the other collects where it likes.
  ghost predicate Paired(cfg0: Config, cfg: Config) {
    Never(cfg0) && cfg0.numeral == cfg.numeral
  }

  lemma {:induction false} EvalAgree(cfg0: Config, cfg: Config, fuel: nat, f: State, g: State, e: Ref, a: Ref)
    requires Paired(cfg0, cfg) && Both(f, g) && Plain(g, e) && Env(g, a)
    ensures Agree(g, Eval(cfg0, fuel, f, e, a), Eval(cfg, fuel, g, e, a))
    decreases fuel, 0
  {
    hide WF, Sim, Later, EvalForm, Kept, SafePoint;
    if fuel > 0 {
      PushBoth(f, g, e);
      PushBoth(Push(f, e), Push(g, e), a);
      var fp, gp := Push(Push(f, e), a), Push(Push(g, e), a);
      assert e in Push(g, e).bases && e in gp.bases && a in gp.bases;
      BaseHeld(gp, e);
      BaseHeld(gp, a);
      FormAgree(cfg0, cfg, fuel - 1, fp, gp, e, a);
      var rg := EvalForm(cfg, fuel - 1, gp, e, a);
      if rg.Ok? {
        var (r, ft) := EvalForm(cfg0, fuel - 1, fp, e, a).value;
        var gt := rg.value.1;
        PopTwo(f, g, e, a, ft, gt);
        LeaveAgree(cfg0, cfg, f, g, r, Pop(Pop(ft, e), a), Pop(Pop(gt, e), a));
      }
    }
  }

  // The end of yleval: protect the value, pass the safe point, hand the value over.
  lemma LeaveAgree(cfg0: Config, cfg: Config, f: State, g: State, r: Ref, fu: State, gu: State)
    requires Paired(cfg0, cfg) && Both(fu, gu) && Later(g, gu) && Plain(gu, r)
    ensures Agree(g, Ok((r, Pop(SafePoint(cfg0, Push(fu, r)), r))), Ok((r, Pop(SafePoint(cfg, Push(gu, r)), r))))
  {
    hide WF, Sim, SafePoint;
    PushBoth(fu, gu, r);
    SafePointAgree(cfg0, cfg, Push(fu, r), Push(gu, r));
    var fw, gw := SafePoint(cfg0, Push(fu, r)), SafePoint(cfg, Push(gu, r));
    assert r in Push(gu, r).bases && Plain(Push(gu, r), r);
    PopBoth(fu, gu, r, fw, gw);
    LaterTrans(g, gu, Pop(gw, r));
  }

  lemma {:induction false} FormAgree(cfg0: Config, cfg: Config, fuel: nat, f: State, g: State, e: Ref, a: Ref)
    requires Paired(cfg0, cfg) && Both(f, g) && Held(g, e) && HeldEnv(g, a)
    ensures Agree(g, EvalForm(cfg0, fuel, f, e, a), EvalForm(cfg, fuel, g, e, a))
    decreases fuel
  {
    hide WF, Sim, Later, Kept, EvalAtom, EvalCall, EvalLambdaForm;
    if fuel > 0 {
      PartsAgree(f, g, e);
      var c := Deref(g, e).value;
      if c.Leaf? {
        AtomAgree(cfg0, cfg, fuel - 1, f, g, e, c.atom, a);
      } else {
        PartsHeld(g, e);
        PartsAgree(f, g, c.car);
        var head := Deref(g, c.car).value;
        if head.Leaf? {
          CallAgree(cfg0, cfg, fuel - 1, f, g, c.car, head.atom, c.cdr, a);
        } else {
          PartsAgree(f, g, head.car);
          if Deref(g, head.car).value.Leaf? {
            LambdaAgree(cfg0, cfg, fuel - 1, f, g, e, Deref(g, head.car).value.atom, a);
          }
        }
      }
    }
  }

  lemma {:induction false} AtomAgree(cfg0: Config, cfg: Config, fuel: nat, f: State, g: State, e: Ref,
      atom: Atom, a: Ref)
    requires Paired(cfg0, cfg) && Both(f, g) && Plain(g, e) && Env(g, a)
    ensures Agree(g, EvalAtom(cfg0, fuel, f, e, atom, a), EvalAtom(cfg, fuel, g, e, atom, a))
    decreases fuel
  {
    hide WF, Sim, Later, Assoc, Eval;
    if fuel > 0 && atom.Sym? {
      AssocAgree(cfg0, cfg, fuel, f, g, e, atom.name, a);
      var found := Assoc(cfg, fuel, g, e, atom.name, a);
      if found.Ok? && found.value.1 {
        var (r, _, gt) := found.value;
        var ft := Assoc(cfg0, fuel, f, e, atom.name, a).value.2;
        GrowsKeeps(g, gt, a);
        EvalAgree(cfg0, cfg, fuel - 1, ft, gt, r, a);
        Chain(g, gt, Eval(cfg0, fuel - 1, ft, r, a), Eval(cfg, fuel - 1, gt, r, a));
      }
    }
  }

  lemma {:induction false} CallAgree(cfg0: Config, cfg: Config, fuel: nat, f: State, g: State, fn: Ref,
      atom: Atom, args: Ref, a: Ref)
    requires Paired(cfg0, cfg) && Both(f, g) && Plain(g, fn) && Held(g, args) && HeldEnv(g, a)
    ensures Agree(g, EvalCall(cfg0, fuel, f, fn, atom, args, a), EvalCall(cfg, fuel, g, fn, atom, args, a))
    decreases fuel
  {
    hide WF, Sim, Later, Kept, Assoc, Eval, CallFunction;
    if fuel > 0 && atom.Sym? {
      AssocAgree(cfg0, cfg, fuel, f, g, fn, atom.name, a);
      var found := Assoc(cfg, fuel, g, fn, atom.name, a);
      if found.Ok? {
        var (r, macro, gt) := found.value;
        var ft := Assoc(cfg0, fuel, f, fn, atom.name, a).value.2;
        StillHeld(g, gt, args);
        StillHeld(g, gt, a);
        if macro {
          ConsEvalAgree(cfg0, cfg, fuel - 1, ft, gt, r, args, a);
          var (e', fu) := Cons(ft, r, args);
          var gu := Cons(gt, r, args).1;
          Chain(g, gt, Eval(cfg0, fuel - 1, fu, e', a), Eval(cfg, fuel - 1, gu, e', a));
        } else {
          FunctionAgree(cfg0, cfg, fuel, ft, gt, r, args, a);
          Chain(g, gt, CallFunction(cfg0, fuel, ft, r, args, a), CallFunction(cfg, fuel, gt, r, args, a));
        }
      }
    }
  }

  lemma {:induction false} FunctionAgree(cfg0: Config, cfg: Config, fuel: nat, f: State, g: State, r: Ref,
      args: Ref, a: Ref)
    requires Paired(cfg0, cfg) && Both(f, g) && Plain(g, r) && Held(g, args) && HeldEnv(g, a) && fuel > 0
    ensures Agree(g, CallFunction(cfg0, fuel, f, r, args, a), CallFunction(cfg, fuel, g, r, args, a))
    decreases fuel, 1
  {
    hide WF, Sim, Later, Kept, CallSpecial, ApplyNative;
    PartsAgree(f, g, r);
    var node := Deref(g, r).value;
    if node.Leaf? && node.atom.SFunc? {
      SpecialAgree(cfg0, cfg, fuel - 1, f, g, node.atom.sf, args, a);
    } else if node.Leaf? && node.atom.NFunc? {
      ApplyNativeAgree(cfg0, cfg, fuel, f, g, r, node.atom.nf, args, a);
    }
  }

  lemma {:induction false} ConsEvalAgree(cfg0: Config, cfg: Config, fuel: nat, f: State, g: State, x: Ref,
      y: Ref, a: Ref)
    requires Paired(cfg0, cfg) && Both(f, g) && Plain(g, x) && Plain(g, y) && Env(g, a)
    ensures var (e, f') := Cons(f, x, y);
            var (q, g') := Cons(g, x, y);
            e == q && Agree(g, Eval(cfg0, fuel, f', e, a), Eval(cfg, fuel, g', e, a))
    decreases fuel, 1
  {
    ConsAgree(f, g, x, y);
    var (e, f') := Cons(f, x, y);
    var (_, g') := Cons(g, x, y);
    GrowsKeeps(g, g', a);
    EvalAgree(cfg0, cfg, fuel, f', g', e, a);
    Chain(g, g', Eval(cfg0, fuel, f', e, a), Eval(cfg, fuel, g', e, a));
  }

  // The native-function branch of _evfunc_form: the function is protected while its
  // parameters are evaluated, the parameters while it runs.
  lemma {:induction false} ApplyNativeAgree(cfg0: Config, cfg: Config, fuel: nat, f: State, g: State, r: Ref,
      nf: Native, args: Ref, a: Ref)
    requires Paired(cfg0, cfg) && Both(f, g) && Plain(g, r) && Held(g, args) && HeldEnv(g, a) && fuel > 0
    ensures Agree(g, ApplyNative(cfg0, fuel, f, r, nf, args, a), ApplyNative(cfg, fuel, g, r, nf, args, a))
    decreases fuel, 0
  {
    hide WF, Sim, Later, EvalList, RunNative, Kept, BaseBlocks.RemoveTop;
    PushBoth(f, g, r);
    HeldPush(g, r, args);
    HeldPush(g, r, a);
    ListAgree(cfg0, cfg, fuel - 1, Push(f, r), Push(g, r), args, a);
    var listed := EvalList(cfg, fuel - 1, Push(g, r), args, a);
    if listed.Ok? {
      var (param, fu) := EvalList(cfg0, fuel - 1, Push(f, r), args, a).value;
      var gu := listed.value.1;
      PopBoth(f, g, r, fu, gu);
      var f1, g1 := Pop(fu, r), Pop(gu, r);
      StillHeld(g, g1, a);
      RunNativeAgree(cfg0, cfg, fuel - 1, f1, g1, nf, param, a);
      Chain(g, g1, RunNative(cfg0, fuel - 1, f1, nf, param, a), RunNative(cfg, fuel - 1, g1, nf, param, a));
    }
  }

  lemma {:induction false} RunNativeAgree(cfg0: Config, cfg: Config, fuel: nat, f: State, g: State, nf: Native,
      param: Ref, a: Ref)
    requires Paired(cfg0, cfg) && Both(f, g) && Plain(g, param) && HeldEnv(g, a)
    ensures Agree(g, RunNative(cfg0, fuel, f, nf, param, a), RunNative(cfg, fuel, g, nf, param, a))
    decreases fuel, 2
  {
    hide WF, Sim, Later, CallNative, Kept, BaseBlocks.RemoveTop, Grows;
    PushBoth(f, g, param);
    assert param in Push(g, param).bases;
    BaseHeld(Push(g, param), param);
    HeldPush(g, param, a);
    hide Plain, Env;
    NativeAgree(cfg0, cfg, fuel, Push(f, param), Push(g, param), nf, param, a);
    ReleaseAgree(f, g, param, CallNative(cfg0, fuel, Push(f, param), nf, param, a),
                 CallNative(cfg, fuel, Push(g, param), nf, param, a));
  }

  // Releasing the base block that was protected around a step.
  lemma ReleaseAgree(f: State, g: State, r: Ref, x: Result<(Ref, State)>, y: Result<(Ref, State)>)
    requires Agree(Push(g, r), x, y)
    ensures x.Ok? && y.Ok? ==>
              Agree(g, Ok((x.value.0, Pop(x.value.1, r))), Ok((y.value.0, Pop(y.value.1, r))))
  {
    hide WF, Sim, Later, Plain, BaseBlocks.RemoveTop;
    if x.Ok? && y.Ok? {
      PopBoth(f, g, r, x.value.1, y.value.1);
    }
  }

  lemma {:induction false} ListAgree(cfg0: Config, cfg: Config, fuel: nat, f: State, g: State, m: Ref, a: Ref)
    requires Paired(cfg0, cfg) && Both(f, g) && Held(g, m) && HeldEnv(g, a)
    ensures Agree(g, EvalList(cfg0, fuel, f, m, a), EvalList(cfg, fuel, g, m, a))
    decreases fuel
  {
    hide WF, Sim, Later, Kept, Eval;
    PartsAgree(f, g, m);
    SameAgree(f, g, Nil);
    if m != Nil && fuel > 0 && Car(g, m).Ok? {
      var first := Car(g, m).value;
      EvalAgree(cfg0, cfg, fuel - 1, f, g, first, a);
      var head := Eval(cfg, fuel - 1, g, first, a);
      if head.Ok? {
        var (p, ft) := Eval(cfg0, fuel - 1, f, first, a).value;
        var gt := head.value.1;
        RestHeld(f, g, ft, gt, m, a);
        var rest := Cdr(gt, m).value;
        PushBoth(ft, gt, p);
        HeldPush(gt, p, rest);
        HeldPush(gt, p, a);
        ListAgree(cfg0, cfg, fuel - 1, Push(ft, p), Push(gt, p), rest, a);
        var tail := EvalList(cfg, fuel - 1, Push(gt, p), rest, a);
        if tail.Ok? {
          var (q, fu) := EvalList(cfg0, fuel - 1, Push(ft, p), rest, a).value;
          JoinAgree(f, g, ft, gt, p, q, fu, tail.value.1);
        }
      }
    }
  }

  // After evaluating the head of a held list, its tail is still there.
  lemma RestHeld(f: State, g: State, ft: State, gt: State, m: Ref, a: Ref)
    requires WF(g) && Both(ft, gt) && Later(g, gt) && Held(g, m) && HeldEnv(g, a) && Car(g, m).Ok?
    ensures Held(gt, m) && HeldEnv(gt, a)
    ensures Cdr(gt, m).Ok? && Cdr(ft, m) == Cdr(gt, m) && Held(gt, Cdr(gt, m).value)
  {
    StillHeld(g, gt, m);
    StillHeld(g, gt, a);
    assert CellOk(g, m.id) && CellOk(gt, m.id);
    assert SameCell(g, gt, m.id);
    PartsAgree(ft, gt, m);
    PartsHeld(gt, m);
  }

  // The end of ylevlis: join the protected head to the list of the others.
  lemma JoinAgree(f: State, g: State, ft: State, gt: State, p: Ref, q: Ref, fu: State, gu: State)
    requires Both(ft, gt) && Later(g, gt) && Plain(gt, p)
    requires Both(fu, gu) && Later(Push(gt, p), gu) && Plain(gu, q)
    ensures var (r, fv) := Cons(fu, p, q);
            var (r', gv) := Cons(gu, p, q);
            Agree(g, Ok((r, Pop(fv, p))), Ok((r', Pop(gv, p))))
  {
    PushBoth(ft, gt, p);
    assert p in Push(gt, p).bases;
    BaseHeld(Push(gt, p), p);
    StillHeld(Push(gt, p), gu, p);
    ConsAgree(fu, gu, p, q);
    var (r, fv) := Cons(fu, p, q);
    var (_, gv) := Cons(gu, p, q);
    LaterTrans(Push(gt, p), gu, gv);
    PopBoth(ft, gt, p, fv, gv);
    LaterTrans(g, gt, Pop(gv, p));
  }

  // Evaluating what a step without safe points has built.
  lemma {:induction false} ThenEvalAgree(cfg0: Config, cfg: Config, fuel: nat, g: State,
      x: Result<(Ref, State)>, y: Result<(Ref, State)>, a: Ref)
    requires Paired(cfg0, cfg) && WF(g) && AgreeNow(g, x, y) && y.Ok? && Env(g, a)
    ensures Agree(g, Eval(cfg0, fuel, x.value.1, x.value.0, a), Eval(cfg, fuel, y.value.1, y.value.0, a))
    decreases fuel, 1
  {
    hide WF, Sim, Later, Eval;
    var (e, ft) := x.value;
    var gt := y.value.1;
    GrowsKeeps(g, gt, a);
    EvalAgree(cfg0, cfg, fuel, ft, gt, e, a);
    Chain(g, gt, Eval(cfg0, fuel, ft, e, a), Eval(cfg, fuel, gt, e, a));
  }

  // name, parameters and body of a flabel form
  lemma LabelPartsAgree(f: State, g: State, e: Ref)
    requires Both(f, g) && Held(g, e)
    ensures LabelParts(f, e) == LabelParts(g, e) != Stop(Dangling)
    ensures LabelParts(g, e).Ok? ==>
              var (name, params, body) := LabelParts(g, e).value;
              Held(g, name) && Held(g, params) && Held(g, body)
  {
    hide WF, Sim, Kept;
    TailHeld(f, g, e);
    if Car(g, e).Ok? {
      var form := Car(g, e).value;
      TailHeld(f, g, form);
      if Cdr(g, form).Ok? {
        var tail := Cdr(g, form).value;
        TailHeld(f, g, tail);
        if Cdr(g, tail).Ok? {
          var tail2 := Cdr(g, tail).value;
          TailHeld(f, g, tail2);
          if Cdr(g, tail2).Ok? { TailHeld(f, g, Cdr(g, tail2).value); }
        }
      }
    }
  }

  lemma TailHeld(f: State, g: State, e: Ref)
    requires Both(f, g) && Held(g, e)
    ensures Car(f, e) == Car(g, e) != Stop(Dangling) && Cdr(f, e) == Cdr(g, e) != Stop(Dangling)
    ensures Car(g, e).Ok? <==> Cdr(g, e).Ok?
    ensures Car(g, e).Ok? ==> Held(g, Car(g, e).value) && Held(g, Cdr(g, e).value)
  {
    hide WF, Sim, Kept;
    PartsAgree(f, g, e);
    if Car(g, e).Ok? { PartsHeld(g, e); }
  }

  lemma {:induction false} MacroLabelAgree(cfg0: Config, cfg: Config, fuel: nat, f: State, g: State, e: Ref,
      head: Ref, args: Ref, a: Ref)
    requires Paired(cfg0, cfg) && Both(f, g) && Held(g, e) && Held(g, head) && Held(g, args) && HeldEnv(g, a)
    requires fuel > 0
    ensures Agree(g, EvalMacroLabel(cfg0, fuel, f, e, head, args, a), EvalMacroLabel(cfg, fuel, g, e, head, args, a))
    decreases fuel, 1
  {
    hide WF, Sim, Later, Kept, LabelParts, Subtype, EvalList, EnterMacroLabel;
    LabelPartsAgree(f, g, e);
    if LabelParts(g, e).Ok? {
      var (name, params, body) := LabelParts(g, e).value;
      PartsAgree(f, g, name);
      var c := Deref(g, name).value;
      if c.Leaf? && c.atom.Sym? {
        SubtypeAgree(f, g, name, true);
        var fs, gs := Subtype(f, name, true), Subtype(g, name, true);
        StillHeld(g, gs, args);
        StillHeld(g, gs, a);
        ListAgree(cfg0, cfg, fuel - 1, fs, gs, args, a);
        var listed := EvalList(cfg, fuel - 1, gs, args, a);
        if listed.Ok? {
          var (values, ft) := EvalList(cfg0, fuel - 1, fs, args, a).value;
          var gt := listed.value.1;
          LaterTrans(g, gs, gt);
          StillHeld(g, gt, name);
          StillHeld(g, gt, head);
          StillHeld(g, gt, params);
          StillHeld(g, gt, body);
          EnterMacroAgree(cfg0, cfg, fuel, ft, gt, name, head, params, body, values);
          Chain(g, gt, EnterMacroLabel(cfg0, fuel, ft, name, head, params, body, values),
                EnterMacroLabel(cfg, fuel, gt, name, head, params, body, values));
        }
      }
    }
  }

  lemma {:induction false} EnterMacroAgree(cfg0: Config, cfg: Config, fuel: nat, f: State, g: State, name: Ref,
      head: Ref, params: Ref, body: Ref, values: Ref)
    requires Paired(cfg0, cfg) && Both(f, g) && fuel > 0
    requires Plain(g, name) && Plain(g, head) && Plain(g, params) && Plain(g, body) && Plain(g, values)
    ensures Agree(g, EnterMacroLabel(cfg0, fuel, f, name, head, params, body, values),
                  EnterMacroLabel(cfg, fuel, g, name, head, params, body, values))
    decreases fuel, 0
  {
    hide WF, Sim, Later, Eval, Bind, NewEntry, Link;
    BindAgree(fuel, f, g, params, values);
    var bound := Bind(fuel, g, params, values);
    if bound.Ok? {
      var (frame, ft) := Bind(fuel, f, params, values).value;
      var gt := bound.value.1;
      GrowsKeeps(g, gt, name);
      GrowsKeeps(g, gt, head);
      EntryAgree(ft, gt, name, head);
      var (entry, fu) := NewEntry(ft, name, head);
      var (_, gu) := NewEntry(gt, name, head);
      GrowsKeeps(gt, gu, frame);
      LinkAgree(fu, gu, Spine, entry, frame);
      var (env, fv) := Link(fu, Spine, entry, frame);
      var (_, gv) := Link(gu, Spine, entry, frame);
      GrowsTrans(gt, gu, gv);
      GrowsTrans(g, gt, gv);
      GrowsKeeps(g, gv, body);
      EvalAgree(cfg0, cfg, fuel - 1, fv, gv, body, env);
      Chain(g, gv, Eval(cfg0, fuel - 1, fv, body, env), Eval(cfg, fuel - 1, gv, body, env));
    }
  }

  lemma {:induction false} LambdaAgree(cfg0: Config, cfg: Config, fuel: nat, f: State, g: State, e: Ref,
      atom: Atom, a: Ref)
    requires Paired(cfg0, cfg) && Both(f, g) && Held(g, e) && HeldEnv(g, a)
    ensures Agree(g, EvalLambdaForm(cfg0, fuel, f, e, atom, a), EvalLambdaForm(cfg, fuel, g, e, atom, a))
    decreases fuel
  {
    hide WF, Sim, Later, Kept, Eval, EvalList, Enter, EnterLabel, EvalMacroLabel, ExpandMacro;
    PartsAgree(f, g, e);
    if fuel > 0 && atom.Sym? && Car(g, e).Ok? {
      PartsHeld(g, e);
      var head, args := Car(g, e).value, Cdr(g, e).value;
      if atom.name == "lambda" {
        ListAgree(cfg0, cfg, fuel - 1, f, g, args, a);
        var listed := EvalList(cfg, fuel - 1, g, args, a);
        if listed.Ok? {
          var (values, ft) := EvalList(cfg0, fuel - 1, f, args, a).value;
          var gt := listed.value.1;
          StillHeld(g, gt, e);
          StillHeld(g, gt, a);
          EnterAgree(cfg0, cfg, fuel, ft, gt, e, values, a);
          Chain(g, gt, Enter(cfg0, fuel, ft, e, values, a), Enter(cfg, fuel, gt, e, values, a));
        }
      } else if atom.name == "label" {
        LabelAgree(cfg0, cfg, fuel, f, g, e, head, args, a);
      } else if atom.name == "mlambda" {
        ExpandMacroAgree(fuel, f, g, e);
        if ExpandMacro(fuel, g, e).Ok? {
          ThenEvalAgree(cfg0, cfg, fuel - 1, g, ExpandMacro(fuel, f, e), ExpandMacro(fuel, g, e), a);
        }
      } else if atom.name == "flabel" {
        MacroLabelAgree(cfg0, cfg, fuel, f, g, e, head, args, a);
      } else {
        EvalAgree(cfg0, cfg, fuel - 1, f, g, head, a);
        var r := Eval(cfg, fuel - 1, g, head, a);
        if r.Ok? {
          var (fn, ft) := Eval(cfg0, fuel - 1, f, head, a).value;
          var gt := r.value.1;
          RestHeld(f, g, ft, gt, e, a);
          var rest := Cdr(gt, e).value;
          ConsEvalAgree(cfg0, cfg, fuel - 1, ft, gt, fn, rest, a);
          var (e', fu) := Cons(ft, fn, rest);
          Chain(g, gt, Eval(cfg0, fuel - 1, fu, e', a), Eval(cfg, fuel - 1, Cons(gt, fn, rest).1, e', a));
        }
      }
    }
  }

  lemma {:induction false} EnterAgree(cfg0: Config, cfg: Config, fuel: nat, f: State, g: State, e: Ref,
      values: Ref, a: Ref)
    requires Paired(cfg0, cfg) && Both(f, g) && Plain(g, e) && Plain(g, values) && Env(g, a) && fuel > 0
    ensures Agree(g, Enter(cfg0, fuel, f, e, values, a), Enter(cfg, fuel, g, e, values, a))
    decreases fuel, 0
  {
    hide WF, Sim, Later, LambdaParts, Bind, Append, Eval;
    LambdaPartsAgree(f, g, e);
    var parts := LambdaParts(g, e);
    if parts.Ok? {
      var (params, body) := parts.value;
      BindAgree(fuel, f, g, params, values);
      var bound := Bind(fuel, g, params, values);
      if bound.Ok? {
        var (frame, fu) := Bind(fuel, f, params, values).value;
        var gu := bound.value.1;
        GrowsKeeps(g, gu, a);
        AppendAgree(fuel, fu, gu, frame, a);
        var joined := Append(fuel, gu, frame, a);
        if joined.Ok? {
          var (env, fv) := Append(fuel, fu, frame, a).value;
          var gv := joined.value.1;
          GrowsTrans(g, gu, gv);
          GrowsKeeps(g, gv, body);
          EvalAgree(cfg0, cfg, fuel - 1, fv, gv, body, env);
          Chain(g, gv, Eval(cfg0, fuel - 1, fv, body, env), Eval(cfg, fuel - 1, gv, body, env));
        }
      }
    }
  }

  lemma {:induction false} LabelAgree(cfg0: Config, cfg: Config, fuel: nat, f: State, g: State, e: Ref,
      head: Ref, args: Ref, a: Ref)
    requires Paired(cfg0, cfg) && Both(f, g) && Plain(g, e) && Plain(g, head) && Plain(g, args) && Env(g, a) && fuel > 0
    ensures Agree(g, EnterLabel(cfg0, fuel, f, e, head, args, a), EnterLabel(cfg, fuel, g, e, head, args, a))
    decreases fuel, 0
  {
    hide WF, Sim, Later, LambdaParts, Eval, Kept, Grows, Cons, NewEntry, Link;
    LambdaPartsAgree(f, g, e);
    var parts := LambdaParts(g, e);
    if parts.Ok? {
      var (name, body) := parts.value;
      PartsAgree(f, g, name);
      var c := Deref(g, name).value;
      if c.Leaf? && c.atom.Sym? {
        ConsAgree(f, g, body, args);
        var (e', ft) := Cons(f, body, args);
        var (_, gt) := Cons(g, body, args);
        GrowsKeeps(g, gt, name);
        GrowsKeeps(g, gt, head);
        EntryAgree(ft, gt, name, head);
        var (entry, fu) := NewEntry(ft, name, head);
        var (_, gu) := NewEntry(gt, name, head);
        GrowsTrans(g, gt, gu);
        GrowsKeeps(g, gu, a);
        LinkAgree(fu, gu, Spine, entry, a);
        var (env, fv) := Link(fu, Spine, entry, a);
        var (_, gv) := Link(gu, Spine, entry, a);
        GrowsTrans(gt, gu, gv);
        GrowsKeeps(gt, gv, e');
        GrowsTrans(g, gt, gv);
        EvalAgree(cfg0, cfg, fuel - 1, fv, gv, e', env);
        Chain(g, gv, Eval(cfg0, fuel - 1, fv, e', env), Eval(cfg, fuel - 1, gv, e', env));
      }
    }
  }

  lemma CadrAgree(f: State, g: State, e: Ref)
    requires Both(f, g) && Plain(g, e)
    ensures Cadr(f, e) == Cadr(g, e) != Stop(Dangling)
    ensures Cadr(g, e).Ok? ==> Plain(g, Cadr(g, e).value)
  {
    PartsAgree(f, g, e);
    if Cdr(g, e).Ok? { PartsAgree(f, g, Cdr(g, e).value); }
  }

  lemma DescribedAgree(f: State, g: State, n: nat, e: Ref)
    requires Both(f, g) && Plain(g, e)
    ensures Described(f, n, e) == Described(g, n, e) != Stop(Dangling)
  {
    PartsAgree(f, g, e);
    if Cdr(g, e).Ok? {
      var d := Cdr(g, e).value;
      CadrAgree(f, g, d);
      if Cadr(g, d).Ok? { PartsAgree(f, g, Cadr(g, d).value); }
    }
  }

  lemma StrictAgree(fuel: nat, f: State, g: State, nf: Native, n: nat, e: Ref, a: Ref)
    requires Both(f, g) && Plain(g, e) && Env(g, a)
    ensures Agree(g, CallStrict(fuel, f, nf, n, e, a), CallStrict(fuel, g, nf, n, e, a))
  {
    hide WF, Sim, Later, CallUnary, CallBinary, CopyList, Car, Cadr;
    CopyAgree(fuel, f, g, e);
    PartsAgree(f, g, e);
    if Car(g, e).Ok? {
      var x := Car(g, e).value;
      UnaryAgree(f, g, nf, x);
      CadrAgree(f, g, e);
      if Cadr(g, e).Ok? {
        BinaryAgree(fuel, f, g, nf, n, e, x, Cadr(g, e).value, a);
      }
    }
  }

  lemma StopAgree(g: State, why: Reason)
    requires why != Dangling
    ensures Agree(g, Stop(why), Stop(why))
  {}

  lemma UnaryAgree(f: State, g: State, nf: Native, x: Ref)
    requires Both(f, g) && Plain(g, x)
    ensures Agree(g, CallUnary(f, nf, x), CallUnary(g, nf, x))
  {
    hide WF, Sim, Later, Unset, IsSet, Deref, Car, Cdr;
    PartsAgree(f, g, x);
    SameAgree(f, g, True);
    SameAgree(f, g, Nil);
    if Car(g, x).Ok? {
      SameAgree(f, g, Car(g, x).value);
      SameAgree(f, g, Cdr(g, x).value);
    }
    UnsetAgree(f, g, x, nf == UnsetF);
    IsSetAgree(f, g, x, nf == IsSetF);
  }

  lemma BinaryAgree(fuel: nat, f: State, g: State, nf: Native, n: nat, e: Ref, x: Ref, y: Ref, a: Ref)
    requires Both(f, g) && Plain(g, e) && Plain(g, x) && Plain(g, y) && Env(g, a)
    ensures Agree(g, CallBinary(fuel, f, nf, n, e, x, y, a), CallBinary(fuel, g, nf, n, e, x, y, a))
  {
    hide WF, Sim, Later, CallSet, Equal, Cons;
    SameAgree(f, g, True);
    SameAgree(f, g, Nil);
    ConsAgree(f, g, x, y);
    EqualAgree(fuel, f, g, x, y);
    SetAgree(fuel, f, g, nf, n, e, x, y, a);
  }

  lemma SetAgree(fuel: nat, f: State, g: State, nf: Native, n: nat, e: Ref, x: Ref, y: Ref, a: Ref)
    requires Both(f, g) && Plain(g, e) && Plain(g, x) && Plain(g, y) && Env(g, a)
    ensures Agree(g, CallSet(fuel, f, nf, n, e, x, y, a), CallSet(fuel, g, nf, n, e, x, y, a))
  {
    hide WF, Sim, Later, Assign, Described;
    DescribedAgree(f, g, n, e);
    AssignAgree(fuel, f, g, x, y, a, nf in {MSetF, TMSetF}, nf in {SetF, MSetF});
  }


  lemma {:induction false} NativeAgree(cfg0: Config, cfg: Config, fuel: nat, f: State, g: State, nf: Native,
      e: Ref, a: Ref)
    requires Paired(cfg0, cfg) && Both(f, g) && Held(g, e) && HeldEnv(g, a)
    ensures Agree(g, CallNative(cfg0, fuel, f, nf, e, a), CallNative(cfg, fuel, g, nf, e, a))
    decreases fuel, 1
  {
    hide WF, Sim, Later, Kept, CallControl, CallBlock, CallStrict, ListSize;
    if fuel > 0 {
      SizeAgree(fuel, f, g, e);
      if ListSize(fuel, g, e).Ok? {
        ControlAgree(cfg0, cfg, fuel, f, g, nf, e, a);
        BlockAgree(cfg0, cfg, fuel, f, g, nf, e, a);
        StrictAgree(fuel, f, g, nf, ListSize(fuel, g, e).value, e, a);
      }
    }
  }

  lemma {:induction false} ControlAgree(cfg0: Config, cfg: Config, fuel: nat, f: State, g: State, nf: Native,
      e: Ref, a: Ref)
    requires Paired(cfg0, cfg) && Both(f, g) && Held(g, e) && HeldEnv(g, a) && fuel > 0
    ensures Agree(g, CallControl(cfg0, fuel, f, nf, e, a), CallControl(cfg, fuel, g, nf, e, a))
    decreases fuel, 0
  {
    hide WF, Sim, Agree, Later, Kept, Eval, EvalCond, EvalJunction, Car;
    if nf == CondF {
      CondAgree(cfg0, cfg, fuel - 1, f, g, e, a);
    } else if nf == AndF || nf == OrF {
      JunctionAgree(cfg0, cfg, fuel - 1, f, g, e, a, nf == OrF);
    } else {
      TailHeld(f, g, e);
      if Car(g, e).Ok? { EvalAgree(cfg0, cfg, fuel - 1, f, g, Car(g, e).value, a); }
      else { StopAgree(g, Car(g, e).why); }
    }
  }

  lemma {:induction false} BlockAgree(cfg0: Config, cfg: Config, fuel: nat, f: State, g: State, nf: Native,
      e: Ref, a: Ref)
    requires Paired(cfg0, cfg) && Both(f, g) && Held(g, e) && HeldEnv(g, a) && fuel > 0
    ensures Agree(g, CallBlock(cfg0, fuel, f, nf, e, a), CallBlock(cfg, fuel, g, nf, e, a))
    decreases fuel, 0
  {
    hide WF, Sim, Agree, Later, Kept, EvalLet, EvalCase, EvalWhile, Car;
    if nf == LetF {
      LetAgree(cfg0, cfg, fuel - 1, f, g, e, a);
    } else if nf == CaseF {
      CaseAgree(cfg0, cfg, fuel - 1, f, g, e, a);
    } else {
      TailHeld(f, g, e);
      if Car(g, e).Ok? { WhileAgree(cfg0, cfg, fuel - 1, f, g, Car(g, e).value, e, a); }
      else { StopAgree(g, Car(g, e).why); }
    }
  }

  lemma {:induction false} SpecialAgree(cfg0: Config, cfg: Config, fuel: nat, f: State, g: State, sf: Special,
      e: Ref, a: Ref)
    requires Paired(cfg0, cfg) && Both(f, g) && Held(g, e) && HeldEnv(g, a)
    ensures Agree(g, CallSpecial(cfg0, fuel, f, sf, e, a), CallSpecial(cfg, fuel, g, sf, e, a))
    decreases fuel
  {
    hide WF, Sim, Later, Eval, EvalEach, ListSize, QuoteAll;
    if fuel > 0 {
      SizeAgree(fuel, f, g, e);
      PartsAgree(f, g, e);
      if sf == QuoteF && Car(g, e).Ok? {
        SameAgree(f, g, Car(g, e).value);
      } else if sf == PrognF {
        StaticHeld(g, Nil);
        EachAgree(cfg0, cfg, fuel - 1, f, g, e, a, Nil);
      } else if sf == ApplyF && Car(g, e).Ok? {
        var fn, args := Car(g, e).value, Cdr(g, e).value;
        QuoteAgree(fuel, f, g, args);
        var quoted := QuoteAll(fuel, g, args);
        if quoted.Ok? {
          var (q, ft) := QuoteAll(fuel, f, args).value;
          var gt := quoted.value.1;
          GrowsKeeps(g, gt, fn);
          GrowsKeeps(g, gt, a);
          ConsEvalAgree(cfg0, cfg, fuel - 1, ft, gt, fn, q, a);
          var (e', fu) := Cons(ft, fn, q);
          Chain(g, gt, Eval(cfg0, fuel - 1, fu, e', a), Eval(cfg, fuel - 1, Cons(gt, fn, q).1, e', a));
        }
      }
    }
  }

  lemma {:induction false} EachAgree(cfg0: Config, cfg: Config, fuel: nat, f: State, g: State, e: Ref, a: Ref,
      last: Ref)
    requires Paired(cfg0, cfg) && Both(f, g) && Held(g, e) && HeldEnv(g, a) && Plain(g, last)
    ensures Agree(g, EvalEach(cfg0, fuel, f, e, a, last), EvalEach(cfg, fuel, g, e, a, last))
    decreases fuel
  {
    hide WF, Sim, Later, Kept, Eval;
    PartsAgree(f, g, e);
    SameAgree(f, g, last);
    if e != Nil && fuel > 0 && Car(g, e).Ok? {
      var x := Car(g, e).value;
      EvalAgree(cfg0, cfg, fuel - 1, f, g, x, a);
      var head := Eval(cfg, fuel - 1, g, x, a);
      if head.Ok? {
        var (r, ft) := Eval(cfg0, fuel - 1, f, x, a).value;
        var gt := head.value.1;
        RestHeld(f, g, ft, gt, e, a);
        var rest := Cdr(gt, e).value;
        EachAgree(cfg0, cfg, fuel - 1, ft, gt, rest, a, r);
        Chain(g, gt, EvalEach(cfg0, fuel - 1, ft, rest, a, r), EvalEach(cfg, fuel - 1, gt, rest, a, r));
      }
    }
  }

  lemma {:induction false} JunctionAgree(cfg0: Config, cfg: Config, fuel: nat, f: State, g: State, e: Ref,
      a: Ref, stopAt: bool)
    requires Paired(cfg0, cfg) && Both(f, g) && Held(g, e) && HeldEnv(g, a)
    ensures Agree(g, EvalJunction(cfg0, fuel, f, e, a, stopAt), EvalJunction(cfg, fuel, g, e, a, stopAt))
    decreases fuel
  {
    hide WF, Sim, Later, Eval;
    PartsAgree(f, g, e);
    SameAgree(f, g, Truth(!stopAt));
    if e != Nil && fuel > 0 && Car(g, e).Ok? {
      var x := Car(g, e).value;
      EvalAgree(cfg0, cfg, fuel - 1, f, g, x, a);
      var head := Eval(cfg, fuel - 1, g, x, a);
      if head.Ok? && (head.value.0 != Nil) != stopAt {
        var ft := Eval(cfg0, fuel - 1, f, x, a).value.1;
        var gt := head.value.1;
        RestHeld(f, g, ft, gt, e, a);
        var rest := Cdr(gt, e).value;
        JunctionAgree(cfg0, cfg, fuel - 1, ft, gt, rest, a, stopAt);
        Chain(g, gt, EvalJunction(cfg0, fuel - 1, ft, rest, a, stopAt),
              EvalJunction(cfg, fuel - 1, gt, rest, a, stopAt));
      }
    }
  }

  lemma {:induction false} CondAgree(cfg0: Config, cfg: Config, fuel: nat, f: State, g: State, c: Ref, a: Ref)
    requires Paired(cfg0, cfg) && Both(f, g) && Held(g, c) && HeldEnv(g, a)
    ensures Agree(g, EvalCond(cfg0, fuel, f, c, a), EvalCond(cfg, fuel, g, c, a))
    decreases fuel
  {
    hide WF, Sim, Later, Kept, Eval;
    PartsAgree(f, g, c);
    SameAgree(f, g, Nil);
    if c != Nil && fuel > 0 && Car(g, c).Ok? {
      PartsHeld(g, c);
      var clause := Car(g, c).value;
      PartsAgree(f, g, clause);
      if Car(g, clause).Ok? && Car(g, clause).value != Nil {
        var test := Car(g, clause).value;
        EvalAgree(cfg0, cfg, fuel - 1, f, g, test, a);
        var tested := Eval(cfg, fuel - 1, g, test, a);
        if tested.Ok? {
          var ft := Eval(cfg0, fuel - 1, f, test, a).value.1;
          var gt := tested.value.1;
          RestHeld(f, g, ft, gt, c, a);
          if tested.value.0 != Nil {
            StillHeld(g, gt, clause);
            CadrAgree(ft, gt, clause);
            if Cadr(gt, clause).Ok? {
              var body := Cadr(gt, clause).value;
              EvalAgree(cfg0, cfg, fuel - 1, ft, gt, body, a);
              Chain(g, gt, Eval(cfg0, fuel - 1, ft, body, a), Eval(cfg, fuel - 1, gt, body, a));
            }
          } else {
            var rest := Cdr(gt, c).value;
            CondAgree(cfg0, cfg, fuel - 1, ft, gt, rest, a);
            Chain(g, gt, EvalCond(cfg0, fuel - 1, ft, rest, a), EvalCond(cfg, fuel - 1, gt, rest, a));
          }
        }
      }
    }
  }

  // ---------------------------------------------------------------- f-let, f-case, f-while

  lemma {:induction false} ElementsAgree(fuel: nat, f: State, g: State, p: Ref, second: bool, r: Ref)
    requires Both(f, g) && Plain(g, p) && Plain(g, r)
    ensures AgreeNow(g, Elements(fuel, f, p, second, r), Elements(fuel, g, p, second, r))
    decreases fuel
  {
    hide WF, Sim, Later, Cons, Cadr;
    PartsAgree(f, g, p);
    SameAgree(f, g, r);
    if p != Nil && fuel > 0 && Car(g, p).Ok? {
      var binding, rest := Car(g, p).value, Cdr(g, p).value;
      PartsAgree(f, g, binding);
      CadrAgree(f, g, binding);
      var part := if second then Cadr(g, binding) else Car(g, binding);
      if part.Ok? {
        var x := part.value;
        ConsAgree(f, g, x, r);
        var (r', ft) := Cons(f, x, r);
        var (_, gt) := Cons(g, x, r);
        GrowsKeeps(g, gt, rest);
        ElementsAgree(fuel - 1, ft, gt, rest, second, r');
        Chain(g, gt, Elements(fuel - 1, ft, rest, second, r'), Elements(fuel - 1, gt, rest, second, r'));
      }
    }
  }

  lemma LambdaOfAgree(f: State, g: State, params: Ref, body: Ref, args: Ref)
    requires Both(f, g) && Plain(g, params) && Plain(g, body) && Plain(g, args)
    ensures AgreeNow(g, Ok(LambdaOf(f, params, body, args)), Ok(LambdaOf(g, params, body, args)))
  {
    hide WF, Sim, Later, Cons;
    ConsAgree(f, g, body, Nil);
    var (b, ft) := Cons(f, body, Nil);
    var (_, gt) := Cons(g, body, Nil);
    GrowsKeeps(g, gt, params);
    ConsAgree(ft, gt, params, b);
    var (p, fu) := Cons(ft, params, b);
    var (_, gu) := Cons(gt, params, b);
    ConsAgree(fu, gu, Lambda, p);
    var (l, fv) := Cons(fu, Lambda, p);
    var (_, gv) := Cons(gu, Lambda, p);
    GrowsTrans(g, gt, gu);
    GrowsTrans(g, gu, gv);
    GrowsKeeps(g, gv, args);
    ConsAgree(fv, gv, l, args);
    Chain(g, gv, Ok(Cons(fv, l, args)), Ok(Cons(gv, l, args)));
  }

  lemma LetAsLambdaAgree(fuel: nat, f: State, g: State, e: Ref)
    requires Both(f, g) && Plain(g, e)
    ensures AgreeNow(g, LetAsLambda(fuel, f, e), LetAsLambda(fuel, g, e))
  {
    hide WF, Sim, Later, Cons, Elements, LambdaOf;
    PartsAgree(f, g, e);
    if Car(g, e).Ok? {
      var bindings := Car(g, e).value;
      PartsAgree(f, g, bindings);
      ElementsAgree(fuel, f, g, bindings, false, Nil);
      var first := Elements(fuel, g, bindings, false, Nil);
      if first.Ok? {
        var (params, ft) := Elements(fuel, f, bindings, false, Nil).value;
        var gt := first.value.1;
        GrowsKeeps(g, gt, bindings);
        ElementsAgree(fuel, ft, gt, bindings, true, Nil);
        var second := Elements(fuel, gt, bindings, true, Nil);
        if second.Ok? {
          var (args, fu) := Elements(fuel, ft, bindings, true, Nil).value;
          var gu := second.value.1;
          GrowsTrans(g, gt, gu);
          GrowsKeeps(gt, gu, params);
          GrowsKeeps(g, gu, e);
          LetBodyAgree(fu, gu, e, params, args);
          if Cdr(gu, e).Ok? {
            var x, y := LetBody(fu, Cdr(gu, e).value, params, args), LetBody(gu, Cdr(gu, e).value, params, args);
            Chain(g, gu, x, y);
          }
        }
      }
    }
  }

  lemma LetBodyAgree(f: State, g: State, e: Ref, params: Ref, args: Ref)
    requires Both(f, g) && Plain(g, e) && Plain(g, params) && Plain(g, args)
    ensures Cdr(f, e) == Cdr(g, e) != Stop(Dangling)
    ensures Cdr(g, e).Ok? ==>
              AgreeNow(g, LetBody(f, Cdr(g, e).value, params, args), LetBody(g, Cdr(g, e).value, params, args))
  {
    hide WF, Sim, Later, Cons, LambdaOf;
    PartsAgree(f, g, e);
    if Cdr(g, e).Ok? {
      var exps := Cdr(g, e).value;
      ConsAgree(f, g, Progn, exps);
      var (body, ft) := Cons(f, Progn, exps);
      var (_, gt) := Cons(g, Progn, exps);
      GrowsKeeps(g, gt, params);
      GrowsKeeps(g, gt, args);
      LambdaOfAgree(ft, gt, params, body, args);
      Chain(g, gt, Ok(LambdaOf(ft, params, body, args)), Ok(LambdaOf(gt, params, body, args)));
    }
  }

  lemma {:induction false} LetAgree(cfg0: Config, cfg: Config, fuel: nat, f: State, g: State, e: Ref, a: Ref)
    requires Paired(cfg0, cfg) && Both(f, g) && Plain(g, e) && Env(g, a)
    ensures Agree(g, EvalLet(cfg0, fuel, f, e, a), EvalLet(cfg, fuel, g, e, a))
    decreases fuel
  {
    hide WF, Sim, Later, Eval, LetAsLambda;
    if fuel > 0 {
      LetAsLambdaAgree(fuel, f, g, e);
      if LetAsLambda(fuel, g, e).Ok? {
        ThenEvalAgree(cfg0, cfg, fuel - 1, g, LetAsLambda(fuel, f, e), LetAsLambda(fuel, g, e), a);
      }
    }
  }

  lemma {:induction false} PairChainAgree(fuel: nat, f: State, g: State, e: Ref)
    requires Both(f, g) && Plain(g, e)
    ensures PairChain(fuel, f, e) == PairChain(fuel, g, e) != Stop(Dangling)
    decreases fuel
  {
    hide WF, Sim;
    PartsAgree(f, g, e);
    if e != Nil && fuel > 0 && Car(g, e).Ok? {
      PartsAgree(f, g, Car(g, e).value);
      PairChainAgree(fuel - 1, f, g, Cdr(g, e).value);
    }
  }

  // Two runs of a test agree.
  ghost predicate AgreeTest(g: State, x: Result<(bool, State)>, y: Result<(bool, State)>) {
    if y.Stop? then x == y && y.why != Dangling
    else x.Ok? && x.value.0 == y.value.0 && Both(x.value.1, y.value.1) && Later(g, y.value.1)
  }

  lemma {:induction false} MatchKeyAgree(cfg0: Config, cfg: Config, fuel: nat, f: State, g: State, key: Ref,
      x: Ref, a: Ref)
    requires Paired(cfg0, cfg) && Both(f, g) && Held(g, key) && Plain(g, x) && Env(g, a)
    ensures AgreeTest(g, MatchKey(cfg0, fuel, f, key, x, a), MatchKey(cfg, fuel, g, key, x, a))
    decreases fuel
  {
    hide WF, Sim, Later, Held, Eval, IsKey;
    if fuel > 0 {
      EvalAgree(cfg0, cfg, fuel - 1, f, g, x, a);
      if Eval(cfg, fuel - 1, g, x, a).Ok? {
        IsKeyAgree(fuel, g, key, Eval(cfg0, fuel - 1, f, x, a), Eval(cfg, fuel - 1, g, x, a));
      }
    }
  }

  lemma IsKeyAgree(fuel: nat, g: State, key: Ref, x: Result<(Ref, State)>, y: Result<(Ref, State)>)
    requires WF(g) && Held(g, key) && Agree(g, x, y) && y.Ok?
    ensures AgreeTest(g, IsKey(fuel, x.value.1, key, x.value.0), IsKey(fuel, y.value.1, key, y.value.0))
  {
    hide WF, Sim, Later, Kept, Equal;
    var (v, ft) := x.value;
    var gt := y.value.1;
    StillHeld(g, gt, key);
    EqualAgree(fuel, ft, gt, key, v);
  }

  lemma {:induction false} MatchKeysAgree(cfg0: Config, cfg: Config, fuel: nat, f: State, g: State, key: Ref,
      w: Ref, a: Ref)
    requires Paired(cfg0, cfg) && Both(f, g) && Held(g, key) && Held(g, w) && HeldEnv(g, a)
    ensures AgreeTest(g, MatchKeys(cfg0, fuel, f, key, w, a), MatchKeys(cfg, fuel, g, key, w, a))
    decreases fuel
  {
    hide WF, Sim, Later, Kept, Paired, Plain, MatchKey;
    NothingCollected(g);
    TailHeld(f, g, w);
    if w != Nil && fuel > 0 && Car(g, w).Ok? {
      var x := Car(g, w).value;
      MatchKeyAgree(cfg0, cfg, fuel - 1, f, g, key, x, a);
      var tested := MatchKey(cfg, fuel - 1, g, key, x, a);
      if tested.Ok? && !tested.value.0 {
        var ft, gt := MatchKey(cfg0, fuel - 1, f, key, x, a).value.1, tested.value.1;
        StillHeld(g, gt, key);
        RestHeld(f, g, ft, gt, w, a);
        var rest := Cdr(gt, w).value;
        MatchKeysAgree(cfg0, cfg, fuel - 1, ft, gt, key, rest, a);
        var others := MatchKeys(cfg, fuel - 1, gt, key, rest, a);
        if others.Ok? { LaterTrans(g, gt, others.value.1); }
      }
    }
  }

  // Two searches with the key on top of the stack agree, and the clauses that they find
  // are still protected when the key is not.
  ghost predicate AgreeFound(g: State, key: Ref, x: Result<(Ref, State)>, y: Result<(Ref, State)>) {
    if y.Stop? then x == y && y.why != Dangling
    else
      && x.Ok? && x.value.0 == y.value.0 && Both(x.value.1, y.value.1)
      && Later(Push(g, key), y.value.1) && Held(Pop(y.value.1, key), y.value.0)
  }

  lemma {:induction false} FindCaseAgree(cfg0: Config, cfg: Config, fuel: nat, f: State, g: State, key: Ref,
      e: Ref, a: Ref)
    requires Paired(cfg0, cfg) && Both(f, g) && Plain(g, key) && Held(g, e) && HeldEnv(g, a)
    ensures AgreeFound(g, key, FindCase(cfg0, fuel, Push(f, key), key, e, a),
                       FindCase(cfg, fuel, Push(g, key), key, e, a))
    decreases fuel
  {
    hide WF, Sim, Later, Kept, Push, Pop, TestClause, FindNext, Car;
    PushBoth(f, g, key);
    var fp, gp := Push(f, key), Push(g, key);
    PushedRead(f, key, e);
    PushedRead(g, key, e);
    NothingCollected(gp);
    PushedAgain(g, key);
    StaticHeld(g, Nil);
    TailHeld(f, g, e);
    if e != Nil && fuel > 0 && Car(g, e).Ok? {
      RoundAgree(cfg0, cfg, fuel, f, g, key, e, Car(g, e).value, a);
    }
  }

  // One clause is tested, and the search stops there or goes on.
  lemma {:induction false} RoundAgree(cfg0: Config, cfg: Config, fuel: nat, f: State, g: State, key: Ref,
      e: Ref, clause: Ref, a: Ref)
    requires Paired(cfg0, cfg) && Both(f, g) && Plain(g, key) && Held(g, e) && HeldEnv(g, a) && fuel > 0
    requires Held(g, clause) && Car(g, e) == Ok(clause)
    ensures var x := TestClause(cfg0, fuel, Push(f, key), key, clause, a);
            var y := TestClause(cfg, fuel, Push(g, key), key, clause, a);
            if y.Stop? then x == y && y.why != Dangling
            else
              && x.Ok? && x.value.0 == y.value.0
              && AgreeFound(g, key, FindNext(cfg0, fuel, x.value.1, key, x.value.0, e, a),
                            FindNext(cfg, fuel, y.value.1, key, y.value.0, e, a))
    decreases fuel, 1
  {
    hide WF, Sim, Later, Kept, Push, Pop, TestClause, FindNext, Car, AgreeFound;
    TestAgree(cfg0, cfg, fuel, f, g, key, clause, a);
    var fp, gp := Push(f, key), Push(g, key);
    PushBoth(f, g, key);
    var tested := TestClause(cfg, fuel, gp, key, clause, a);
    if tested.Ok? {
      var (found, ft) := TestClause(cfg0, fuel, fp, key, clause, a).value;
      var gt := tested.value.1;
      PopBoth(f, g, key, ft, gt);
      var fq, gq := Pop(ft, key), Pop(gt, key);
      RepushedSame(f, g, key, ft, gt);
      RestHeld(f, g, fq, gq, e, a);
      StillPlainKey(g, key, gt);
      FindNextAgree(cfg0, cfg, fuel, fq, gq, key, found, e, a);
      FoundLater(g, gq, key, FindNext(cfg0, fuel, ft, key, found, e, a), FindNext(cfg, fuel, gt, key, found, e, a));
    }
  }

  lemma {:induction false} FindNextAgree(cfg0: Config, cfg: Config, fuel: nat, f: State, g: State, key: Ref,
      found: bool, e: Ref, a: Ref)
    requires Paired(cfg0, cfg) && Both(f, g) && Plain(g, key) && Held(g, e) && HeldEnv(g, a) && fuel > 0
    ensures AgreeFound(g, key, FindNext(cfg0, fuel, Push(f, key), key, found, e, a),
                       FindNext(cfg, fuel, Push(g, key), key, found, e, a))
    decreases fuel, 0
  {
    hide WF, Sim, Later, Kept, Push, Pop, FindCase, Cdr;
    PushBoth(f, g, key);
    PushedRead(f, key, e);
    PushedRead(g, key, e);
    NothingCollected(Push(g, key));
    PushedAgain(g, key);
    TailHeld(f, g, e);
    if !found && Cdr(g, e).Ok? {
      FindCaseAgree(cfg0, cfg, fuel - 1, f, g, key, Cdr(g, e).value, a);
    }
  }

  lemma FoundLater(g: State, gq: State, key: Ref, x: Result<(Ref, State)>, y: Result<(Ref, State)>)
    requires Later(Push(g, key), Push(gq, key)) && AgreeFound(gq, key, x, y)
    ensures AgreeFound(g, key, x, y)
  {
    hide Later, Sim, WF, Held;
    if y.Ok? { LaterTrans(Push(g, key), Push(gq, key), y.value.1); }
  }

  // The base blocks play no part in reading.
  lemma PushedRead(s: State, r: Ref, e: Ref)
    ensures Deref(Push(s, r), e) == Deref(s, e)
    ensures Car(Push(s, r), e) == Car(s, e) && Cdr(Push(s, r), e) == Cdr(s, e)
  {}

  lemma PushedAgain(g: State, r: Ref)
    ensures Pop(Push(g, r), r) == g
  {
    LastReleased(g.bases, r);
  }

  lemma RepushedSame(f: State, g: State, r: Ref, ft: State, gt: State)
    requires Both(ft, gt) && Later(Push(g, r), gt)
    ensures Push(Pop(ft, r), r) == ft && Push(Pop(gt, r), r) == gt
  {
    hide Replays;
    LastReleased(g.bases, r);
  }

  // The key is protected while its clause is tested.
  lemma StillPlainKey(g: State, key: Ref, gt: State)
    requires WF(Push(g, key)) && WF(gt) && Later(Push(g, key), gt) && Plain(g, key)
    ensures Plain(Pop(gt, key), key)
  {
    hide WF, Later;
    assert key in Push(g, key).bases;
    BaseHeld(Push(g, key), key);
    StillHeld(Push(g, key), gt, key);
  }

  lemma {:induction false} TestAgree(cfg0: Config, cfg: Config, fuel: nat, f: State, g: State, key: Ref,
      clause: Ref, a: Ref)
    requires Paired(cfg0, cfg) && Both(f, g) && Plain(g, key) && Held(g, clause) && HeldEnv(g, a) && fuel > 0
    ensures AgreeTest(Push(g, key), TestClause(cfg0, fuel, Push(f, key), key, clause, a),
                      TestClause(cfg, fuel, Push(g, key), key, clause, a))
    decreases fuel, 0
  {
    hide WF, Sim, Later, Kept, MatchKey, MatchKeys;
    var fp, gp := Push(f, key), Push(g, key);
    PushBoth(f, g, key);
    assert key in gp.bases;
    BaseHeld(gp, key);
    HeldPush(g, key, clause);
    HeldPush(g, key, a);
    NothingCollected(gp);
    TailHeld(fp, gp, clause);
    if Car(gp, clause).Ok? {
      var x := Car(gp, clause).value;
      PartsAgree(fp, gp, x);
      MatchKeyAgree(cfg0, cfg, fuel - 1, fp, gp, key, x, a);
      MatchKeysAgree(cfg0, cfg, fuel - 1, fp, gp, key, x, a);
    }
  }

  lemma {:induction false} CaseAgree(cfg0: Config, cfg: Config, fuel: nat, f: State, g: State, e: Ref, a: Ref)
    requires Paired(cfg0, cfg) && Both(f, g) && Held(g, e) && HeldEnv(g, a)
    ensures Agree(g, EvalCase(cfg0, fuel, f, e, a), EvalCase(cfg, fuel, g, e, a))
    decreases fuel
  {
    hide WF, Sim, Later, Kept, Eval, PairChain, FindCase, EvalClause, Push, Pop;
    TailHeld(f, g, e);
    if fuel > 0 && Car(g, e).Ok? {
      PairChainAgree(fuel, f, g, Cdr(g, e).value);
      var x := Car(g, e).value;
      EvalAgree(cfg0, cfg, fuel - 1, f, g, x, a);
      var keyed := Eval(cfg, fuel - 1, g, x, a);
      if keyed.Ok? {
        var (key, ft) := Eval(cfg0, fuel - 1, f, x, a).value;
        var gt := keyed.value.1;
        RestHeld(f, g, ft, gt, e, a);
        var rest := Cdr(gt, e).value;
        FindCaseAgree(cfg0, cfg, fuel - 1, ft, gt, key, rest, a);
        var found := FindCase(cfg, fuel - 1, Push(gt, key), key, rest, a);
        if found.Ok? {
          var (hit, fu) := FindCase(cfg0, fuel - 1, Push(ft, key), key, rest, a).value;
          PopBoth(ft, gt, key, fu, found.value.1);
          var fv, gv := Pop(fu, key), Pop(found.value.1, key);
          StillHeld(gt, gv, a);
          ClauseAgree(cfg0, cfg, fuel - 1, fv, gv, hit, a);
          LaterTrans(g, gt, gv);
          Chain(g, gv, EvalClause(cfg0, fuel - 1, fv, hit, a), EvalClause(cfg, fuel - 1, gv, hit, a));
        }
      }
    }
  }

  lemma {:induction false} ClauseAgree(cfg0: Config, cfg: Config, fuel: nat, f: State, g: State, hit: Ref, a: Ref)
    requires Paired(cfg0, cfg) && Both(f, g) && Held(g, hit) && HeldEnv(g, a)
    ensures Agree(g, EvalClause(cfg0, fuel, f, hit, a), EvalClause(cfg, fuel, g, hit, a))
    decreases fuel
  {
    hide WF, Sim, Later, Kept, EvalEach;
    SameAgree(f, g, Nil);
    TailHeld(f, g, hit);
    if hit != Nil && fuel > 0 && Car(g, hit).Ok? {
      TailHeld(f, g, Car(g, hit).value);
      if Cdr(g, Car(g, hit).value).Ok? {
        EachAgree(cfg0, cfg, fuel - 1, f, g, Cdr(g, Car(g, hit).value).value, a, Nil);
      }
    }
  }

  lemma {:induction false} WhileAgree(cfg0: Config, cfg: Config, fuel: nat, f: State, g: State, test: Ref, e: Ref,
      a: Ref)
    requires Paired(cfg0, cfg) && Both(f, g) && Held(g, test) && Held(g, e) && HeldEnv(g, a) && Car(g, e).Ok?
    ensures Agree(g, EvalWhile(cfg0, fuel, f, test, e, a), EvalWhile(cfg, fuel, g, test, e, a))
    decreases fuel
  {
    hide WF, Sim, Later, Kept, Eval, EvalEach, Car, Cdr;
    if fuel > 0 {
      EvalAgree(cfg0, cfg, fuel - 1, f, g, test, a);
      var tested := Eval(cfg, fuel - 1, g, test, a);
      if tested.Ok? {
        var (v, ft) := Eval(cfg0, fuel - 1, f, test, a).value;
        var gt := tested.value.1;
        RestHeld(f, g, ft, gt, e, a);
        StillHeld(g, gt, test);
        SameAgree(ft, gt, True);
        Chain(g, gt, Ok((True, ft)), Ok((True, gt)));
        if v != Nil {
          var exps := Cdr(gt, e).value;
          EachAgree(cfg0, cfg, fuel - 1, ft, gt, exps, a, Nil);
          var round := EvalEach(cfg, fuel - 1, gt, exps, a, Nil);
          if round.Ok? {
            var fu, gu := EvalEach(cfg0, fuel - 1, ft, exps, a, Nil).value.1, round.value.1;
            LaterTrans(g, gt, gu);
            RestHeld(f, g, fu, gu, e, a);
            StillHeld(g, gu, test);
            PartsAgree(fu, gu, e);
            WhileAgree(cfg0, cfg, fuel - 1, fu, gu, test, e, a);
            Chain(g, gu, EvalWhile(cfg0, fuel - 1, fu, test, e, a), EvalWhile(cfg, fuel - 1, gu, test, e, a));
          }
        }
      }
    }
  }

  // ---------------------------------------------------------------- main results

  // The value at r is the same in t and u: every cell that can be reached from r, in
  // either heap, is present in both, with the same contents.
  ghost predicate SameValue(t: State, u: State, r: Ref) {
    forall id :: Reachable(GraphOf(t.heap), Ids({r}), id) || Reachable(GraphOf(u.heap), Ids({r}), id) ==>
      id in t.heap && id in u.heap && t.heap[id] == u.heap[id]
  }

  ghost predicate AgreeOnCommon(t: State, u: State) {
    forall id :: id in t.heap && id in u.heap ==> t.heap[id] == u.heap[id]
  }

  lemma NoDangling(t: State, y: nat, x: nat)
    requires WF(t) && Edge(GraphOf(t.heap), y, x)
    ensures x in t.heap
  {
    assert CellOk(t, y);
  }

  // Well-formed heaps that agree on what both hold agree on everything below what both
  // hold.
  lemma CommonIsClosed(t: State, u: State, r: Ref)
    requires WF(t) && WF(u) && AgreeOnCommon(t, u) && Plain(t, r) && Plain(u, r)
    ensures SameValue(t, u, r)
  {
    hide WF, Plain;
    var common := t.heap.Keys * u.heap.Keys;
    assert Ids({r}) <= common by { RootCommon(t, u, r); }
    forall y, x | y in common && Edge(GraphOf(t.heap), y, x) ensures x in common {
      assert Edge(GraphOf(u.heap), y, x);
      NoDangling(t, y, x);
      NoDangling(u, y, x);
    }
    forall y, x | y in common && Edge(GraphOf(u.heap), y, x) ensures x in common {
      assert Edge(GraphOf(t.heap), y, x);
      NoDangling(t, y, x);
      NoDangling(u, y, x);
    }
    ReachableLeast(GraphOf(t.heap), Ids({r}), common);
    ReachableLeast(GraphOf(u.heap), Ids({r}), common);
  }

  lemma RootCommon(t: State, u: State, r: Ref)
    requires Plain(t, r) && Plain(u, r)
    ensures Ids({r}) <= t.heap.Keys * u.heap.Keys
  {}

  // Both states come from the run without collections.
  lemma SimilarAgree(f: State, t: State, u: State)
    requires Sim(f, t) && Sim(f, u)
    ensures AgreeOnCommon(t, u) && t.thread == u.thread && t.global == u.global && t.bases == u.bases
  {}

  // The state in which a session starts: nothing is protected, and no cell or symbol
  // refers to a missing cell.
  lemma FreshSession(s: State)
    requires s.roles == map[] && s.bases == []
    requires forall id :: id in s.heap ==> id < s.next
    requires forall id :: id in s.heap && s.heap[id].Pair? ==>
               Present(s, s.heap[id].car) && Present(s, s.heap[id].cdr)
    requires forall n :: n in s.thread ==> Present(s, s.thread[n].value)
    requires forall n :: n in s.global ==> Present(s, s.global[n].value)
    ensures WF(s)
  {}

  // Two evaluations from s: same value, down to its last cell, same tables, the base
  // blocks of s, and well-formed states to go on from; or the same failure, which is
  // not the reading of a collected block.
  ghost predicate SameOutcome(s: State, x: Result<(Ref, State)>, y: Result<(Ref, State)>) {
    match (x, y)
    case (Ok((r, t)), Ok((q, u))) =>
      && r == q && Plain(t, r) && Plain(u, r) && SameValue(t, u, r)
      && WF(t) && WF(u) && AgreeOnCommon(t, u)
      && t.thread == u.thread && t.global == u.global
      && t.bases == u.bases == s.bases
    case (Stop(v), Stop(w)) => v == w && v != Dangling
    case _ => false
  }

  // z is the evaluation without collections.
  lemma OutcomesAgree(s: State, z: Result<(Ref, State)>, x: Result<(Ref, State)>, y: Result<(Ref, State)>)
    requires Agree(s, z, x) && Agree(s, z, y)
    ensures SameOutcome(s, x, y)
  {
    hide WF, Plain, SameValue, AgreeOnCommon, Sim;
    if x.Ok? && y.Ok? {
      var (r, t) := x.value;
      var (_, u) := y.value;
      SimilarAgree(z.value.1, t, u);
      CommonIsClosed(t, u, r);
    }
  }

  // From a well-formed state, whatever the expression and the environment, any two
  // collection schedules have the same outcome.
  lemma CollectionIsTransparent(cfg1: Config, cfg2: Config, fuel: nat, s: State, e: Ref, a: Ref)
    requires WF(s) && Plain(s, e) && Env(s, a) && cfg1.numeral == cfg2.numeral
    ensures SameOutcome(s, Eval(cfg1, fuel, s, e, a), Eval(cfg2, fuel, s, e, a))
  {
    hide WF, Eval, SameOutcome, Agree, Plain, Env;
    assert Both(s, s);
    var never := Config(_ => false, cfg1.numeral);
    EvalAgree(never, cfg1, fuel, s, s, e, a);
    EvalAgree(never, cfg2, fuel, s, s, e, a);
    OutcomesAgree(s, Eval(never, fuel, s, e, a), Eval(cfg1, fuel, s, e, a), Eval(cfg2, fuel, s, e, a));
  }

  // ---------------------------------------------------------------- sessions

  // An expression as the reader hands it over: a quote mark makes a pair whose car is the
  // predefined quote, a written symbol, `quote` included, a cell of its own.
  datatype Expr = NilExpr | QuoteExpr | SymExpr(name: string) | PairExpr(car: Expr, cdr: Expr)

  // The cells of an expression that has been read.
  ghost function Build(s: State, x: Expr): (Ref, State)
    decreases x
  {
    match x
    case NilExpr => (Nil, s)
    case QuoteExpr => (Quote, s)
    case SymExpr(name) => Alloc(s, Leaf(Sym(name)))
    case PairExpr(a, d) =>
      var (car, t) := Build(s, a);
      var (cdr, u) := Build(t, d);
      Cons(u, car, cdr)
  }

  // _eval_exp for one expression after the other: each is read, then evaluated in the
  // empty environment, until one fails. The trace has every value and the state in
  // which it was returned.
  ghost function Session(cfg: Config, fuel: nat, s: State, xs: seq<Expr>)
    : (seq<(Ref, State)>, Option<Reason>)
    decreases |xs|
  {
    if xs == [] then ([], None)
    else
      var (e, t) := Build(s, xs[0]);
      match Eval(cfg, fuel, t, e, Nil)
      case Stop(why) => ([], Some(why))
      case Ok((r, u)) =>
        var (trace, end) := Session(cfg, fuel, u, xs[1..]);
        ([(r, u)] + trace, end)
  }

  lemma {:induction false} BuildAgree(f: State, g: State, x: Expr)
    requires Both(f, g)
    ensures AgreeNow(g, Ok(Build(f, x)), Ok(Build(g, x)))
    decreases x
  {
    hide WF, Sim, Later;
    match x
    case NilExpr => SameAgree(f, g, Nil);
    case QuoteExpr => SameAgree(f, g, Quote);
    case SymExpr(name) => AllocAgree(f, g, Leaf(Sym(name)));
    case PairExpr(a, d) =>
      BuildAgree(f, g, a);
      var (car, ft) := Build(f, a);
      var (_, gt) := Build(g, a);
      BuildAgree(ft, gt, d);
      var (cdr, fu) := Build(ft, d);
      var (_, gu) := Build(gt, d);
      GrowsKeeps(gt, gu, car);
      ConsAgree(fu, gu, car, cdr);
      Chain(gt, gu, Ok(Cons(fu, car, cdr)), Ok(Cons(gu, car, cdr)));
      Chain(g, gt, Ok(Cons(fu, car, cdr)), Ok(Cons(gu, car, cdr)));
  }

  ghost predicate SameStep(s: State, x: (Ref, State), y: (Ref, State)) {
    SameOutcome(s, Ok(x), Ok(y))
  }

  // z, without collections, and x agree step by step.
  ghost predicate AgreeStep(s: State, z: (Ref, State), x: (Ref, State)) {
    Agree(s, Ok(z), Ok(x))
  }

  lemma {:induction false} SessionAgree(cfg0: Config, cfg: Config, fuel: nat, f: State, g: State,
      xs: seq<Expr>)
    requires Paired(cfg0, cfg) && Both(f, g)
    ensures var (z, v) := Session(cfg0, fuel, f, xs);
            var (x, w) := Session(cfg, fuel, g, xs);
            |z| == |x| && v == w && v != Some(Dangling) &&
            forall i :: 0 <= i < |z| ==> AgreeStep(g, z[i], x[i])
    decreases |xs|
  {
    hide WF, Sim, Later, Eval;
    if xs != [] {
      BuildAgree(f, g, xs[0]);
      var (e, ft) := Build(f, xs[0]);
      var (_, gt) := Build(g, xs[0]);
      EvalAgree(cfg0, cfg, fuel, ft, gt, e, Nil);
      Chain(g, gt, Eval(cfg0, fuel, ft, e, Nil), Eval(cfg, fuel, gt, e, Nil));
      if Eval(cfg, fuel, gt, e, Nil).Ok? {
        var (_, fu) := Eval(cfg0, fuel, ft, e, Nil).value;
        var (_, gu) := Eval(cfg, fuel, gt, e, Nil).value;
        SessionAgree(cfg0, cfg, fuel, fu, gu, xs[1..]);
        var (z, _) := Session(cfg0, fuel, fu, xs[1..]);
        var (x, _) := Session(cfg, fuel, gu, xs[1..]);
        forall i | 0 <= i < |z| ensures AgreeStep(g, z[i], x[i]) {
          assert AgreeStep(gu, z[i], x[i]);
          Chain(g, gu, Ok(z[i]), Ok(x[i]));
        }
      }
    }
  }

  // A whole session: however many expressions are read and evaluated in turn, any two
  // collection schedules give the same values, one after the other, and stop, if they
  // do, at the same expression for the same reason.
  lemma SessionIsTransparent(cfg1: Config, cfg2: Config, fuel: nat, s: State, xs: seq<Expr>)
    requires WF(s) && cfg1.numeral == cfg2.numeral
    ensures var (x, v) := Session(cfg1, fuel, s, xs);
            var (y, w) := Session(cfg2, fuel, s, xs);
            |x| == |y| && v == w && v != Some(Dangling) &&
            forall i :: 0 <= i < |x| ==> SameStep(s, x[i], y[i])
  {
    hide WF, Session, SameOutcome, Agree;
    assert Both(s, s);
    var never := Config(_ => false, cfg1.numeral);
    SessionAgree(never, cfg1, fuel, s, s, xs);
    SessionAgree(never, cfg2, fuel, s, s, xs);
    var (z, _) := Session(never, fuel, s, xs);
    var (x, _) := Session(cfg1, fuel, s, xs);
    var (y, _) := Session(cfg2, fuel, s, xs);
    forall i | 0 <= i < |x| ensures SameStep(s, x[i], y[i]) {
      assert AgreeStep(s, z[i], x[i]) && AgreeStep(s, z[i], y[i]);
      OutcomesAgree(s, Ok(z[i]), Ok(x[i]), Ok(y[i]));
    }
  }

  // ---------------------------------------------------------------- the heap's history

  // Whatever the collection schedule, what an evaluation that returns has logged, cell by
  // cell, write by write and collection by collection, leads from the heap in which it
  // started to the heap in which it returns, and never names a collected cell.
  lemma EvaluationIsRun(cfg: Config, fuel: nat, s: State, e: Ref, a: Ref)
    requires WF(s) && Plain(s, e) && Env(s, a)
    ensures var x := Eval(cfg, fuel, s, e, a); x.Ok? ==> Replays(s, x.value.1) && Plain(x.value.1, x.value.0)
  {
    hide WF, Eval, Plain, Env, Replays;
    assert Both(s, s);
    EvalAgree(Config(_ => false, cfg.numeral), cfg, fuel, s, s, e, a);
  }

  // The same for a session, up to the state in which each value is returned.
  lemma SessionIsRun(cfg: Config, fuel: nat, s: State, xs: seq<Expr>, i: nat)
    requires WF(s) && i < |Session(cfg, fuel, s, xs).0|
    ensures var (r, t) := Session(cfg, fuel, s, xs).0[i];
            WF(t) && Plain(t, r) && Replays(s, t)
  {
    hide WF, Session, Replays, Plain;
    assert Both(s, s);
    var never := Config(_ => false, cfg.numeral);
    SessionAgree(never, cfg, fuel, s, s, xs);
    assert AgreeStep(s, Session(never, fuel, s, xs).0[i], Session(cfg, fuel, s, xs).0[i]);
  }
}
