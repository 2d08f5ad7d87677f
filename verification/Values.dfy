// What values are made of: references, atoms, and the results of an evaluation.
module Values {
  // A key that the symbol tables do not take has this length or more.
  const MAX_KEY_LEN := 1024

  // Lambda and Progn are the static symbols of ylbase/nfunc.c.
  datatype Ref = Nil | True | Quote | Lambda | Progn | Cell(id: nat)

  datatype Native =
    | CarF | CdrF | ConsF | AtomF | NullF | EqF | EqualF | ListF
    | SetF | TSetF | MSetF | TMSetF | UnsetF | TUnsetF | IsSetF | IsTSetF
    | EvalF | CondF | AndF | OrF | LetF | CaseF | WhileF

  datatype Special = QuoteF | PrognF | ApplyF

  datatype Atom =
    | NilAtom
    | Sym(name: string)
    | Number(tag: nat)
    | NFunc(nf: Native)
    | SFunc(sf: Special)

  datatype Reason = Failed | OutOfSteps | Dangling

  datatype Result<+T> = Ok(value: T) | Stop(why: Reason) {
    predicate IsFailure() { Stop? }
    function PropagateFailure<U>(): Result<U> requires Stop? { Stop(why) }
    function Extract(): T requires Ok? { value }
  }
}
