// The text that printing produces, and reading it back.
module PrintedText {
  import opened Grammar

  // What _eprint appends for a pair, without the outer parentheses, and for anything.
  function Inner(x: Sexp): string
    requires x.Cons?
    decreases x, 0
  {
    Text(x.car) +
    if x.cdr.Cons? then " " + Inner(x.cdr)
    else if x.cdr.Sym? then "." + x.cdr.name
    else ""
  }

  function Text(x: Sexp): string
    decreases x, 1
  {
    match x
    case Nil => "NIL"
    case Sym(name) => name
    case Cons(_, _) => "(" + Inner(x) + ")"
  }

  // A name the reader can take as it stands.
  predicate CleanName(name: string) {
    0 < |name| <= MAX_SYMBOL &&
    forall i :: 0 <= i < |name| ==> !Delimiter(name[i]) && name[i] != '\\' && name[i] != '\0'
  }

  // Clean symbols, and proper lists with at least one element, all the way down.
  predicate Readable(x: Sexp) {
    match x
    case Nil => false
    case Sym(name) => CleanName(name)
    case Cons(a, d) => Readable(a) && (d == Nil || (d.Cons? && Readable(d)))
  }

  function Items(x: Sexp): (items: seq<Sexp>)
    ensures Readable(x) && x.Cons? ==> ListOf(items) == x
  {
    if x.Cons? then [x.car] + Items(x.cdr) else []
  }

  predicate Stops(rest: string) {
    rest != "" && Delimiter(rest[0])
  }

  lemma {:induction false} NameReads(name: string, acc: string, rest: string)
    requires forall i :: 0 <= i < |name| ==> !Delimiter(name[i]) && name[i] != '\\'
    requires |acc| + |name| <= MAX_SYMBOL && Stops(rest)
    ensures SymbolTail(name + rest, acc) == Got(acc + name, rest)
    decreases |name|
  {
    if name == "" {
      assert name + rest == rest && acc + name == acc;
    } else {
      assert (name + rest)[1..] == name[1..] + rest;
      NameReads(name[1..], acc + [name[0]], rest);
      assert acc + [name[0]] + name[1..] == acc + name;
    }
  }

  lemma {:induction false} TextStarts(x: Sexp, rest: string)
    requires Readable(x)
    ensures StartsElement(Text(x) + rest)
  {
    if x.Sym? { assert (x.name + rest)[0] == x.name[0]; }
  }

  lemma {:induction false} ElementReads(x: Sexp, rest: string)
    requires Readable(x) && Stops(rest)
    ensures StartsElement(Text(x) + rest) && Element(Text(x) + rest) == Got(x, rest)
    decreases x, 1
  {
    hide ListTail, QuoteTail, StringTail, SymbolTail, Inner, Items;
    TextStarts(x, rest);
    var s := Text(x) + rest;
    if x.Sym? {
      NameReads(x.name, "", rest);
      assert s[0] == x.name[0] && "" + x.name == x.name;
    } else {
      assert s[0] == '(' && s[1..] == Inner(x) + (")" + rest);
      ListReads(x, rest, []);
      assert [] + Items(x) == Items(x);
    }
  }

  lemma {:induction false} ListReads(x: Sexp, rest: string, acc: seq<Sexp>)
    requires Readable(x) && x.Cons?
    ensures ListTail(Inner(x) + (")" + rest), acc) == Got(ListOf(acc + Items(x)), rest)
    decreases x, 0
  {
    hide *;
    var end := ")" + rest;
    InnerSplits(x, end);
    ItemsSplit(x);
    ReadableParts(x);
    if x.cdr.Cons? {
      var more := Inner(x.cdr) + end;
      ElementReads(x.car, " " + more);
      ListTakes(Text(x.car) + (" " + more), acc, x.car, " " + more);
      ListSkips(more, acc + [x.car]);
      ListReads(x.cdr, rest, acc + [x.car]);
      assert acc + [x.car] + Items(x.cdr) == acc + Items(x);
    } else {
      ElementReads(x.car, end);
      ListTakes(Text(x.car) + end, acc, x.car, end);
      ListEnds(rest, acc + [x.car]);
      assert acc + [x.car] == acc + Items(x);
    }
  }

  lemma ItemsSplit(x: Sexp)
    requires x.Cons?
    ensures Items(x) == [x.car] + Items(x.cdr) && (!x.cdr.Cons? ==> Items(x) == [x.car])
  {}

  lemma ReadableParts(x: Sexp)
    requires Readable(x) && x.Cons?
    ensures Readable(x.car) && (x.cdr.Cons? ==> Readable(x.cdr))
    ensures forall s: string :: Stops(" " + s) && Stops(")" + s)
  {}

  lemma InnerSplits(x: Sexp, end: string)
    requires Readable(x) && x.Cons?
    ensures Inner(x) + end == Text(x.car) + if x.cdr.Cons? then " " + (Inner(x.cdr) + end) else end
  {
    hide Text, Readable;
    if x.cdr.Cons? {
      var i := Inner(x.cdr);
      assert Inner(x) == Text(x.car) + (" " + i);
      assert (Text(x.car) + (" " + i)) + end == Text(x.car) + (" " + (i + end));
    } else {
      assert Inner(x) == Text(x.car) by { ReadableTail(x); }
    }
  }

  lemma ReadableTail(x: Sexp)
    requires Readable(x) && x.Cons?
    ensures x.cdr.Nil? || x.cdr.Cons?
  {}

  lemma ListTakes(s: string, acc: seq<Sexp>, v: Sexp, rest: string)
    requires StartsElement(s) && Element(s) == Got(v, rest)
    ensures ListTail(s, acc) == ListTail(rest, acc + [v])
  {}

  lemma ListSkips(s: string, acc: seq<Sexp>)
    ensures ListTail(" " + s, acc) == ListTail(s, acc)
  {
    assert (" " + s)[1..] == s;
  }

  lemma ListEnds(rest: string, acc: seq<Sexp>)
    ensures ListTail(")" + rest, acc) == Got(ListOf(acc), rest)
  {
    assert (")" + rest)[1..] == rest;
  }

  lemma {:induction false} NoNul(s: string)
    requires '\0' !in s
    ensures Effective(s) == s + "\n"
  {
    if s != "" {
      NoNul(s[1..]);
      assert [s[0]] + (s[1..] + "\n") == s + "\n";
    } else {
      assert s + "\n" == "\n";
    }
  }

  lemma {:induction false} TextHasNoNul(x: Sexp)
    requires Readable(x)
    ensures '\0' !in Text(x)
    ensures x.Cons? ==> '\0' !in Inner(x)
  {
    if x.Cons? {
      TextHasNoNul(x.car);
      if x.cdr.Cons? { TextHasNoNul(x.cdr); }
    }
  }

  // Reading the printed text of a readable tree yields that tree, and nothing else.
  lemma ReadsBack(x: Sexp)
    requires Readable(x)
    ensures Read(Text(x)) == ([x], Done)
  {
    TextHasNoNul(x);
    NoNul(Text(x));
    ElementReads(x, "\n");
    TextStarts(x, "\n");
    assert Text(x) != "";
    assert [] + [x] == [x];
    assert Program("\n", [x]) == Program("", [x]);
  }

  // Readable elements, then a symbol in the place of the final nil
  predicate DottedList(x: Sexp) {
    x.Cons? &&
    match x.cdr
    case Nil => false
    case Sym(name) => x.car.Sym? && CleanName(x.car.name) && CleanName(name) && |x.car.name| + |name| < MAX_SYMBOL
    case Cons(_, _) => Readable(x.car) && DottedList(x.cdr)
  }

  // The last element and the final symbol as one symbol with a dot between them
  function Joined(x: Sexp): Sexp {
    match x
    case Cons(Sym(a), Sym(b)) => Cons(Sym(a + "." + b), Nil)
    case Cons(a, d) => Cons(a, Joined(d))
    case _ => x
  }

  lemma JoinedClean(a: string, b: string)
    requires CleanName(a) && CleanName(b) && |a| + |b| < MAX_SYMBOL
    ensures CleanName(a + "." + b)
  {}

  lemma {:induction false} JoinedText(x: Sexp)
    requires DottedList(x)
    ensures Joined(x).Cons? && Inner(x) == Inner(Joined(x)) && Readable(Joined(x))
    decreases x
  {
    hide CleanName;
    match x.cdr
    case Sym(b) =>
      var a := x.car.name;
      JoinedClean(a, b);
      assert a + "." + b + "" == a + ("." + b);
    case Cons(_, _) => JoinedText(x.cdr);
  }

  // A dotted list is read back as a list, with a symbol that was never there.
  lemma DottedReadsAs(x: Sexp)
    requires DottedList(x)
    ensures Read(Text(x)) == ([Joined(x)], Done)
  {
    hide Read, Inner, CleanName;
    JoinedText(x);
    assert Text(x) == Text(Joined(x));
    ReadsBack(Joined(x));
  }

  // The smallest one, letter by letter
  lemma DottedPair(a: string, b: string)
    requires CleanName(a) && CleanName(b) && |a| + |b| < MAX_SYMBOL
    ensures Text(Cons(Sym(a), Sym(b))) == "(" + a + "." + b + ")"
    ensures Read("(" + a + "." + b + ")") == ([Cons(Sym(a + "." + b), Nil)], Done)
  {
    hide Read, CleanName;
    var x := Cons(Sym(a), Sym(b));
    DottedReadsAs(x);
    assert Inner(x) == a + ("." + b);
    assert "(" + (a + ("." + b)) + ")" == "(" + a + "." + b + ")";
  }
}

// The other direction: only a readable tree survives being printed and read. Reading is
// weighed: what a value costs is paid for by the characters it is read from.
module Legibility {
  import opened Grammar
  import opened PrintedText

  // Four readings of the same text, each ruling out what the next one need not consider.
  datatype View = Slashes | Quotes | Marks | Opens

  predicate Counts(k: View, c: char) {
    (k.Slashes? && c == '\\') || (k.Opens? && c == '(')
  }

  function Cost(k: View, s: string): nat {
    if s == "" then 0 else (if Counts(k, s[0]) then 1 else 0) + Cost(k, s[1..])
  }

  function End(k: View): nat {
    if k.Opens? then 1 else 0
  }

  // Two backslashes are read for each one in a name; a list is opened once.
  function Weight(k: View, x: Sexp): nat {
    match x
    case Nil => End(k)
    case Sym(name) => if k.Slashes? then 2 * Cost(k, name) else 0
    case Cons(a, d) => Weight(k, a) + Weight(k, d)
  }

  function Weights(k: View, xs: seq<Sexp>): nat {
    if xs == [] then 0 else Weight(k, xs[0]) + Weights(k, xs[1..])
  }

  predicate Without(cs: string, s: string) {
    forall i :: 0 <= i < |s| ==> s[i] !in cs
  }

  // What the view takes for granted about the text...
  predicate Tame(k: View, s: string) {
    match k
    case Slashes => true
    case Quotes => Without("\\", s)
    case Marks => Without("\\\"\0", s)
    case Opens => Without("\\\"'", s)
  }

  // ... and what it says about the characters of the names.
  predicate Plain(k: View, name: string) {
    match k
    case Slashes => true
    case Quotes => Without("\"", name)
    case Marks => forall i :: 0 <= i < |name| ==> !Delimiter(name[i]) && name[i] != '\\' && name[i] != '\0'
    case Opens => true
  }

  predicate NameFine(k: View, name: string) {
    Plain(k, name) && (k.Marks? ==> 0 < |name| <= MAX_SYMBOL)
  }

  // Every name is fine, and every list is proper.
  predicate Fine(k: View, x: Sexp) {
    match x
    case Nil => true
    case Sym(name) => NameFine(k, name)
    case Cons(a, d) => Fine(k, a) && !d.Sym? && Fine(k, d)
  }

  predicate AllFine(k: View, xs: seq<Sexp>) {
    forall i :: 0 <= i < |xs| ==> Fine(k, xs[i])
  }

  // ---------------------------------------------------------------- counting

  lemma {:induction false} CostConcat(k: View, s: string, t: string)
    ensures Cost(k, s + t) == Cost(k, s) + Cost(k, t)
  {
    if s == "" {
      assert s + t == t;
    } else {
      assert (s + t)[1..] == s[1..] + t;
      CostConcat(k, s[1..], t);
    }
  }

  lemma {:induction false} WeightsSnoc(k: View, xs: seq<Sexp>, x: Sexp)
    ensures Weights(k, xs + [x]) == Weights(k, xs) + Weight(k, x)
  {
    if xs == [] {
      assert xs + [x] == [x];
    } else {
      assert (xs + [x])[1..] == xs[1..] + [x];
      WeightsSnoc(k, xs[1..], x);
    }
  }

  lemma {:induction false} ListWeighs(k: View, xs: seq<Sexp>)
    requires AllFine(k, xs)
    ensures Weight(k, ListOf(xs)) == Weights(k, xs) + End(k)
    ensures Fine(k, ListOf(xs)) && !ListOf(xs).Sym?
  {
    if xs != [] {
      assert Fine(k, xs[0]);
      ListWeighs(k, xs[1..]);
    }
  }

  lemma {:induction false} NoCost(s: string)
    requires Cost(Slashes, s) == 0
    ensures Without("\\", s)
  {
    if s != "" {
      NoCost(s[1..]);
      forall i | 0 <= i < |s| ensures s[i] !in "\\" {
        if i > 0 { assert s[i] == s[1..][i - 1]; }
      }
    }
  }

  lemma TameTail(k: View, s: string)
    requires s != "" && Tame(k, s)
    ensures Tame(k, s[1..])
  {}

  // ---------------------------------------------------------------- reading pays

  lemma {:induction false} SymbolPays(k: View, s: string, acc: string)
    requires Tame(k, s) && Plain(k, acc) && |acc| <= MAX_SYMBOL
    ensures var r := SymbolTail(s, acc);
            r.Got? ==>
              && Tame(k, r.rest) && Plain(k, r.value) && |r.value| <= MAX_SYMBOL
              && (acc != "" || (s != "" && !Delimiter(s[0])) ==> k.Marks? ==> r.value != "")
              && Weight(k, Sym(r.value)) + Cost(k, r.rest) <= Cost(k, s) + Weight(k, Sym(acc))
    decreases |s|
  {
    if s != "" && !Delimiter(s[0]) {
      TameTail(k, s);
      if s[0] == '\\' {
        EscapePays(k, s, acc);
        if Escaped(s[1..], acc).Got? { SymbolPays(k, Escaped(s[1..], acc).rest, Escaped(s[1..], acc).value); }
      } else if |acc| < MAX_SYMBOL {
        CostConcat(k, acc, [s[0]]);
        SymbolPays(k, s[1..], acc + [s[0]]);
      }
    }
  }

  lemma EscapePays(k: View, s: string, acc: string)
    requires Tame(k, s) && Plain(k, acc) && |acc| <= MAX_SYMBOL && s != "" && s[0] == '\\'
    ensures var r := Escaped(s[1..], acc);
            r.Got? ==>
              && k != Quotes && k != Marks && k != Opens
              && Tame(k, r.rest) && Plain(k, r.value) && |r.value| <= MAX_SYMBOL
              && Weight(k, Sym(r.value)) + Cost(k, r.rest) <= Cost(k, s) + Weight(k, Sym(acc))
  {
    if |s| > 1 {
      CostConcat(k, acc, [s[1]]);
      CostConcat(k, acc, "\n");
      assert Cost(k, s[1..]) == (if Counts(k, s[1]) then 1 else 0) + Cost(k, s[1..][1..]);
    }
  }

  lemma {:induction false} StringPays(k: View, s: string, acc: string)
    requires !k.Marks? && Tame(k, s) && Plain(k, acc) && |acc| <= MAX_SYMBOL
    ensures var r := StringTail(s, acc);
            r.Got? ==>
              && Tame(k, r.rest) && Plain(k, r.value) && |r.value| <= MAX_SYMBOL
              && Weight(k, Sym(r.value)) + Cost(k, r.rest) <= Cost(k, s) + Weight(k, Sym(acc))
    decreases |s|
  {
    if s != "" && s[0] != '"' {
      TameTail(k, s);
      if s[0] == '\\' {
        EscapePays(k, s, acc);
        if Escaped(s[1..], acc).Got? { StringPays(k, Escaped(s[1..], acc).rest, Escaped(s[1..], acc).value); }
      } else if |acc| < MAX_SYMBOL {
        CostConcat(k, acc, [s[0]]);
        StringPays(k, s[1..], acc + [s[0]]);
      }
    }
  }

  lemma {:induction false} CommentPays(k: View, s: string)
    requires Tame(k, s)
    ensures var r := AfterComment(s); r.Got? ==> Tame(k, r.rest) && Cost(k, r.rest) <= Cost(k, s)
  {
    if s != "" && s[0] != '\n' {
      TameTail(k, s);
      CommentPays(k, s[1..]);
    } else if s != "" {
      TameTail(k, s);
    }
  }

  // The contract of reading one element from s, leaving `rest`.
  predicate Paid(k: View, v: Sexp, rest: string, budget: nat) {
    Fine(k, v) && Tame(k, rest) && Weight(k, v) + Cost(k, rest) <= budget
  }

  lemma {:induction false} ElementPays(k: View, s: string)
    requires Tame(k, s) && StartsElement(s)
    ensures Element(s).Got? ==> Paid(k, Element(s).value, Element(s).rest, Cost(k, s))
    decreases |s|, 0
  {
    hide SymbolTail, StringTail, ListTail, QuoteTail;
    TameTail(k, s);
    if s[0] == '"' {
      if !k.Marks? { StringPays(k, s[1..], ""); }
    } else if s[0] == '\'' {
      if !k.Opens? { QuotePays(k, s[1..], []); }
    } else if s[0] == '(' {
      ListPays(k, s[1..], []);
    } else {
      SymbolPays(k, s, "");
    }
  }

  lemma {:induction false} ListPays(k: View, s: string, acc: seq<Sexp>)
    requires Tame(k, s) && AllFine(k, acc)
    ensures var r := ListTail(s, acc);
            r.Got? ==> Paid(k, r.value, r.rest, Cost(k, s) + Weights(k, acc) + End(k))
    decreases |s|, 1
  {
    hide Element, Tame, Fine;
    if s != "" {
      TameTail(k, s);
      if Space(s[0]) {
        ListPays(k, s[1..], acc);
      } else if s[0] == ')' {
        ListWeighs(k, acc);
      } else if s[0] == ';' {
        CommentPays(k, s[1..]);
        if AfterComment(s[1..]).Got? { ListPays(k, AfterComment(s[1..]).rest, acc); }
      } else {
        ElementPays(k, s);
        if Element(s).Got? {
          WeightsSnoc(k, acc, Element(s).value);
          ListPays(k, Element(s).rest, acc + [Element(s).value]);
        }
      }
    }
  }

  lemma {:induction false} QuotePays(k: View, s: string, acc: seq<Sexp>)
    requires !k.Opens? && Tame(k, s) && AllFine(k, acc)
    ensures var r := QuoteTail(s, acc);
            r.Got? ==> Paid(k, r.value, r.rest, Cost(k, s) + Weights(k, acc))
    decreases |s|, 1
  {
    hide Element, Tame;
    if StartsElement(s) {
      ElementPays(k, s);
      if Element(s).Got? {
        WeightsSnoc(k, acc, Element(s).value);
        QuotePays(k, Element(s).rest, acc + [Element(s).value]);
      }
    } else {
      ListWeighs(k, acc);
      QuoteIsFree(k);
      assert Fine(k, Sym("quote")) && Weight(k, Sym("quote")) == 0;
      assert Fine(k, Quoted(acc)) && Weight(k, Quoted(acc)) == Weights(k, acc);
    }
  }

  lemma QuoteIsFree(k: View)
    ensures NameFine(k, "quote") && Cost(k, "quote") == 0
  {
    assert "quote"[1..] == "uote" && "uote"[1..] == "ote" && "ote"[1..] == "te" && "te"[1..] == "e";
    assert Cost(k, "te") == Cost(k, "e") == 0;
    assert Cost(k, "ote") == 0 && Cost(k, "uote") == 0;
  }

  lemma {:induction false} ProgramPays(k: View, s: string, acc: seq<Sexp>)
    requires Tame(k, s) && AllFine(k, acc)
    ensures var r := Program(s, acc).0;
            AllFine(k, r) && Weights(k, r) <= Cost(k, s) + Weights(k, acc)
    decreases |s|
  {
    hide Element, Tame, Fine;
    if s != "" {
      TameTail(k, s);
      if Space(s[0]) {
        ProgramPays(k, s[1..], acc);
      } else if s[0] == ')' {
      } else if s[0] == ';' {
        CommentPays(k, s[1..]);
        if AfterComment(s[1..]).Got? { ProgramPays(k, AfterComment(s[1..]).rest, acc); }
      } else {
        ElementPays(k, s);
        if Element(s).Got? {
          WeightsSnoc(k, acc, Element(s).value);
          ProgramPays(k, Element(s).rest, acc + [Element(s).value]);
        }
      }
    }
  }

  // ---------------------------------------------------------------- printing costs

  lemma {:induction false} EffectiveCosts(k: View, s: string, cs: string)
    requires Without(cs, s) && '\n' !in cs
    ensures Cost(k, Effective(s)) <= Cost(k, s) && Without(cs, Effective(s)) && Without("\0", Effective(s))
  {
    if s != "" && s[0] != '\0' {
      EffectiveCosts(k, s[1..], cs);
      CostConcat(k, [s[0]], Effective(s[1..]));
    }
  }

  // Backslashes are printed as they are: half of what reading them back costs.
  lemma {:induction false} TextSlashes(x: Sexp)
    ensures 2 * Cost(Slashes, Text(x)) == Weight(Slashes, x)
    ensures x.Cons? ==> 2 * Cost(Slashes, Inner(x)) == Weight(Slashes, x)
    decreases x
  {
    if x.Cons? {
      TextSlashes(x.car);
      TextSlashes(x.cdr);
      InnerParts(Slashes, x);
    } else if x.Nil? {
      assert Cost(Slashes, "NIL") == 0;
    }
  }

  // The parts of the printed text of a pair.
  lemma InnerParts(k: View, x: Sexp)
    requires x.Cons?
    ensures Cost(k, Text(x)) == End(k) + Cost(k, Inner(x))
    ensures Cost(k, Inner(x)) == Cost(k, Text(x.car)) +
              (if x.cdr.Cons? then Cost(k, Inner(x.cdr)) else if x.cdr.Sym? then Cost(k, x.cdr.name) else 0)
  {
    var i := Inner(x);
    assert Text(x) == "(" + (i + ")");
    CostConcat(k, "(", i + ")");
    CostConcat(k, i, ")");
    assert Cost(k, "(") == End(k) && Cost(k, ")") == 0 && Cost(k, " ") == 0 && Cost(k, ".") == 0;
    if x.cdr.Cons? {
      CostConcat(k, Text(x.car), " " + Inner(x.cdr));
      CostConcat(k, " ", Inner(x.cdr));
    } else if x.cdr.Sym? {
      CostConcat(k, Text(x.car), "." + x.cdr.name);
      CostConcat(k, ".", x.cdr.name);
    } else {
      assert Text(x.car) + "" == Text(x.car);
    }
  }

  // ---------------------------------------------------------------- the converse

  // Without the characters `cs` in any name, there are none in the text.
  predicate NamesWithout(cs: string, x: Sexp) {
    match x
    case Nil => true
    case Sym(name) => Without(cs, name)
    case Cons(a, d) => NamesWithout(cs, a) && NamesWithout(cs, d)
  }

  lemma {:induction false} TextWithout(cs: string, x: Sexp)
    requires NamesWithout(cs, x) && Without("NIL(). ", cs)
    ensures Without(cs, Text(x)) && (x.Cons? ==> Without(cs, Inner(x)))
  {
    if x.Cons? {
      TextWithout(cs, x.car);
      TextWithout(cs, x.cdr);
    }
  }

  // With clean names, a list that is opened is printed; an empty one is not.
  lemma {:induction false} TextOpens(x: Sexp)
    requires Fine(Marks, x)
    ensures Cost(Opens, Text(x)) <= Weight(Opens, x)
    ensures x.Cons? ==> Cost(Opens, Inner(x)) + 1 <= Weight(Opens, x)
    ensures Cost(Opens, Text(x)) == Weight(Opens, x) ==> Readable(x)
    ensures x.Cons? && Cost(Opens, Inner(x)) + 1 == Weight(Opens, x) ==> Readable(x)
  {
    if x.Cons? {
      TextOpens(x.car);
      TextOpens(x.cdr);
      InnerParts(Opens, x);
    } else if x.Sym? {
      CleanOpensNothing(x.name);
    } else {
      assert Cost(Opens, "NIL") == 0;
    }
  }

  lemma {:induction false} CleanOpensNothing(name: string)
    requires Plain(Marks, name)
    ensures Cost(Opens, name) == 0
  {
    if name != "" { CleanOpensNothing(name[1..]); }
  }

  lemma {:induction false} NamesOf(k: View, x: Sexp, cs: string)
    requires Fine(k, x) && ((k.Quotes? && cs == "\"") || (k.Marks? && cs == "\\\"'"))
    ensures NamesWithout(cs, x)
  {
    if x.Cons? {
      NamesOf(k, x.car, cs);
      NamesOf(k, x.cdr, cs);
    } else if x.Sym? && k.Marks? {
      forall i | 0 <= i < |x.name| ensures x.name[i] !in cs { assert !Delimiter(x.name[i]); }
    }
  }

  // What one view of the reading says about a tree that reads back as itself.
  lemma ViewOf(k: View, x: Sexp, cs: string)
    requires Read(Text(x)) == ([x], Done) && Without(cs, Text(x)) && '\n' !in cs
    requires Tame(k, Effective(Text(x)))
    ensures Fine(k, x) && Weight(k, x) <= Cost(k, Text(x))
  {
    hide Fine, Tame, Program, Effective;
    var s := Effective(Text(x));
    EffectiveCosts(k, Text(x), cs);
    ProgramPays(k, s, []);
    assert Program(s, []).0 == [x];
    assert Fine(k, [x][0]);
    assert Weights(k, [x]) == Weight(k, x) + Weights(k, []);
  }

  // A tree that is printed and read back as itself is readable.
  lemma OnlyReadable(x: Sexp)
    requires Read(Text(x)) == ([x], Done)
    ensures Readable(x)
  {
    hide Fine, Read, Text, Effective, Readable, Weight, NamesWithout;
    var t := Text(x);
    ViewOf(Slashes, x, "");
    TextSlashes(x);
    NoCost(t);
    EffectiveCosts(Quotes, t, "\\");
    ViewOf(Quotes, x, "\\");
    NamesOf(Quotes, x, "\"");
    TextWithout("\"", x);
    EffectiveCosts(Marks, t, "\\\"");
    ViewOf(Marks, x, "\\\"");
    NamesOf(Marks, x, "\\\"'");
    TextWithout("\\\"'", x);
    EffectiveCosts(Opens, t, "\\\"'");
    ViewOf(Opens, x, "\\\"'");
    TextOpens(x);
  }

  // Printing and reading is the identity on exactly the readable trees.
  lemma ReadsBackIff(x: Sexp)
    ensures Read(Text(x)) == ([x], Done) <==> Readable(x)
  {
    hide Read, Text, Readable;
    if Readable(x) {
      ReadsBack(x);
    } else if Read(Text(x)) == ([x], Done) {
      OnlyReadable(x);
    }
  }

  // A nil inside a list comes back as a symbol.
  lemma NilInList()
    ensures Read(Text(Cons(Nil, Nil))) == ([Cons(Sym("NIL"), Nil)], Done) != ([Cons(Nil, Nil)], Done)
  {
    hide Read;
    ReadsBack(Cons(Sym("NIL"), Nil));
  }
}

// Printing a heap graph, with the map of addresses that cuts cycles.
module Printer {
  import opened Grammar
  import opened PrintedText
  import Legibility

  type Ref = nat

  const NULL: Ref := 0
  const NIL: Ref := 1

  // An atom with what its to_string produces, or a pair; a free block has NULL for both.
  datatype Cell = Atom(text: string) | Pair(car: Ref, cdr: Ref)

  type Graph = map<Ref, Cell>

  // Every reference but NULL leads somewhere.
  ghost predicate Closed(g: Graph) {
    NULL !in g && NIL in g && g[NIL] == Atom("NIL") &&
    forall r :: r in g && g[r].Pair? ==> (g[r].car == NULL || g[r].car in g) && (g[r].cdr == NULL || g[r].cdr in g)
  }

  ghost function Pairs(g: Graph): set<Ref> {
    set r | r in g && g[r].Pair?
  }

  // ---------------------------------------------------------------- unfolding

  datatype Tree = Null | Leaf(ref: Ref, text: string) | Node(at: Ref, l: Tree, r: Tree)

  // t is what the graph looks like from e: finite exactly when no cycle is reachable.
  ghost predicate Unfolds(g: Graph, e: Ref, t: Tree)
    decreases t
  {
    match t
    case Null => e == NULL
    case Leaf(x, text) => e == x && x in g && g[x] == Atom(text)
    case Node(at, l, r) => e == at && at in g && g[at].Pair? && Unfolds(g, g[at].car, l) && Unfolds(g, g[at].cdr, r)
  }

  ghost function At(t: Tree): set<Ref> {
    match t
    case Null => {}
    case Leaf(_, _) => {}
    case Node(at, l, r) => {at} + At(l) + At(r)
  }

  // No pair is met twice.
  ghost predicate Unshared(t: Tree) {
    match t
    case Null => true
    case Leaf(_, _) => true
    case Node(at, l, r) => at !in At(l) + At(r) && At(l) !! At(r) && Unshared(l) && Unshared(r)
  }

  ghost function Below(t: Tree): set<Ref> {
    if t.Node? then At(t.l) + At(t.r) else {}
  }

  // What is printed for a finite tree.
  function CarText(t: Tree): string
    decreases t, 1
  {
    match t
    case Null => "NULL "
    case Leaf(_, text) => text
    case Node(_, _, _) => "(" + Within(t) + ")"
  }

  function CdrText(t: Tree): string
    decreases t, 1
  {
    match t
    case Null => "NULL"
    case Leaf(x, text) => if x == NIL then "" else "." + text
    case Node(_, _, _) => " " + Within(t)
  }

  function Within(t: Tree): string
    requires t.Node?
    decreases t, 0
  {
    CarText(t.l) + CdrText(t.r)
  }

  // When a cycle is reported for an unfolding: its car, or its cdr, is in the map, which
  // grows on the way down, and holds the car while the cdr is printed.
  ghost predicate Cut(t: Tree, seen: set<Ref>)
    requires t.Node?
    decreases t, 0
  {
    HalfCut(t.l, seen) || HalfCut(t.r, WithCar(t.l, seen))
  }

  ghost predicate HalfCut(t: Tree, seen: set<Ref>)
    decreases t, 1
  {
    t.Node? && (t.at in seen || Cut(t, seen + {t.at}))
  }

  function WithCar(l: Tree, seen: set<Ref>): set<Ref> {
    if l.Node? then seen + {l.at} else seen
  }

  // What is printed: a report in the place of every pair that is found in the map.
  function Shown(t: Tree, seen: set<Ref>): string
    requires t.Node?
    decreases t, 0
  {
    CarShown(t.l, seen) + CdrShown(t.r, WithCar(t.l, seen))
  }

  function CarShown(t: Tree, seen: set<Ref>): string
    decreases t, 1
  {
    if !t.Node? then CarText(t)
    else if t.at in seen then CYCLE
    else "(" + Shown(t, seen + {t.at}) + ")"
  }

  function CdrShown(t: Tree, seen: set<Ref>): string
    decreases t, 1
  {
    if !t.Node? then CdrText(t)
    else if t.at in seen then CYCLE
    else " " + Shown(t, seen + {t.at})
  }

  lemma CarAround(g: Graph, e: Ref, t: Tree, seen: set<Ref>, b0: string, b1: string)
    requires NULL !in g && e in g && g[e].Pair? && Unfolds(g, e, t) && e !in seen
    requires b1 == b0 + "(" + Shown(t, seen + {e}) + ")"
    ensures b1 == b0 + CarShown(t, seen)
  {
    assert b1 == b0 + ("(" + Shown(t, seen + {e}) + ")");
  }

  lemma CdrAround(g: Graph, e: Ref, t: Tree, seen: set<Ref>, b0: string, b1: string)
    requires NULL !in g && e in g && g[e].Pair? && Unfolds(g, e, t) && e !in seen
    requires b1 == b0 + " " + Shown(t, seen + {e})
    ensures b1 == b0 + CdrShown(t, seen)
  {
    assert b1 == b0 + (" " + Shown(t, seen + {e}));
  }

  // Without a report, the text is the plain one.
  lemma {:induction false} UncutShown(t: Tree, seen: set<Ref>)
    requires t.Node? && !Cut(t, seen)
    ensures Shown(t, seen) == Within(t)
    decreases t
  {
    if t.l.Node? { UncutShown(t.l, seen + {t.l.at}); }
    if t.r.Node? { UncutShown(t.r, WithCar(t.l, seen) + {t.r.at}); }
  }

  // No report without sharing...
  lemma {:induction false} UnsharedNotCut(t: Tree, seen: set<Ref>)
    requires t.Node? && Unshared(t) && Below(t) !! seen
    ensures !Cut(t, seen)
    decreases t
  {
    if t.l.Node? { UnsharedNotCut(t.l, seen + {t.l.at}); }
    if t.r.Node? { UnsharedNotCut(t.r, WithCar(t.l, seen) + {t.r.at}); }
  }

  // ---------------------------------------------------------------- when a cycle is reported

  // The car of some pair is met again below that pair's cdr.
  ghost predicate CarAgain(t: Tree) {
    t.Node? && ((t.l.Node? && t.l.at in At(t.r)) || CarAgain(t.l) || CarAgain(t.r))
  }

  // No pair lies below itself.
  ghost predicate Grounded(t: Tree) {
    t.Node? ==> t.at !in Below(t) && Grounded(t.l) && Grounded(t.r)
  }

  ghost function Size(t: Tree): nat {
    if t.Node? then 1 + Size(t.l) + Size(t.r) else 0
  }

  lemma {:induction false} UnfoldsOnce(g: Graph, e: Ref, t: Tree, u: Tree)
    requires NULL !in g && Unfolds(g, e, t) && Unfolds(g, e, u)
    ensures t == u
    decreases t
  {
    if t.Node? {
      UnfoldsOnce(g, g[e].car, t.l, u.l);
      UnfoldsOnce(g, g[e].cdr, t.r, u.r);
    }
  }

  // What a pair of an unfolding unfolds to.
  lemma {:induction false} PartUnfolds(g: Graph, e: Ref, t: Tree, x: Ref) returns (u: Tree)
    requires Unfolds(g, e, t) && x in At(t)
    ensures Unfolds(g, x, u) && Size(u) <= Size(t)
    decreases t
  {
    if x == t.at { u := t; }
    else if x in At(t.l) { u := PartUnfolds(g, g[e].car, t.l, x); }
    else { u := PartUnfolds(g, g[e].cdr, t.r, x); }
  }

  // A pair with a finite unfolding is not below itself.
  lemma {:induction false} UnfoldingIsGrounded(g: Graph, e: Ref, t: Tree)
    requires NULL !in g && Unfolds(g, e, t)
    ensures Grounded(t)
    decreases t
  {
    if t.Node? {
      UnfoldingIsGrounded(g, g[e].car, t.l);
      UnfoldingIsGrounded(g, g[e].cdr, t.r);
      forall x | x in Below(t) ensures x != e { BelowIsOther(g, e, t, x); }
    }
  }

  lemma BelowIsOther(g: Graph, e: Ref, t: Tree, x: Ref)
    requires NULL !in g && Unfolds(g, e, t) && t.Node? && x in Below(t)
    ensures x != e
  {
    var u: Tree;
    if x in At(t.l) { u := PartUnfolds(g, g[e].car, t.l, x); }
    else { u := PartUnfolds(g, g[e].cdr, t.r, x); }
    assert Size(u) < Size(t);
    assert x == e ==> t == u by { if x == e { UnfoldsOnce(g, e, t, u); } }
  }

  ghost predicate Meets(s: set<Ref>, seen: set<Ref>) {
    exists x :: x in s && x in seen
  }

  // The map only ever matters through the pairs that were in it from the start, and
  // through the cars that stay in it while their cdr is printed.
  lemma {:induction false} CutIff(t: Tree, seen: set<Ref>)
    requires Grounded(t) && t.Node?
    ensures Cut(t, seen) <==> CarAgain(t) || Meets(Below(t), seen)
    decreases t, 0
  {
    HalfCutIff(t.l, seen);
    HalfCutIff(t.r, WithCar(t.l, seen));
    if Meets(At(t.r), WithCar(t.l, seen)) {
      var x :| x in At(t.r) && x in WithCar(t.l, seen);
      assert x in seen || (t.l.Node? && x == t.l.at);
    }
    if t.l.Node? && t.l.at in At(t.r) { assert Meets(At(t.r), WithCar(t.l, seen)); }
    if Meets(Below(t), seen) {
      var x :| x in Below(t) && x in seen;
      assert x in WithCar(t.l, seen);
    }
  }

  lemma {:induction false} HalfCutIff(t: Tree, seen: set<Ref>)
    requires Grounded(t)
    ensures HalfCut(t, seen) <==> CarAgain(t) || Meets(At(t), seen)
    decreases t, 1
  {
    if t.Node? {
      if t.at in seen {
        assert Meets(At(t), seen);
      } else {
        CutIff(t, seen + {t.at});
        if Meets(Below(t), seen + {t.at}) {
          var x :| x in Below(t) && x in seen + {t.at};
          assert x in At(t) && x in seen;
        }
        if Meets(At(t), seen) {
          var x :| x in At(t) && x in seen;
          assert x in Below(t) && x in seen + {t.at};
        }
      }
    }
  }

  // A cycle is reported for a finite graph exactly when some pair's car is met again
  // below its cdr.
  lemma ReportedIff(g: Graph, e: Ref, t: Tree)
    requires NULL !in g && Unfolds(g, e, t) && t.Node?
    ensures Cut(t, {}) <==> CarAgain(t)
  {
    UnfoldingIsGrounded(g, e, t);
    CutIff(t, {});
  }

  // A finite tree whose printing reports a cycle: one pair as both car and cdr.
  lemma FalseCycle() returns (g: Graph, e: Ref, t: Tree)
    ensures Closed(g) && e in g && Unfolds(g, e, t) && t.Node? && CarAgain(t) && Cut(t, {})
  {
    g := map[NIL := Atom("NIL"), 2 := Atom("a"), 3 := Pair(2, NIL), 4 := Pair(3, 3)];
    var shared := Node(3, Leaf(2, "a"), Leaf(NIL, "NIL"));
    e, t := 4, Node(4, shared, shared);
    assert Unfolds(g, 3, shared);
    ReportedIff(g, e, t);
  }

  lemma Fewer(g: Graph, seen: set<Ref>, seen': set<Ref>, r: Ref)
    requires seen <= seen' && r in Pairs(g) && r !in seen'
    ensures |Pairs(g) - (seen' + {r})| < |Pairs(g) - seen|
  {
    var rest := Pairs(g) - seen;
    assert Pairs(g) - (seen' + {r}) <= rest - {r};
    Smaller(Pairs(g) - (seen' + {r}), rest - {r});
  }

  lemma {:induction false} Smaller(a: set<Ref>, b: set<Ref>)
    requires a <= b
    ensures |a| <= |b|
  {
    if a != {} {
      var x :| x in a;
      Smaller(a - {x}, b - {x});
    }
  }

  const CYCLE := "!CYCLE DETECTED!"

  // The text from `from` on reports a cycle.
  ghost predicate Reports(from: string, b: string) {
    exists x, y :: b == from + x + CYCLE + y
  }

  lemma Reported(from: string)
    ensures Reports(from, from + CYCLE)
  {
    assert from + CYCLE == from + "" + CYCLE + "";
  }

  lemma ReportedWithin(from: string, mid: string, x: string, b: string, z: string)
    requires Reports(mid, b) && mid == from + x
    ensures Reports(from, b + z)
  {
    var u, y :| b == mid + u + CYCLE + y;
    assert b + z == from + (x + u) + CYCLE + (y + z);
  }

  class Printer {
    const g: Graph
    var buffer: string           // the buffer
    var addresses: set<Ref>      // the addresses in the trie

    constructor (g: Graph)
      ensures this.g == g && buffer == "" && addresses == {}
    {
      this.g := g;
      buffer := "";
      addresses := {};
    }

    method Append(s: string)
      modifies this`buffer
      ensures buffer == old(buffer) + s
    {
      buffer := buffer + s;
    }

    // yltrie_insert of an address: 1 when it was there already
    method Insert(r: Ref) returns (v: int)
      modifies this`addresses
      ensures addresses == old(addresses) + {r} && (v == 1 <==> r in old(addresses))
    {
      v := if r in addresses then 1 else 0;
      addresses := addresses + {r};
    }

    // yltrie_delete of an address, unless it is NULL
    method Delete(r: Ref)
      requires NULL !in addresses
      modifies this`addresses
      ensures addresses == old(addresses) - {r}
    {
      if r != NULL {
        addresses := addresses - {r};
      }
    }

    // A pair has come into the map, or nothing has.
    ghost predicate Added(m0: set<Ref>, m1: set<Ref>, r: Ref) {
      if IsPair(r) then r !in m0 && m1 == m0 + {r} else m1 == m0
    }

    // At the upper node, the car and the cdr of this one do not count.
    method Leave(car: Ref, cdr: Ref, ghost m0: set<Ref>, ghost m1: set<Ref>)
      requires Closed(g) && m0 <= Pairs(g) && Added(m0, m1, car) && Added(m1, addresses, cdr)
      modifies this`addresses
      ensures addresses == m0
    {
      assert forall r :: r in addresses ==> IsPair(r);
      Delete(car);
      Delete(cdr);
    }

    ghost predicate IsPair(r: Ref) {
      r in g && g[r].Pair?
    }

    // _eprint. A cycle is reported exactly when the unfolding is cut, and always when
    // there is no finite one; if none is, the text is that of the unfolding. Either way
    // the map is as before.
    method PrintElement(e: Ref) returns (ghost t: Tree, ghost cut: bool)
      requires Closed(g) && e in g && addresses <= Pairs(g)
      modifies this
      ensures addresses == old(addresses)
      ensures !cut ==> Unfolds(g, e, t)
      ensures forall u :: Unfolds(g, e, u) ==>
                (cut <==> u.Node? && Cut(u, old(addresses))) &&
                buffer == old(buffer) + if u.Node? then Shown(u, old(addresses)) else CarText(u)
      ensures old(buffer) <= buffer && (cut ==> Reports(old(buffer), buffer))
      decreases |Pairs(g) - addresses|, 1
    {
      hide Cut, CarText, CarShown, CdrShown, Shown, Unfolds, Pairs, Printer.IsPair, Printer.Added;
      hide HalfCut, WithCar, Reports;
      RootOf(e);
      if g[e].Atom? {
        Append(g[e].text);
        LeafText(e);
        return Leaf(e, g[e].text), false;
      }
      PairHere(e);
      ghost var m0, b0 := addresses, buffer;
      var car, lt, lcut := PrintCar(e);
      AfterCar(e, m0, addresses, car);
      ghost var m1, b1 := addresses, buffer;
      var cdr, rt, rcut := PrintCdr(e, m0);
      Leave(car, cdr, m0, m1);
      EitherReports(b0, b1, buffer, lcut, rcut);
      t, cut := Node(e, lt, rt), lcut || rcut;
      if !cut { NodeUnfolds(e, lt, rt); }
      forall u | Unfolds(g, e, u)
        ensures u.Node? && (cut <==> Cut(u, m0)) && buffer == b0 + Shown(u, m0)
      {
        NodeParts(e, u, m0);
        Joined(b0, b1, buffer, CarShown(u.l, m0), CdrShown(u.r, m1));
      }
    }

    lemma RootOf(e: Ref)
      requires e in g && NULL !in g
      ensures forall u :: Unfolds(g, e, u) ==> (u.Node? <==> g[e].Pair?)
    {}

    lemma NodeParts(e: Ref, u: Tree, seen: set<Ref>)
      requires NULL !in g && e in g && g[e].Pair? && Unfolds(g, e, u)
      ensures u.Node? && Unfolds(g, g[e].car, u.l) && Unfolds(g, g[e].cdr, u.r)
      ensures WithCar(u.l, seen) == if IsPair(g[e].car) then seen + {g[e].car} else seen
      ensures Cut(u, seen) <==> HalfCut(u.l, seen) || HalfCut(u.r, WithCar(u.l, seen))
      ensures Shown(u, seen) == CarShown(u.l, seen) + CdrShown(u.r, WithCar(u.l, seen))
    {
      assert Unfolds(g, g[e].car, u.l);
      assert u.l.Node? ==> u.l.at == g[e].car && g[g[e].car].Pair?;
      assert u.l.Null? ==> g[e].car == NULL;
      assert u.l.Leaf? ==> g[e].car in g && g[g[e].car].Atom?;
    }

    lemma LeafText(e: Ref)
      requires NULL !in g && e in g && g[e].Atom?
      ensures Unfolds(g, e, Leaf(e, g[e].text))
      ensures forall u :: Unfolds(g, e, u) ==> CarText(u) == g[e].text
    {}

    lemma NodeUnfolds(e: Ref, l: Tree, r: Tree)
      requires e in g && g[e].Pair? && Unfolds(g, g[e].car, l) && Unfolds(g, g[e].cdr, r)
      ensures Unfolds(g, e, Node(e, l, r))
    {}

    lemma PairHere(e: Ref)
      requires e in g && g[e].Pair?
      ensures IsPair(e)
    {}

    lemma AfterCar(e: Ref, m0: set<Ref>, m1: set<Ref>, car: Ref)
      requires Closed(g) && IsPair(e) && m0 <= Pairs(g) && (car == NULL || car == g[e].car)
      requires Added(m0, m1, car) && m1 == if IsPair(g[e].car) then m0 + {g[e].car} else m0
      ensures m0 <= m1 <= Pairs(g)
    {}

    lemma Joined(b0: string, b1: string, b2: string, x: string, y: string)
      requires b1 == b0 + x && b2 == b1 + y
      ensures b2 == b0 + (x + y)
    {}

    lemma EitherReports(b0: string, b1: string, b2: string, lcut: bool, rcut: bool)
      requires b0 <= b1 <= b2 && (lcut ==> Reports(b0, b1)) && (rcut ==> Reports(b1, b2))
      ensures b0 <= b2 && (lcut || rcut ==> Reports(b0, b2))
    {
      hide Reports;
      if rcut {
        ReportedWithin(b0, b1, b1[|b0|..], b2, "");
        assert b2 + "" == b2;
      } else if lcut {
        assert b0 == b0 + "" && b2 == b1 + b2[|b1|..];
        ReportedWithin(b0, b0, "", b1, b2[|b1|..]);
      }
    }

    // What one half has done, short of its text.
    twostate predicate HalfDone(new e: Ref, new kept: Ref, new cut: bool)
      reads this
    {
      && (kept == NULL || kept == e) && Added(old(addresses), addresses, kept)
      && addresses == (if IsPair(e) then old(addresses) + {e} else old(addresses))
      && old(buffer) <= buffer && (cut ==> Reports(old(buffer), buffer))
      && forall u :: Unfolds(g, e, u) ==> (cut <==> HalfCut(u, old(addresses)))
    }

    // The first half: what the car is printed as. A car that is a pair stays in the map.
    method PrintCar(e: Ref) returns (car: Ref, ghost lt: Tree, ghost lcut: bool)
      requires Closed(g) && IsPair(e) && addresses <= Pairs(g)
      modifies this
      ensures HalfDone(g[e].car, car, lcut) && (!lcut ==> Unfolds(g, g[e].car, lt))
      ensures forall u :: Unfolds(g, g[e].car, u) ==> buffer == old(buffer) + CarShown(u, old(addresses))
      decreases |Pairs(g) - addresses|, 0
    {
      hide Shown, Cut, Reports;
      car, lt, lcut := g[e].car, Null, false;
      ghost var m0, b0 := addresses, buffer;
      if car == NULL {
        Append("NULL ");
      } else if g[car].Atom? {
        Append(g[car].text);
        lt := Leaf(car, g[car].text);
      } else {
        RootOf(car);
        var v := Insert(car);
        if v == 1 {
          Append(CYCLE);
          Reported(b0);
          car, lcut := NULL, true;
        } else {
          Fewer(g, m0, m0, car);
          Append("(");
          ghost var b1 := buffer;
          lt, lcut := PrintElement(car);
          if lcut { ReportedWithin(b0, b1, "(", buffer, ")"); }
          Append(")");
          forall u | Unfolds(g, car, u) ensures buffer == b0 + CarShown(u, m0) {
            CarAround(g, car, u, m0, b0, buffer);
          }
        }
      }
    }

    // The second half: what the cdr is printed as.
    method PrintCdr(e: Ref, ghost m0: set<Ref>) returns (cdr: Ref, ghost rt: Tree, ghost rcut: bool)
      requires Closed(g) && IsPair(e) && m0 <= addresses <= Pairs(g)
      modifies this
      ensures HalfDone(g[e].cdr, cdr, rcut) && (!rcut ==> Unfolds(g, g[e].cdr, rt))
      ensures forall u :: Unfolds(g, g[e].cdr, u) ==> buffer == old(buffer) + CdrShown(u, old(addresses))
      decreases |Pairs(g) - m0|, 0
    {
      hide Shown, Cut, Reports;
      cdr, rt, rcut := g[e].cdr, Null, false;
      ghost var m1, b0 := addresses, buffer;
      if cdr == NULL {
        Append("NULL");
      } else if g[cdr].Atom? {
        if cdr != NIL {
          Append(".");
          Append(g[cdr].text);
          assert buffer == b0 + ("." + g[cdr].text);
        }
        rt := Leaf(cdr, g[cdr].text);
      } else {
        RootOf(cdr);
        var v := Insert(cdr);
        if v == 1 {
          Append(CYCLE);
          Reported(b0);
          cdr, rcut := NULL, true;
        } else {
          Fewer(g, m0, m1, cdr);
          Append(" ");
          ghost var b1 := buffer;
          rt, rcut := PrintElement(cdr);
          if rcut { ReportedWithin(b0, b1, " ", buffer, ""); assert buffer + "" == buffer; }
          forall u | Unfolds(g, cdr, u) ensures buffer == b0 + CdrShown(u, m1) {
            CdrAround(g, cdr, u, m1, b0, buffer);
          }
        }
      }
    }

    lemma AtomReported(e: Ref)
      requires NULL !in g && e in g && g[e].Atom?
      ensures forall u :: Unfolds(g, e, u) ==> u == Leaf(e, g[e].text) && !CarAgain(u) && CarText(u) == g[e].text
    {}

    // _echain_print and ylechain_print, with a fresh map: any graph is printed, cyclic or
    // not; one without sharing is printed exactly, and no cycle goes unreported.
    method PrintChain(e: Ref) returns (ghost t: Tree, ghost cut: bool)
      requires Closed(g) && e in g
      modifies this
      ensures addresses == {}
      ensures !cut ==> Unfolds(g, e, t) && buffer == CarText(t)
      ensures cut ==> Reports("", buffer)
      ensures forall u :: Unfolds(g, e, u) ==>
                (cut <==> CarAgain(u)) &&
                buffer == if u.Node? then "(" + Shown(u, {}) + ")" else CarText(u)
      ensures forall u :: Unfolds(g, e, u) && Unshared(u) ==> !cut
    {
      hide Within, Cut, Unshared, Reports, CarAgain, Shown;
      buffer, addresses := "", {};
      RootOf(e);
      if g[e].Atom? {
        Append(g[e].text);
        AtomReported(e);
        return Leaf(e, g[e].text), false;
      }
      Append("(");
      ghost var b1 := buffer;
      t, cut := PrintElement(e);
      if cut { ReportedWithin("", b1, "(", buffer, ")"); }
      Append(")");
      if !cut { UncutShown(t, {}); }
      forall u | Unfolds(g, e, u) ensures cut <==> CarAgain(u) { ReportedIff(g, e, u); }
      forall u | Unfolds(g, e, u) && Unshared(u) ensures !cut { UnsharedNotCut(u, {}); }
    }
  }

  // ---------------------------------------------------------------- print and read

  // The expression an unfolding is, when its atoms are nil and symbols.
  ghost predicate Pictures(t: Tree, x: Sexp) {
    match t
    case Null => false
    case Leaf(r, text) => if r == NIL then x == Nil && text == "NIL" else x == Sym(text)
    case Node(_, l, r) => x.Cons? && Pictures(l, x.car) && Pictures(r, x.cdr)
  }

  lemma {:induction false} PictureText(t: Tree, x: Sexp)
    requires Pictures(t, x)
    ensures CarText(t) == Text(x)
    ensures t.Node? ==> Within(t) == Inner(x)
  {
    if t.Node? {
      PictureText(t.l, x.car);
      PictureText(t.r, x.cdr);
      assert CdrText(t.r) == if x.cdr.Cons? then " " + Inner(x.cdr) else if x.cdr.Sym? then "." + x.cdr.name else "";
    }
  }

  // What is printed reads back as the expression it was printed from exactly when that is
  // readable: clean symbols in proper, non-empty lists.
  lemma PrintedReadsBack(t: Tree, x: Sexp)
    requires Pictures(t, x)
    ensures Read(CarText(t)) == ([x], Done) <==> Readable(x)
  {
    PictureText(t, x);
    Legibility.ReadsBackIff(x);
  }
}
