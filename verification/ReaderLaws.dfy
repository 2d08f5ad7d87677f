// What texts read as: a way to write down any program, with blanks, comments, strings and
// escapes, and what the reader makes of it.
module ReaderLaws {
  import opened Grammar
  import opened PrintedText

  // ---------------------------------------------------------------- writing

  datatype Filler = Blank(c: char) | Remark(text: string)

  // A symbol as it stands or in double quotes, a list, or a quote mark with everything
  // that adheres to it.
  datatype Item =
    | Bare(name: string)
    | InQuotes(name: string)
    | Brackets(lead: seq<Filler>, items: seq<Spaced>)
    | Marked(parts: seq<Item>)

  datatype Spaced = Spaced(item: Item, gap: seq<Filler>)

  // A double quote, a backslash and a line feed are written as two characters each.
  function Escape(name: string): string {
    if name == "" then "" else Coded(name[0]) + Escape(name[1..])
  }

  function Coded(c: char): string {
    if c == '"' then ['\\', '"']
    else if c == '\\' then ['\\', '\\']
    else if c == '\n' then ['\\', 'n']
    else [c]
  }

  function Gap(fs: seq<Filler>): string {
    if fs == [] then ""
    else (match fs[0] case Blank(c) => [c] case Remark(text) => ";" + text + "\n") + Gap(fs[1..])
  }

  function Write(x: Item): string
    decreases x
  {
    match x
    case Bare(name) => Escape(name)
    case InQuotes(name) => "\"" + Escape(name) + "\""
    case Brackets(lead, items) => "(" + (Gap(lead) + (Spread(items) + ")"))
    case Marked(parts) => "'" + Adjacent(parts)
  }

  function Spread(items: seq<Spaced>): string
    decreases items
  {
    if items == [] then "" else Write(items[0].item) + (Gap(items[0].gap) + Spread(items[1..]))
  }

  function Adjacent(parts: seq<Item>): string
    decreases parts
  {
    if parts == [] then "" else Write(parts[0]) + Adjacent(parts[1..])
  }

  // ---------------------------------------------------------------- meaning

  function Value(x: Item): Sexp
    decreases x
  {
    match x
    case Bare(name) => Sym(name)
    case InQuotes(name) => Sym(name)
    case Brackets(_, items) => ListValue(items)
    case Marked(parts) => Cons(Sym("quote"), PartsValue(parts))
  }

  function ListValue(items: seq<Spaced>): Sexp
    decreases items
  {
    if items == [] then Nil else Cons(Value(items[0].item), ListValue(items[1..]))
  }

  function PartsValue(parts: seq<Item>): Sexp
    decreases parts
  {
    if parts == [] then Nil else Cons(Value(parts[0]), PartsValue(parts[1..]))
  }

  function Values(items: seq<Spaced>): seq<Sexp> {
    if items == [] then [] else [Value(items[0].item)] + Values(items[1..])
  }

  function PartValues(parts: seq<Item>): seq<Sexp> {
    if parts == [] then [] else [Value(parts[0])] + PartValues(parts[1..])
  }

  lemma {:induction false} ListIsValues(items: seq<Spaced>)
    ensures ListOf(Values(items)) == ListValue(items)
  {
    if items != [] { ListIsValues(items[1..]); }
  }

  lemma {:induction false} PartsAreValues(parts: seq<Item>)
    ensures ListOf(PartValues(parts)) == PartsValue(parts)
  {
    if parts != [] { PartsAreValues(parts[1..]); }
  }

  // ---------------------------------------------------------------- what can be written

  // The item ends where this text begins.
  predicate EndsAt(x: Item, next: string) {
    match x
    case Bare(_) => next != "" && next[0] in "\"'();\r\n\t "
    case InQuotes(_) => true
    case Brackets(_, _) => true
    case Marked(_) => next != "" && next[0] in ");\r\n\t "
  }

  predicate Fillers(fs: seq<Filler>) {
    forall f :: f in fs ==>
      match f
      case Blank(c) => c in "\r\n\t "
      case Remark(text) => '\n' !in text && '\0' !in text
  }

  predicate Legal(x: Item)
    decreases x, 1
  {
    match x
    case Bare(name) => 0 < |name| <= 4095 && forall c :: c in name ==> c !in "'();\r\t \0"
    case InQuotes(name) => |name| <= 4095 && '\0' !in name
    case Brackets(lead, items) => Fillers(lead) && AllLegal(items, ")")
    case Marked(parts) => PartsLegal(parts)
  }

  // Every item ends before the next one starts, and the last one where `next` begins.
  predicate AllLegal(items: seq<Spaced>, next: string)
    decreases items, 0
  {
    items == [] ||
    (Legal(items[0].item) && Fillers(items[0].gap) && AllLegal(items[1..], next) &&
     EndsAt(items[0].item, Gap(items[0].gap) + (Spread(items[1..]) + next)))
  }

  predicate PartsLegal(parts: seq<Item>)
    decreases parts, 0
  {
    parts == [] ||
    (Legal(parts[0]) && PartsLegal(parts[1..]) && EndsAt(parts[0], Adjacent(parts[1..]) + " "))
  }

  // ---------------------------------------------------------------- symbols and strings

  predicate SameStart(s: string, t: string) {
    s != "" && t != "" && s[0] == t[0]
  }

  lemma EndsSame(x: Item, s: string, t: string)
    requires EndsAt(x, s) && (s != "" ==> SameStart(s, t))
    ensures EndsAt(x, t)
  {}

  lemma SymbolTakes(c: char, tail: string, acc: string)
    requires c !in "'();\r\t \0" && |acc| < 4095
    ensures SymbolTail(Coded(c) + tail, acc) == SymbolTail(tail, acc + [c])
  {
    var s := Coded(c) + tail;
    if c == '"' || c == '\\' || c == '\n' {
      assert s[0] == '\\' && s[1..][1..] == tail;
    } else {
      assert s[0] == c && s[1..] == tail;
    }
  }

  lemma {:induction false} SymbolReads(name: string, acc: string, rest: string)
    requires forall c :: c in name ==> c !in "'();\r\t \0"
    requires |acc| + |name| <= 4095 && EndsAt(Bare(name), rest)
    ensures SymbolTail(Escape(name) + rest, acc) == Got(acc + name, rest)
    decreases |name|
  {
    hide Coded;
    if name == "" {
      assert Escape(name) + rest == rest && acc + name == acc;
    } else {
      hide SymbolTail;
      var c := name[0];
      assert c in name && forall d :: d in name[1..] ==> d in name;
      SymbolReads(name[1..], acc + [c], rest);
      assert acc + [c] + name[1..] == acc + name;
      assert Escape(name) + rest == Coded(c) + (Escape(name[1..]) + rest);
      SymbolTakes(c, Escape(name[1..]) + rest, acc);
    }
  }

  lemma StringTakes(c: char, tail: string, acc: string)
    requires |acc| <= 4095
    ensures StringTail(Coded(c) + tail, acc) == if |acc| < 4095 then StringTail(tail, acc + [c]) else Bad(TooLong)
  {
    var s := Coded(c) + tail;
    if c == '"' || c == '\\' || c == '\n' {
      assert s[0] == '\\' && s[1..][1..] == tail;
    } else {
      assert s[0] == c && s[1..] == tail;
    }
  }

  // Every byte that is written counts; the 4096th is one too many.
  lemma {:induction false} StringReads(name: string, acc: string, rest: string)
    requires |acc| <= 4095
    ensures StringTail(Escape(name) + ("\"" + rest), acc) ==
            if |acc| + |name| <= 4095 then Got(acc + name, rest) else Bad(TooLong)
    decreases |name|
  {
    hide Coded;
    var s := Escape(name) + ("\"" + rest);
    if name == "" {
      assert s == "\"" + rest && s[1..] == rest && acc + name == acc;
    } else {
      hide StringTail;
      var tail := Escape(name[1..]) + ("\"" + rest);
      assert s == Coded(name[0]) + tail;
      StringTakes(name[0], tail, acc);
      if |acc| < 4095 {
        StringReads(name[1..], acc + [name[0]], rest);
        assert acc + [name[0]] + name[1..] == acc + name;
      }
    }
  }

  // ---------------------------------------------------------------- blanks and comments

  lemma {:induction false} RemarkReads(text: string, rest: string)
    requires '\n' !in text
    ensures AfterComment(text + "\n" + rest) == Got((), rest)
  {
    var s := text + "\n" + rest;
    if text == "" {
      assert s == "\n" + rest && s[1..] == rest;
    } else {
      assert s[0] == text[0] && s[1..] == text[1..] + "\n" + rest;
      RemarkReads(text[1..], rest);
    }
  }

  lemma GapSplits(fs: seq<Filler>, rest: string)
    requires fs != []
    ensures match fs[0]
            case Blank(c) => Gap(fs) + rest == [c] + (Gap(fs[1..]) + rest)
            case Remark(text) => Gap(fs) + rest == ";" + (text + "\n" + (Gap(fs[1..]) + rest))
  {
    match fs[0]
    case Blank(c) => assert [c] + Gap(fs[1..]) + rest == [c] + (Gap(fs[1..]) + rest);
    case Remark(text) =>
      assert ";" + text + "\n" + Gap(fs[1..]) + rest == ";" + (text + "\n" + (Gap(fs[1..]) + rest));
  }

  lemma {:induction false} GapReads(fs: seq<Filler>, rest: string, acc: seq<Sexp>)
    requires Fillers(fs)
    ensures ListTail(Gap(fs) + rest, acc) == ListTail(rest, acc)
    ensures Program(Gap(fs) + rest, acc) == Program(rest, acc)
    decreases |fs|
  {
    hide Element, QuoteTail;
    if fs == [] {
      assert Gap(fs) + rest == rest;
    } else {
      var s, tail := Gap(fs) + rest, Gap(fs[1..]) + rest;
      assert fs[0] in fs && forall f :: f in fs[1..] ==> f in fs;
      GapSplits(fs, rest);
      GapReads(fs[1..], rest, acc);
      match fs[0]
      case Blank(c) => assert s[0] == c && s[1..] == tail;
      case Remark(text) =>
        assert s[0] == ';' && s[1..] == text + "\n" + tail;
        RemarkReads(text, tail);
    }
  }

  // ---------------------------------------------------------------- items

  lemma ElementOf(s: string)
    requires StartsElement(s)
    ensures s[0] == '"' ==> Element(s) == Named(StringTail(s[1..], ""))
    ensures s[0] == '\'' ==> Element(s) == QuoteTail(s[1..], [])
    ensures s[0] == '(' ==> Element(s) == ListTail(s[1..], [])
    ensures s[0] !in "\"'(" ==> Element(s) == Named(SymbolTail(s, ""))
  {
    hide ListTail, QuoteTail, StringTail, SymbolTail;
  }

  lemma BareReads(name: string, rest: string)
    requires Legal(Bare(name)) && EndsAt(Bare(name), rest)
    ensures StartsElement(Escape(name) + rest) && Element(Escape(name) + rest) == Got(Sym(name), rest)
  {
    hide Element, SymbolTail;
    assert name[0] in name;
    SymbolReads(name, "", rest);
    ElementOf(Escape(name) + rest);
    assert "" + name == name;
  }

  lemma QuotesRead(name: string, rest: string)
    ensures var s := "\"" + (Escape(name) + ("\"" + rest));
            StartsElement(s) &&
            Element(s) == if |name| <= 4095 then Got(Sym(name), rest) else Bad(TooLong)
  {
    hide Element, StringTail, Escape;
    var s := "\"" + (Escape(name) + ("\"" + rest));
    assert s[0] == '"' && s[1..] == Escape(name) + ("\"" + rest);
    StringReads(name, "", rest);
    ElementOf(s);
    assert "" + name == name;
  }

  // An item is read as its value, and what follows it is left.
  lemma {:induction false} ItemReads(x: Item, rest: string)
    requires Legal(x) && EndsAt(x, rest)
    ensures StartsElement(Write(x) + rest) && Element(Write(x) + rest) == Got(Value(x), rest)
    decreases x, 1
  {
    hide Element, ListTail, QuoteTail, Spread, Adjacent, Gap, AllLegal, PartsLegal, ListOf, Escape;
    var s := Write(x) + rest;
    match x
    case Bare(name) => BareReads(name, rest);
    case InQuotes(name) =>
      QuotesRead(name, rest);
      assert s == "\"" + (Escape(name) + ("\"" + rest));
    case Brackets(lead, items) =>
      assert s[0] == '(' && s[1..] == Gap(lead) + (Spread(items) + (")" + rest));
      ElementOf(s);
      GapReads(lead, Spread(items) + (")" + rest), []);
      LegalNext(items, ")", ")" + rest);
      ListReads(items, rest, []);
      assert [] + Values(items) == Values(items);
      ListIsValues(items);
    case Marked(parts) =>
      assert s[0] == '\'' && s[1..] == Adjacent(parts) + rest;
      ElementOf(s);
      PartsRead(parts, rest, []);
      assert [] + PartValues(parts) == PartValues(parts);
      PartsAreValues(parts);
  }

  lemma {:induction false} LegalNext(items: seq<Spaced>, s: string, t: string)
    requires AllLegal(items, s) && SameStart(s, t)
    ensures AllLegal(items, t)
    decreases items
  {
    hide EndsAt, Legal;
    if items != [] {
      LegalNext(items[1..], s, t);
      var g, more := Gap(items[0].gap), Spread(items[1..]);
      assert SameStart(g + (more + s), g + (more + t));
      EndsSame(items[0].item, g + (more + s), g + (more + t));
    }
  }

  lemma {:induction false} ListReads(items: seq<Spaced>, rest: string, acc: seq<Sexp>)
    requires AllLegal(items, ")" + rest)
    ensures ListTail(Spread(items) + (")" + rest), acc) == Got(ListOf(acc + Values(items)), rest)
    decreases items, 0
  {
    hide ListTail, Element, Legal, EndsAt, Value, ListOf, Gap, Write;
    var end := ")" + rest;
    if items == [] {
      assert Spread(items) + end == end && acc + Values(items) == acc;
      ListEnds(rest, acc);
    } else {
      var x, g, more := items[0].item, Gap(items[0].gap), Spread(items[1..]);
      assert Spread(items) + end == Write(x) + (g + (more + end));
      ItemReads(x, g + (more + end));
      ListTakes(Write(x) + (g + (more + end)), acc, Value(x), g + (more + end));
      GapReads(items[0].gap, more + end, acc + [Value(x)]);
      ListReads(items[1..], rest, acc + [Value(x)]);
      assert acc + [Value(x)] + Values(items[1..]) == acc + Values(items);
    }
  }

  lemma {:induction false} PartsRead(parts: seq<Item>, rest: string, acc: seq<Sexp>)
    requires PartsLegal(parts) && EndsAt(Marked(parts), rest)
    ensures QuoteTail(Adjacent(parts) + rest, acc) ==
            Got(Cons(Sym("quote"), ListOf(acc + PartValues(parts))), rest)
    decreases parts, 0
  {
    hide Element, Legal, Value, ListOf, Write, QuoteTail, StartsElement;
    if parts == [] {
      assert Adjacent(parts) + rest == rest && acc + PartValues(parts) == acc;
      QuoteEnds(rest, acc);
    } else {
      var x, more := parts[0], Adjacent(parts[1..]);
      var s := Adjacent(parts) + rest;
      assert s == Write(x) + (more + rest);
      PartEnds(x, more, rest);
      ItemReads(x, more + rest);
      QuoteTakes(s, acc, Value(x), more + rest);
      PartsRead(parts[1..], rest, acc + [Value(x)]);
      assert acc + [Value(x)] + PartValues(parts[1..]) == acc + PartValues(parts);
    }
  }

  lemma QuoteTakes(s: string, acc: seq<Sexp>, v: Sexp, rest: string)
    requires StartsElement(s) && Element(s) == Got(v, rest)
    ensures QuoteTail(s, acc) == QuoteTail(rest, acc + [v])
  {}

  lemma QuoteEnds(rest: string, acc: seq<Sexp>)
    requires EndsAt(Marked([]), rest)
    ensures QuoteTail(rest, acc) == Got(Cons(Sym("quote"), ListOf(acc)), rest)
  {}

  lemma PartEnds(x: Item, more: string, rest: string)
    requires EndsAt(x, more + " ") && EndsAt(Marked([]), rest)
    ensures EndsAt(x, more + rest)
  {
    if more == "" { assert more + rest == rest; } else { assert (more + rest)[0] == (more + " ")[0]; }
  }

  // ---------------------------------------------------------------- programs

  lemma ProgramTakes(s: string, acc: seq<Sexp>, p: Parse<Sexp>)
    requires StartsElement(s) && Element(s) == p
    ensures Program(s, acc) == if p.Got? then Program(p.rest, acc + [p.value]) else (acc, p.why)
  {
    hide Element;
  }

  lemma ProgramEnds(acc: seq<Sexp>)
    ensures Program("\n", acc) == (acc, Done)
  {}

  lemma {:induction false} ProgramReads(items: seq<Spaced>, next: string, acc: seq<Sexp>)
    requires AllLegal(items, next)
    ensures Program(Spread(items) + next, acc) == Program(next, acc + Values(items))
    decreases |items|
  {
    hide Element, Program, Legal, EndsAt, Value, Gap, Write;
    if items == [] {
      assert Spread(items) + next == next && acc + Values(items) == acc;
    } else {
      var x, g, more := items[0].item, Gap(items[0].gap), Spread(items[1..]);
      var s := Spread(items) + next;
      assert s == Write(x) + (g + (more + next));
      ItemReads(x, g + (more + next));
      ProgramTakes(s, acc, Element(s));
      GapReads(items[0].gap, more + next, acc + [Value(x)]);
      ProgramReads(items[1..], next, acc + [Value(x)]);
      assert acc + [Value(x)] + Values(items[1..]) == acc + Values(items);
    }
  }

  lemma {:induction false} EscapeNoNul(name: string)
    requires '\0' !in name
    ensures '\0' !in Escape(name)
  {
    if name != "" { EscapeNoNul(name[1..]); }
  }

  lemma {:induction false} GapNoNul(fs: seq<Filler>)
    requires Fillers(fs)
    ensures '\0' !in Gap(fs)
  {
    if fs != [] {
      assert fs[0] in fs && forall f :: f in fs[1..] ==> f in fs;
      GapNoNul(fs[1..]);
    }
  }

  lemma {:induction false} ItemNoNul(x: Item)
    requires Legal(x)
    ensures '\0' !in Write(x)
    decreases x, 1
  {
    match x
    case Bare(name) => EscapeNoNul(name);
    case InQuotes(name) => EscapeNoNul(name);
    case Brackets(lead, items) =>
      GapNoNul(lead);
      ListNoNul(items, ")");
    case Marked(parts) => PartsNoNul(parts);
  }

  lemma {:induction false} ListNoNul(items: seq<Spaced>, next: string)
    requires AllLegal(items, next)
    ensures '\0' !in Spread(items)
    decreases items, 0
  {
    hide EndsAt, Write, Legal, Fillers;
    if items != [] {
      ItemNoNul(items[0].item);
      GapNoNul(items[0].gap);
      ListNoNul(items[1..], next);
    }
  }

  lemma {:induction false} PartsNoNul(parts: seq<Item>)
    requires PartsLegal(parts)
    ensures '\0' !in Adjacent(parts)
    decreases parts, 0
  {
    hide EndsAt, Write, Legal;
    if parts != [] {
      ItemNoNul(parts[0]);
      PartsNoNul(parts[1..]);
    }
  }

  // A text that starts with items: their values, and then what the rest reads as.
  lemma ReadFrom(lead: seq<Filler>, items: seq<Spaced>, s: string)
    requires Fillers(lead) && AllLegal(items, s + "\n") && '\0' !in s
    ensures Read(Gap(lead) + (Spread(items) + s)) == Program(s + "\n", Values(items))
  {
    hide AllLegal, Spread, Values, Program, Fillers, Gap, Effective;
    var text := Gap(lead) + (Spread(items) + s);
    GapNoNul(lead);
    ListNoNul(items, s + "\n");
    NoNul(text);
    assert text + "\n" == Gap(lead) + (Spread(items) + (s + "\n"));
    GapReads(lead, Spread(items) + (s + "\n"), []);
    ProgramReads(items, s + "\n", []);
    assert [] + Values(items) == Values(items);
    if text == "" {
      assert text + "\n" == "\n";
      ProgramEnds([]);
    }
  }

  // A whole text: the values of its items, and nothing else.
  lemma WrittenReads(lead: seq<Filler>, items: seq<Spaced>)
    requires Fillers(lead) && AllLegal(items, "\n")
    ensures Read(Gap(lead) + Spread(items)) == (Values(items), Done)
  {
    hide AllLegal, Values, Read;
    assert "" + "\n" == "\n" && Spread(items) + "" == Spread(items);
    ReadFrom(lead, items, "");
    ProgramEnds(Values(items));
  }

  // Any name in double quotes.
  lemma StringLaw(name: string)
    requires '\0' !in name
    ensures Read("\"" + Escape(name) + "\"") == if |name| <= 4095 then ([Sym(name)], Done) else ([], TooLong)
  {
    hide Escape, Read, Program, Element;
    EscapeNoNul(name);
    var s := "\"" + Escape(name) + "\"";
    ReadFrom([], [], s);
    assert Gap([]) + (Spread([]) + s) == s;
    QuotesRead(name, "\n");
    assert s + "\n" == "\"" + (Escape(name) + ("\"" + "\n"));
    ProgramTakes(s + "\n", [], Element(s + "\n"));
    assert [] + [Sym(name)] == [Sym(name)];
    ProgramEnds([Sym(name)]);
  }

  lemma MarkedIs(x: Item)
    requires PartsLegal([x])
    ensures var m := Marked([x]);
            Legal(m) && Write(m) == "'" + Adjacent([x]) && Value(m) == Cons(Sym("quote"), PartsValue([x]))
  {
    hide PartsLegal, Adjacent, PartsValue;
  }

  // A quote mark in front of an item.
  lemma MarkLaw(x: Item)
    requires Legal(x)
    ensures Read("'" + Write(x)) == ([Cons(Sym("quote"), Cons(Value(x), Nil))], Done)
  {
    hide Write, Value, Legal, Read;
    var m := Marked([x]);
    var items := [Spaced(m, [])];
    assert [x][1..] == [] && items[1..] == [];
    assert Adjacent([]) + " " == " " && Gap([]) + (Spread([]) + "\n") == "\n";
    assert PartsLegal([x]);
    MarkedIs(x);
    assert Adjacent([x]) == Write(x);
    assert Spread(items) == Write(m) && Gap([]) + Spread(items) == Write(m);
    assert PartsValue([x]) == Cons(Value(x), PartsValue([x][1..])) == Cons(Value(x), Nil);
    assert Values(items) == [Value(m)];
    assert AllLegal(items, "\n");
    WrittenReads([], items);
  }

  // ---------------------------------------------------------------- errors

  // A bracket that closes nothing
  lemma UnmatchedLaw(lead: seq<Filler>, items: seq<Spaced>, t: string)
    requires Fillers(lead) && AllLegal(items, ")" + t + "\n") && '\0' !in t
    ensures Read(Gap(lead) + (Spread(items) + (")" + t))) == (Values(items), SyntaxParenthesis)
  {
    hide AllLegal, Values, Read, Spread;
    ReadFrom(lead, items, ")" + t);
  }

  // A list that is not closed
  lemma UnclosedLaw(lead: seq<Filler>, items: seq<Spaced>, inner: seq<Filler>, more: seq<Spaced>)
    requires Fillers(lead) && Fillers(inner) && AllLegal(more, "\n")
    requires AllLegal(items, "(" + (Gap(inner) + Spread(more)) + "\n")
    ensures Read(Gap(lead) + (Spread(items) + ("(" + (Gap(inner) + Spread(more))))) == (Values(items), SyntaxUnknown)
  {
    hide AllLegal, Values, Read, Spread, Gap, Fillers;
    var s := "(" + (Gap(inner) + Spread(more));
    GapNoNul(inner);
    ListNoNul(more, "\n");
    ReadFrom(lead, items, s);
    assert (s + "\n")[1..] == Gap(inner) + (Spread(more) + "\n");
    GapReads(inner, Spread(more) + "\n", []);
    ListGoesOn(more, "\n", []);
    assert ListTail("\n", [] + Values(more)) == ListTail("", [] + Values(more)) == Bad(SyntaxUnknown);
  }

  lemma {:induction false} ListGoesOn(items: seq<Spaced>, next: string, acc: seq<Sexp>)
    requires AllLegal(items, next)
    ensures ListTail(Spread(items) + next, acc) == ListTail(next, acc + Values(items))
    decreases |items|
  {
    hide ListTail, Element, Legal, EndsAt, Value, Gap, Write;
    if items == [] {
      assert Spread(items) + next == next && acc + Values(items) == acc;
    } else {
      var x, g, more := items[0].item, Gap(items[0].gap), Spread(items[1..]);
      assert Spread(items) + next == Write(x) + (g + (more + next));
      ItemReads(x, g + (more + next));
      ListTakes(Write(x) + (g + (more + next)), acc, Value(x), g + (more + next));
      GapReads(items[0].gap, more + next, acc + [Value(x)]);
      ListGoesOn(items[1..], next, acc + [Value(x)]);
      assert acc + [Value(x)] + Values(items[1..]) == acc + Values(items);
    }
  }

  // Any other escape, or a string that is not closed
  lemma EscapeLaw(lead: seq<Filler>, items: seq<Spaced>, name: string, c: char, t: string)
    requires Fillers(lead) && '\0' !in name && '\0' !in t && c !in "\"\\n\0" && |name| <= 4095
    requires AllLegal(items, "\"" + (Escape(name) + (['\\', c] + t)) + "\n")
    ensures Read(Gap(lead) + (Spread(items) + ("\"" + (Escape(name) + (['\\', c] + t))))) ==
            (Values(items), SyntaxEscape)
  {
    hide AllLegal, Values, Read, Spread, Gap, Fillers, Escape;
    var s := "\"" + (Escape(name) + (['\\', c] + t));
    EscapeNoNul(name);
    ReadFrom(lead, items, s);
    assert (s + "\n")[1..] == Escape(name) + (['\\', c] + t + "\n");
    StringGoesOn(name, "", ['\\', c] + t + "\n");
  }

  lemma OpenStringLaw(lead: seq<Filler>, items: seq<Spaced>, name: string)
    requires Fillers(lead) && '\0' !in name && |name| < 4095
    requires AllLegal(items, "\"" + Escape(name) + "\n")
    ensures Read(Gap(lead) + (Spread(items) + ("\"" + Escape(name)))) == (Values(items), SyntaxUnknown)
  {
    hide AllLegal, Values, Read, Spread, Gap, Fillers, Escape;
    var s := "\"" + Escape(name);
    EscapeNoNul(name);
    ReadFrom(lead, items, s);
    assert (s + "\n")[1..] == Escape(name) + "\n";
    StringGoesOn(name, "", "\n");
  }

  lemma {:induction false} StringGoesOn(name: string, acc: string, rest: string)
    requires |acc| + |name| <= 4095
    ensures StringTail(Escape(name) + rest, acc) == StringTail(rest, acc + name)
    decreases |name|
  {
    hide Coded;
    if name == "" {
      assert Escape(name) + rest == rest && acc + name == acc;
    } else {
      hide StringTail;
      StringGoesOn(name[1..], acc + [name[0]], rest);
      assert acc + [name[0]] + name[1..] == acc + name;
      assert Escape(name) + rest == Coded(name[0]) + (Escape(name[1..]) + rest);
      StringTakes(name[0], Escape(name[1..]) + rest, acc);
    }
  }
}
