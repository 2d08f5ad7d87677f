// The text syntax, as a recursive-descent reader: the reference that the parser
// automaton is proved against.
module Grammar {

  datatype Sexp = Nil | Sym(name: string) | Cons(car: Sexp, cdr: Sexp)

  // How reading ends: at the end of the text, or with one of the parser's errors.
  datatype Status = Done | SyntaxUnknown | SyntaxParenthesis | SyntaxEscape | TooLong

  datatype Parse<+T> = Got(value: T, rest: string) | Bad(why: Status)

  // The symbol buffer has 4096 bytes and keeps one for the terminating NUL.
  const MAX_SYMBOL := 4095

  predicate Space(c: char) {
    c == '\r' || c == '\n' || c == '\t' || c == ' '
  }

  // What ends a symbol.
  predicate Delimiter(c: char) {
    c == '"' || c == '\'' || c == '(' || c == ')' || c == ';' || Space(c)
  }

  function ListOf(items: seq<Sexp>): Sexp {
    if items == [] then Nil else Cons(items[0], ListOf(items[1..]))
  }

  function Quoted(items: seq<Sexp>): Sexp {
    Cons(Sym("quote"), ListOf(items))
  }

  // The text the automaton sees: up to the first NUL, or else with a newline appended.
  function Effective(stream: string): string {
    if stream == "" then "\n"
    else if stream[0] == '\0' then ""
    else [stream[0]] + Effective(stream[1..])
  }

  // One character into the symbol read so far.
  function Put(acc: string, c: char, rest: string): Parse<string> {
    if |acc| >= MAX_SYMBOL then Bad(TooLong) else Got(acc + [c], rest)
  }

  // What follows a backslash.
  function Escaped(s: string, acc: string): Parse<string> {
    if s == "" then Bad(SyntaxUnknown)
    else if s[0] == '"' || s[0] == '\\' then Put(acc, s[0], s[1..])
    else if s[0] == 'n' then Put(acc, '\n', s[1..])
    else Bad(SyntaxEscape)
  }

  function SymbolTail(s: string, acc: string): (r: Parse<string>)
    ensures r.Got? ==> |r.rest| <= |s|
    ensures r.Got? && s != "" && !Delimiter(s[0]) ==> |r.rest| < |s|
    decreases |s|
  {
    if s == "" then Bad(SyntaxUnknown)
    else if Delimiter(s[0]) then Got(acc, s)
    else
      match if s[0] == '\\' then Escaped(s[1..], acc) else Put(acc, s[0], s[1..])
      case Bad(why) => Bad(why)
      case Got(acc', rest) => SymbolTail(rest, acc')
  }

  function StringTail(s: string, acc: string): (r: Parse<string>)
    ensures r.Got? ==> |r.rest| < |s|
    decreases |s|
  {
    if s == "" then Bad(SyntaxUnknown)
    else if s[0] == '"' then Got(acc, s[1..])
    else
      match if s[0] == '\\' then Escaped(s[1..], acc) else Put(acc, s[0], s[1..])
      case Bad(why) => Bad(why)
      case Got(acc', rest) => StringTail(rest, acc')
  }

  function AfterComment(s: string): (r: Parse<()>)
    ensures r.Got? ==> |r.rest| < |s|
  {
    if s == "" then Bad(SyntaxUnknown)
    else if s[0] == '\n' then Got((), s[1..])
    else AfterComment(s[1..])
  }

  predicate StartsElement(s: string) {
    s != "" && !Space(s[0]) && s[0] != ')' && s[0] != ';'
  }

  function Named(p: Parse<string>): Parse<Sexp> {
    match p
    case Got(name, rest) => Got(Sym(name), rest)
    case Bad(why) => Bad(why)
  }

  function Element(s: string): (r: Parse<Sexp>)
    requires StartsElement(s)
    ensures r.Got? ==> |r.rest| < |s|
    decreases |s|, 0
  {
    if s[0] == '"' then Named(StringTail(s[1..], ""))
    else if s[0] == '\'' then QuoteTail(s[1..], [])
    else if s[0] == '(' then ListTail(s[1..], [])
    else Named(SymbolTail(s, ""))
  }

  // The rest of a list whose elements so far are `acc`.
  function ListTail(s: string, acc: seq<Sexp>): (r: Parse<Sexp>)
    ensures r.Got? ==> |r.rest| < |s|
    decreases |s|, 1
  {
    if s == "" then Bad(SyntaxUnknown)
    else if Space(s[0]) then ListTail(s[1..], acc)
    else if s[0] == ')' then Got(ListOf(acc), s[1..])
    else if s[0] == ';' then
      match AfterComment(s[1..])
      case Bad(why) => Bad(why)
      case Got(_, rest) => ListTail(rest, acc)
    else
      match Element(s)
      case Bad(why) => Bad(why)
      case Got(v, rest) => ListTail(rest, acc + [v])
  }

  // A quote mark collects every element that follows without a break.
  function QuoteTail(s: string, acc: seq<Sexp>): (r: Parse<Sexp>)
    ensures r.Got? ==> |r.rest| <= |s|
    decreases |s|, 1
  {
    if s == "" then Bad(SyntaxUnknown)
    else if !StartsElement(s) then Got(Quoted(acc), s)
    else
      match Element(s)
      case Bad(why) => Bad(why)
      case Got(v, rest) => QuoteTail(rest, acc + [v])
  }

  // The expressions handed to the evaluator, in order, and how reading ended.
  function Program(s: string, acc: seq<Sexp>): (seq<Sexp>, Status)
    decreases |s|
  {
    if s == "" then (acc, Done)
    else if Space(s[0]) then Program(s[1..], acc)
    else if s[0] == ')' then (acc, SyntaxParenthesis)
    else if s[0] == ';' then
      match AfterComment(s[1..])
      case Bad(why) => (acc, why)
      case Got(_, rest) => Program(rest, acc)
    else
      match Element(s)
      case Bad(why) => (acc, why)
      case Got(v, rest) => Program(rest, acc + [v])
  }

  // Reading a whole stream; an empty one is not handed to the automaton at all.
  function Read(stream: string): (seq<Sexp>, Status) {
    if stream == "" then ([], Done) else Program(Effective(stream), [])
  }
}

// The automaton without its heap: open lists and quotes, what is being scanned, and
// the values handed over so far.
module ReaderSteps {
  import opened Grammar

  datatype Level = List(acc: seq<Sexp>) | Quote(acc: seq<Sexp>)

  datatype Lex =
    | Between
    | Symbol(buf: string)
    | DQuote(buf: string)
    | SymbolEscape(buf: string)
    | DQuoteEscape(buf: string)
    | Comment

  datatype Config = Config(vals: seq<Sexp>, levels: seq<Level>, lex: Lex)

  // `eaten` says whether the character was handled.
  datatype Move = Next(cfg: Config, eaten: bool) | Fail(why: Status)

  function Extend(l: Level, v: Sexp): Level {
    match l
    case List(acc) => List(acc + [v])
    case Quote(acc) => Quote(acc + [v])
  }

  // A finished value goes into the innermost open level, or to the evaluator.
  function Deliver(c: Config, v: Sexp): Config {
    if c.levels == [] then c.(vals := c.vals + [v], lex := Between)
    else
      var n := |c.levels| - 1;
      c.(levels := c.levels[n := Extend(c.levels[n], v)], lex := Between)
  }

  function Value(l: Level): Sexp {
    match l
    case List(acc) => ListOf(acc)
    case Quote(acc) => Quoted(acc)
  }

  function Close(c: Config): Config
    requires c.levels != []
  {
    var n := |c.levels| - 1;
    Deliver(c.(levels := c.levels[..n]), Value(c.levels[n]))
  }

  function Open(c: Config, l: Level): Config {
    c.(levels := c.levels + [l])
  }

  predicate InQuote(c: Config) {
    c.levels != [] && c.levels[|c.levels| - 1].Quote?
  }

  function StepBetween(c: Config, ch: char): Move {
    if ch == '"' then Next(c.(lex := DQuote("")), true)
    else if ch == '\'' then Next(Open(c, Quote([])), true)
    else if ch == '\\' then Next(c.(lex := SymbolEscape("")), true)
    else if ch == '(' then Next(Open(c, List([])), true)
    else if InQuote(c) && (ch == ')' || ch == ';' || Space(ch)) then Next(Close(c), false)
    else if ch == ')' then if c.levels == [] then Fail(SyntaxParenthesis) else Next(Close(c), true)
    else if ch == ';' then Next(c.(lex := Comment), true)
    else if Space(ch) then Next(c, true)
    else Next(c.(lex := Symbol("")), false)
  }

  function Step(c: Config, ch: char): Move {
    match c.lex
    case Between => StepBetween(c, ch)
    case Symbol(buf) =>
      if Delimiter(ch) then Next(Deliver(c, Sym(buf)), false)
      else if ch == '\\' then Next(c.(lex := SymbolEscape(buf)), true)
      else if |buf| >= MAX_SYMBOL then Fail(TooLong)
      else Next(c.(lex := Symbol(buf + [ch])), true)
    case DQuote(buf) =>
      if ch == '"' then Next(Deliver(c, Sym(buf)), true)
      else if ch == '\\' then Next(c.(lex := DQuoteEscape(buf)), true)
      else if |buf| >= MAX_SYMBOL then Fail(TooLong)
      else Next(c.(lex := DQuote(buf + [ch])), true)
    case SymbolEscape(buf) =>
      if ch != '"' && ch != '\\' && ch != 'n' then Fail(SyntaxEscape)
      else if |buf| >= MAX_SYMBOL then Fail(TooLong)
      else Next(c.(lex := Symbol(buf + [Unescape(ch)])), true)
    case DQuoteEscape(buf) =>
      if ch != '"' && ch != '\\' && ch != 'n' then Fail(SyntaxEscape)
      else if |buf| >= MAX_SYMBOL then Fail(TooLong)
      else Next(c.(lex := DQuote(buf + [Unescape(ch)])), true)
    case Comment => Next(if ch == '\n' then c.(lex := Between) else c, true)
  }

  function Unescape(ch: char): char {
    if ch == 'n' then '\n' else ch
  }

  // What is left to decide about a character that was not handled.
  function Pending(c: Config, ch: char): nat {
    |c.levels|
    + (if c.lex.Symbol? && Delimiter(ch) then 1 else 0)
    + (if c.lex.Between? && !Delimiter(ch) && ch != '\\' then 1 else 0)
  }

  // An unhandled character always gets closer to being handled.
  lemma PendingDecreases(c: Config, ch: char)
    ensures Step(c, ch).Next? && !Step(c, ch).eaten ==> Pending(Step(c, ch).cfg, ch) < Pending(c, ch)
  {}

  // The recursive-descent reader, resumed in the middle: scan what is being scanned,
  // then finish the open levels from the innermost outwards.
  ghost function Resume(c: Config, s: string): (seq<Sexp>, Status)
    decreases |c.levels|, if c.lex.Between? then 0 else 2
  {
    match c.lex
    case Between =>
      if c.levels == [] then Program(s, c.vals) else
      var n := |c.levels| - 1;
      (match Finish(c.levels[n], s)
       case Bad(why) => (c.vals, why)
       case Got(v, rest) => Resume(Deliver(c.(levels := c.levels[..n]), v), rest))
    case Comment => After(c, AfterComment(s))
    case _ =>
      match Scan(c.lex, s)
      case Bad(why) => (c.vals, why)
      case Got(name, rest) => Resume(Deliver(c, Sym(name)), rest)
  }

  ghost function After(c: Config, p: Parse<()>): (seq<Sexp>, Status)
    decreases |c.levels|, 1
  {
    match p
    case Bad(why) => (c.vals, why)
    case Got(_, rest) => Resume(c.(lex := Between), rest)
  }

  ghost function Finish(l: Level, s: string): Parse<Sexp> {
    match l
    case List(acc) => ListTail(s, acc)
    case Quote(acc) => QuoteTail(s, acc)
  }

  ghost function Scan(lex: Lex, s: string): Parse<string>
    requires !lex.Between? && !lex.Comment?
  {
    match lex
    case Symbol(buf) => SymbolTail(s, buf)
    case DQuote(buf) => StringTail(s, buf)
    case SymbolEscape(buf) =>
      (match Escaped(s, buf)
       case Bad(why) => Bad(why)
       case Got(buf', rest) => SymbolTail(rest, buf'))
    case DQuoteEscape(buf) =>
      (match Escaped(s, buf)
       case Bad(why) => Bad(why)
       case Got(buf', rest) => StringTail(rest, buf'))
  }

  // Go on with a value that has been read.
  ghost function Onwards(c: Config, p: Parse<Sexp>): (seq<Sexp>, Status) {
    match p
    case Bad(why) => (c.vals, why)
    case Got(v, rest) => Resume(Deliver(c, v), rest)
  }

  // Where an element starts, the reader reads one element and goes on with its value.
  lemma ElementResumes(c: Config, s: string)
    requires c.lex.Between? && StartsElement(s)
    ensures Resume(c, s) == Onwards(c, Element(s))
  {
    if c.levels != [] && Element(s).Got? {
      var n := |c.levels| - 1;
      var d := Deliver(c, Element(s).value);
      assert d.levels[..n] == c.levels[..n];
    }
  }

  // An open bracket or quote mark: reading the element is finishing the new level.
  lemma OpenResumes(c: Config, s: string, l: Level)
    requires c.lex.Between? && StartsElement(s)
    requires Element(s) == Finish(l, s[1..])
    ensures Resume(c, s) == Resume(Open(c, l), s[1..])
  {
    ElementResumes(c, s);
    assert Open(c, l).levels[..|c.levels|] == c.levels;
    assert Open(c, l).(levels := c.levels) == c;
  }

  // A string or symbol: reading the element is finishing the scan.
  lemma ScanResumes(c: Config, s: string, lex: Lex, rest: string)
    requires c.lex.Between? && StartsElement(s) && !lex.Between? && !lex.Comment?
    requires Element(s) == Named(Scan(lex, rest))
    ensures Resume(c, s) == Resume(c.(lex := lex), rest)
  {
    ElementResumes(c, s);
    var d := c.(lex := lex);
    match Scan(lex, rest)
    case Bad(_) =>
    case Got(name, tail) => assert Deliver(d, Sym(name)) == Deliver(c, Sym(name));
  }

  lemma RescanResumes(c: Config, s: string, lex: Lex, rest: string)
    requires !c.lex.Between? && !c.lex.Comment? && !lex.Between? && !lex.Comment?
    requires Scan(c.lex, s) == Scan(lex, rest)
    ensures Resume(c, s) == Resume(c.(lex := lex), rest)
  {
    var d := c.(lex := lex);
    match Scan(lex, rest)
    case Bad(_) =>
    case Got(name, tail) => assert Deliver(d, Sym(name)) == Deliver(c, Sym(name));
  }

  lemma BetweenKeeps(c: Config, s: string)
    requires c.lex.Between? && s != ""
    ensures match StepBetween(c, s[0])
            case Next(d, eaten) => Resume(c, s) == Resume(d, if eaten then s[1..] else s)
            case Fail(why) => Resume(c, s) == (c.vals, why)
  {
    var ch := s[0];
    if ch == '"' {
      ScanResumes(c, s, DQuote(""), s[1..]);
    } else if ch == '\'' {
      OpenResumes(c, s, Quote([]));
    } else if ch == '\\' {
      ScanResumes(c, s, SymbolEscape(""), s[1..]);
    } else if ch == '(' {
      OpenResumes(c, s, List([]));
    } else if StartsElement(s) {
      ScanResumes(c, s, Symbol(""), s);
    } else if InQuote(c) {
      var n := |c.levels| - 1;
      assert Finish(c.levels[n], s) == Got(Value(c.levels[n]), s);
    } else if ch == ';' {
      var d := c.(lex := Comment);
      assert d.(lex := Between) == c;
      assert Resume(d, s[1..]) == After(d, AfterComment(s[1..]));
      if AfterComment(s[1..]).Got? {
        assert Resume(d, s[1..]) == Resume(c, AfterComment(s[1..]).rest);
      }
    }
  }

  // The heart of the matter: no step of the automaton changes what the recursive-descent
  // reader makes of the rest of the text.
  lemma StepKeeps(c: Config, s: string)
    requires s != ""
    ensures match Step(c, s[0])
            case Next(d, eaten) => Resume(c, s) == Resume(d, if eaten then s[1..] else s)
            case Fail(why) => Resume(c, s) == (c.vals, why)
  {
    match c.lex
    case Between => BetweenKeeps(c, s);
    case Comment => assert c.(lex := Between).(lex := Comment) == c;
    case _ =>
      match Step(c, s[0])
      case Fail(why) => assert Scan(c.lex, s) == Bad(why);
      case Next(d, eaten) => if !d.lex.Between? { RescanResumes(c, s, d.lex, s[1..]); }
  }

  lemma ResumeAtEnd(c: Config)
    ensures Resume(c, "") == (c.vals, if c.levels == [] && c.lex.Between? then Done else SyntaxUnknown)
  {}

  // The automaton's loop on values.
  ghost function Run(c: Config, s: string): (seq<Sexp>, Status)
    decreases |s|, if s == "" then 0 else Pending(c, s[0])
  {
    if s == "" then (c.vals, if c.levels == [] && c.lex.Between? then Done else SyntaxUnknown)
    else
      match Step(c, s[0])
      case Fail(why) => (c.vals, why)
      case Next(d, eaten) =>
        PendingDecreases(c, s[0]);
        Run(d, if eaten then s[1..] else s)
  }

  // One look at the first character: the run ends, or goes on and gets closer to its end.
  lemma RunOn(c: Config, s: string)
    requires s != ""
    ensures match Step(c, s[0])
            case Fail(why) => why != Done && Run(c, s) == (c.vals, why)
            case Next(d, eaten) =>
              Run(c, s) == Run(d, if eaten then s[1..] else s) && (!eaten ==> Pending(d, s[0]) < Pending(c, s[0]))
  {
    PendingDecreases(c, s[0]);
  }

  lemma RunEnds(c: Config)
    ensures Run(c, "") == (c.vals, if c.levels == [] && c.lex.Between? then Done else SyntaxUnknown)
  {}

  lemma {:induction false} RunIsResume(c: Config, s: string)
    ensures Run(c, s) == Resume(c, s)
    decreases |s|, if s == "" then 0 else Pending(c, s[0])
  {
    if s == "" {
      ResumeAtEnd(c);
    } else {
      StepKeeps(c, s);
      PendingDecreases(c, s[0]);
      match Step(c, s[0])
      case Fail(_) =>
      case Next(d, eaten) => RunIsResume(d, if eaten then s[1..] else s);
    }
  }

  // For every text: the automaton hands over exactly the expressions that the
  // recursive-descent reader produces, in order, and ends as it ends.
  lemma AutomatonReadsGrammar(text: string)
    ensures Run(Config([], [], Between), text) == Program(text, [])
  {
    RunIsResume(Config([], [], Between), text);
  }
}
