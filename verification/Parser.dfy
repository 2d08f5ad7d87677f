// Cons cells under construction: how the parser's heap represents open lists and quotes.
module ReaderHeap {
  import opened Grammar

  datatype Ref = Null | NilRef | QuoteRef | At(id: nat)

  datatype Cell = Pair(car: Ref, cdr: Ref) | SymCell(name: string)

  type Heap = map<nat, Cell>

  // r denotes v, through finished (`done`) cells only.
  ghost predicate Rep(h: Heap, done: set<nat>, r: Ref, v: Sexp)
    decreases v
  {
    match v
    case Nil => r == NilRef
    case Sym(name) =>
      (r == QuoteRef && name == "quote") ||
      (r.At? && r.id in done && r.id in h && h[r.id] == SymCell(name))
    case Cons(a, d) =>
      r.At? && r.id in done && r.id in h && h[r.id].Pair? &&
      Rep(h, done, h[r.id].car, a) && Rep(h, done, h[r.id].cdr, d)
  }

  // Finished cells are never written again.
  ghost predicate Preserves(h: Heap, done: set<nat>, h': Heap, done': set<nat>) {
    done <= done' && forall id :: id in done && id in h ==> id in h' && h'[id] == h[id]
  }

  lemma {:induction false} RepStays(h: Heap, done: set<nat>, h': Heap, done': set<nat>, r: Ref, v: Sexp)
    requires Preserves(h, done, h', done') && Rep(h, done, r, v)
    ensures Rep(h', done', r, v)
    decreases v
  {
    if v.Cons? {
      RepStays(h, done, h', done', h[r.id].car, v.car);
      RepStays(h, done, h', done', h[r.id].cdr, v.cdr);
    }
  }

  lemma AllRepStay(h: Heap, done: set<nat>, h': Heap, done': set<nat>)
    requires Preserves(h, done, h', done')
    ensures forall r, v :: Rep(h, done, r, v) ==> Rep(h', done', r, v)
  {
    forall r, v | Rep(h, done, r, v) ensures Rep(h', done', r, v) { RepStays(h, done, h', done', r, v); }
  }

  // One level of nesting: its elements so far, and whether its head cell is a quote
  // (otherwise it is a sentinel, which is not part of the value).
  datatype Track = Track(acc: seq<Sexp>, quote: bool)

  ghost predicate Increasing(sp: seq<nat>) {
    forall i, j :: 0 <= i < j < |sp| ==> sp[i] < sp[j]
  }

  // The cells of a level: the head, then one cell for each element, then, when a deeper
  // level is open, the cell that will hold that level's value.
  ghost predicate Spine(h: Heap, done: set<nat>, sp: seq<nat>, t: Track, open: bool) {
    && |sp| == |t.acc| + (if open then 2 else 1)
    && Increasing(sp)
    && (forall i :: 0 <= i < |sp| ==> sp[i] in h && h[sp[i]].Pair? && sp[i] !in done)
    && (forall i :: 0 <= i < |sp| - 1 ==> h[sp[i]].cdr == At(sp[i + 1]))
    && (h[sp[|sp| - 1]].cdr == NilRef || sp == [0])
    && (forall i :: 1 <= i <= |t.acc| ==> Rep(h, done, h[sp[i]].car, t.acc[i - 1]))
    && (t.quote ==> h[sp[0]].car == QuoteRef)
  }

  function Last<T>(s: seq<T>): T
    requires s != []
  {
    s[|s| - 1]
  }

  ghost predicate Before(a: seq<nat>, b: seq<nat>) {
    forall i, j :: 0 <= i < |a| && 0 <= j < |b| ==> a[i] < b[j]
  }

  ghost predicate Layout(h: Heap, next: nat, done: set<nat>, tracks: seq<Track>, spines: seq<seq<nat>>) {
    && |tracks| == |spines| > 0
    && (forall k :: 0 <= k < |spines| ==> spines[k] != [])
    && (forall id :: id in h ==> id < next)
    && (forall id :: id in done ==> id in h)
    && (forall k :: 0 <= k < |spines| ==> Spine(h, done, spines[k], tracks[k], k + 1 < |spines|))
    && (forall j, k :: 0 <= j < k < |spines| ==> Before(spines[j], spines[k]))
    && (forall k :: 0 <= k < |spines| - 1 ==> h[Last(spines[k])].car == At(spines[k + 1][0]))
    && spines[0][0] == 0
  }

  // A level's spine does not see writes to other cells.
  lemma SpineStays(h: Heap, done: set<nat>, h': Heap, done': set<nat>, sp: seq<nat>, t: Track, open: bool)
    requires Spine(h, done, sp, t, open) && Preserves(h, done, h', done')
    requires forall i :: 0 <= i < |sp| ==> sp[i] in h' && h'[sp[i]] == h[sp[i]] && sp[i] !in done'
    ensures Spine(h', done', sp, t, open)
  {
    AllRepStay(h, done, h', done');
  }

  // The outer levels do not see writes to the innermost level's cells or to fresh ones.
  lemma OuterStay(h: Heap, next: nat, done: set<nat>, tracks: seq<Track>, spines: seq<seq<nat>>,
                  n: nat, h': Heap, done': set<nat>)
    requires Layout(h, next, done, tracks, spines) && Preserves(h, done, h', done') && n < |spines|
    requires forall id :: id in h && id < spines[n][0] ==> id in h' && h'[id] == h[id]
    requires forall id :: id in done' && id !in done ==> id >= spines[n][0]
    ensures forall k :: 0 <= k < n ==> Spine(h', done', spines[k], tracks[k], true)
    ensures forall k :: 0 <= k < n - 1 ==> h'[Last(spines[k])].car == At(spines[k + 1][0])
    ensures n > 0 ==> h'[Last(spines[n - 1])] == h[Last(spines[n - 1])]
  {
    forall k | 0 <= k < n
      ensures Spine(h', done', spines[k], tracks[k], true)
      ensures h'[Last(spines[k])] == h[Last(spines[k])]
    {
      assert Spine(h, done, spines[k], tracks[k], true);
      assert Before(spines[k], spines[n]);
      assert forall i :: 0 <= i < |spines[k]| ==> spines[k][i] < spines[n][0];
      SpineStays(h, done, h', done', spines[k], tracks[k], true);
    }
  }

  lemma TopCells(h: Heap, next: nat, done: set<nat>, tracks: seq<Track>, spines: seq<seq<nat>>)
    requires Layout(h, next, done, tracks, spines)
    ensures |spines| == |tracks| > 0 && forall k :: 0 <= k < |spines| ==> spines[k] != []
    ensures forall k :: 0 <= k < |spines| ==> Last(spines[k]) in h && h[Last(spines[k])].Pair? && Last(spines[k]) < next
    ensures next !in h && next + 1 !in h
    ensures spines[0][0] == 0
  {
    forall k | 0 <= k < |spines|
      ensures Last(spines[k]) in h && h[Last(spines[k])].Pair?
    {
      assert Spine(h, done, spines[k], tracks[k], k + 1 < |spines|);
    }
  }

  lemma BeforeFresh(h: Heap, next: nat, done: set<nat>, tracks: seq<Track>, spines: seq<seq<nat>>, k: nat)
    requires Layout(h, next, done, tracks, spines) && k < |spines|
    ensures forall i :: 0 <= i < |spines[k]| ==> spines[k][i] < next
  {
    assert Spine(h, done, spines[k], tracks[k], k + 1 < |spines|);
  }

  // The innermost level's spine with one more cell.
  lemma AppendSpine(h: Heap, done: set<nat>, sp: seq<nat>, t: Track, next: nat, cell: Cell, h': Heap)
    requires Spine(h, done, sp, t, false) && cell.Pair? && cell.cdr == NilRef
    requires forall i :: 0 <= i < |sp| ==> sp[i] < next
    requires next !in h && next !in done
    requires h' == h[next := cell][Last(sp) := Pair(h[Last(sp)].car, At(next))]
    ensures Preserves(h, done, h', done)
    ensures Spine(h', done, sp + [next], t, true)
    ensures forall v :: Rep(h, done, cell.car, v) ==> Spine(h', done, sp + [next], t.(acc := t.acc + [v]), false)
  {
    AllRepStay(h, done, h', done);
    var n := |sp| - 1;
    forall i | 0 <= i < n ensures h'[sp[i]] == h[sp[i]] { assert sp[i] < sp[n]; }
    assert (sp + [next])[..n] == sp[..n];
  }

  // Append a cell that holds a finished value to the innermost level.
  lemma AppendLayout(h: Heap, next: nat, done: set<nat>, tracks: seq<Track>, spines: seq<seq<nat>>,
                     r: Ref, v: Sexp, h': Heap, tracks': seq<Track>, spines': seq<seq<nat>>)
    requires Layout(h, next, done, tracks, spines) && Rep(h, done, r, v)
    requires h' == Link(h, spines, next, Pair(r, NilRef))
    requires tracks' == tracks[|tracks| - 1 := Last(tracks).(acc := Last(tracks).acc + [v])]
    requires spines' == spines[|spines| - 1 := Last(spines) + [next]]
    ensures Preserves(h, done, h', done)
    ensures Layout(h', next + 1, done, tracks', spines')
  {
    hide Spine;
    var n := |spines| - 1;
    AppendTop(h, next, done, tracks, spines, r, v, h');
    OuterStay(h, next, done, tracks, spines, n, h', done);
    forall j, k | 0 <= j < k < |spines'| ensures Before(spines'[j], spines'[k]) {
      assert Before(spines[j], spines[k]);
      BeforeFresh(h, next, done, tracks, spines, j);
    }
  }

  lemma AppendTop(h: Heap, next: nat, done: set<nat>, tracks: seq<Track>, spines: seq<seq<nat>>,
                  r: Ref, v: Sexp, h': Heap)
    requires Layout(h, next, done, tracks, spines) && Rep(h, done, r, v)
    requires h' == Link(h, spines, next, Pair(r, NilRef))
    ensures var n := |spines| - 1;
            && Preserves(h, done, h', done)
            && Spine(h', done, spines[n] + [next], tracks[n].(acc := tracks[n].acc + [v]), false)
            && (forall id :: id in h && id < spines[n][0] ==> id in h' && h'[id] == h[id])
            && (forall id :: id in h' ==> id < next + 1)
            && (forall id :: id in h ==> id in h')
  {
    var n := |spines| - 1;
    assert Spine(h, done, spines[n], tracks[n], false);
    BeforeFresh(h, next, done, tracks, spines, n);
    AppendSpine(h, done, spines[n], tracks[n], next, Pair(r, NilRef), h');
  }

  // Hang a fresh cell behind the innermost level's last cell.
  ghost function Link(h: Heap, spines: seq<seq<nat>>, next: nat, cell: Cell): Heap
    requires spines != [] && Last(spines) != [] && Last(Last(spines)) in h && h[Last(Last(spines))].Pair?
  {
    var prev := Last(Last(spines));
    h[next := cell][prev := Pair(h[prev].car, At(next))]
  }

  // A fresh atom is finished at once.
  lemma AtomLayout(h: Heap, next: nat, done: set<nat>, tracks: seq<Track>, spines: seq<seq<nat>>, cell: Cell)
    requires Layout(h, next, done, tracks, spines) && cell.SymCell?
    ensures var h', done' := h[next := cell], done + {next};
            && Preserves(h, done, h', done')
            && Layout(h', next + 1, done', tracks, spines)
            && Rep(h', done', At(next), Sym(cell.name))
  {
    var h', done' := h[next := cell], done + {next};
    forall k | 0 <= k < |spines| ensures Spine(h', done', spines[k], tracks[k], k + 1 < |spines|) {
      BeforeFresh(h, next, done, tracks, spines, k);
      SpineStays(h, done, h', done', spines[k], tracks[k], k + 1 < |spines|);
    }
    TopCells(h, next, done, tracks, spines);
  }

  function HeadCar(quote: bool): Ref {
    if quote then QuoteRef else NilRef
  }

  // Open a level: a cell in the enclosing level that holds the new level's head.
  lemma OpenLayout(h: Heap, next: nat, done: set<nat>, tracks: seq<Track>, spines: seq<seq<nat>>,
                   quote: bool, h': Heap, tracks': seq<Track>, spines': seq<seq<nat>>)
    requires Layout(h, next, done, tracks, spines)
    requires h' == Link(h, spines, next, Pair(At(next + 1), NilRef))[next + 1 := Pair(HeadCar(quote), NilRef)]
    requires tracks' == tracks + [Track([], quote)]
    requires spines' == spines[|spines| - 1 := Last(spines) + [next]] + [[next + 1]]
    ensures Preserves(h, done, h', done)
    ensures Layout(h', next + 2, done, tracks', spines')
  {
    hide Spine, Before;
    var n := |spines| - 1;
    OpenTop(h, next, done, tracks, spines, quote, h');
    OuterStay(h, next, done, tracks, spines, n, h', done);
    OpenBefore(h, next, done, tracks, spines, spines');
  }

  lemma OpenBefore(h: Heap, next: nat, done: set<nat>, tracks: seq<Track>, spines: seq<seq<nat>>,
      spines': seq<seq<nat>>)
    requires Layout(h, next, done, tracks, spines)
    requires spines' == spines[|spines| - 1 := Last(spines) + [next]] + [[next + 1]]
    ensures forall j, k :: 0 <= j < k < |spines'| ==> Before(spines'[j], spines'[k])
  {
    hide Spine;
    forall j, k | 0 <= j < k < |spines'| ensures Before(spines'[j], spines'[k]) {
      BeforeFresh(h, next, done, tracks, spines, j);
      if k < |spines| { assert Before(spines[j], spines[k]); }
    }
  }

  lemma OpenTop(h: Heap, next: nat, done: set<nat>, tracks: seq<Track>, spines: seq<seq<nat>>, quote: bool, h': Heap)
    requires Layout(h, next, done, tracks, spines)
    requires h' == Link(h, spines, next, Pair(At(next + 1), NilRef))[next + 1 := Pair(HeadCar(quote), NilRef)]
    ensures var n := |spines| - 1;
            && Preserves(h, done, h', done)
            && Spine(h', done, spines[n] + [next], tracks[n], true)
            && Spine(h', done, [next + 1], Track([], quote), false)
            && h'[next].car == At(next + 1)
            && (forall id :: id in h && id < spines[n][0] ==> id in h' && h'[id] == h[id])
            && (forall id :: id in h' ==> id < next + 2)
            && (forall id :: id in h ==> id in h')
  {
    var n := |spines| - 1;
    var m := Link(h, spines, next, Pair(At(next + 1), NilRef));
    assert Spine(h, done, spines[n], tracks[n], false);
    BeforeFresh(h, next, done, tracks, spines, n);
    AppendSpine(h, done, spines[n], tracks[n], next, Pair(At(next + 1), NilRef), m);
    SpineStays(m, done, h', done, spines[n] + [next], tracks[n], true);
  }

  ghost function Cells(sp: seq<nat>): set<nat> {
    set c | c in sp
  }

  ghost function Finished(t: Track): Sexp {
    if t.quote then Quoted(t.acc) else ListOf(t.acc)
  }

  // The cells behind position i of a finished spine denote the elements from there on.
  lemma {:induction false} ChainRep(h: Heap, done: set<nat>, done': set<nat>, sp: seq<nat>, t: Track, i: nat)
    requires Spine(h, done, sp, t, false) && sp != [0] && i < |sp|
    requires done' == done + Cells(sp)
    ensures Rep(h, done', h[sp[i]].cdr, ListOf(t.acc[i..]))
    decreases |sp| - i
  {
    if i < |t.acc| {
      ChainRep(h, done, done', sp, t, i + 1);
      RepStays(h, done, h, done', h[sp[i + 1]].car, t.acc[i]);
      assert t.acc[i..][1..] == t.acc[i + 1..];
      assert sp[i + 1] in done';
    }
  }

  // Close the innermost level: its finished value becomes an element of the next one.
  lemma CloseLayout(h: Heap, next: nat, done: set<nat>, tracks: seq<Track>, spines: seq<seq<nat>>,
                    h': Heap, done': set<nat>, tracks': seq<Track>, spines': seq<seq<nat>>)
    requires Layout(h, next, done, tracks, spines) && |spines| > 1
    requires var n := |spines| - 1;
             var pair := Last(spines[n - 1]);
             && pair in h && h[pair].Pair? && spines[n][0] in h && h[spines[n][0]].Pair?
             && h' == (if tracks[n].quote then h else h[pair := Pair(h[spines[n][0]].cdr, h[pair].cdr)])
             && done' == done + Cells(spines[n])
             && spines' == spines[..n]
             && tracks' == tracks[..n][n - 1 := tracks[n - 1].(acc := tracks[n - 1].acc + [Finished(tracks[n])])]
    ensures Preserves(h, done, h', done')
    ensures Layout(h', next, done', tracks', spines')
  {
    hide Spine;
    var n := |spines| - 1;
    CloseTop(h, next, done, tracks, spines, h', done');
    OuterStay(h, next, done, tracks, spines, n - 1, h', done');
    forall j, k | 0 <= j < k < |spines'| ensures Before(spines'[j], spines'[k]) {
      assert Before(spines[j], spines[k]);
    }
  }

  lemma CloseTop(h: Heap, next: nat, done: set<nat>, tracks: seq<Track>, spines: seq<seq<nat>>, h': Heap,
      done': set<nat>)
    requires Layout(h, next, done, tracks, spines) && |spines| > 1
    requires var n := |spines| - 1;
             var pair := Last(spines[n - 1]);
             && pair in h && h[pair].Pair? && spines[n][0] in h && h[spines[n][0]].Pair?
             && h' == (if tracks[n].quote then h else h[pair := Pair(h[spines[n][0]].cdr, h[pair].cdr)])
             && done' == done + Cells(spines[n])
    ensures var n := |spines| - 1;
            var u := tracks[n - 1];
            && Preserves(h, done, h', done')
            && Spine(h', done', spines[n - 1], u.(acc := u.acc + [Finished(tracks[n])]), false)
            && (forall id :: id in h && id < spines[n - 1][0] ==> id in h' && h'[id] == h[id])
            && (forall id :: id in done' && id !in done ==> id >= spines[n - 1][0])
            && (forall id :: id in h' ==> id < next)
            && (forall id :: id in done' ==> id in h')
  {
    var n := |spines| - 1;
    var t, u := tracks[n], tracks[n - 1];
    var pair := Last(spines[n - 1]);
    assert Spine(h, done, spines[n], t, false) && Spine(h, done, spines[n - 1], u, true);
    assert Before(spines[n - 1], spines[n]) && Before(spines[0], spines[n]);
    var sp: seq<nat> := spines[n - 1];
    forall i | 0 <= i < |sp| ensures sp[i] !in done' { assert sp[i] !in spines[n]; }
    FinishedRep(h, done, done', spines[n], t);
    AllRepStay(h, done', h', done');
    CloseSpine(h, done, spines[n - 1], u, Finished(t), h', done');
  }

  // What a closed level denotes: the cells behind the sentinel, or the quote cell itself.
  lemma FinishedRep(h: Heap, done: set<nat>, done': set<nat>, sp: seq<nat>, t: Track)
    requires Spine(h, done, sp, t, false) && sp != [0] && done' == done + Cells(sp)
    ensures Rep(h, done', if t.quote then At(sp[0]) else h[sp[0]].cdr, Finished(t))
  {
    ChainRep(h, done, done', sp, t, 0);
    assert t.acc[0..] == t.acc;
    assert sp[0] in done';
  }

  lemma CloseSpine(h: Heap, done: set<nat>, sp: seq<nat>, u: Track, v: Sexp, h': Heap, done': set<nat>)
    requires Spine(h, done, sp, u, true) && Preserves(h, done, h', done')
    requires forall i :: 0 <= i < |sp| ==> sp[i] !in done'
    requires forall i :: 0 <= i < |sp| - 1 ==> sp[i] in h' && h'[sp[i]] == h[sp[i]]
    requires forall i :: 0 <= i < |sp| ==> sp[i] in h'
    requires Last(sp) in h' && h'[Last(sp)].Pair? && h'[Last(sp)].cdr == h[Last(sp)].cdr
    requires Rep(h', done', h'[Last(sp)].car, v)
    ensures Spine(h', done', sp, u.(acc := u.acc + [v]), false)
  {
    AllRepStay(h, done, h', done');
  }

  // Hand over what hangs on the bottom sentinel and start afresh.
  lemma ResetLayout(h: Heap, next: nat, done: set<nat>, tracks: seq<Track>, spines: seq<seq<nat>>, v: Sexp, h': Heap)
    requires Layout(h, next, done, tracks, spines) && |spines| == 1
    requires tracks[0] == Track([v], false) && h' == h[0 := Pair(Null, Null)]
    ensures Preserves(h, done, h', done)
    ensures 0 in h && h[0].Pair? && h[0].cdr.At? && h[0].cdr.id in h && h[h[0].cdr.id].Pair?
    ensures Rep(h, done, h[h[0].cdr.id].car, v)
    ensures Last(spines[0]) != 0
    ensures Layout(h', next, done, [Track([], false)], [[0]])
  {
    var sp: seq<nat> := spines[0];
    assert Spine(h, done, sp, tracks[0], false);
    assert sp[1] > sp[0];
  }
}

// ylinterp_automata and its state functions.
module Parser {
  import opened Grammar
  import opened ReaderSteps
  import opened ReaderHeap

  // The entries of the state stack.
  datatype State = InitS | ListS | SQuoteS | SymbolS | DQuoteS | CommentS | EscapeS

  // What next_char decides: stay (nochg), leave (exit), or enter another state.
  datatype Target = NoChange | Leave | Enter(state: State)

  const BUFFER_SIZE := 4096

  function LevelState(l: Level): State {
    if l.List? then ListS else SQuoteS
  }

  function LevelStates(ls: seq<Level>): seq<State> {
    seq(|ls|, i requires 0 <= i < |ls| => LevelState(ls[i]))
  }

  function LexStates(lex: Lex): seq<State> {
    match lex
    case Between => []
    case Symbol(_) => [SymbolS]
    case DQuote(_) => [DQuoteS]
    case SymbolEscape(_) => [SymbolS, EscapeS]
    case DQuoteEscape(_) => [DQuoteS, EscapeS]
    case Comment => [CommentS]
  }

  function States(c: Config): seq<State> {
    [InitS] + LevelStates(c.levels) + LexStates(c.lex)
  }

  function TrackOf(l: Level): Track {
    Track(l.acc, l.Quote?)
  }

  function Tracks(base: seq<Sexp>, ls: seq<Level>): seq<Track> {
    [Track(base, false)] + seq(|ls|, i requires 0 <= i < |ls| => TrackOf(ls[i]))
  }

  // The part of the automaton's state that builds expressions.
  datatype Image = Image(heap: Heap, next: nat, prev: nat, pairStack: seq<nat>, handed: seq<Ref>)

  // The image represents `base` behind the bottom sentinel, the open levels, and the
  // values handed over.
  ghost predicate Denotes(m: Image, done: set<nat>, spines: seq<seq<nat>>, base: seq<Sexp>,
                          levels: seq<Level>, vals: seq<Sexp>)
  {
    && Layout(m.heap, m.next, done, Tracks(base, levels), spines)
    && m.prev == Last(Last(spines))
    && |m.pairStack| == |levels|
    && (forall k :: 0 <= k < |m.pairStack| ==> m.pairStack[k] == Last(spines[k]))
    && |m.handed| == |vals|
    && (forall k :: 0 <= k < |m.handed| ==> Rep(m.heap, done, m.handed[k], vals[k]))
  }

  lemma DenotesCells(m: Image, done: set<nat>, spines: seq<seq<nat>>, base: seq<Sexp>,
                     levels: seq<Level>, vals: seq<Sexp>)
    requires Denotes(m, done, spines, base, levels, vals)
    ensures |m.pairStack| == |levels| && |spines| == |levels| + 1 && Last(spines) != []
    ensures m.prev in m.heap && m.heap[m.prev].Pair? && m.prev < m.next && m.prev == Last(Last(spines))
    ensures forall k :: 0 <= k < |m.pairStack| ==> m.pairStack[k] in m.heap && m.heap[m.pairStack[k]].Pair?
    ensures levels != [] ==>
              var car := m.heap[Last(m.pairStack)].car;
              car == At(Last(spines)[0]) && car.id in m.heap && m.heap[car.id].Pair?
  {
    TopCells(m.heap, m.next, done, Tracks(base, levels), spines);
    if levels != [] {
      assert Spine(m.heap, done, Last(spines), Last(Tracks(base, levels)), false);
    }
  }

  lemma DenotesOpen(m: Image, done: set<nat>, spines: seq<seq<nat>>, base: seq<Sexp>,
                    levels: seq<Level>, vals: seq<Sexp>, l: Level, m': Image)
    returns (spines': seq<seq<nat>>)
    requires Denotes(m, done, spines, base, levels, vals) && l.acc == []
    requires |spines| > 0 && Last(spines) != [] && m.prev == Last(Last(spines)) && m.prev in m.heap &&
             m.heap[m.prev].Pair?
    requires m'.heap == Link(m.heap, spines, m.next, Pair(At(m.next + 1), NilRef))
                          [m.next + 1 := Pair(HeadCar(l.Quote?), NilRef)]
    requires m' == m.(heap := m'.heap, next := m.next + 2, prev := m.next + 1, pairStack := m.pairStack + [m.next])
    ensures Denotes(m', done, spines', base, levels + [l], vals)
  {
    hide Spine;
    spines' := spines[|spines| - 1 := Last(spines) + [m.next]] + [[m.next + 1]];
    assert Tracks(base, levels + [l]) == Tracks(base, levels) + [TrackOf(l)];
    OpenLayout(m.heap, m.next, done, Tracks(base, levels), spines, l.Quote?,
               m'.heap, Tracks(base, levels + [l]), spines');
    AllRepStay(m.heap, done, m'.heap, done);
  }

  // The value v becomes the last element of the innermost level.
  ghost function Grown(base: seq<Sexp>, levels: seq<Level>, v: Sexp): (seq<Sexp>, seq<Level>) {
    if levels == [] then (base + [v], levels)
    else (base, levels[|levels| - 1 := Extend(levels[|levels| - 1], v)])
  }

  lemma GrownTracks(base: seq<Sexp>, levels: seq<Level>, v: Sexp)
    ensures var (base', levels') := Grown(base, levels, v);
            var t := Tracks(base, levels);
            Tracks(base', levels') == t[|t| - 1 := Last(t).(acc := Last(t).acc + [v])]
  {}

  lemma DenotesSymbol(m: Image, done: set<nat>, spines: seq<seq<nat>>, base: seq<Sexp>,
                      levels: seq<Level>, vals: seq<Sexp>, name: string, m': Image)
    returns (done': set<nat>, spines': seq<seq<nat>>)
    requires Denotes(m, done, spines, base, levels, vals)
    requires m.prev in m.heap && m.heap[m.prev].Pair?
    requires m' == m.(heap := m.heap[m.next := SymCell(name)][m.next + 1 := Pair(At(m.next), NilRef)]
                                    [m.prev := Pair(m.heap[m.prev].car, At(m.next + 1))],
                      next := m.next + 2, prev := m.next + 1)
    ensures var (base', levels') := Grown(base, levels, Sym(name));
            Denotes(m', done', spines', base', levels', vals)
  {
    hide Spine;
    var t := Tracks(base, levels);
    var (base', levels') := Grown(base, levels, Sym(name));
    var h1 := m.heap[m.next := SymCell(name)];
    done' := done + {m.next};
    TopCells(m.heap, m.next, done, t, spines);
    AtomLayout(m.heap, m.next, done, t, spines, SymCell(name));
    TopCells(h1, m.next + 1, done', t, spines);
    spines' := spines[|spines| - 1 := Last(spines) + [m.next + 1]];
    GrownTracks(base, levels, Sym(name));
    assert m'.heap == Link(h1, spines, m.next + 1, Pair(At(m.next), NilRef));
    AppendLayout(h1, m.next + 1, done', t, spines, At(m.next), Sym(name), m'.heap, Tracks(base', levels'), spines');
    AllRepStay(m.heap, done, h1, done');
    AllRepStay(h1, done', m'.heap, done');
  }

  lemma DenotesClose(m: Image, done: set<nat>, spines: seq<seq<nat>>, base: seq<Sexp>,
                     levels: seq<Level>, vals: seq<Sexp>, m': Image)
    returns (done': set<nat>, spines': seq<seq<nat>>)
    requires Denotes(m, done, spines, base, levels, vals) && levels != [] && m.pairStack != []
    requires var pair := Last(m.pairStack);
             && pair in m.heap && m.heap[pair].Pair? && m.heap[pair].car.At?
             && var head := m.heap[pair].car.id;
             && head in m.heap && m.heap[head].Pair?
             && m' == m.(heap := if Last(levels).Quote? then m.heap
                                 else m.heap[pair := Pair(m.heap[head].cdr, m.heap[pair].cdr)],
                         prev := pair, pairStack := m.pairStack[..|m.pairStack| - 1])
    ensures var (base', levels') := Grown(base, levels[..|levels| - 1], Value(Last(levels)));
            Denotes(m', done', spines', base', levels', vals)
  {
    hide Spine;
    var t, n := Tracks(base, levels), |spines| - 1;
    var (base', levels') := Grown(base, levels[..|levels| - 1], Value(Last(levels)));
    DenotesCells(m, done, spines, base, levels, vals);
    done' := done + Cells(spines[n]);
    spines' := spines[..n];
    GrownTracks(base, levels[..|levels| - 1], Value(Last(levels)));
    assert Tracks(base, levels[..|levels| - 1]) == t[..n];
    assert Finished(t[n]) == Value(Last(levels));
    CloseLayout(m.heap, m.next, done, t, spines, m'.heap, done', Tracks(base', levels'), spines');
    AllRepStay(m.heap, done, m'.heap, done');
  }

  lemma DenotesReset(m: Image, done: set<nat>, spines: seq<seq<nat>>, v: Sexp, vals: seq<Sexp>, m': Image)
    requires Denotes(m, done, spines, [v], [], vals)
    requires 0 in m.heap && m.heap[0].Pair? && m.heap[0].cdr.At? && m.heap[0].cdr.id in m.heap
    requires m.heap[m.heap[0].cdr.id].Pair?
    requires m' == m.(heap := m.heap[0 := Pair(Null, Null)], prev := 0,
                      handed := m.handed + [m.heap[m.heap[0].cdr.id].car])
    ensures Denotes(m', done, [[0]], [], [], vals + [v])
  {
    hide Spine;
    ResetLayout(m.heap, m.next, done, Tracks([v], []), spines, v, m'.heap);
    AllRepStay(m.heap, done, m'.heap, done);
    assert Tracks([], []) == [Track([], false)];
  }

  lemma DenotesSentinel(m: Image, done: set<nat>, spines: seq<seq<nat>>, base: seq<Sexp>, vals: seq<Sexp>)
    requires Denotes(m, done, spines, base, [], vals) && |base| <= 1
    ensures 0 in m.heap && m.heap[0].Pair? && (m.prev == 0 <==> base == [])
    ensures base != [] ==> m.heap[0].cdr.At? && m.heap[0].cdr.id in m.heap && m.heap[m.heap[0].cdr.id].Pair?
    ensures base == [] ==> spines == [[0]]
  {
    var sp: seq<nat> := spines[0];
    assert |spines| == 1 && spines == [sp];
    assert Spine(m.heap, done, sp, Tracks(base, [])[0], false);
    if base != [] { assert sp[1] > sp[0]; } else { assert sp == [0]; }
  }

  lemma DenotesIdle(m: Image, done: set<nat>, spines: seq<seq<nat>>, vals: seq<Sexp>)
    requires Denotes(m, done, spines, [], [], vals)
    ensures Denotes(m.(heap := m.heap[0 := Pair(Null, Null)], prev := 0), done, [[0]], [], [], vals)
  {
    DenotesSentinel(m, done, spines, [], vals);
    assert Spine(m.heap, done, [0], Tracks([], [])[0], false);
    AllRepStay(m.heap, done, m.heap[0 := Pair(Null, Null)], done);
  }

  // The assignments of list_enter and squote_enter, one after the other.
  ghost function Opened(m: Image, quote: bool): Image
    requires m.prev in m.heap && m.heap[m.prev].Pair? && m.prev < m.next
  {
    var pair, head := m.next, m.next + 1;
    var h1 := m.heap[pair := Pair(NilRef, NilRef)];
    var h2 := h1[m.prev := Pair(h1[m.prev].car, At(pair))];
    var h3 := h2[head := Pair(HeadCar(quote), NilRef)];
    m.(heap := h3[pair := Pair(At(head), h3[pair].cdr)], next := m.next + 2, prev := head,
       pairStack := m.pairStack + [pair])
  }

  lemma DenotesEnter(m: Image, done: set<nat>, spines: seq<seq<nat>>, base: seq<Sexp>,
                     levels: seq<Level>, vals: seq<Sexp>, l: Level)
    returns (spines': seq<seq<nat>>)
    requires Denotes(m, done, spines, base, levels, vals) && l.acc == []
    requires m.prev in m.heap && m.heap[m.prev].Pair? && m.prev < m.next
    ensures Denotes(Opened(m, l.Quote?), done, spines', base, levels + [l], vals)
  {
    hide Denotes;
    DenotesCells(m, done, spines, base, levels, vals);
    spines' := DenotesOpen(m, done, spines, base, levels, vals, l, Opened(m, l.Quote?));
  }

  // ---------------------------------------------------------------- state stack

  lemma StatesOpen(c: Config, l: Level)
    requires c.lex.Between?
    ensures States(Open(c, l)) == States(c) + [LevelState(l)]
  {}

  lemma StatesLex(c: Config, lex: Lex)
    requires c.lex.Between?
    ensures States(c.(lex := lex)) == States(c) + LexStates(lex)
  {}

  // Delivering a value leaves the states below what is being scanned.
  lemma StatesDeliver(c: Config, v: Sexp)
    ensures States(Deliver(c, v)) == States(c.(lex := Between)) != []
    ensures Deliver(c, v).levels == Grown([], c.levels, v).1
    ensures Deliver(c, v).vals == c.vals + Grown([], c.levels, v).0
  {
    assert LevelStates(Deliver(c, v).levels) == LevelStates(c.levels);
  }

  lemma StatesTop(c: Config)
    ensures States(c) != []
    ensures var st := Last(States(c));
            match c.lex
            case Between => st == (if c.levels == [] then InitS else LevelState(Last(c.levels)))
            case Symbol(_) => st == SymbolS
            case DQuote(_) => st == DQuoteS
            case Comment => st == CommentS
            case _ => st == EscapeS
    ensures c.lex.Between? && c.levels != [] ==>
              States(c) == States(c.(levels := c.levels[..|c.levels| - 1])) + [LevelState(Last(c.levels))]
  {
    if c.lex.Between? && c.levels != [] {
      assert LevelStates(c.levels) == LevelStates(c.levels[..|c.levels| - 1]) + [LevelState(Last(c.levels))];
    }
  }

  lemma StatesScan(c: Config, lex: Lex)
    requires !c.lex.Between?
    ensures LexStates(lex) == LexStates(c.lex) ==> States(c.(lex := lex)) == States(c)
    ensures LexStates(lex) == LexStates(c.lex) + [EscapeS] ==> States(c.(lex := lex)) == States(c) + [EscapeS]
    ensures LexStates(c.lex) == LexStates(lex) + [EscapeS] ==>
              States(c) != [] && States(c.(lex := lex)) == States(c)[..|States(c)| - 1]
  {
    var base := [InitS] + LevelStates(c.levels);
    assert base + (LexStates(c.lex) + [EscapeS]) == (base + LexStates(c.lex)) + [EscapeS];
    assert base + (LexStates(lex) + [EscapeS]) == (base + LexStates(lex)) + [EscapeS];
  }

  // The transition table: the next state, and whether the character is handled.
  function Table(st: State, ch: char): (Target, bool) {
    match st
    case InitS | ListS | SQuoteS =>
      if ch == '"' then (Enter(DQuoteS), true)
      else if ch == '\'' then (Enter(SQuoteS), true)
      else if ch == '\\' then (Enter(EscapeS), true)
      else if ch == '(' then (Enter(ListS), true)
      else if st == SQuoteS && (ch == ')' || ch == ';' || Space(ch)) then (Leave, false)
      else if ch == ')' then (Leave, true)
      else if ch == ';' then (Enter(CommentS), true)
      else if Space(ch) then (NoChange, true)
      else (Enter(SymbolS), false)
    case SymbolS =>
      if Delimiter(ch) then (Leave, false)
      else if ch == '\\' then (Enter(EscapeS), true)
      else (NoChange, true)
    case DQuoteS =>
      if ch == '"' then (Leave, true)
      else if ch == '\\' then (Enter(EscapeS), true)
      else (NoChange, true)
    case CommentS => (if ch == '\n' then Leave else NoChange, true)
    case EscapeS => (Leave, true)
  }

  // The character that a state adds to the symbol buffer, if any.
  function Added(st: State, ch: char): string {
    if st == EscapeS then [Unescape(ch)]
    else if (st == SymbolS || st == DQuoteS) && Table(st, ch).0.NoChange? then [ch]
    else ""
  }

  class Automaton {
    var heap: Heap
    var next: nat
    var prev: nat               // the cell that the next element is linked behind
    const buffer: array<char>      // symbol buffer
    var filled: nat               // next free position in it
    var stateStack: seq<State>
    var pairStack: seq<nat>
    var handed: seq<Ref>      // what yleval was given, in order

    ghost var cfg: Config
    ghost var spines: seq<seq<nat>>
    ghost var done: set<nat>

    ghost function Picture(): Image
      reads this
    {
      Image(heap, next, prev, pairStack, handed)
    }

    ghost predicate Buffer()
      reads this, buffer
    {
      buffer.Length == BUFFER_SIZE && filled < BUFFER_SIZE &&
      (!cfg.lex.Between? && !cfg.lex.Comment? ==> buffer[..filled] == cfg.lex.buf)
    }

    ghost predicate Valid()
      reads this, buffer
    {
      Denotes(Picture(), done, spines, [], cfg.levels, cfg.vals) && stateStack == States(cfg) && Buffer()
    }

    // _fsas_init_enter
    constructor ()
      ensures Valid() && cfg == Config([], [], Between) && fresh(buffer)
    {
      buffer := new char[BUFFER_SIZE];
      filled := 0;
      heap := map[0 := Pair(Null, Null)];
      next := 1;
      prev := 0;
      stateStack, pairStack, handed := [InitS], [], [];
      cfg := Config([], [], Between);
      spines := [[0]];
      done := {};
      new;
      assert Spine(heap, done, [0], Track([], false), false);
      assert Tracks([], []) == [Track([], false)];
    }

    // _fsa_add_symchar
    method AddSymChar(ch: char) returns (ok: bool)
      requires buffer.Length == BUFFER_SIZE && filled < BUFFER_SIZE
      modifies buffer, this`filled
      ensures ok == (old(filled) < BUFFER_SIZE - 1)
      ensures ok ==> filled == old(filled) + 1 && buffer[..filled] == old(buffer[..filled]) + [ch]
      ensures !ok ==> filled == old(filled) && buffer[..] == old(buffer[..])
    {
      if filled < BUFFER_SIZE - 1 {
        buffer[filled] := ch;
        filled := filled + 1;
        ok := true;
      } else {
        ok := false;
      }
    }

    // The next_char functions of all states.
    method NextChar(st: State, ch: char) returns (nst: Target, handled: bool, err: Status)
      requires buffer.Length == BUFFER_SIZE && filled < BUFFER_SIZE
      modifies buffer, this`filled
      ensures err == if st == InitS && ch == ')' then SyntaxParenthesis
                     else if st == EscapeS && ch != '"' && ch != '\\' && ch != 'n' then SyntaxEscape
                     else if Added(st, ch) != "" && old(filled) >= MAX_SYMBOL then TooLong
                     else Done
      ensures (nst, handled) == Table(st, ch)
      ensures filled < BUFFER_SIZE &&
              buffer[..filled] == old(buffer[..filled]) + if err == Done then Added(st, ch) else ""
    {
      err := Done;
      var step := Table(st, ch);
      nst, handled := step.0, step.1;
      if st == InitS && ch == ')' {
        err := SyntaxParenthesis;
      } else if st == EscapeS && ch != '"' && ch != '\\' && ch != 'n' {
        err := SyntaxEscape;
      } else if st == EscapeS || ((st == SymbolS || st == DQuoteS) && nst.NoChange?) {
        var ok := AddSymChar(if st == EscapeS then Unescape(ch) else ch);
        if !ok { err := TooLong; }
      }
    }

    // ---------------------------------------------------------------- entering

    // The cells of a new level: a pair behind the last element, and the head it holds.
    method PushLevel(quote: bool)
      requires prev in heap && heap[prev].Pair? && prev < next
      modifies this`heap, this`next, this`prev, this`pairStack
      ensures Picture() == Opened(old(Picture()), quote)
    {
      var pair, head := next, next + 1;
      heap := heap[pair := Pair(NilRef, NilRef)];
      heap := heap[prev := Pair(heap[prev].car, At(pair))];
      heap := heap[head := Pair(HeadCar(quote), NilRef)];
      heap := heap[pair := Pair(At(head), heap[pair].cdr)];
      next := next + 2;
      pairStack := pairStack + [pair];
      prev := head;
    }

    // _fsas_list_enter and _fsas_squote_enter
    method EnterLevel(quote: bool)
      requires Valid() && cfg.lex.Between?
      modifies this`heap, this`next, this`prev, this`pairStack, this`stateStack, this`cfg, this`spines
      ensures Valid()
      ensures cfg == Open(old(cfg), if quote then Quote([]) else List([]))
    {
      hide Denotes, States, Opened;
      ghost var l := if quote then Quote([]) else List([]);
      DenotesCells(Picture(), done, spines, [], cfg.levels, cfg.vals);
      spines := DenotesEnter(Picture(), done, spines, [], cfg.levels, cfg.vals, l);
      PushLevel(quote);
      stateStack := stateStack + [if quote then SQuoteS else ListS];
      StatesOpen(cfg, l);
      cfg := Open(cfg, l);
    }

    // Entering the states that only scan.
    method EnterScan(st: State)
      requires Valid() && cfg.lex.Between? && st in {SymbolS, DQuoteS, CommentS}
      modifies this`filled, this`stateStack, this`cfg
      ensures Valid()
      ensures cfg == old(cfg).(lex := if st == SymbolS then Symbol("")
                                      else if st == DQuoteS then DQuote("") else Comment)
    {
      hide Denotes, States;
      ghost var lex := if st == SymbolS then Symbol("") else if st == DQuoteS then DQuote("") else Comment;
      if st != CommentS { filled := 0; }
      stateStack := stateStack + [st];
      StatesLex(cfg, lex);
      cfg := cfg.(lex := lex);
    }

    // ---------------------------------------------------------------- leaving

    // _fsas_init_come_back: hand over the expression behind the sentinel, if there is one
    method ComeBack(ghost base: seq<Sexp>)
      requires Denotes(Picture(), done, spines, base, [], cfg.vals) && |base| <= 1
      modifies this`heap, this`prev, this`handed, this`spines
      ensures Denotes(Picture(), done, spines, [], [], cfg.vals + base)
    {
      hide Denotes;
      ghost var m := Picture();
      DenotesSentinel(m, done, spines, base, cfg.vals);
      if prev != 0 {
        handed := handed + [heap[heap[0].cdr.id].car];
      }
      heap := heap[0 := Pair(Null, Null)];
      prev := 0;
      if base == [] {
        DenotesIdle(m, done, spines, cfg.vals);
        assert cfg.vals + base == cfg.vals;
      } else {
        assert base == [base[0]];
        DenotesReset(m, done, spines, base[0], cfg.vals, Picture());
      }
      spines := [[0]];
    }

    // Pop the finished state and come back to the one below.
    method Return(ghost base: seq<Sexp>, ghost c: Config)
      requires Denotes(Picture(), done, spines, base, c.levels, cfg.vals)
      requires c.lex.Between? && c.vals == cfg.vals + base && |base| <= 1 && (c.levels != [] ==> base == [])
      requires |stateStack| > 1 && stateStack[..|stateStack| - 1] == States(c) &&
               buffer.Length == BUFFER_SIZE && filled < BUFFER_SIZE
      modifies this`heap, this`prev, this`handed, this`spines, this`stateStack, this`cfg
      ensures Valid() && cfg == c
    {
      hide Denotes, States;
      StatesTop(c);
      stateStack := stateStack[..|stateStack| - 1];
      if Last(stateStack) == InitS { ComeBack(base); }
      else { assert cfg.vals + base == cfg.vals; }
      cfg := c;
    }

    // _fsas_symbol_exit and _fsas_dquote_exit
    method LeaveSymbol()
      requires Valid() && (cfg.lex.Symbol? || cfg.lex.DQuote?)
      modifies this
      ensures Valid() && cfg == Deliver(old(cfg), Sym(old(cfg).lex.buf))
    {
      hide Denotes, States;
      ghost var m, c := Picture(), cfg;
      DenotesCells(m, done, spines, [], cfg.levels, cfg.vals);
      var name := buffer[..filled];
      var sym, pair := next, next + 1;
      heap := heap[sym := SymCell(name)];
      heap := heap[pair := Pair(At(sym), NilRef)];
      heap := heap[prev := Pair(heap[prev].car, At(pair))];
      next := next + 2;
      prev := pair;
      filled := 0;
      done, spines := DenotesSymbol(m, done, spines, [], cfg.levels, cfg.vals, name, Picture());
      StatesDeliver(c, Sym(name));
      assert c.(lex := Between).(lex := c.lex) == c;
      StatesLex(c.(lex := Between), c.lex);
      Return(Grown([], c.levels, Sym(name)).0, Deliver(c, Sym(name)));
    }

    // _fsas_list_exit and _fsas_squote_exit
    method LeaveLevel()
      requires Valid() && cfg.lex.Between? && cfg.levels != []
      modifies this
      ensures Valid() && cfg == Close(old(cfg))
    {
      hide Denotes, States;
      ghost var m, c := Picture(), cfg;
      ghost var l := Last(c.levels);
      ghost var outer := c.(levels := c.levels[..|c.levels| - 1]);
      DenotesCells(m, done, spines, [], cfg.levels, cfg.vals);
      StatesTop(c);
      var pair := Last(pairStack);
      pairStack := pairStack[..|pairStack| - 1];
      if Last(stateStack) == ListS {
        heap := heap[pair := Pair(heap[heap[pair].car.id].cdr, heap[pair].cdr)];
      }
      prev := pair;
      done, spines := DenotesClose(m, done, spines, [], cfg.levels, cfg.vals, Picture());
      assert outer.(lex := Between) == outer;
      StatesDeliver(outer, Value(l));
      Return(Grown([], outer.levels, Value(l)).0, Deliver(outer, Value(l)));
    }

    // ylstk_pop of a comment or escape state, and come_back
    method LeaveComment()
      requires Valid() && cfg.lex.Comment?
      modifies this
      ensures Valid() && cfg == old(cfg).(lex := Between)
    {
      hide Denotes, States;
      ghost var c := cfg.(lex := Between);
      assert c.(lex := Comment) == cfg;
      StatesLex(c, Comment);
      StatesTop(c);
      Return([], c);
    }

    // ---------------------------------------------------------------- the driver

    // After next_char: the symbol buffer may be one character ahead.
    ghost predicate Primed(ch: char)
      reads this, buffer
    {
      && Denotes(Picture(), done, spines, [], cfg.levels, cfg.vals)
      && stateStack == States(cfg) && stateStack != [] && Step(cfg, ch).Next?
      && buffer.Length == BUFFER_SIZE && filled < BUFFER_SIZE
      && (!cfg.lex.Between? && !cfg.lex.Comment? ==> buffer[..filled] == cfg.lex.buf + Added(Last(stateStack), ch))
    }

    // exit the current state, pop it, come back to the one below
    method LeaveState(ch: char)
      requires Primed(ch) && Table(Last(stateStack), ch).0.Leave?
      modifies this
      ensures Valid() && cfg == Step(old(cfg), ch).cfg
    {
      hide Denotes, States;
      StatesTop(cfg);
      var st := Last(stateStack);
      if st == SymbolS || st == DQuoteS {
        LeaveSymbol();
      } else if st == CommentS {
        LeaveComment();
      } else if st == EscapeS {
        stateStack := stateStack[..|stateStack| - 1];
        StatesScan(cfg, Step(cfg, ch).cfg.lex);
        cfg := Step(cfg, ch).cfg;
      } else {
        LeaveLevel();
      }
    }

    // push and enter the next state; an escape outside a symbol enters a symbol first
    method EnterState(state: State, ch: char)
      requires Primed(ch) && Table(Last(stateStack), ch).0 == Enter(state)
      modifies this
      ensures Valid() && cfg == Step(old(cfg), ch).cfg
    {
      hide Denotes, States;
      StatesTop(cfg);
      ghost var d := Step(cfg, ch).cfg;
      var st := Last(stateStack);
      if state == EscapeS {
        if st != SymbolS && st != DQuoteS { EnterScan(SymbolS); }
        stateStack := stateStack + [EscapeS];
        StatesScan(cfg, d.lex);
        cfg := d;
      } else if state == ListS || state == SQuoteS {
        EnterLevel(state == SQuoteS);
      } else {
        EnterScan(state);
      }
    }

    // The body of the loop in ylinterp_automata, for one look at one character.
    method Advance(ch: char) returns (handled: bool, err: Status)
      requires Valid()
      modifies this, buffer
      ensures Valid()
      ensures match Step(old(cfg), ch)
              case Fail(why) => err == why && cfg == old(cfg)
              case Next(d, eaten) => err == Done && handled == eaten && cfg == d
    {
      hide Denotes, States;
      StatesTop(cfg);
      var nst;
      nst, handled, err := NextChar(Last(stateStack), ch);
      if err != Done {
        assert buffer[..filled] == old(buffer[..filled]);
        return;
      }
      match nst
      case NoChange => Settle(ch);
      case Leave => LeaveState(ch);
      case Enter(state) => EnterState(state, ch);
    }

    // Staying in a state: only the symbol buffer may have changed.
    ghost method Settle(ch: char)
      requires Primed(ch) && Table(Last(stateStack), ch).0.NoChange?
      modifies this`cfg
      ensures Valid() && cfg == Step(old(cfg), ch).cfg
    {
      hide Denotes, States;
      StatesTop(cfg);
      if !cfg.lex.Between? { StatesScan(cfg, Step(cfg, ch).cfg.lex); }
      cfg := Step(cfg, ch).cfg;
    }

    // Each expression handed to the evaluator denotes the value at the same place.
    ghost predicate Delivered(vals: seq<Sexp>)
      reads this
    {
      |handed| == |vals| && forall k :: 0 <= k < |vals| ==> Rep(heap, done, handed[k], vals[k])
    }

    // ylinterp_automata: `tail` says that the scan has moved on to the appended newline.
    // An error inside a state function ends the thread at once.
    method Interpret(stream: string) returns (ret: Status)
      requires Valid() && cfg == Config([], [], Between) && stream != ""
      modifies this, buffer
      ensures (cfg.vals, ret) == Read(stream)
      ensures Delivered(cfg.vals)
    {
      hide Denotes, States, Buffer, Run, Step, Pending, Remaining, Effective;
      AutomatonReadsGrammar(Effective(stream));
      ScanBegins(stream);
      var p, tail := 0, false;
      while Current(stream, p, tail) != '\0'
        invariant Valid() && p <= (if tail then 1 else |stream| - 1)
        invariant Run(cfg, Remaining(stream, p, tail)) == Read(stream)
        decreases |Remaining(stream, p, tail)|, Pending(cfg, Current(stream, p, tail))
      {
        var ch := Current(stream, p, tail);
        ScanOn(stream, p, tail);
        RunOn(cfg, Remaining(stream, p, tail));
        var handled, err := Advance(ch);
        if err != Done {
          DenotesDelivered(Picture(), done, spines, cfg.levels, cfg.vals);
          return err;
        }
        if handled { p := p + 1; }
        if !tail && p == |stream| { tail, p := true, 0; }
      }
      ScanEnds(stream, p, tail);
      RunEnds(cfg);
      ret := Finish();
    }

    // At the end of the stream only the bottom state may be left. Then no list or quote
    // is open either: the check of the pair stack cannot fail.
    method Finish() returns (ret: Status)
      requires Valid()
      modifies this
      ensures cfg == old(cfg) && Delivered(cfg.vals)
      ensures ret == if cfg.levels == [] && cfg.lex.Between? then Done else SyntaxUnknown
    {
      hide Denotes, States;
      StatesTop(cfg);
      DenotesDelivered(Picture(), done, spines, cfg.levels, cfg.vals);
      DenotesCells(Picture(), done, spines, [], cfg.levels, cfg.vals);
      var st := Last(stateStack);
      stateStack := stateStack[..|stateStack| - 1];
      if st == InitS {
        DenotesIdle(Picture(), done, spines, cfg.vals);
        heap := heap[0 := Pair(Null, Null)];
        prev := 0;
        spines := [[0]];
        DenotesDelivered(Picture(), done, spines, [], cfg.vals);
        ret := if |pairStack| == 0 then Done else SyntaxUnknown;
      } else {
        ret := SyntaxUnknown;
      }
    }
  }

  lemma DenotesDelivered(m: Image, done: set<nat>, spines: seq<seq<nat>>, levels: seq<Level>, vals: seq<Sexp>)
    requires Denotes(m, done, spines, [], levels, vals)
    ensures |m.handed| == |vals| && forall k :: 0 <= k < |vals| ==> Rep(m.heap, done, m.handed[k], vals[k])
  {}

  // The character under the scan position.
  function Current(stream: string, p: nat, tail: bool): char
    requires p <= if tail then 1 else |stream| - 1
  {
    if !tail then stream[p] else if p == 0 then '\n' else '\0'
  }

  // What the scan has still to see.
  function Remaining(stream: string, p: nat, tail: bool): string
    requires p <= if tail then 1 else |stream| - 1
  {
    if tail then "\n"[p..] else Effective(stream[p..])
  }

  lemma ScanBegins(stream: string)
    requires stream != ""
    ensures Remaining(stream, 0, false) == Effective(stream)
  {
    assert stream[0..] == stream;
  }

  lemma ScanEnds(stream: string, p: nat, tail: bool)
    requires p <= (if tail then 1 else |stream| - 1) && Current(stream, p, tail) == '\0'
    ensures Remaining(stream, p, tail) == ""
  {}

  lemma ScanOn(stream: string, p: nat, tail: bool)
    requires p <= (if tail then 1 else |stream| - 1) && Current(stream, p, tail) != '\0'
    ensures var rest := Remaining(stream, p, tail);
            && rest != [] && rest[0] == Current(stream, p, tail)
            && rest[1..] == if !tail && p + 1 == |stream| then Remaining(stream, 0, true)
                            else Remaining(stream, p + 1, tail)
  {
    if !tail {
      assert stream[p..][1..] == stream[p + 1..];
      if p + 1 == |stream| {
        assert stream[p..][1..] == "";
        assert Effective(stream[p..]) == [stream[p]] + "\n";
        assert Remaining(stream, 0, true) == "\n";
      }
    }
  }

  // ylinterpret_internal: an empty stream is not handed to the automaton at all.
  method InterpretInternal(stream: string) returns (ret: Status, m: Automaton)
    ensures fresh(m) && (m.cfg.vals, ret) == Read(stream) && m.Delivered(m.cfg.vals)
  {
    m := new Automaton();
    if |stream| == 0 {
      DenotesDelivered(m.Picture(), m.done, m.spines, m.cfg.levels, m.cfg.vals);
      return Done, m;
    }
    ret := m.Interpret(stream);
  }
}
