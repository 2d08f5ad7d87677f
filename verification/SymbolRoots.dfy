// The symbol tables as roots of the collector: the full walk of a table marks from every
// value that it stores.
module SymbolRoots {
  import opened Collector
  import opened Keys
  import opened Reachability
  import opened Trie
  import opened Walk

  // _cb_gcmark sees every value; here they are gathered in the order of the walk.
  function Gathering(): Callback<seq<Ref>, Ref> {
    (st: seq<Ref>, key: Key, v: Ref) => (st + [v], true)
  }

  ghost function Values(es: seq<(Key, Ref)>): seq<Ref> {
    seq(|es|, i requires 0 <= i < |es| => es[i].1)
  }

  lemma {:induction false} Gathered(st: seq<Ref>, es: seq<(Key, Ref)>)
    ensures Fold(Gathering(), st, es) == (st + Values(es), true)
    decreases |es|
  {
    if es != [] {
      Gathered(st + [es[0].1], es[1..]);
      assert st + [es[0].1] + Values(es[1..]) == st + Values(es);
    } else {
      assert st + Values(es) == st;
    }
  }

  // The blocks that a table refers to.
  ghost function SymbolTargets(contents: map<Key, Ref>): set<nat> {
    set k | k in contents && contents[k].Block? :: contents[k].k
  }

  ghost predicate TableInPool(contents: map<Key, Ref>, size: nat) {
    forall k :: k in contents && contents[k].Block? ==> contents[k].k < size
  }

  // The full walk meets every value, and only values, of the table.
  lemma WalkMeetsAll(t: Trie<Ref>)
    requires t.Valid()
    ensures forall v :: v in Values(Suffixes(t.contents, [])) <==> exists k :: k in t.contents && t.contents[k] == v
  {
    hide Suffixes, Trie.Shape, Trie.Stores, Trie.Alive;
    ShortKeys(t);
    var es := Suffixes(t.contents, []);
    forall v
      ensures v in Values(es) <==> exists k :: k in t.contents && t.contents[k] == v
    {
      if v in Values(es) {
        var i :| 0 <= i < |es| && Values(es)[i] == v;
        assert [] + es[i].0 == es[i].0 && es[i] == (es[i].0, v);
        SuffixesExact(t.contents, [], es[i].0, v);
      }
      if k :| k in t.contents && t.contents[k] == v {
        assert [] + k == k;
        SuffixesExact(t.contents, [], k, v);
        var i :| 0 <= i < |es| && es[i] == (k, v);
        assert Values(es)[i] == v;
      }
    }
  }

  // yltrie_full_walk with the gathering callback
  method SymbolRefs(t: Trie<Ref>) returns (refs: seq<Ref>)
    requires t.Valid()
    ensures Targets(refs) == SymbolTargets(t.contents)
    ensures forall size: nat :: TableInPool(t.contents, size) ==> InPool(refs, size)
  {
    hide Suffixes, Fold, Gathering, Values, Trie.Shape, Trie.Stores, Trie.Alive;
    var r;
    r, refs := FromPrefix(t, [], Gathering(), []);
    Gathered([], Suffixes(t.contents, []));
    assert [] + Values(Suffixes(t.contents, [])) == Values(Suffixes(t.contents, []));
    WalkMeetsAll(t);
  }

  // ylslu_gcmark
  method MarkTable(pool: Pool, t: Trie<Ref>)
    requires pool.Valid() && t.Valid() && TableInPool(t.contents, pool.slots.Length)
    requires MarksClosed(pool.slots[..], {})
    modifies pool.slots, pool`staticMarks
    ensures pool.Valid() && MarksClosed(pool.slots[..], {})
    ensures MarkedFrom(old(pool.slots[..]), pool.slots[..], SymbolTargets(t.contents))
  {
    var refs := SymbolRefs(t);
    pool.MarkEach(refs, {});
  }

  // What every table of a sequence refers to.
  ghost function TableTargets(tables: seq<map<Key, Ref>>): set<nat> {
    if tables == [] then {} else TableTargets(tables[..|tables| - 1]) + SymbolTargets(tables[|tables| - 1])
  }

  ghost function Contents(tables: seq<Trie<Ref>>): seq<map<Key, Ref>>
    reads tables
  {
    seq(|tables|, i requires 0 <= i < |tables| reads tables => tables[i].contents)
  }

  lemma OneMoreList(lists: seq<seq<Ref>>, refs: seq<Ref>)
    ensures RootSet([], lists + [refs], []) == RootSet([], lists, []) + Targets(refs)
  {
    assert (lists + [refs])[..|lists|] == lists && (lists + [refs])[..|lists| + 1] == lists + [refs];
    RootSetStep([], lists + [refs], |lists|);
  }

  lemma OneMoreTable(cs: seq<map<Key, Ref>>, i: nat)
    requires i < |cs|
    ensures TableTargets(cs[..i + 1]) == TableTargets(cs[..i]) + SymbolTargets(cs[i])
  {
    assert cs[..i + 1][..i] == cs[..i] && cs[..i + 1][i] == cs[i];
  }

  // _gc_perthread_mark for every thread
  method ThreadRefs(threads: seq<Trie<Ref>>, ghost size: nat) returns (lists: seq<seq<Ref>>)
    requires forall t :: t in threads ==> t.Valid() && TableInPool(t.contents, size)
    ensures forall l :: l in lists ==> InPool(l, size)
    ensures RootSet([], lists, []) == TableTargets(Contents(threads))
  {
    hide InPool, TableInPool, SymbolTargets, RootSet, TableTargets, Trie.Valid;
    ghost var cs := Contents(threads);
    lists := [];
    NoTables();
    assert cs[..0] == [];
    var i := 0;
    while i < |threads|
      invariant 0 <= i <= |threads|
      invariant forall l :: l in lists ==> InPool(l, size)
      invariant RootSet([], lists, []) == TableTargets(cs[..i])
    {
      assert threads[i] in threads;
      var refs := SymbolRefs(threads[i]);
      OneMoreList(lists, refs);
      OneMoreTable(cs, i);
      lists := lists + [refs];
      i := i + 1;
    }
    assert cs[..i] == cs;
  }

  lemma NoTables()
    ensures RootSet([], [], []) == TableTargets([])
  {}

  // Every value of a table that is a block in use survives.
  ghost predicate KeepsTable(s: seq<Slot>, t: seq<Slot>, lo: nat, hi: nat, contents: map<Key, Ref>) {
    |t| == |s| && forall n, c :: n in contents && 0 <= c < |s| && s[c].i >= lo && contents[n] == Block(c) ==>
      t[c].i >= hi
  }

  ghost predicate HoldsTable(x: set<nat>, contents: map<Key, Ref>) {
    forall n, c: nat :: n in contents && contents[n] == Block(c) ==> c in x
  }

  // Whatever set holds the roots and what its blocks refer to holds all survivors.
  ghost predicate KeepsNothingElse(s: seq<Slot>, t: seq<Slot>, hi: nat, bases: seq<Ref>, threads: seq<map<Key, Ref>>,
                                   globals: map<Key, Ref>)
  {
    |t| == |s| && forall x: set<nat> ::
      HoldsAll(x, bases) && (forall i :: 0 <= i < |threads| ==> HoldsTable(x, threads[i])) && HoldsTable(x, globals) &&
      ClosedUnder(s, x) ==>
        forall k :: 0 <= k < |t| && t[k].i >= hi ==> k in x
  }

  lemma {:induction false} TableInTargets(threads: seq<map<Key, Ref>>, i: nat)
    requires i < |threads|
    ensures SymbolTargets(threads[i]) <= TableTargets(threads)
    decreases |threads|
  {
    hide SymbolTargets;
    if i < |threads| - 1 { TableInTargets(threads[..|threads| - 1], i); }
  }

  lemma TableSurvives(s: seq<Slot>, t: seq<Slot>, lo: nat, hi: nat, roots: set<nat>, contents: map<Key, Ref>)
    requires CollectsTo(s, t, lo, hi, roots) && SymbolTargets(contents) <= roots
    ensures KeepsTable(s, t, lo, hi, contents)
  {
    hide GraphOf, Reachable;
    forall n, c | n in contents && 0 <= c < |s| && s[c].i >= lo && contents[n] == Block(c) ensures t[c].i >= hi {
      assert c in SymbolTargets(contents);
      ReachableRoot(GraphOf(s), roots, c);
    }
  }

  lemma TablesSurvive(s: seq<Slot>, t: seq<Slot>, lo: nat, hi: nat, bases: seq<Ref>, threads: seq<map<Key, Ref>>,
      globals: map<Key, Ref>)
    requires CollectsTo(s, t, lo, hi, Targets(bases) + TableTargets(threads) + SymbolTargets(globals))
    ensures KeepsTable(s, t, lo, hi, globals)
    ensures forall i :: 0 <= i < |threads| ==> KeepsTable(s, t, lo, hi, threads[i])
  {
    hide CollectsTo, KeepsTable, SymbolTargets, TableTargets, Targets;
    var roots := Targets(bases) + TableTargets(threads) + SymbolTargets(globals);
    TableSurvives(s, t, lo, hi, roots, globals);
    forall i | 0 <= i < |threads| ensures KeepsTable(s, t, lo, hi, threads[i]) {
      TableInTargets(threads, i);
      TableSurvives(s, t, lo, hi, roots, threads[i]);
    }
  }

  lemma {:induction false} TargetsHeld(x: set<nat>, threads: seq<map<Key, Ref>>)
    requires forall i :: 0 <= i < |threads| ==> HoldsTable(x, threads[i])
    ensures TableTargets(threads) <= x
    decreases |threads|
  {
    if threads != [] {
      assert HoldsTable(x, threads[|threads| - 1]);
      TargetsHeld(x, threads[..|threads| - 1]);
    }
  }

  lemma NothingElseSurvives(s: seq<Slot>, t: seq<Slot>, lo: nat, hi: nat, bases: seq<Ref>, threads: seq<map<Key, Ref>>,
      globals: map<Key, Ref>)
    requires CollectsTo(s, t, lo, hi, Targets(bases) + TableTargets(threads) + SymbolTargets(globals))
    ensures KeepsNothingElse(s, t, hi, bases, threads, globals)
  {
    hide Reachable, TableTargets;
    var g, roots := GraphOf(s), Targets(bases) + TableTargets(threads) + SymbolTargets(globals);
    forall x: set<nat> |
      HoldsAll(x, bases) && (forall i :: 0 <= i < |threads| ==> HoldsTable(x, threads[i])) && HoldsTable(x, globals) &&
      ClosedUnder(s, x)
      ensures forall k :: 0 <= k < |t| && t[k].i >= hi ==> k in x
    {
      TargetsHeld(x, threads);
      forall y, c | y in x && Edge(g, y, c) ensures c in x { ChildIs(s[y].body, c); }
      ReachableLeast(g, roots, x);
    }
  }

  // _gc with the symbol tables themselves: a block is in use afterwards exactly when it
  // was, and can be reached from a base block or from a symbol of some table.
  method CollectAll(pool: Pool, bases: seq<Ref>, threads: seq<Trie<Ref>>, globals: Trie<Ref>)
    requires pool.Valid() && InPool(bases, pool.slots.Length)
    requires globals.Valid() && TableInPool(globals.contents, pool.slots.Length)
    requires forall t :: t in threads ==> t.Valid() && TableInPool(t.contents, pool.slots.Length)
    modifies pool, pool.slots, pool.pointers
    ensures pool.Valid()
    ensures var roots := Targets(bases) + TableTargets(Contents(threads)) + SymbolTargets(globals.contents);
            forall k :: 0 <= k < pool.slots.Length ==>
              (pool.Used(k) <==> old(pool.Used(k)) && Reachable(old(GraphOf(pool.slots[..])), roots, k)) &&
              pool.slots[k].body == if pool.Used(k) then old(pool.slots[k].body) else Clean
    ensures KeepsReferred(old(pool.slots[..]), pool.slots[..], old(pool.free), pool.free)
    ensures KeepsRoots(old(pool.slots[..]), pool.slots[..], old(pool.free), pool.free, bases)
    ensures KeepsTable(old(pool.slots[..]), pool.slots[..], old(pool.free), pool.free, globals.contents)
    ensures forall t :: t in threads ==>
              KeepsTable(old(pool.slots[..]), pool.slots[..], old(pool.free), pool.free, t.contents)
    ensures KeepsNothingElse(old(pool.slots[..]), pool.slots[..], pool.free, bases, Contents(threads), globals.contents)
  {
    hide KeepsReferred, KeepsRoots, KeepsTable, KeepsNothingElse, KeepsNoMore;
    hide Reachable, GraphOf, InPool, TableInPool, SymbolTargets, TableTargets, RootSet, Pool.Valid, Trie.Valid, Sound;
    var lists := ThreadRefs(threads, pool.slots.Length);
    var globalRefs := SymbolRefs(globals);
    AllRoots(bases, lists, globalRefs);
    ghost var s, lo, cs := pool.slots[..], pool.free, Contents(threads);
    pool.Collect(bases, lists, globalRefs);
    TablesSurvive(s, pool.slots[..], lo, pool.free, bases, cs, globals.contents);
    NothingElseSurvives(s, pool.slots[..], lo, pool.free, bases, cs, globals.contents);
    forall t | t in threads ensures KeepsTable(s, pool.slots[..], lo, pool.free, t.contents) {
      var i :| 0 <= i < |threads| && threads[i] == t;
      assert cs[i] == t.contents;
    }
  }

  lemma AllRoots(bases: seq<Ref>, lists: seq<seq<Ref>>, globals: seq<Ref>)
    ensures RootSet(bases, lists, globals) == Targets(bases) + RootSet([], lists, []) + Targets(globals)
  {}
}
