// The ordered walk of the trie and the symbol-table queries built on it.
module Walk {
  import opened Keys
  import opened Trie
  import opened Wrappers

  // A callback takes its own state, a key and a value, and says whether to keep going.
  type Callback<!S, !V> = (S, Key, V) -> (S, bool)

  // What a callback makes of a list of entries: it stops at the first refusal.
  function Fold<S, V>(cb: Callback<S, V>, u: S, es: seq<(Key, V)>): (S, bool) {
    if es == [] then (u, true)
    else
      var x := cb(u, es[0].0, es[0].1);
      if x.1 then Fold(cb, x.0, es[1..]) else x
  }

  lemma {:induction false} FoldConcat<S, V>(cb: Callback<S, V>, u: S, a: seq<(Key, V)>, b: seq<(Key, V)>)
    ensures Fold(cb, u, a + b) == if Fold(cb, u, a).1 then Fold(cb, Fold(cb, u, a).0, b) else Fold(cb, u, a)
  {
    if a == [] {
      assert a + b == b;
    } else {
      assert (a + b)[1..] == a[1..] + b;
      var x := cb(u, a[0].0, a[0].1);
      if x.1 { FoldConcat(cb, x.0, a[1..], b); }
    }
  }

  // ---------------------------------------------------------------- what is listed

  ghost function Paths<V>(contents: map<Key, V>): set<Path> {
    set k | k in contents :: Nibbles(k)
  }

  ghost predicate Stored<V>(contents: map<Key, V>, n: nat, p: Path) {
    IsPath(p) && |p| % 2 == 0 && Bytes(p) in contents && 2 * n <= |p|
  }

  // The entry of a stored path, minus the first n bytes of its key.
  ghost function Entry<V>(contents: map<Key, V>, n: nat, p: Path): seq<(Key, V)> {
    if Stored(contents, n, p) then [(Bytes(p)[n..], contents[Bytes(p)])] else []
  }

  ghost function Entries<V>(contents: map<Key, V>, n: nat, l: seq<Path>): seq<(Key, V)> {
    if l == [] then [] else Entry(contents, n, l[0]) + Entries(contents, n, l[1..])
  }

  lemma {:induction false} EntriesConcat<V>(contents: map<Key, V>, n: nat, a: seq<Path>, b: seq<Path>)
    ensures Entries(contents, n, a + b) == Entries(contents, n, a) + Entries(contents, n, b)
  {
    if a == [] {
      assert a + b == b;
    } else {
      assert (a + b)[1..] == a[1..] + b;
      EntriesConcat(contents, n, a[1..], b);
    }
  }

  lemma {:induction false} EntriesAt<V>(contents: map<Key, V>, n: nat, l: seq<Path>)
    requires forall p :: p in l ==> Stored(contents, n, p)
    ensures |Entries(contents, n, l)| == |l|
    ensures forall i :: 0 <= i < |l| ==> [Entries(contents, n, l)[i]] == Entry(contents, n, l[i])
  {
    hide Stored, Entry;
    if l != [] {
      EntriesAt(contents, n, l[1..]);
      assert Stored(contents, n, l[0]);
      EntryIsOne(contents, n, l[0]);
    }
  }

  lemma EntryIsOne<V>(contents: map<Key, V>, n: nat, p: Path)
    requires Stored(contents, n, p)
    ensures |Entry(contents, n, p)| == 1
  {}

  // The entries of the keys that start with `prefix`, in the order of their paths.
  ghost function Suffixes<V>(contents: map<Key, V>, prefix: Key): seq<(Key, V)> {
    Entries(contents, |prefix|, Listing(Paths(contents), Nibbles(prefix)))
  }

  lemma PathsAreStored<V>(contents: map<Key, V>, prefix: Key, p: Path) returns (k: Key)
    requires p in Paths(contents) && Nibbles(prefix) <= p
    ensures Stored(contents, |prefix|, p)
    ensures k in contents && Nibbles(k) == p && Bytes(p) == k && prefix <= k
  {
    k :| k in contents && Nibbles(k) == p;
    NibblesIsPath(k);
    NibblesOfBytes(p);
    NibblesInjective(Bytes(p), k);
    NibblesPrefix(prefix, k);
  }

  // A listed entry, seen through its path.
  lemma SuffixAt<V>(contents: map<Key, V>, prefix: Key)
    ensures var l := Listing(Paths(contents), Nibbles(prefix));
            |Suffixes(contents, prefix)| == |l| &&
            forall i :: 0 <= i < |l| ==>
              Nibbles(prefix + Suffixes(contents, prefix)[i].0) == l[i] &&
              prefix + Suffixes(contents, prefix)[i].0 in contents &&
              contents[prefix + Suffixes(contents, prefix)[i].0] == Suffixes(contents, prefix)[i].1
  {
    hide Listing, Stored, Nibbles, Bytes, Paths;
    var l := Listing(Paths(contents), Nibbles(prefix));
    ListingSound(Paths(contents), Nibbles(prefix));
    forall p | p in l ensures Stored(contents, |prefix|, p) { var k := PathsAreStored(contents, prefix, p); }
    EntriesAt(contents, |prefix|, l);
    forall i | 0 <= i < |l|
      ensures var e := Suffixes(contents, prefix)[i];
              Nibbles(prefix + e.0) == l[i] && prefix + e.0 in contents && contents[prefix + e.0] == e.1
    {
      var k := PathsAreStored(contents, prefix, l[i]);
      assert Suffixes(contents, prefix)[i] == (k[|prefix|..], contents[k]);
      assert prefix + k[|prefix|..] == k;
    }
  }

  // Exactly the stored keys with the prefix, each minus the prefix and with its value...
  lemma SuffixesExact<V>(contents: map<Key, V>, prefix: Key, w: Key, v: V)
    requires forall k :: k in contents ==> |k| < MAX_KEY_LEN
    ensures (w, v) in Suffixes(contents, prefix) <==> prefix + w in contents && contents[prefix + w] == v
  {
    hide Listing, Nibbles, Bytes, Paths, Suffixes, IsPath;
    var l := Listing(Paths(contents), Nibbles(prefix));
    SuffixAt(contents, prefix);
    if prefix + w in contents && contents[prefix + w] == v {
      var p := Nibbles(prefix + w);
      NibblesIsPath(prefix + w);
      NibblesTake(prefix + w, |prefix + w|);
      NibblesPrefix(prefix, prefix + w);
      InPaths(contents, prefix + w);
      ListingComplete(Paths(contents), Nibbles(prefix), p);
      var i :| 0 <= i < |l| && l[i] == p;
      var e := Suffixes(contents, prefix)[i];
      NibblesInjective(prefix + e.0, prefix + w);
      assert e.0 == (prefix + e.0)[|prefix|..] == (prefix + w)[|prefix|..] == w;
      assert e == (w, v);
    }
  }

  lemma InPaths<V>(contents: map<Key, V>, k: Key)
    requires k in contents
    ensures Nibbles(k) in Paths(contents)
  {}

  lemma LessStrips(c: Key, a: Key, b: Key)
    requires Less(c + a, c + b)
    ensures Less(a, b)
  {
    var n: nat :| DifferAt(c + a, c + b, n);
    assert forall i :: 0 <= i < |c| ==> (c + a)[i] == (c + b)[i];
    var m := n - |c|;
    assert a[..m] == (c + a)[..n][|c|..] && b[..m] == (c + b)[..n][|c|..];
    assert DifferAt(a, b, m);
  }

  // ... in dictionary order of unsigned bytes, hence once each.
  lemma SuffixesOrdered<V>(contents: map<Key, V>, prefix: Key, i: nat, j: nat)
    requires i < j < |Suffixes(contents, prefix)|
    ensures Less(Suffixes(contents, prefix)[i].0, Suffixes(contents, prefix)[j].0)
  {
    hide Listing, Nibbles, Paths, Suffixes, Less;
    var es := Suffixes(contents, prefix);
    SuffixAt(contents, prefix);
    ListingSorted(Paths(contents), Nibbles(prefix));
    NibblesOrder(prefix + es[i].0, prefix + es[j].0);
    LessStrips(prefix, es[i].0, es[j].0);
  }

  lemma NotLessItself(a: Key)
    ensures !Less(a, a)
  {}

  // ---------------------------------------------------------------- the walk

  // The first |s| nibbles of the buffer are s.
  ghost predicate Rebuilt(b: seq<Byte>, s: Path) {
    && IsPath(s) && |s| <= MAX_DEPTH && |b| == MAX_KEY_LEN + 1
    && (forall j :: 0 <= j < |s| / 2 ==> b[j] == 16 * s[2 * j] + s[2 * j + 1])
    && (|s| % 2 == 1 ==> b[|s| / 2] / 16 == s[|s| - 1])
  }

  lemma RebuiltKey(b: seq<Byte>, base: Path, s: Path, n: nat)
    requires Rebuilt(b, s) && |s| % 2 == 0 && IsPath(base + s) && |base| == 2 * n
    ensures |s| / 2 <= |b| && b[..|s| / 2] == Bytes(base + s)[n..]
  {
    forall j | 0 <= j < |s| / 2 ensures b[..|s| / 2][j] == Bytes(base + s)[n..][j] {
      assert Bytes(base + s)[n + j] == Byte2((base + s)[2 * (n + j)], (base + s)[2 * (n + j) + 1]);
    }
  }

  lemma RebuiltStep(b: seq<Byte>, s: Path, i: nat)
    requires Rebuilt(b, s) && i < 16 && |s| < MAX_DEPTH
    ensures |s| / 2 < |b|
    ensures var c := if |s| % 2 == 0 then 16 * i else b[|s| / 2] / 16 * 16 + i;
            c < 256 && Rebuilt(b[|s| / 2 := c], s + [i])
  {}

  lemma RebuiltBack(b: seq<Byte>, s: Path, i: nat)
    requires Rebuilt(b, s + [i])
    ensures Rebuilt(b, s)
  {
    assert forall j :: 0 <= j < |s| ==> (s + [i])[j] == s[j];
  }

  // What a stored path means for the listing.
  lemma NodeEntry<V>(t: Trie<V>, q: Path, n: nat)
    requires t.Valid() && q in t.addr && 2 * n <= |q|
    ensures q in Paths(t.contents) <==> t.Holds(q)
    ensures t.Holds(q) ==> Stored(t.contents, n, q) && t.addr[q].val.value == t.contents[Bytes(q)]
  {
    hide Nibbles, Bytes, IsPath;
    if t.Holds(q) {
      NibblesOfBytes(q);
      t.Lookup(Bytes(q));
      InPaths(t.contents, Bytes(q));
    }
    if q in Paths(t.contents) {
      var k :| k in t.contents && Nibbles(k) == q;
      t.Lookup(k);
    }
  }

  lemma NothingBelow<V>(t: Trie<V>, q: Path)
    requires t.Valid() && q !in t.addr
    ensures Listing(Paths(t.contents), q) == []
  {
    hide Listing, Nibbles, Bytes, IsPath, Trie.Shape, Trie.Stores, Trie.Alive;
    forall p: Path | p in Paths(t.contents) ensures !(q <= p) {
      var k :| k in t.contents && Nibbles(k) == p;
      t.Lookup(k);
      if q <= p { assert p[..|q|] == q; t.Missing(p, |q|); }
    }
    ListingEmpty(Paths(t.contents), q);
  }

  // The listing at a node starts with the node itself, if it has a value.
  lemma ListingHere<V>(t: Trie<V>, q: Path, n: nat)
    requires t.Valid() && q in t.addr && 2 * n <= |q| <= MAX_DEPTH
    ensures var rest := Entries(t.contents, n, ListingFrom(Paths(t.contents), q, 0));
            Entries(t.contents, n, Listing(Paths(t.contents), q)) ==
            if t.Holds(q) then Entry(t.contents, n, q) + rest else rest
  {
    hide Paths, Stored, Bytes, ListingFrom;
    NodeEntry(t, q, n);
    var rest := ListingFrom(Paths(t.contents), q, 0);
    if t.Holds(q) {
      EntriesConcat(t.contents, n, [q], rest);
      assert Entries(t.contents, n, [q]) == Entry(t.contents, n, q);
    } else {
      assert [] + rest == rest;
    }
  }

  // Reporting the child and then the later children is reporting from the child on.
  lemma FoldChild<S, V>(contents: map<Key, V>, cb: Callback<S, V>, u: S, q: Path, i: nat, n: nat)
    requires |q| <= MAX_DEPTH && i < 16
    ensures var P := Paths(contents);
            var x := Fold(cb, u, Entries(contents, n, Listing(P, q + [i])));
            Fold(cb, u, Entries(contents, n, ListingFrom(P, q, i))) ==
            if x.1 then Fold(cb, x.0, Entries(contents, n, ListingFrom(P, q, i + 1))) else x
  {
    hide Paths, Entry, Listing;
    var P := Paths(contents);
    EntriesConcat(contents, n, Listing(P, q + [i]), ListingFrom(P, q, i + 1));
    FoldConcat(cb, u, Entries(contents, n, Listing(P, q + [i])), Entries(contents, n, ListingFrom(P, q, i + 1)));
  }

  ghost predicate Reports<S, V>(contents: map<Key, V>, n: nat, l: seq<Path>, cb: Callback<S, V>, u: S,
      go: bool, u': S)
  {
    (u', go) == Fold(cb, u, Entries(contents, n, l))
  }

  lemma HeldEven<V>(t: Trie<V>, q: Path)
    requires t.Stores() && t.Holds(q)
    ensures |q| % 2 == 0
  {}

  // The callback on the node's own entry, before the entries below.
  lemma FoldOne<S, V>(t: Trie<V>, cb: Callback<S, V>, u: S, q: Path, n: nat, w: Key, v: V)
    requires t.Valid() && t.Holds(q) && t.addr[q].val == Some(v) && 2 * n <= |q| <= MAX_DEPTH
    requires IsPath(q) && |q| % 2 == 0 && w == Bytes(q)[n..]
    ensures var rest := Entries(t.contents, n, ListingFrom(Paths(t.contents), q, 0));
            Fold(cb, u, Entry(t.contents, n, q) + rest) ==
            if cb(u, w, v).1 then Fold(cb, cb(u, w, v).0, rest) else cb(u, w, v)
  {
    hide Entries, ListingFrom, Bytes, Paths;
    NodeEntry(t, q, n);
    var e := Entry(t.contents, n, q);
    var rest := Entries(t.contents, n, ListingFrom(Paths(t.contents), q, 0));
    assert e == [(w, v)];
    assert (e + rest)[0] == (w, v) && (e + rest)[1..] == rest;
  }

  lemma NothingToFold<S, V>(contents: map<Key, V>, cb: Callback<S, V>, u: S, n: nat)
    ensures Fold(cb, u, Entries(contents, n, [])) == (u, true)
  {}

  lemma EndOfListing<S, V>(contents: map<Key, V>, cb: Callback<S, V>, u: S, q: Path, n: nat)
    requires |q| <= MAX_DEPTH
    ensures Fold(cb, u, Entries(contents, n, ListingFrom(Paths(contents), q, 16))) == (u, true)
  {}

  // _walk_internal on the node at q; the buffer holds what q adds to the path `base` of
  // the prefix. The buffer never runs out, so the result is 1 or 0, never -1.
  method WalkNode<S, V>(t: Trie<V>, n: Node<V>, cb: Callback<S, V>, user: S, buf: array<Byte>,
                        bitOffset: nat, ghost base: Path, ghost s: Path)
    returns (r: int, u: S)
    requires t.Valid() && base + s in t.addr && t.addr[base + s] == n
    requires |base| % 2 == 0 && bitOffset == 4 * |s| && Rebuilt(buf[..], s)
    modifies buf
    ensures t.Valid() && Rebuilt(buf[..], s)
    ensures r == 1 || r == 0
    ensures Reports(t.contents, |base| / 2, Listing(Paths(t.contents), base + s), cb, user, r == 1, u)
    decreases MAX_DEPTH - |s|
  {
    hide Rebuilt, Listing, ListingFrom, Paths, Stored, Entries, Entry, Fold, IsPath, Bytes;
    hide Trie.Shape, Trie.Stores, Trie.Alive;
    ghost var q, P, m := base + s, Paths(t.contents), |base| / 2;
    t.Deep(q);
    ListingHere(t, q, m);
    u := user;
    if n.val.Some? {
      assert t.Holds(q);
      HeldEven(t, q);
      RebuiltKey(buf[..], base, s, m);
      FoldOne(t, cb, user, q, m, buf[..bitOffset / 8], n.val.value);
      var x := cb(user, buf[..bitOffset / 8], n.val.value);
      if !x.1 {
        return 0, x.0;
      }
      u := x.0;
    }
    var i := 0;
    while i < 16
      invariant 0 <= i <= 16 && Rebuilt(buf[..], s)
      invariant Fold(cb, user, Entries(t.contents, m, Listing(P, q))) ==
                Fold(cb, u, Entries(t.contents, m, ListingFrom(P, q, i)))
    {
      t.Child(q, i);
      FoldChild(t.contents, cb, u, q, i, m);
      if n.children[i] != null {
        t.Deep(q + [i]);
        assert bitOffset / 8 != MAX_KEY_LEN;
        var p := bitOffset / 8;
        RebuiltStep(buf[..], s, i);
        assert base + (s + [i]) == q + [i];
        ghost var was := buf[..];
        buf[p] := if bitOffset % 8 == 0 then 16 * i else buf[p] / 16 * 16 + i;
        assert buf[..] == was[p := buf[p]];
        r, u := WalkNode(t, n.children[i], cb, u, buf, bitOffset + 4, base, s + [i]);
        RebuiltBack(buf[..], s, i);
        if r <= 0 {
          return;
        }
      } else {
        NothingBelow(t, q + [i]);
        NothingToFold(t.contents, cb, u, m);
      }
      i := i + 1;
    }
    EndOfListing(t.contents, cb, u, q, m);
    r := 1;
  }

  // yltrie_walk from the end of `prefix`: -1 when the trie does not lead there.
  method FromPrefix<S, V>(t: Trie<V>, prefix: Key, cb: Callback<S, V>, user: S) returns (r: int, u: S)
    requires t.Valid()
    ensures r == -1 <==> prefix != [] && forall k :: k in t.contents ==> !(prefix <= k)
    ensures r == -1 || r == 0 || r == 1
    ensures (u, r != 0) == Fold(cb, user, Suffixes(t.contents, prefix))
  {
    hide Rebuilt, Listing, Paths, Entries, Fold, Nibbles, Trie.Shape, Trie.Stores, Trie.Alive;
    var buf := new Byte[MAX_KEY_LEN + 1](_ => 0);
    var n := t.Find(prefix);
    t.NodesArePrefixes(Nibbles(prefix));
    NibblesIsPath(prefix);
    forall k: Key | k in t.contents ensures t.Leads(Nibbles(prefix), k) <==> prefix <= k {
      NibblesPrefix(prefix, k);
    }
    NibblesTake(prefix, |prefix|);
    if n == null {
      NothingBelow(t, Nibbles(prefix));
      NothingToFold(t.contents, cb, user, |prefix|);
      return -1, user;
    }
    assert Nibbles(prefix) + [] == Nibbles(prefix);
    NothingRebuilt(buf[..]);
    r, u := WalkNode(t, n, cb, user, buf, 0, Nibbles(prefix), []);
  }

  lemma NothingRebuilt(b: seq<Byte>)
    requires |b| == MAX_KEY_LEN + 1
    ensures Rebuilt(b, [])
  {}

  lemma ShortKeys<V>(t: Trie<V>)
    requires t.Valid()
    ensures forall k :: k in t.contents ==> |k| < MAX_KEY_LEN
  {
    hide Nibbles, Bytes, Trie.Shape, Trie.Stores, Trie.Alive;
    forall k | k in t.contents ensures |k| < MAX_KEY_LEN {
      t.Lookup(k);
      t.Deep(Nibbles(k));
    }
  }
}

// The queries of a symbol table.
module SymbolTable {
  import opened Keys
  import opened Trie
  import opened Walk
  import opened Wrappers

  datatype Tally = Tally(cnt: nat, maxlen: nat)

  // _cb_nr_candidates: how many, and the longest
  function Counting<V>(): Callback<Tally, V> {
    (st: Tally, key: Key, v: V) => (Tally(st.cnt + 1, if st.maxlen < |key| then |key| else st.maxlen), true)
  }

  // The caller's buffers, how many of them are filled, and whether a write has left its
  // buffer. What lies beyond a buffer is not part of the state.
  datatype Copies = Copies(buffers: seq<seq<Byte>>, i: nat, escaped: bool)

  // memcpy of the key and the trailing 0, as far as the buffer reaches
  function Written(buffer: seq<Byte>, key: Key): (b: seq<Byte>)
    ensures |b| == |buffer|
  {
    if |key| < |buffer| then key + [0] + buffer[|key| + 1..] else key[..|buffer|]
  }

  // _cb_candidates: copy until the buffers are used up; their size is not looked at.
  function Copying<V>(): Callback<Copies, V> {
    (st: Copies, key: Key, v: V) =>
      if st.i >= |st.buffers| then (st, false)
      else
        (Copies(st.buffers[st.i := Written(st.buffers[st.i], key)], st.i + 1,
                st.escaped || |key| >= |st.buffers[st.i]|), true)
  }

  lemma {:induction false} Counted<V>(st: Tally, es: seq<(Key, V)>)
    ensures var x := Fold(Counting(), st, es);
            x.1 && x.0.cnt == st.cnt + |es| && st.maxlen <= x.0.maxlen &&
            (forall e :: e in es ==> |e.0| <= x.0.maxlen) &&
            (x.0.maxlen == st.maxlen || exists e :: e in es && |e.0| == x.0.maxlen)
    decreases |es|
  {
    if es != [] {
      Counted(Counting()(st, es[0].0, es[0].1).0, es[1..]);
      assert forall e :: e in es ==> e == es[0] || e in es[1..];
    }
  }

  ghost function Names<V>(es: seq<(Key, V)>): (names: seq<Key>)
    ensures |names| == |es|
  {
    seq(|es|, i requires 0 <= i < |es| => es[i].0)
  }

  function Min(a: nat, b: nat): nat { if a < b then a else b }

  // The buffers in [from, upto) hold their names; the others are as before.
  ghost predicate Filled(before: seq<seq<Byte>>, after: seq<seq<Byte>>, names: seq<Key>, from: nat, upto: nat) {
    |after| == |before| && upto <= |names| &&
    forall j :: 0 <= j < |before| ==>
      after[j] == if from <= j < upto && j < |names| then Written(before[j], names[j]) else before[j]
  }

  // One of these names does not fit into its buffer.
  ghost predicate TooLong(buffers: seq<seq<Byte>>, names: seq<Key>, from: nat, upto: nat) {
    exists j :: from <= j < upto && j < |names| && j < |buffers| && |names[j]| >= |buffers[j]|
  }

  // A write leaves its buffer exactly when a name that is copied does not fit.
  lemma {:induction false} Copied<V>(st: Copies, es: seq<(Key, V)>)
    requires st.i <= |st.buffers| && st.i <= |es|
    ensures var u := Fold(Copying(), st, es[st.i..]).0;
            u.i == Min(|st.buffers|, |es|) &&
            Filled(st.buffers, u.buffers, Names(es), st.i, u.i) &&
            (u.escaped <==> st.escaped || TooLong(st.buffers, Names(es), st.i, u.i))
    decreases |es| - st.i
  {
    if st.i < |es| && st.i < |st.buffers| {
      var next := Copying()(st, es[st.i].0, es[st.i].1).0;
      assert es[st.i..][1..] == es[next.i..];
      Copied(next, es);
      CopiedOne(st, next, Fold(Copying(), next, es[next.i..]).0, Names(es));
    }
  }

  lemma CopiedOne(st: Copies, next: Copies, u: Copies, names: seq<Key>)
    requires st.i < |st.buffers| && st.i < |names| && st.i + 1 == next.i <= u.i
    requires next.buffers == st.buffers[st.i := Written(st.buffers[st.i], names[st.i])]
    requires next.escaped <==> st.escaped || |names[st.i]| >= |st.buffers[st.i]|
    requires Filled(next.buffers, u.buffers, names, next.i, u.i)
    requires u.escaped <==> next.escaped || TooLong(next.buffers, names, next.i, u.i)
    ensures Filled(st.buffers, u.buffers, names, st.i, u.i)
    ensures u.escaped <==> st.escaped || TooLong(st.buffers, names, st.i, u.i)
  {
    hide Written;
    if TooLong(next.buffers, names, next.i, u.i) {
      var j :| next.i <= j < u.i && j < |names| && j < |next.buffers| && |names[j]| >= |next.buffers[j]|;
      assert |names[j]| >= |st.buffers[j]|;
    }
    if TooLong(st.buffers, names, st.i, u.i) {
      var j :| st.i <= j < u.i && j < |names| && j < |st.buffers| && |names[j]| >= |st.buffers[j]|;
      assert j > st.i ==> next.buffers[j] == st.buffers[j];
    }
  }

  // The stored symbols that start with `prefix`.
  ghost function Having<V>(contents: map<Key, V>, prefix: Key): set<Key> {
    set k | k in contents && prefix <= k
  }

  lemma {:induction false} DistinctCount<T>(s: seq<T>)
    requires forall i, j :: 0 <= i < j < |s| ==> s[i] != s[j]
    ensures |set x | x in s| == |s|
  {
    if s != [] {
      var rest := s[..|s| - 1];
      DistinctCount(rest);
      assert (set x | x in s) == (set x | x in rest) + {s[|s| - 1]};
    }
  }

  // The walk from a prefix meets each symbol with that prefix exactly once.
  lemma SuffixCount<V>(contents: map<Key, V>, prefix: Key)
    requires forall k :: k in contents ==> |k| < MAX_KEY_LEN
    ensures |Suffixes(contents, prefix)| == |Having(contents, prefix)|
    ensures forall e :: e in Suffixes(contents, prefix) ==> prefix + e.0 in Having(contents, prefix)
    ensures forall k :: k in Having(contents, prefix) ==> (k[|prefix|..], contents[k]) in Suffixes(contents, prefix)
  {
    hide Suffixes, Less;
    var es := Suffixes(contents, prefix);
    var ks := seq(|es|, i requires 0 <= i < |es| => prefix + es[i].0);
    forall i, j | 0 <= i < j < |ks| ensures ks[i] != ks[j] {
      SuffixesOrdered(contents, prefix, i, j);
      NotLessItself(es[i].0);
      assert es[i].0 == ks[i][|prefix|..] && es[j].0 == ks[j][|prefix|..];
    }
    DistinctCount(ks);
    forall e | e in es ensures prefix + e.0 in Having(contents, prefix) {
      SuffixesExact(contents, prefix, e.0, e.1);
    }
    forall k | k in Having(contents, prefix)
      ensures (k[|prefix|..], contents[k]) in es && k in ks
    {
      assert prefix + k[|prefix|..] == k;
      SuffixesExact(contents, prefix, k[|prefix|..], contents[k]);
      var i :| 0 <= i < |es| && es[i] == (k[|prefix|..], contents[k]);
      assert ks[i] == k;
    }
    assert (set k | k in ks) == Having(contents, prefix);
  }

  // ylslu_nr_candidates; maxLength is not written when no node lies at the prefix.
  method NrCandidates<V>(t: Trie<V>, prefix: Key) returns (cnt: nat, maxLength: Option<nat>)
    requires t.Valid()
    ensures cnt == |Having(t.contents, prefix)|
    ensures maxLength.None? ==> cnt == 0
    ensures maxLength.Some? ==> forall k :: k in t.contents && prefix <= k ==> |k| - |prefix| <= maxLength.value
    ensures cnt > 0 ==>
              maxLength.Some? && exists k :: k in t.contents && prefix <= k && |k| - |prefix| == maxLength.value
  {
    hide Suffixes, Fold, Counting, Trie.Shape, Trie.Stores, Trie.Alive;
    var r, st := FromPrefix(t, prefix, Counting(), Tally(0, 0));
    ShortKeys(t);
    ghost var es := Suffixes(t.contents, prefix);
    SuffixCount(t.contents, prefix);
    Counted(Tally(0, 0), es);
    if 0 > r {
      assert Having(t.contents, prefix) == {};
      return 0, None;
    }
    cnt, maxLength := st.cnt, Some(st.maxlen);
    forall k | k in t.contents && prefix <= k ensures |k| - |prefix| <= st.maxlen {
      assert k in Having(t.contents, prefix);
    }
    if cnt > 0 {
      ghost var e :| e in es && |e.0| == st.maxlen;
      assert prefix + e.0 in Having(t.contents, prefix);
    }
  }

  // ylslu_candidates: the names, without the prefix and in order, each into its buffer of
  // pbsz bytes. A write leaves its buffer exactly when one of the names that are copied
  // has pbsz bytes or more.
  method Candidates<V>(t: Trie<V>, prefix: Key, ppbuf: seq<seq<Byte>>, ghost pbsz: nat)
    returns (r: int, filled: seq<seq<Byte>>, escaped: bool)
    requires t.Valid() && forall b :: b in ppbuf ==> |b| == pbsz
    ensures r == -1 <==> prefix != [] && Having(t.contents, prefix) == {}
    ensures r != -1 ==> r == Min(|ppbuf|, |Having(t.contents, prefix)|)
    ensures var cnt := Min(|ppbuf|, |Having(t.contents, prefix)|);
            var names := Names(Suffixes(t.contents, prefix));
            Filled(ppbuf, filled, names, 0, cnt) &&
            (escaped <==> exists j :: 0 <= j < cnt && |names[j]| >= pbsz)
  {
    hide Suffixes, Fold, Copying, Names, Filled, TooLong, Trie.Shape, Trie.Stores, Trie.Alive;
    var w, st := FromPrefix(t, prefix, Copying(), Copies(ppbuf, 0, false));
    ShortKeys(t);
    SuffixCount(t.contents, prefix);
    ghost var es := Suffixes(t.contents, prefix);
    Copied(Copies(ppbuf, 0, false), es);
    assert es[0..] == es;
    TooLongFor(ppbuf, Names(es), st.i, pbsz);
    r := if 0 > w then -1 else st.i;
    filled, escaped := st.buffers, st.escaped;
    if k: Key :| k in t.contents && prefix <= k { assert k in Having(t.contents, prefix); }
  }

  lemma TooLongFor(buffers: seq<seq<Byte>>, names: seq<Key>, cnt: nat, pbsz: nat)
    requires cnt <= |buffers| && cnt <= |names| && forall b :: b in buffers ==> |b| == pbsz
    ensures TooLong(buffers, names, 0, cnt) <==> exists j :: 0 <= j < cnt && |names[j]| >= pbsz
  {
    assert forall j :: 0 <= j < cnt ==> |buffers[j]| == pbsz;
  }

  // The two-byte symbol "ab" does not fit into a buffer of two bytes.
  lemma EscapesTwoBytes<V>(v: V)
    ensures var es := Suffixes(map[[97, 98] := v], []);
            Fold(Copying(), Copies([[0, 0]], 0, false), es).0.escaped
  {
    hide Suffixes, Fold, Copying;
    var contents: map<Key, V> := map[[97, 98] := v];
    var es := Suffixes(contents, []);
    SuffixCount(contents, []);
    assert [] + [97, 98] == [97, 98];
    SuffixesExact(contents, [], [97, 98], v);
    assert Having(contents, []) == {[97, 98]};
    assert es == [([97, 98], v)];
    Copied(Copies([[0, 0]], 0, false), es);
    assert es[0..] == es;
    assert |Names(es)[0]| >= |[[0, 0]][0]|;
  }

  // The callers that list the candidates: as many buffers as there are candidates, one
  // byte longer than the longest of them. No write leaves its buffer, and every
  // candidate is listed.
  method ListAll<V>(t: Trie<V>, prefix: Key) returns (num: nat, pp: seq<seq<Byte>>)
    requires t.Valid() && |Having(t.contents, prefix)| > 1
    ensures num == |pp| == |Having(t.contents, prefix)|
    ensures var names := Names(Suffixes(t.contents, prefix));
            |names| == num &&
            forall j :: 0 <= j < num ==>
              |names[j]| < |pp[j]| && pp[j][..|names[j]|] == names[j] && pp[j][|names[j]|] == 0
  {
    hide Suffixes, Names, Trie.Shape, Trie.Stores, Trie.Alive;
    var maxlen;
    num, maxlen := NrCandidates(t, prefix);
    pp := seq(num, _ => seq(maxlen.value + 1, _ => 0));
    ghost var names := Names(Suffixes(t.contents, prefix));
    NamesFit(t, prefix, maxlen.value);
    var i, escaped;
    i, pp, escaped := Candidates(t, prefix, pp, maxlen.value + 1);
    forall j | 0 <= j < num
      ensures |names[j]| < |pp[j]| && pp[j][..|names[j]|] == names[j] && pp[j][|names[j]|] == 0
    {}
  }

  lemma NamesFit<V>(t: Trie<V>, prefix: Key, maxlen: nat)
    requires t.Valid()
    requires forall k :: k in t.contents && prefix <= k ==> |k| - |prefix| <= maxlen
    ensures var names := Names(Suffixes(t.contents, prefix));
            |names| == |Having(t.contents, prefix)| && forall j :: 0 <= j < |names| ==> |names[j]| <= maxlen
  {
    hide Suffixes, Trie.Shape, Trie.Stores, Trie.Alive;
    ShortKeys(t);
    SuffixCount(t.contents, prefix);
    var es := Suffixes(t.contents, prefix);
    forall j | 0 <= j < |es| ensures |Names(es)[j]| <= maxlen {
      assert es[j] in es && prefix + es[j].0 in Having(t.contents, prefix);
    }
  }
}
