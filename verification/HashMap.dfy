// The resizing hash map: a second index over the same keys.
module HashMap {
  import opened Arithmetic
  import opened Keys
  import opened Walk
  import opened Wrappers

  const MIN_HBITS := 4
  const MAX_HBITS := 32

  type Word = n: nat | n < 0x1_0000_0000

  function Pow2(n: nat): (p: nat)
    ensures p > 0
  {
    if n == 0 then 1 else 2 * Pow2(n - 1)
  }

  lemma Doubled(a: nat, b: nat)
    ensures (2 * a) * b == 2 * (a * b)
  {}

  lemma {:induction false} Pow2Add(m: nat, n: nat)
    ensures Pow2(m + n) == Pow2(m) * Pow2(n)
  {
    if m > 0 {
      Pow2Add(m - 1, n);
      Doubled(Pow2(m - 1), Pow2(n));
      assert Pow2(m + n) == 2 * Pow2(m - 1 + n);
    }
  }

  lemma {:induction false} Pow2Grows(m: nat, n: nat)
    requires m <= n
    ensures Pow2(m) <= Pow2(n)
  {
    if m < n { Pow2Grows(m, n - 1); }
  }

  lemma Pow2Of4And32()
    ensures Pow2(4) == 16 && Pow2(32) == 0x1_0000_0000
  {
    assert Pow2(4) == 16 by { assert Pow2(2) == 4; }
    assert Pow2(8) == 256 by { hide Pow2; Pow2Add(4, 4); }
    assert Pow2(16) == 65536 by { hide Pow2; Pow2Add(8, 8); }
    assert Pow2(32) == 0x1_0000_0000 by { hide Pow2; Pow2Add(16, 16); }
  }

  function Quotient(h: nat, d: nat): nat
    requires d > 0
  {
    h / d
  }

  lemma QuotientBelow(h: nat, p: nat, d: nat)
    requires d > 0 && h < p * d
    ensures Quotient(h, d) < p
  {
    Multiples(h / d, p, d);
  }

  // struct _hn
  datatype Entry<+V> = Entry(key: Key, hash: Word, v: V)

  // _hv__: the top `bits` bits of the hash value
  function Slot(bits: nat, hash: Word): nat
    requires bits <= MAX_HBITS
  {
    Quotient(hash, Pow2(MAX_HBITS - bits))
  }

  lemma SlotBound(bits: nat, hash: Word)
    requires bits <= MAX_HBITS
    ensures Slot(bits, hash) < Pow2(bits)
  {
    hide Pow2, Quotient;
    Pow2Of4And32();
    Pow2Add(bits, MAX_HBITS - bits);
    QuotientBelow(hash, Pow2(bits), Pow2(MAX_HBITS - bits));
  }

  // ---------------------------------------------------------------- tables

  type Chain<V> = seq<Entry<V>>

  ghost predicate EntryOk<V>(crc: Key -> Word, m: map<Key, V>, e: Entry<V>) {
    e.hash == crc(e.key) && e.key in m && m[e.key] == e.v
  }

  ghost predicate Chained<V>(c: Chain<V>, k: Key) {
    exists j :: 0 <= j < |c| && c[j].key == k
  }

  // Chain i holds, once each, the keys that the top bits of their hash send to i.
  ghost predicate ChainOk<V>(crc: Key -> Word, bits: nat, m: map<Key, V>, c: Chain<V>, i: nat)
    requires bits <= MAX_HBITS
  {
    && (forall j :: 0 <= j < |c| ==> EntryOk(crc, m, c[j]) && Slot(bits, crc(c[j].key)) == i)
    && (forall j, l :: 0 <= j < l < |c| ==> c[j].key != c[l].key)
    && (forall k :: k in m && Slot(bits, crc(k)) == i ==> Chained(c, k))
  }

  ghost predicate TableOk<V>(crc: Key -> Word, bits: nat, m: map<Key, V>, t: seq<Chain<V>>)
    requires bits <= MAX_HBITS
  {
    |t| == Pow2(bits) && forall i :: 0 <= i < |t| ==> ChainOk(crc, bits, m, t[i], i)
  }

  lemma AppendOk<V>(crc: Key -> Word, bits: nat, m: map<Key, V>, t: seq<Chain<V>>, e: Entry<V>)
    requires bits <= MAX_HBITS && TableOk(crc, bits, m, t)
    requires e.key !in m && e.hash == crc(e.key)
    ensures Slot(bits, e.hash) < |t|
    ensures var s := Slot(bits, e.hash); TableOk(crc, bits, m[e.key := e.v], t[s := t[s] + [e]])
  {
    SlotBound(bits, e.hash);
    var s := Slot(bits, e.hash);
    var m', t' := m[e.key := e.v], t[s := t[s] + [e]];
    forall i | 0 <= i < |t'| ensures ChainOk(crc, bits, m', t'[i], i) {
      assert ChainOk(crc, bits, m, t[i], i);
      AppendChainOk(crc, bits, m, t[i], i, e);
    }
  }

  lemma AppendChainOk<V>(crc: Key -> Word, bits: nat, m: map<Key, V>, c: Chain<V>, i: nat, e: Entry<V>)
    requires bits <= MAX_HBITS && ChainOk(crc, bits, m, c, i)
    requires e.key !in m && e.hash == crc(e.key)
    ensures ChainOk(crc, bits, m[e.key := e.v], if i == Slot(bits, e.hash) then c + [e] else c, i)
  {
    hide Slot;
    var m' := m[e.key := e.v];
    var c' := if i == Slot(bits, e.hash) then c + [e] else c;
    forall j | 0 <= j < |c'| ensures EntryOk(crc, m', c'[j]) {
      if j < |c| { assert EntryOk(crc, m, c[j]); }
    }
    forall k | k in m' && Slot(bits, crc(k)) == i ensures Chained(c', k) {
      if k == e.key {
        assert c'[|c|].key == k;
      } else {
        assert Chained(c, k);
        var j :| 0 <= j < |c| && c[j].key == k;
        assert c'[j].key == k;
      }
    }
  }

  lemma RemoveOk<V>(crc: Key -> Word, bits: nat, m: map<Key, V>, t: seq<Chain<V>>, s: nat, j: nat)
    requires bits <= MAX_HBITS && TableOk(crc, bits, m, t) && s < |t| && j < |t[s]|
    ensures TableOk(crc, bits, m - {t[s][j].key}, t[s := t[s][..j] + t[s][j + 1..]])
  {
    var k := t[s][j].key;
    var t' := t[s := t[s][..j] + t[s][j + 1..]];
    assert ChainOk(crc, bits, m, t[s], s);
    forall i | 0 <= i < |t'| ensures ChainOk(crc, bits, m - {k}, t'[i], i) {
      assert ChainOk(crc, bits, m, t[i], i);
      if i == s { RemoveChainOk(crc, bits, m, t[s], s, j); }
      else { OtherChainOk(crc, bits, m, t[i], i, k); }
    }
  }

  lemma RemoveChainOk<V>(crc: Key -> Word, bits: nat, m: map<Key, V>, c: Chain<V>, i: nat, j: nat)
    requires bits <= MAX_HBITS && ChainOk(crc, bits, m, c, i) && j < |c|
    ensures ChainOk(crc, bits, m - {c[j].key}, c[..j] + c[j + 1..], i)
  {
    hide Slot;
    var k := c[j].key;
    var c' := c[..j] + c[j + 1..];
    forall l | 0 <= l < |c'| ensures EntryOk(crc, m - {k}, c'[l]) {
      var l' := if l < j then l else l + 1;
      assert c'[l] == c[l'] && EntryOk(crc, m, c[l']) && c[l'].key != k;
    }
    forall k' | k' in m - {k} && Slot(bits, crc(k')) == i ensures Chained(c', k') {
      assert Chained(c, k');
      var l :| 0 <= l < |c| && c[l].key == k';
      assert c'[if l < j then l else l - 1].key == k';
    }
  }

  lemma OtherChainOk<V>(crc: Key -> Word, bits: nat, m: map<Key, V>, c: Chain<V>, i: nat, k: Key)
    requires bits <= MAX_HBITS && ChainOk(crc, bits, m, c, i) && Slot(bits, crc(k)) != i
    ensures ChainOk(crc, bits, m - {k}, c, i)
  {
    hide Slot;
    forall l | 0 <= l < |c| ensures EntryOk(crc, m - {k}, c[l]) {
      assert EntryOk(crc, m, c[l]);
    }
  }

  // The load bounds: at most one more entry than chains, at least a quarter as many.
  ghost predicate Loaded(bits: nat, size: nat) {
    && (bits == MAX_HBITS || size <= Pow2(bits) + 1)
    && (bits == MIN_HBITS || size >= Pow2(bits) / 4)
  }

  // ---------------------------------------------------------------- the map

  class HashMap<V(==)> {
    const crc: Key -> Word
    var chains: array<Chain<V>>
    var mapBits: nat
    var size: nat
    ghost var contents: map<Key, V>

    ghost predicate Shape()
      reads this, chains
    {
      && MIN_HBITS <= mapBits <= MAX_HBITS
      && TableOk(crc, mapBits, contents, chains[..])
      && size == |contents|
    }

    ghost predicate Valid()
      reads this, chains
    {
      Shape() && Loaded(mapBits, size)
    }

    // hash_create
    constructor (crc: Key -> Word)
      ensures Valid() && contents == map[] && fresh(chains)
    {
      this.crc := crc;
      size := 0;
      mapBits := MIN_HBITS;
      contents := map[];
      Pow2Of4And32();
      chains := new Chain<V>[16](_ => []);
    }

    // _hmapsz
    function ChainCount(): (n: nat)
      requires mapBits <= MAX_HBITS
      reads this
      ensures n == Pow2(mapBits)
    {
      Pow2(mapBits)
    }

    // yllist_add_last to the chain that _hv selects
    method Link(n: Entry<V>, ghost m: map<Key, V>)
      requires mapBits <= MAX_HBITS && TableOk(crc, mapBits, m, chains[..]) && n.key !in m && n.hash == crc(n.key)
      modifies chains
      ensures TableOk(crc, mapBits, m[n.key := n.v], chains[..])
    {
      hide TableOk, Slot, Pow2;
      AppendOk(crc, mapBits, m, chains[..], n);
      var s := Slot(mapBits, n.hash);
      ghost var t := chains[..];
      chains[s] := chains[s] + [n];
      assert chains[..] == t[s := t[s] + [n]];
    }

    // The inner loop of _hmodify: the entries of one old chain.
    method MoveChain(c: Chain<V>, ghost t: seq<Chain<V>>, ghost oldBits: nat, ghost i: nat, ghost done0: map<Key, V>)
      returns (ghost done: map<Key, V>)
      requires oldBits <= MAX_HBITS && TableOk(crc, oldBits, contents, t) && i < |t| && c == t[i]
      requires mapBits <= MAX_HBITS && TableOk(crc, mapBits, done0, chains[..]) && Moved(t, oldBits, i, 0, done0)
      modifies chains
      ensures TableOk(crc, mapBits, done, chains[..]) && Moved(t, oldBits, i, |c|, done)
    {
      hide TableOk, Slot, Pow2, HashMap.Moved, HashMap.Reached;
      done := done0;
      var j := 0;
      while j < |c|
        invariant 0 <= j <= |c|
        invariant TableOk(crc, mapBits, done, chains[..]) && Moved(t, oldBits, i, j, done)
      {
        NotYetMoved(t, oldBits, i, j, done);
        Link(c[j], done);
        done := done[c[j].key := c[j].v];
        j := j + 1;
      }
    }

    // _hmodify: changes the number of chains and moves every entry; the map stays.
    method Resize(bits: int)
      requires Shape()
      modifies this`chains, this`mapBits
      ensures Shape() && (chains == old(chains) || fresh(chains))
      ensures mapBits == if bits < MIN_HBITS then MIN_HBITS else if bits > MAX_HBITS then MAX_HBITS else bits
    {
      var b := bits;
      if b < MIN_HBITS {
        b := MIN_HBITS;
      }
      if b > MAX_HBITS {
        b := MAX_HBITS;
      }
      if mapBits == b {
        return;
      }
      hide TableOk, Slot, Pow2;
      var oldChains, oldBits := chains, mapBits;
      TableSize(crc, oldBits, contents, oldChains[..]);
      mapBits := b;
      chains := new Chain<V>[ChainCount()](_ => []);
      EmptyOk(crc, mapBits, chains[..]);
      Reassign(oldChains, oldBits);
    }

    // The outer loop of _hmodify.
    method Reassign(oldChains: array<Chain<V>>, ghost oldBits: nat)
      requires oldChains != chains && oldBits <= MAX_HBITS && TableOk(crc, oldBits, contents, oldChains[..])
      requires mapBits <= MAX_HBITS && TableOk(crc, mapBits, map[], chains[..])
      modifies chains
      ensures TableOk(crc, mapBits, contents, chains[..])
    {
      hide TableOk, Slot, Pow2, HashMap.Moved, HashMap.Reached;
      ghost var t := oldChains[..];
      ghost var done: map<Key, V> := map[];
      TableSize(crc, oldBits, contents, t);
      NothingMoved(t, oldBits);
      var i := 0;
      while i < oldChains.Length
        invariant 0 <= i <= oldChains.Length && oldChains[..] == t
        invariant TableOk(crc, mapBits, done, chains[..]) && Moved(t, oldBits, i, 0, done)
      {
        done := MoveChain(oldChains[i], t, oldBits, i, done);
        MovedEnd(t, oldBits, i, done);
        i := i + 1;
      }
      AllMoved(t, oldBits, done);
    }

    // The entries of the first i chains, and the first j of chain i, have been moved.
    ghost predicate Moved(t: seq<Chain<V>>, bits: nat, i: nat, j: nat, done: map<Key, V>)
      requires bits <= MAX_HBITS
      reads this
    {
      && (forall k :: k in done ==> k in contents && done[k] == contents[k])
      && forall k :: k in contents ==> (k in done <==> Reached(t, bits, i, j, k))
    }

    ghost predicate Reached(t: seq<Chain<V>>, bits: nat, i: nat, j: nat, k: Key)
      requires bits <= MAX_HBITS
    {
      Slot(bits, crc(k)) < i || (Slot(bits, crc(k)) == i && i < |t| && j <= |t[i]| && Chained(t[i][..j], k))
    }

    lemma TableSize(crc: Key -> Word, bits: nat, m: map<Key, V>, t: seq<Chain<V>>)
      requires bits <= MAX_HBITS && TableOk(crc, bits, m, t)
      ensures |t| == Pow2(bits)
    {}

    lemma NothingMoved(t: seq<Chain<V>>, bits: nat)
      requires bits <= MAX_HBITS
      ensures Moved(t, bits, 0, 0, map[])
    {}

    lemma EmptyOk(crc: Key -> Word, bits: nat, t: seq<Chain<V>>)
      requires bits <= MAX_HBITS && |t| == Pow2(bits) && forall i :: 0 <= i < |t| ==> t[i] == []
      ensures TableOk(crc, bits, map[], t)
    {}

    lemma NotYetMoved(t: seq<Chain<V>>, bits: nat, i: nat, j: nat, done: map<Key, V>)
      requires bits <= MAX_HBITS && TableOk(crc, bits, contents, t) && i < |t| && j < |t[i]|
      requires Moved(t, bits, i, j, done)
      ensures t[i][j].key !in done && t[i][j].hash == crc(t[i][j].key)
      ensures Moved(t, bits, i, j + 1, done[t[i][j].key := t[i][j].v])
    {
      hide Slot;
      var e, c := t[i][j], t[i];
      assert ChainOk(crc, bits, contents, c, i) && EntryOk(crc, contents, e);
      var done' := done[e.key := e.v];
      forall k | k in contents ensures k in done' <==> Reached(t, bits, i, j + 1, k) {
        assert k in done <==> Reached(t, bits, i, j, k);
        if Chained(c[..j], k) {
          var l :| 0 <= l < j && c[..j][l].key == k;
          assert c[..j + 1][l].key == k;
        }
        if Chained(c[..j + 1], k) && k != e.key {
          var l :| 0 <= l < j + 1 && c[..j + 1][l].key == k;
          assert c[..j][l].key == k;
        }
        if k == e.key { assert c[..j + 1][j].key == k; }
      }
    }

    lemma MovedEnd(t: seq<Chain<V>>, bits: nat, i: nat, done: map<Key, V>)
      requires bits <= MAX_HBITS && TableOk(crc, bits, contents, t) && i < |t|
      requires Moved(t, bits, i, |t[i]|, done)
      ensures Moved(t, bits, i + 1, 0, done)
    {
      hide Slot;
      assert ChainOk(crc, bits, contents, t[i], i) && t[i][..|t[i]|] == t[i];
      forall k | k in contents ensures k in done <==> Reached(t, bits, i + 1, 0, k) {
        assert k in done <==> Reached(t, bits, i, |t[i]|, k);
      }
    }

    lemma AllMoved(t: seq<Chain<V>>, bits: nat, done: map<Key, V>)
      requires bits <= MAX_HBITS && |t| == Pow2(bits) && Moved(t, bits, |t|, 0, done)
      ensures done == contents
    {
      forall k | k in contents ensures k in done { SlotBound(bits, crc(k)); }
    }

    // _hfind
    method FindEntry(key: Key) returns (found: bool, s: nat, j: nat)
      requires Shape()
      ensures found <==> key in contents
      ensures found ==>
                s < chains.Length && j < |chains[s]| && chains[s][j].key == key && chains[s][j].v == contents[key]
    {
      hide Slot, Pow2;
      var hash := crc(key);
      SlotBound(mapBits, hash);
      s := Slot(mapBits, hash);
      j := 0;
      ghost var c := chains[..][s];
      assert ChainOk(crc, mapBits, contents, c, s);
      assert key in contents ==> Chained(c, key);
      while j < |chains[s]|
        invariant 0 <= j <= |c| && chains[s] == c
        invariant forall l :: 0 <= l < j ==> c[l].key != key
      {
        if chains[s][j].hash == hash && chains[s][j].key == key {
          assert EntryOk(crc, contents, c[j]);
          return true, s, j;
        }
        assert EntryOk(crc, contents, c[j]);
        j := j + 1;
      }
      found := false;
    }

    // hash_get
    method Get(key: Key) returns (v: Option<V>)
      requires Valid()
      ensures v == if key in contents then Some(contents[key]) else None
    {
      var found, s, j := FindEntry(key);
      v := if found then Some(chains[s][j].v) else None;
    }

    // A deletion, with the shrinking that follows it, keeps the bounds.
    lemma ShrunkLoaded(bits: nat, size: nat)
      requires MIN_HBITS <= bits <= MAX_HBITS
      requires (bits == MAX_HBITS || size <= Pow2(bits)) && (bits == MIN_HBITS || size + 1 >= Pow2(bits) / 4)
      ensures size < Pow2(bits) / 4 && bits > MIN_HBITS ==>
                size <= Pow2(bits - 1) + 1 && (bits - 1 == MIN_HBITS || size >= Pow2(bits - 1) / 4)
    {
      Pow2Of4And32();
      Pow2Grows(4, bits);
      if bits > MIN_HBITS { assert Pow2(bits) == 2 * Pow2(bits - 1); Pow2Grows(4, bits - 1); }
    }

    // An addition, with the growing before it, keeps the bounds.
    lemma GrownLoaded(bits: nat, size: nat)
      requires MIN_HBITS <= bits < MAX_HBITS && Pow2(bits) < size <= Pow2(bits) + 1
      ensures size + 1 <= Pow2(bits + 1) + 1 && size >= Pow2(bits + 1) / 4
    {
      Pow2Of4And32();
      Pow2Grows(4, bits);
      assert Pow2(bits + 1) == 2 * Pow2(bits);
    }

    // hash_del. The map accepts the empty key, but the assertion in _ndestroy, that the
    // key has a length, does not: it fails exactly when a stored empty key is deleted.
    method Del(key: Key) returns (r: int, asserted: bool)
      requires Valid()
      modifies this, chains
      ensures Valid() && (chains == old(chains) || fresh(chains))
      ensures r == if key in old(contents) then 0 else -1
      ensures contents == old(contents) - {key}
      ensures !asserted <==> key == [] && key in old(contents)
    {
      hide TableOk, Pow2;
      var found, s, j := FindEntry(key);
      if !found {
        return -1, true;
      }
      var n := chains[s][j];
      Unlink(s, j, key);
      asserted := |n.key| > 0;
      ShrunkLoaded(mapBits, size);
      Pow2Positive(mapBits);
      if size < ChainCount() / 4 {
        Resize(mapBits - 1);
      }
      r := 0;
    }

    lemma Pow2Positive(n: nat)
      ensures Pow2(n) > 0
    {}

    // yllist_del of entry j of chain s
    method Unlink(s: nat, j: nat, ghost key: Key)
      requires Shape() && s < chains.Length && j < |chains[s]| && key == chains[s][j].key && key in contents
      modifies this`size, this`contents, chains
      ensures Shape() && size == old(size) - 1 && contents == old(contents) - {key}
    {
      hide TableOk, Pow2;
      RemoveOk(crc, mapBits, contents, chains[..], s, j);
      ghost var t := chains[..];
      chains[s] := chains[s][..j] + chains[s][j + 1..];
      assert chains[..] == t[s := t[s][..j] + t[s][j + 1..]];
      assert |contents - {key}| == |contents| - 1 by { assert (contents - {key}).Keys == contents.Keys - {key}; }
      contents := contents - {key};
      size := size - 1;
    }

    // The expansion in hash_add, before the new entry is counted.
    method Expand()
      requires Valid()
      modifies this`chains, this`mapBits
      ensures Shape() && Loaded(mapBits, size + 1) && (chains == old(chains) || fresh(chains))
    {
      hide TableOk, Pow2;
      Pow2Positive(mapBits);
      if size > ChainCount() {
        if mapBits < MAX_HBITS { GrownLoaded(mapBits, size); }
        Resize(mapBits + 1);
      }
    }

    lemma Readded(m: map<Key, V>, key: Key, v: V)
      ensures (m - {key})[key := v] == m[key := v] && |m[key := v]| == |m - {key}| + 1
    {
      assert m[key := v].Keys == (m - {key}).Keys + {key};
    }

    // hash_add; overwriting deletes first, with the same assertion.
    method Add(key: Key, v: V) returns (r: int, asserted: bool)
      requires Valid()
      modifies this, chains
      ensures Valid() && (chains == old(chains) || fresh(chains))
      ensures r == if key in old(contents) then 1 else 0
      ensures contents == old(contents)[key := v]
      ensures !asserted <==> key == [] && key in old(contents)
    {
      hide TableOk, Pow2, Loaded;
      r, asserted := Del(key);
      if r == 0 {
        r := 1;
      } else {
        r := 0;
      }
      Expand();
      Readded(old(contents), key, v);
      Link(Entry(key, crc(key), v), contents);
      contents := contents[key := v];
      size := size + 1;
    }

    // ---------------------------------------------------------------- the walk

    // The entries in the order of the chains.
    ghost function Listed(t: seq<Chain<V>>): seq<(Key, V)> {
      if t == [] then [] else Shown(t[0]) + Listed(t[1..])
    }

    ghost function Shown(c: Chain<V>): seq<(Key, V)> {
      seq(|c|, i requires 0 <= i < |c| => (c[i].key, c[i].v))
    }

    // hash_walk
    method WalkAll<S>(cb: Callback<S, V>, user: S) returns (r: int, u: S)
      requires Valid()
      ensures r == 1 || r == 0
      ensures (u, r == 1) == Fold(cb, user, Listed(chains[..]))
    {
      hide TableOk, Pow2, Fold;
      u := user;
      var i := 0;
      ghost var t := chains[..];
      while i < chains.Length
        invariant 0 <= i <= |t|
        invariant Fold(cb, user, Listed(t)) == Fold(cb, u, Listed(t[i..]))
      {
        assert t[i..][1..] == t[i + 1..];
        var j := 0;
        FoldConcat(cb, u, Shown(t[i]), Listed(t[i + 1..]));
        while j < |chains[i]|
          invariant 0 <= j <= |chains[i]| && chains[i] == t[i]
          invariant Fold(cb, user, Listed(t)) == Fold(cb, u, Shown(t[i])[j..] + Listed(t[i + 1..]))
        {
          var n := chains[i][j];
          FoldHead(cb, u, Shown(t[i])[j..] + Listed(t[i + 1..]));
          assert (Shown(t[i])[j..] + Listed(t[i + 1..]))[1..] == Shown(t[i])[j + 1..] + Listed(t[i + 1..]);
          var x := cb(u, n.key, n.v);
          u := x.0;
          if !x.1 {
            return 0, u;
          }
          j := j + 1;
        }
        assert Shown(t[i])[j..] + Listed(t[i + 1..]) == Listed(t[i + 1..]);
        i := i + 1;
      }
      FoldNothing(cb, u);
      r := 1;
    }

    lemma FoldHead<S>(cb: Callback<S, V>, u: S, es: seq<(Key, V)>)
      requires es != []
      ensures var x := cb(u, es[0].0, es[0].1); Fold(cb, u, es) == if x.1 then Fold(cb, x.0, es[1..]) else x
    {}

    lemma FoldNothing<S>(cb: Callback<S, V>, u: S)
      ensures Fold(cb, u, []) == (u, true)
    {}

    ghost predicate Distinct(es: seq<(Key, V)>) {
      forall i, j :: 0 <= i < j < |es| ==> es[i].0 != es[j].0
    }

    lemma DistinctConcat(a: seq<(Key, V)>, b: seq<(Key, V)>)
      requires Distinct(a) && Distinct(b)
      requires forall x, y :: 0 <= x < |a| && 0 <= y < |b| ==> a[x].0 != b[y].0
      ensures Distinct(a + b)
    {}

    lemma ShownExact(bits: nat, m: map<Key, V>, c: Chain<V>, i: nat)
      requires bits <= MAX_HBITS && ChainOk(crc, bits, m, c, i)
      ensures Distinct(Shown(c))
      ensures forall e :: e in Shown(c) ==> e.0 in m && m[e.0] == e.1 && Slot(bits, crc(e.0)) == i
      ensures forall k :: k in m && Slot(bits, crc(k)) == i ==> (k, m[k]) in Shown(c)
    {
      hide Slot;
      forall j | 0 <= j < |c|
        ensures Shown(c)[j].0 in m && m[Shown(c)[j].0] == Shown(c)[j].1 && Slot(bits, crc(Shown(c)[j].0)) == i
      {
        assert EntryOk(crc, m, c[j]);
      }
      forall k | k in m && Slot(bits, crc(k)) == i ensures (k, m[k]) in Shown(c) {
        assert Chained(c, k);
        var j :| 0 <= j < |c| && c[j].key == k;
        assert EntryOk(crc, m, c[j]) && Shown(c)[j] == (k, m[k]);
      }
    }

    lemma {:induction false} ListedFrom(bits: nat, m: map<Key, V>, t: seq<Chain<V>>, i: nat)
      requires bits <= MAX_HBITS && TableOk(crc, bits, m, t) && i <= |t|
      ensures Distinct(Listed(t[i..]))
      ensures forall e :: e in Listed(t[i..]) ==> e.0 in m && m[e.0] == e.1 && Slot(bits, crc(e.0)) >= i
      ensures forall k :: k in m && Slot(bits, crc(k)) >= i ==> (k, m[k]) in Listed(t[i..])
      decreases |t| - i
    {
      hide Slot, HashMap.Shown;
      if i < |t| {
        assert t[i..][1..] == t[i + 1..];
        assert ChainOk(crc, bits, m, t[i], i);
        ShownExact(bits, m, t[i], i);
        ListedFrom(bits, m, t, i + 1);
        var a: seq<(Key, V)>, b: seq<(Key, V)> := Shown(t[i]), Listed(t[i + 1..]);
        forall x, y | 0 <= x < |a| && 0 <= y < |b| ensures a[x].0 != b[y].0 {
          assert a[x] in a && b[y] in b;
        }
        DistinctConcat(a, b);
      } else {
        forall k | k in m ensures Slot(bits, crc(k)) < i { SlotBound(bits, crc(k)); }
      }
    }

    // The walk meets every entry of the map, and none twice.
    lemma ListedExact()
      requires Valid()
      ensures Distinct(Listed(chains[..]))
      ensures forall k: Key, v: V :: (k, v) in Listed(chains[..]) <==> k in contents && contents[k] == v
    {
      hide Slot, HashMap.Listed, TableOk;
      ListedFrom(mapBits, contents, chains[..], 0);
      assert chains[..][0..] == chains[..];
      forall k: Key, v: V
        ensures (k, v) in Listed(chains[..]) <==> k in contents && contents[k] == v
      {
        if k in contents && contents[k] == v { assert (k, v) == (k, contents[k]); }
      }
    }
  }

  // The empty key, stored and overwritten.
  method AddEmptyTwice<V(==)>(crc: Key -> Word, v: V, w: V) returns (asserted: bool)
    ensures !asserted
  {
    var m := new HashMap<V>(crc);
    var r;
    r, asserted := m.Add([], v);
    r, asserted := m.Add([], w);
  }
}
