// The 4-bit trie: linked nodes with sixteen children each, two per key byte.
module Trie {
  import opened Keys
  import opened Wrappers

  // YLTRIEBranch, YLTRIELeaf, YLTRIEFail, the -1 of a buffer that is too small, and what
  // goes wrong: a failed assertion, and a write outside the buffer.
  datatype Completion = Branch | Leaf | Fail | TooSmall | Aborted | Outside

  class Node<V> {
    var children: seq<Node?<V>>   // the sixteen children
    var val: Option<V>

    // _alloc_node
    constructor ()
      ensures children == seq(16, _ => null) && val == None
    {
      children := seq(16, _ => null);
      val := None;
    }
  }

  class Trie<V(==)> {
    const root: Node<V>
    ghost var addr: map<Path, Node<V>>   // which node lies at the end of which path
    ghost var contents: map<Key, V>      // the abstract map

    ghost function Repr(): set<object>
      reads this
    {
      {this} + set p | p in addr :: addr[p]
    }

    ghost predicate NodeOk(p: Path)
      requires p in addr
      reads this, addr.Values
    {
      && |addr[p].children| == 16 && |p| <= MAX_DEPTH && IsPath(p)
      && (p != [] ==> p[..|p| - 1] in addr)
      && forall i :: 0 <= i < 16 ==> addr[p].children[i] == if p + [i] in addr then addr[p + [i]] else null
    }

    ghost predicate Shape()
      reads this, addr.Values
    {
      && [] in addr && addr[[]] == root
      && (forall p {:trigger NodeOk(p)} :: p in addr ==> NodeOk(p))
      && (forall p, q :: p in addr && q in addr && addr[p] == addr[q] ==> p == q)
    }

    ghost predicate Holds(p: Path)
      reads this, addr.Values
    {
      p in addr && addr[p].val.Some?
    }

    ghost predicate KeysStored()
      reads this, addr.Values
    {
      forall k :: k in contents ==> Holds(Nibbles(k)) && addr[Nibbles(k)].val.value == contents[k]
    }

    ghost predicate PathsStored()
      reads this, addr.Values
    {
      forall p :: Holds(p) ==> p != [] && |p| % 2 == 0 && IsPath(p) && Bytes(p) in contents
    }

    // The nodes with values are exactly those of the keys.
    ghost predicate Stores()
      reads this, addr.Values
    {
      KeysStored() && PathsStored()
    }

    // No dead branch: a node other than the root has a value or a child.
    ghost predicate Alive(p: Path)
      reads this, addr.Values
    {
      p == [] || Holds(p) || exists i :: 0 <= i < 16 && p + [i] in addr
    }

    ghost predicate Valid()
      reads this, addr.Values
    {
      Shape() && Stores() && forall p :: p in addr ==> Alive(p)
    }

    // yltrie_create
    constructor ()
      ensures Valid() && fresh(Repr()) && contents == map[]
    {
      root := new Node();
      addr := map[[] := root];
      contents := map[];
      new;
      hide Bytes, Nibbles;
      assert forall p :: p in addr <==> p == [];
      assert forall j: nat :: [] + [j] != [];
      assert NodeOk([]) && !Holds([]);
    }

    lemma Child(p: Path, i: nat)
      requires Shape() && p in addr && i < 16
      ensures |addr[p].children| == 16
      ensures addr[p].children[i] == if p + [i] in addr then addr[p + [i]] else null
    {
      assert NodeOk(p);
    }

    // c is now child i of the node at q; nothing else has changed.
    twostate lemma Grafted(new q: Path, new i: nat, new c: Node<V>)
      requires old(Shape()) && q in old(addr) && i < 16 && q + [i] !in old(addr) && |q| < MAX_DEPTH
      requires addr == old(addr)[q + [i] := c] && c.children == seq(16, _ => null)
      requires forall p :: p in old(addr) ==>
                 addr[p] != c &&
                 addr[p].children == if p == q && |old(addr[p].children)| == 16
                                     then old(addr[p].children)[i := c] else old(addr[p].children)
      ensures Shape()
    {
      var r := q + [i];
      assert r[..|q|] == q;
      assert old(NodeOk(q));
      forall p | p in addr ensures NodeOk(p) {
        if p != r { assert old(NodeOk(p)); }
        GraftedLinks(q, i, c, p);
      }
    }

    twostate lemma GraftedLinks(new q: Path, new i: nat, new c: Node<V>, new p: Path)
      requires old(Shape()) && q in old(addr) && i < 16 && q + [i] !in old(addr)
      requires addr == old(addr)[q + [i] := c] && c.children == seq(16, _ => null) && p in addr
      requires forall p :: p in old(addr) ==>
                 addr[p] != c &&
                 addr[p].children == if p == q && |old(addr[p].children)| == 16
                                     then old(addr[p].children)[i := c] else old(addr[p].children)
      ensures |addr[p].children| == 16
      ensures forall j :: 0 <= j < 16 ==> addr[p].children[j] == if p + [j] in addr then addr[p + [j]] else null
    {
      hide IsPath;
      if p == q + [i] {
        forall j | 0 <= j < 16 ensures p + [j] !in addr {
          assert (p + [j])[..|p|] == p;
          assert p + [j] in old(addr) ==> old(NodeOk(p + [j]));
        }
      } else {
        assert old(NodeOk(p));
        forall j | 0 <= j < 16
          ensures addr[p].children[j] == if p + [j] in addr then addr[p + [j]] else null
        {
          assert (p + [j])[..|p|] == p && (p + [j])[|p|] == j;
          assert (q + [i])[..|q|] == q && (q + [i])[|q|] == i;
        }
      }
    }

    // A fresh node becomes child i of the node at q.
    method Graft(n: Node<V>, i: nat, ghost q: Path) returns (c: Node<V>)
      requires Shape() && q in addr && addr[q] == n && i < 16 && |q| < MAX_DEPTH && |n.children| == 16 &&
               n.children[i] == null
      modifies this`addr, n`children
      ensures Shape() && fresh(c) && c.val == None
      ensures q + [i] !in old(addr) && addr == old(addr)[q + [i] := c]
    {
      Child(q, i);
      c := new Node();
      n.children := n.children[i := c];
      addr := addr[q + [i] := c];
      Grafted(q, i, c);
    }

    // Nodes without values come and go without changing what is stored.
    twostate lemma StoresKept()
      requires old(Stores()) && contents == old(contents)
      requires forall p :: p in addr && p in old(addr) ==> addr[p] == old(addr[p]) && addr[p].val == old(addr[p].val)
      requires forall p :: p in addr && p !in old(addr) ==> addr[p].val == None
      requires forall p :: p in old(addr) && p !in addr ==> old(addr[p].val) == None
      ensures Stores() && forall p :: Holds(p) <==> old(Holds(p))
    {
      hide Bytes, Nibbles, IsPath;
      forall p
        ensures Holds(p) <==> old(Holds(p))
        ensures Holds(p) ==> addr[p].val == old(addr[p].val)
      {
        if p in addr && p in old(addr) { assert addr[p] == old(addr[p]); }
      }
      forall k | k in contents
        ensures Holds(Nibbles(k)) && addr[Nibbles(k)].val.value == contents[k]
      {
        assert old(Holds(Nibbles(k)));
      }
    }

    // One step of _move_down_node in the creating walk: follow child i, making it if it
    // is missing.
    method Descend(n: Node<V>, i: nat, ghost q: Path) returns (c: Node<V>)
      requires Shape() && Stores() && q in addr && addr[q] == n && i < 16 && |q| < MAX_DEPTH
      requires forall p :: p in addr && p != q ==> Alive(p)
      modifies this`addr, n`children
      ensures Shape() && Stores() && q + [i] in addr && addr[q + [i]] == c
      ensures forall p :: p in addr && p != q + [i] ==> Alive(p)
      ensures forall p :: p in old(addr) ==> p in addr && addr[p] == old(addr[p])
      ensures forall p :: p in addr && p !in old(addr) ==> fresh(addr[p])
    {
      hide Shape, Stores;
      Child(q, i);
      if n.children[i] != null {
        c := n.children[i];
        if q != [] { assert q + [i] in addr; }
      } else {
        c := Graft(n, i, q);
        StoresKept();
        assert q + [i] in addr;
        forall p | p in addr && p != q + [i] ensures Alive(p) {
          if p != q { assert old(Alive(p)); }
        }
      }
    }

    // Every prefix of a node's path leads to a node.
    lemma {:induction false} PrefixClosed(p: Path, i: nat)
      requires Shape() && p in addr && i <= |p|
      ensures p[..i] in addr
      decreases |p|
    {
      if i < |p| {
        assert NodeOk(p);
        PrefixClosed(p[..|p| - 1], i);
        assert p[..|p| - 1][..i] == p[..i];
      } else {
        assert p[..i] == p;
      }
    }

    lemma Missing(p: Path, i: nat)
      requires Shape() && i <= |p| && p[..i] !in addr
      ensures p !in addr
    {
      if p in addr { PrefixClosed(p, i); }
    }

    // _get_node without creation
    method Find(key: Key) returns (n: Node?<V>)
      requires Shape()
      ensures n == if Nibbles(key) in addr then addr[Nibbles(key)] else null
    {
      hide Shape, Nibbles;
      n := root;
      RootIn();
      NibblesTake(key, 0);
      var j := 0;
      ghost var full := Nibbles(key);
      while j < |key|
        invariant j <= |key|
        invariant Nibbles(key[..j]) in addr && n == addr[Nibbles(key[..j])]
      {
        ghost var q := Nibbles(key[..j]);
        var c := key[j];
        NibblesStep(key, j);
        NibblesTake(key, j + 1);
        Child(q, c / 16);
        if n.children[c / 16] == null {
          assert full[..2 * j + 1] == q + [c / 16];
          Missing(full, 2 * j + 1);
          return null;
        }
        n := n.children[c / 16];
        Child(q + [c / 16], c % 16);
        if n.children[c % 16] == null {
          Missing(full, 2 * j + 2);
          return null;
        }
        n := n.children[c % 16];
        j := j + 1;
      }
      assert key[..j] == key;
    }

    // yltrie_get
    method Get(key: Key) returns (v: Option<V>)
      requires Valid()
      ensures v == if key in contents then Some(contents[key]) else None
    {
      hide Shape, Stores, Nibbles;
      Lookup(key);
      if |key| == 0 {
        return None;
      }
      var n := Find(key);
      v := if n == null then None else n.val;
    }

    // What the node at a key's path says about the key.
    lemma Lookup(key: Key)
      requires Shape() && Stores()
      ensures key in contents <==> Holds(Nibbles(key))
      ensures key in contents ==> addr[Nibbles(key)].val.value == contents[key] && key != []
    {
      if Holds(Nibbles(key)) {
        NibblesOfBytes(Nibbles(key));
        NibblesInjective(Bytes(Nibbles(key)), key);
      }
    }

    // _get_node with creation: only the node at the end of the path may lack a value
    // and children.
    method FindOrMake(key: Key) returns (n: Node<V>)
      requires Valid() && |key| < MAX_KEY_LEN
      modifies Repr()
      ensures Shape() && Stores() && contents == old(contents)
      ensures Nibbles(key) in addr && n == addr[Nibbles(key)]
      ensures forall p :: p in addr && p != Nibbles(key) ==> Alive(p)
      ensures fresh(Repr() - old(Repr()))
    {
      hide Shape, Stores, Alive, Nibbles;
      n := root;
      RootIn();
      NibblesTake(key, 0);
      var j := 0;
      while j < |key|
        invariant j <= |key|
        invariant Shape() && Stores() && contents == old(contents)
        invariant Nibbles(key[..j]) in addr && n == addr[Nibbles(key[..j])]
        invariant forall p :: p in addr && p != Nibbles(key[..j]) ==> Alive(p)
        invariant fresh(Repr() - old(Repr()))
        modifies Repr()
      {
        ghost var q := Nibbles(key[..j]);
        var c := key[j];
        NibblesStep(key, j);
        n := Descend(n, c / 16, q);
        n := Descend(n, c % 16, q + [c / 16]);
        j := j + 1;
      }
      assert key[..j] == key;
    }

    lemma RootIn()
      requires Shape()
      ensures [] in addr && addr[[]] == root
    {}

    // The value of one node is set, every other node keeps its value.
    twostate predicate ValueSet(new q: Path, new v: Option<V>)
      reads this, addr.Values
    {
      addr == old(addr) && q in addr && addr[q].val == v &&
      forall p :: p in addr && p != q ==> addr[p].val == old(addr[p].val)
    }

    twostate lemma KeysSet(new key: Key, new v: V)
      requires old(Stores()) && contents == old(contents)[key := v] && ValueSet(Nibbles(key), Some(v))
      ensures KeysStored()
    {
      hide Nibbles, Bytes;
      forall k | k in contents
        ensures Holds(Nibbles(k)) && addr[Nibbles(k)].val.value == contents[k]
      {
        if k != key {
          assert old(Holds(Nibbles(k)));
          if Nibbles(k) == Nibbles(key) { NibblesInjective(k, key); }
        }
      }
    }

    twostate lemma PathsSet(new key: Key, new v: V)
      requires old(Stores()) && contents == old(contents)[key := v] && ValueSet(Nibbles(key), Some(v))
      requires key != []
      ensures PathsStored()
    {
      hide Bytes, Nibbles, IsPath, KeysStored;
      NibblesTake(key, |key|);
      KeyOfPath(key);
      forall p | Holds(p)
        ensures p != [] && |p| % 2 == 0 && IsPath(p) && Bytes(p) in contents
      {
        if p == Nibbles(key) {
          assert Bytes(p) == key;
        } else {
          assert old(Holds(p)) && Bytes(p) in old(contents);
        }
      }
    }

    twostate lemma StoresSet(new key: Key, new v: V)
      requires old(Stores()) && contents == old(contents)[key := v] && ValueSet(Nibbles(key), Some(v))
      requires key != []
      ensures Stores()
    {
      hide Nibbles, Bytes, IsPath, Holds, ValueSet, KeysStored, PathsStored;
      KeysSet(key, v);
      PathsSet(key, v);
    }

    lemma KeyOfPath(key: Key)
      ensures IsPath(Nibbles(key)) && |Nibbles(key)| == 2 * |key| && Bytes(Nibbles(key)) == key
    {
      NibblesIsPath(key);
      NibblesOfBytes(Nibbles(key));
      NibblesInjective(Bytes(Nibbles(key)), key);
    }

    // Storing a value at the end of a key's path.
    method Put(n: Node<V>, key: Key, v: V)
      requires Shape() && Stores() && key != [] && Nibbles(key) in addr && n == addr[Nibbles(key)]
      requires forall p :: p in addr && p != Nibbles(key) ==> Alive(p)
      modifies n`val, this`contents
      ensures Valid() && addr == old(addr) && contents == old(contents)[key := v]
    {
      hide Shape, Stores, Alive, Nibbles, Bytes;
      n.val := Some(v);
      contents := contents[key := v];
      Unaliased(n, Nibbles(key));
      assert ValueSet(Nibbles(key), Some(v));
      StoresSet(key, v);
      assert Holds(Nibbles(key));
      AliveKept(Nibbles(key));
    }

    // yltrie_insert; None stands for a NULL value.
    method Insert(key: Key, v: Option<V>) returns (r: int)
      requires Valid()
      modifies Repr()
      ensures Valid() && fresh(Repr() - old(Repr()))
      ensures r == if key == [] || v.None? || |key| >= MAX_KEY_LEN then -1
                   else if key in old(contents) then 1 else 0
      ensures contents == if r == -1 then old(contents) else old(contents)[key := v.value]
    {
      hide Shape, Stores, Alive, Nibbles;
      if |key| == 0 {
        return -1;
      }
      if v.None? || |key| >= MAX_KEY_LEN {
        return -1;
      }
      var n := FindOrMake(key);
      Lookup(key);
      r := if n.val.Some? then 1 else 0;
      Put(n, key, v.value);
    }

    twostate lemma AliveKept(new q: Path)
      requires addr == old(addr) && Holds(q)
      requires forall p :: p in addr && p != q ==> old(Alive(p)) && addr[p].val == old(addr[p].val)
      ensures forall p :: p in addr ==> Alive(p)
    {
      forall p | p in addr && p != q ensures Alive(p) { assert old(Alive(p)); }
    }

    // Writing the value of one node leaves the links and every other node alone.
    twostate lemma Unaliased(new n: Node<V>, new q: Path)
      requires old(Shape()) && addr == old(addr) && q in addr && addr[q] == n
      requires forall p :: p in addr ==> addr[p].children == old(addr[p].children)
      requires forall p :: p in addr && addr[p] != n ==> addr[p].val == old(addr[p].val)
      ensures Shape()
      ensures forall p :: p in addr && p != q ==> addr[p].val == old(addr[p].val)
    {
      forall p | p in addr ensures NodeOk(p) { assert old(NodeOk(p)); }
    }

    // ---------------------------------------------------------------- delete

    // The childless node at q + [i] is no longer child i of the node at q.
    twostate predicate Unlinking(new q: Path, new i: nat)
      reads this, addr.Values
    {
      && q in old(addr) && i < 16 && q + [i] in old(addr)
      && (forall m :: 0 <= m < 16 ==> (q + [i]) + [m] !in old(addr))
      && addr == old(addr) - {q + [i]}
      && forall p :: p in addr ==>
           addr[p].children == if p == q && |old(addr[p].children)| == 16
                               then old(addr[p].children)[i := null] else old(addr[p].children)
    }

    twostate lemma UnlinkedLinks(new q: Path, new i: nat, new p: Path)
      requires old(Shape()) && Unlinking(q, i) && p in addr
      ensures |addr[p].children| == 16
      ensures forall j :: 0 <= j < 16 ==> addr[p].children[j] == if p + [j] in addr then addr[p + [j]] else null
    {
      hide IsPath;
      assert old(NodeOk(p));
      assert (q + [i])[..|q|] == q && (q + [i])[|q|] == i;
      forall j | 0 <= j < 16
        ensures addr[p].children[j] == if p + [j] in addr then addr[p + [j]] else null
      {
        assert (p + [j])[..|p|] == p && (p + [j])[|p|] == j;
      }
    }

    twostate lemma UnlinkedParent(new q: Path, new i: nat, new p: Path)
      requires old(Shape()) && Unlinking(q, i) && p in addr
      ensures |p| <= MAX_DEPTH && IsPath(p) && (p != [] ==> p[..|p| - 1] in addr)
    {
      assert old(NodeOk(p));
      assert p != [] ==> p == p[..|p| - 1] + [p[|p| - 1]] && p[|p| - 1] < 16;
    }

    twostate lemma Unlinked(new q: Path, new i: nat)
      requires old(Shape()) && Unlinking(q, i)
      ensures Shape()
    {
      hide IsPath;
      forall p | p in addr ensures NodeOk(p) {
        UnlinkedLinks(q, i, p);
        UnlinkedParent(q, i, p);
      }
      assert old(NodeOk([])) && [] != q + [i];
    }

    twostate lemma UnlinkedAlive(new q: Path, new i: nat)
      requires Unlinking(q, i)
      requires forall p :: p in addr && p != q ==>
                 old(Alive(p)) && addr[p].val == old(addr[p].val) && addr[p] == old(addr[p])
      ensures forall p :: p in addr && p != q ==> Alive(p)
    {
      forall p | p in addr && p != q ensures Alive(p) {
        assert old(Alive(p));
        if p != [] && !Holds(p) {
          var m :| 0 <= m < 16 && p + [m] in old(addr);
          assert (p + [m])[..|p|] == p && (q + [i])[..|q|] == q;
          assert p + [m] in addr;
        }
      }
    }

    lemma Distinct(p: Path, i: nat)
      requires Shape() && p in addr && p + [i] in addr
      ensures addr[p] != addr[p + [i]] && |addr[p + [i]].children| == 16
    {
      assert NodeOk(p + [i]);
    }

    lemma Childless(p: Path)
      requires Shape() && p in addr
      ensures |addr[p].children| == 16
      ensures (forall i :: 0 <= i < 16 ==> addr[p].children[i] == null) <==>
              (forall i :: 0 <= i < 16 ==> p + [i] !in addr)
    {
      assert NodeOk(p);
      if forall i :: 0 <= i < 16 ==> p + [i] !in addr {
        forall i | 0 <= i < 16 ensures addr[p].children[i] == null { assert p + [i] !in addr; }
      } else {
        var i :| 0 <= i < 16 && p + [i] in addr;
        assert addr[p].children[i] != null;
      }
    }

    lemma OneNodePerPath(q: Path)
      requires Shape() && q in addr
      ensures forall p :: p in addr && p != q ==> addr[p] != addr[q]
    {}

    // _delete_empty_leaf on child i, and unlinking it
    method PruneChild(n: Node<V>, i: nat, ghost q: Path) returns (pruned: bool)
      requires Shape() && Stores() && q in addr && addr[q] == n && i < 16 && q + [i] in addr
      requires forall p :: p in addr && p != q + [i] ==> Alive(p)
      modifies this`addr, n`children
      ensures Shape() && Stores() && contents == old(contents)
      ensures pruned <==> old(!Alive(q + [i]))
      ensures addr == if pruned then old(addr) - {q + [i]} else old(addr)
      ensures forall p :: p in addr && (pruned ==> p != q) ==> Alive(p)
    {
      hide Shape, Stores;
      Child(q, i);
      Distinct(q, i);
      OneNodePerPath(q);
      Childless(q + [i]);
      var c := n.children[i];
      var j := 0;
      while j < 16 && c.children[j] == null
        invariant 0 <= j <= 16
        invariant forall m :: 0 <= m < j ==> c.children[m] == null
      {
        j := j + 1;
      }
      if j >= 16 && c.val == None {
        n.children := n.children[i := null];
        addr := addr - {q + [i]};
        assert Unlinking(q, i);
        Unlinked(q, i);
        StoresKept();
        UnlinkedAlive(q, i);
        pruned := true;
      } else {
        pruned := false;
      }
    }

    twostate lemma StoresUnset(new key: Key)
      requires old(Stores()) && contents == old(contents) - {key} && ValueSet(Nibbles(key), None)
      ensures Stores()
    {
      hide Bytes, Nibbles, IsPath;
      forall k | k in contents
        ensures Holds(Nibbles(k)) && addr[Nibbles(k)].val.value == contents[k]
      {
        assert old(Holds(Nibbles(k)));
        if Nibbles(k) == Nibbles(key) { NibblesInjective(k, key); }
      }
      forall p | Holds(p)
        ensures p != [] && |p| % 2 == 0 && IsPath(p) && Bytes(p) in contents
      {
        assert old(Holds(p));
        NibblesOfBytes(p);
      }
    }

    // The end of _delete_key: the value goes.
    method Clear(n: Node<V>, key: Key)
      requires Valid() && key in contents && Nibbles(key) in addr && n == addr[Nibbles(key)]
      modifies n`val, this`contents
      ensures Shape() && Stores() && addr == old(addr) && contents == old(contents) - {key}
      ensures forall p :: p in addr && p != Nibbles(key) ==> Alive(p)
    {
      hide Shape, Stores, Nibbles, Bytes;
      n.val := None;
      contents := contents - {key};
      Unaliased(n, Nibbles(key));
      assert ValueSet(Nibbles(key), None);
      StoresUnset(key);
      forall p | p in addr && p != Nibbles(key) ensures Alive(p) { assert old(Alive(p)); }
    }

    // _delete_empty_byte_leaf: after a deletion below, drop the byte's two nodes as far
    // as they are dead; true when the node above must be looked at.
    method PruneByte(n: Node<V>, c: Byte, ghost q: Path) returns (more: bool)
      requires Shape() && Stores() && q in addr && addr[q] == n && |q| % 2 == 0
      requires q + [c / 16] in addr && q + [c / 16] + [c % 16] in addr
      requires forall p :: p in addr && p != q + [c / 16] + [c % 16] ==> Alive(p)
      modifies Repr()
      ensures Shape() && Stores() && contents == old(contents)
      ensures q in addr && addr[q] == n
      ensures forall p :: p in addr ==> p in old(addr) && addr[p] == old(addr[p])
      ensures forall p :: p in addr && (more ==> p != q) ==> Alive(p)
    {
      hide Shape, Stores;
      Child(q, c / 16);
      var f := n.children[c / 16];
      more := PruneChild(f, c % 16, q + [c / 16]);
      if more {
        more := PruneChild(n, c / 16, q);
      }
    }

    // _delete_key: 1 when the caller must look at node n, 0 when done, -1 when the key
    // is not there.
    method DeleteKey(n: Node<V>, key: Key, j: nat) returns (r: int)
      requires Valid() && j <= |key| && Nibbles(key[..j]) in addr && addr[Nibbles(key[..j])] == n
      modifies Repr()
      ensures Shape() && Stores() && r in {1, 0, -1}
      ensures contents == old(contents) - {key} && (r == -1 <==> key !in old(contents))
      ensures Nibbles(key[..j]) in addr && addr[Nibbles(key[..j])] == n
      ensures forall p :: p in addr ==> p in old(addr) && addr[p] == old(addr[p])
      ensures forall p :: p in addr && (r == 1 ==> p != Nibbles(key[..j])) ==> Alive(p)
      decreases |key| - j
    {
      hide Shape, Stores, Nibbles, Alive;
      ghost var q := Nibbles(key[..j]);
      Lookup(key);
      if j < |key| {
        var c := key[j];
        NibblesStep(key, j);
        NibblesTake(key, j + 1);
        Child(q, c / 16);
        var f := n.children[c / 16];
        if f != null {
          Child(q + [c / 16], c % 16);
          var b := f.children[c % 16];
          if b != null {
            r := DeleteKey(b, key, j + 1);
            ghost var child := Nibbles(key[..j + 1]);
            assert child[..2 * j + 1] == q + [c / 16] && child[..2 * j] == q;
            PrefixClosed(child, 2 * j + 1);
            PrefixClosed(child, 2 * j);
            if r == 1 {
              var more := PruneByte(n, c, q);
              r := if more then 1 else 0;
            }
            return;
          }
          Missing(Nibbles(key), 2 * j + 2);
        } else {
          assert Nibbles(key)[..2 * j + 1] == q + [c / 16];
          Missing(Nibbles(key), 2 * j + 1);
        }
        r := -1;
      } else {
        assert key[..j] == key;
        if n.val.Some? {
          Clear(n, key);
          r := 1;
        } else {
          r := -1;
        }
      }
    }

    // yltrie_delete
    method Delete(key: Key) returns (r: int)
      requires Valid()
      modifies Repr()
      ensures Valid() && fresh(Repr() - old(Repr()))
      ensures r == if key in old(contents) then 0 else -1
      ensures contents == old(contents) - {key}
    {
      hide Shape, Stores, Nibbles;
      NibblesTake(key, 0);
      RootIn();
      var d := DeleteKey(root, key, 0);
      assert Alive([]);
      r := if d >= 0 then 0 else -1;
    }

    // ---------------------------------------------------------------- canonical form

    ghost predicate Leads(p: Path, k: Key) {
      p <= Nibbles(k)
    }

    // Below every node other than the root there is a key; so after any sequence of
    // inserts and deletes the nodes are exactly the prefixes of the stored keys.
    lemma {:induction false} AliveLeads(p: Path) returns (k: Key)
      requires Valid() && p in addr && p != []
      ensures k in contents && Leads(p, k)
      decreases MAX_DEPTH - |p|
    {
      assert NodeOk(p) && Alive(p);
      if Holds(p) {
        k := Bytes(p);
        NibblesOfBytes(p);
      } else {
        var i :| 0 <= i < 16 && p + [i] in addr;
        assert NodeOk(p + [i]);
        k := AliveLeads(p + [i]);
      }
    }

    lemma NodesArePrefixes(p: Path)
      requires Valid()
      ensures p in addr <==> p == [] || exists k :: k in contents && Leads(p, k)
    {
      hide Shape, Stores, Alive, Nibbles;
      if p in addr && p != [] {
        var k := AliveLeads(p);
      }
      if k: Key :| k in contents && Leads(p, k) {
        Lookup(k);
        PrefixClosed(Nibbles(k), |p|);
        assert Nibbles(k)[..|p|] == p;
      }
      RootIn();
    }

    // ---------------------------------------------------------------- equality

    // Both tries have a node at p with matching values, or neither has a node.
    ghost predicate Match(other: Trie<V>, cmp: (V, V) -> bool, p: Path)
      reads this, addr.Values, other, other.addr.Values
    {
      (p in addr <==> p in other.addr) &&
      (p in addr && p in other.addr ==> SameValue(addr[p].val, other.addr[p].val, cmp))
    }

    static predicate SameValue(x: Option<V>, y: Option<V>, cmp: (V, V) -> bool) {
      (x.Some? <==> y.Some?) && (x.Some? && y.Some? ==> cmp(x.value, y.value))
    }

    ghost predicate MatchBelow(other: Trie<V>, cmp: (V, V) -> bool, q: Path)
      reads this, addr.Values, other, other.addr.Values
    {
      forall p :: q <= p ==> Match(other, cmp, p)
    }

    // Where neither trie goes on, they match.
    lemma AbsentMatch(other: Trie<V>, cmp: (V, V) -> bool, q: Path)
      requires Shape() && other.Shape() && q !in addr && q !in other.addr
      ensures MatchBelow(other, cmp, q)
    {
      hide Shape;
      forall p | q <= p ensures Match(other, cmp, p) {
        assert p[..|q|] == q;
        Missing(p, |q|);
        other.Missing(p, |q|);
      }
    }

    // _equal_internal
    method EqualNodes(other: Trie<V>, n0: Node<V>, n1: Node<V>, cmp: (V, V) -> bool, ghost q: Path)
      returns (r: bool)
      requires Shape() && other.Shape() && q in addr && q in other.addr
      requires addr[q] == n0 && other.addr[q] == n1
      ensures r <==> MatchBelow(other, cmp, q)
      decreases MAX_DEPTH - |q|
    {
      hide Shape;
      if n0.val.Some? && n1.val.Some? {
        if !cmp(n0.val.value, n1.val.value) {
          assert !Match(other, cmp, q);
          return false;
        }
      } else if n0.val.Some? || n1.val.Some? {
        assert !Match(other, cmp, q);
        return false;
      }
      var i := 0;
      while i < 16
        invariant 0 <= i <= 16
        invariant forall j :: 0 <= j < i ==> MatchBelow(other, cmp, q + [j])
      {
        Child(q, i);
        other.Child(q, i);
        if n0.children[i] != null && n1.children[i] != null {
          Deep(q + [i]);
          var same := EqualNodes(other, n0.children[i], n1.children[i], cmp, q + [i]);
          if !same {
            ghost var w :| q + [i] <= w && !Match(other, cmp, w);
            assert q <= w;
            return false;
          }
        } else if n0.children[i] != null || n1.children[i] != null {
          assert !Match(other, cmp, q + [i]) && q <= q + [i];
          return false;
        } else {
          AbsentMatch(other, cmp, q + [i]);
        }
        i := i + 1;
      }
      r := true;
      forall p | q <= p ensures Match(other, cmp, p) {
        if p != q {
          var j := p[|q|];
          if j < 16 { assert q + [j] <= p && MatchBelow(other, cmp, q + [j]); }
          else { NotAPath(p, |q|); other.NotAPath(p, |q|); }
        }
      }
    }

    lemma Deep(p: Path)
      requires Shape() && p in addr
      ensures |p| <= MAX_DEPTH && IsPath(p)
    {
      assert NodeOk(p);
    }

    lemma NotAPath(p: Path, i: nat)
      requires Shape() && i < |p| && p[i] >= 16
      ensures p !in addr
    {
      assert p in addr ==> NodeOk(p);
    }

    // The same keys, with values that cmp accepts.
    ghost predicate SameMaps(other: Trie<V>, cmp: (V, V) -> bool)
      reads this, other
    {
      contents.Keys == other.contents.Keys &&
      forall k :: k in contents && k in other.contents ==> cmp(contents[k], other.contents[k])
    }

    // Since both tries are in canonical form, matching structure means equal maps.
    lemma MatchingIsEqual(other: Trie<V>, cmp: (V, V) -> bool)
      requires Valid() && other.Valid()
      ensures MatchBelow(other, cmp, []) <==> SameMaps(other, cmp)
    {
      hide Shape, Stores, Alive, Match;
      if MatchBelow(other, cmp, []) {
        MatchingMaps(other, cmp);
      } else if SameMaps(other, cmp) {
        SameMapsMatch(other, cmp);
      }
    }

    // yltrie_equal
    method Equal(other: Trie<V>, cmp: (V, V) -> bool) returns (r: bool)
      requires Valid() && other.Valid()
      ensures r <==> SameMaps(other, cmp)
    {
      hide Shape, Stores, Alive, Match, SameMaps;
      RootIn();
      other.RootIn();
      MatchingIsEqual(other, cmp);
      r := EqualNodes(other, root, other.root, cmp, []);
    }

    lemma MatchingMaps(other: Trie<V>, cmp: (V, V) -> bool)
      requires Valid() && other.Valid() && MatchBelow(other, cmp, [])
      ensures contents.Keys == other.contents.Keys
      ensures forall k :: k in contents && k in other.contents ==> cmp(contents[k], other.contents[k])
    {
      hide Shape, Stores, Nibbles, Alive;
      forall k: Key
        ensures k in contents <==> k in other.contents
        ensures k in contents && k in other.contents ==> cmp(contents[k], other.contents[k])
      {
        Lookup(k);
        other.Lookup(k);
        assert Match(other, cmp, Nibbles(k));
      }
    }

    lemma SameMapsMatch(other: Trie<V>, cmp: (V, V) -> bool)
      requires Valid() && other.Valid() && contents.Keys == other.contents.Keys
      requires forall k :: k in contents && k in other.contents ==> cmp(contents[k], other.contents[k])
      ensures MatchBelow(other, cmp, [])
    {
      hide Shape, Stores, Nibbles, Alive, Bytes, IsPath;
      forall p: Path ensures Match(other, cmp, p) {
        NodesArePrefixes(p);
        other.NodesArePrefixes(p);
        assert forall k :: k in contents <==> k in other.contents;
        if p in addr {
          if Holds(p) { KeyAt(p); other.Lookup(Bytes(p)); Lookup(Bytes(p)); }
          if other.Holds(p) { other.KeyAt(p); Lookup(Bytes(p)); other.Lookup(Bytes(p)); }
        }
      }
    }

    lemma KeyAt(p: Path)
      requires Stores() && Holds(p)
      ensures IsPath(p) && |p| % 2 == 0 && Bytes(p) in contents && Nibbles(Bytes(p)) == p
    {
      NibblesOfBytes(p);
    }

    // ---------------------------------------------------------------- completion

    lemma Children(p: Path)
      requires Shape() && p in addr
      ensures |addr[p].children| == 16
      ensures forall i :: 0 <= i < 16 ==> addr[p].children[i] == if p + [i] in addr then addr[p + [i]] else null
    {
      assert NodeOk(p);
    }

    // The number of children of the node at q, and the last of them.
    method CountChildren(n: Node<V>, ghost q: Path) returns (cnt: nat, last: nat, ghost first: nat)
      requires Shape() && q in addr && addr[q] == n
      ensures cnt == 0 <==> forall i :: 0 <= i < 16 ==> q + [i] !in addr
      ensures cnt > 0 ==> first <= last < 16 && q + [first] in addr && q + [last] in addr
      ensures cnt > 0 ==> last < |n.children| && n.children[last] == addr[q + [last]]
      ensures cnt == 1 ==> forall i :: 0 <= i < 16 && q + [i] in addr ==> i == last
      ensures cnt > 1 ==> first < last
    {
      hide Shape;
      Children(q);
      cnt, last, first := 0, 0, 0;
      for i := 0 to 16
        invariant cnt == 0 <==> forall j :: 0 <= j < i ==> n.children[j] == null
        invariant cnt > 0 ==> first <= last < i && n.children[first] != null && n.children[last] != null
        invariant cnt == 1 ==> forall j :: 0 <= j < i && j != last ==> n.children[j] == null
        invariant cnt > 1 ==> first < last
      {
        if n.children[i] != null {
          cnt := cnt + 1;
          if cnt == 1 { first := i; }
          last := i;
        }
      }
      assert forall i :: 0 <= i < 16 ==> (q + [i] in addr <==> n.children[i] != null);
    }

    // Every stored key that starts with `prefix` goes on with w.
    ghost predicate Common(prefix: Key, w: Key)
      reads this
    {
      forall k :: k in contents && prefix <= k ==> prefix + w <= k
    }

    ghost predicate Longest(prefix: Key, w: Key)
      reads this
    {
      Common(prefix, w) && forall u :: Common(prefix, u) ==> |u| <= |w|
    }

    ghost predicate Only(prefix: Key, k: Key)
      reads this
    {
      k in contents && prefix <= k && forall j :: j in contents && prefix <= j ==> j == k
    }

    // A stored key through the node at p.
    lemma KeyThrough(p: Path, prefix: Key) returns (k: Key)
      requires Valid() && p in addr && p != [] && Nibbles(prefix) <= p
      ensures k in contents && prefix <= k && p <= Nibbles(k)
    {
      hide Shape, Stores, Alive, Nibbles;
      k := AliveLeads(p);
      assert Nibbles(prefix) <= Nibbles(k);
      NibblesPrefix(prefix, k);
    }

    // A stored key beyond the node at q passes through one of its children.
    lemma ThroughChild(q: Path, k: Key)
      requires Valid() && k in contents && q <= Nibbles(k) && Nibbles(k) != q
      ensures var i := Nibbles(k)[|q|];
              i < 16 && q + [i] in addr && q + [i] <= Nibbles(k)
    {
      hide Shape, Stores, Alive, Nibbles;
      Lookup(k);
      NibblesIsPath(k);
      PrefixClosed(Nibbles(k), |q| + 1);
      assert Nibbles(k)[..|q| + 1] == q + [Nibbles(k)[|q|]];
    }

    // Two stored keys that part within the byte after prefix + w.
    lemma BranchIsLongest(prefix: Key, w: Key, j: Key, k: Key, n: nat)
      requires Common(prefix, w) && j in contents && k in contents && prefix <= j && prefix <= k
      requires n < 2 && 2 * |prefix + w| + n < |Nibbles(j)| && 2 * |prefix + w| + n < |Nibbles(k)|
      requires Nibbles(j)[2 * |prefix + w| + n] != Nibbles(k)[2 * |prefix + w| + n]
      ensures Longest(prefix, w) && j != k
    {
      hide Nibbles;
      var m := |prefix + w|;
      forall u | Common(prefix, u) ensures |u| <= |w| {
        assert prefix + u <= j && prefix + u <= k;
        assert |u| > |w| ==> j[m] == (prefix + u)[m] && k[m] == (prefix + u)[m];
        NibblesAt(j, m);
        NibblesAt(k, m);
      }
    }

    // prefix + w is itself stored.
    lemma KeyIsLongest(prefix: Key, w: Key)
      requires Common(prefix, w) && prefix + w in contents
      ensures Longest(prefix, w)
    {
      forall u | Common(prefix, u) ensures |u| <= |w| { assert prefix + u <= prefix + w; }
    }

    lemma ExtendCommon(prefix: Key, w: Key, hi: nat, lo: nat)
      requires Valid() && Common(prefix, w) && prefix + w !in contents && hi < 16 && lo < 16
      requires forall i :: 0 <= i < 16 && Nibbles(prefix + w) + [i] in addr ==> i == hi
      requires forall i :: 0 <= i < 16 && Nibbles(prefix + w) + [hi] + [i] in addr ==> i == lo
      ensures Common(prefix, w + [Byte2(hi, lo)])
      ensures Nibbles(prefix + (w + [Byte2(hi, lo)])) == Nibbles(prefix + w) + [hi] + [lo]
    {
      hide Shape, Stores, Alive, Nibbles;
      var c, q := Byte2(hi, lo), Nibbles(prefix + w);
      var full := prefix + (w + [c]);
      assert full[..|prefix + w|] == prefix + w;
      NibblesStep(full, |prefix + w|);
      assert full[..|prefix + w| + 1] == full && c / 16 == hi && c % 16 == lo;
      forall k | k in contents && prefix <= k ensures full <= k {
        NibblesPrefix(prefix + w, k);
        if Nibbles(k) == q { NibblesInjective(k, prefix + w); }
        ThroughChild(q, k);
        Lookup(k);
        if Nibbles(k) == q + [hi] { KeyAt(q + [hi]); NibblesTake(prefix + w, |prefix + w|); NibblesTake(k, |k|); }
        ThroughChild(q + [hi], k);
        NibblesPrefix(full, k);
      }
    }

    ghost predicate TwoKeys(prefix: Key)
      reads this
    {
      exists j, k :: j in contents && k in contents && prefix <= j && prefix <= k && j != k
    }

    // Two children of the node after prefix + w (n = 0), or of its only child (n = 1).
    lemma ForkBranches(prefix: Key, w: Key, p: Path, a: nat, b: nat)
      requires Valid() && Common(prefix, w) && p + [a] in addr && p + [b] in addr && a != b
      requires Nibbles(prefix + w) <= p && |p| - 2 * |prefix + w| < 2
      ensures Longest(prefix, w) && TwoKeys(prefix)
    {
      hide Shape, Stores, Alive, Nibbles;
      var q := Nibbles(prefix + w);
      NibblesTake(prefix + w, |prefix + w|);
      NibblesPrefix(prefix, prefix + w);
      var j := KeyThrough(p + [a], prefix);
      var k := KeyThrough(p + [b], prefix);
      assert Nibbles(j)[|p|] == (p + [a])[|p|] == a && Nibbles(k)[|p|] == (p + [b])[|p|] == b;
      BranchIsLongest(prefix, w, j, k, |p| - 2 * |prefix + w|);
    }

    // The node after prefix + w has a value and a child.
    lemma KeyBranches(prefix: Key, w: Key, a: nat)
      requires Valid() && Common(prefix, w) && Holds(Nibbles(prefix + w)) && Nibbles(prefix + w) + [a] in addr
      ensures Longest(prefix, w) && TwoKeys(prefix)
    {
      hide Shape, Stores, Alive, Nibbles;
      Lookup(prefix + w);
      KeyIsLongest(prefix, w);
      NibblesPrefix(prefix, prefix + w);
      var k := KeyThrough(Nibbles(prefix + w) + [a], prefix);
      assert k != prefix + w;
    }

    // The node after prefix + w has no child.
    lemma DeadEndIsKey(prefix: Key, w: Key)
      requires Valid() && Common(prefix, w) && Nibbles(prefix + w) in addr
      requires exists k :: k in contents && prefix <= k
      requires forall i :: 0 <= i < 16 ==> Nibbles(prefix + w) + [i] !in addr
      ensures Longest(prefix, w) && Only(prefix, prefix + w)
    {
      hide Shape, Stores, Alive, Nibbles;
      forall k | k in contents && prefix <= k ensures k == prefix + w {
        NibblesPrefix(prefix + w, k);
        if Nibbles(k) != Nibbles(prefix + w) { ThroughChild(Nibbles(prefix + w), k); }
        NibblesInjective(k, prefix + w);
      }
      KeyIsLongest(prefix, w);
    }

    // A front node has no value, so it has a child.
    lemma FrontNode(p: Path)
      requires Valid() && p in addr && |p| % 2 == 1
      ensures addr[p].val == None && exists i :: 0 <= i < 16 && p + [i] in addr
    {
      assert Alive(p);
    }

    // The root of an empty trie has neither a value nor a child.
    lemma EmptyRoot()
      requires Valid() && contents.Keys == {}
      ensures addr[[]].val == None && forall i :: 0 <= i < 16 ==> [] + [i] !in addr
    {
      hide Stores, Alive, Shape;
      RootIn();
      if Holds([]) { KeyAt([]); }
      forall i | 0 <= i < 16 ensures [] + [i] !in addr {
        NodesArePrefixes([] + [i]);
      }
    }

    ghost predicate HasKey(prefix: Key)
      reads this
    {
      exists k :: k in contents && prefix <= k
    }

    // The unsigned bufsz-1 of the size test.
    function LastIndex(bufsz: nat): nat {
      if bufsz == 0 then 0xFFFF_FFFF else bufsz - 1
    }

    // yltrie_auto_complete; w is what has been written to the buffer, or, when the
    // buffer is too small, what does not fit. The assertion fails exactly for the empty
    // prefix in an empty trie, and a write leaves the buffer exactly when there is
    // something to write and the buffer has no room at all.
    method AutoComplete(prefix: Key, buf: array<Byte>) returns (ret: Completion, ghost w: Key)
      requires Valid()
      modifies buf
      ensures ret == Fail <==> prefix != [] && !HasKey(prefix)
      ensures ret == Aborted <==> prefix == [] && contents.Keys == {}
      ensures ret == Outside <==> buf.Length == 0 && HasKey(prefix)
      ensures ret == Branch || ret == Leaf ==>
                |w| < buf.Length && buf[..|w|] == w && buf[|w|] == 0 && Longest(prefix, w)
      ensures ret == Leaf ==> Only(prefix, prefix + w)
      ensures ret == Branch ==> TwoKeys(prefix)
      ensures ret == TooSmall ==> |w| == buf.Length && Common(prefix, w)
    {
      hide Shape, Stores, Alive, Nibbles, Longest, TwoKeys, HasKey;
      w := [];
      var n := Find(prefix);
      Arrived(prefix);
      if n == null {
        return Fail, w;
      }
      assert prefix + w == prefix;
      var bi := 0;
      while true
        invariant bi == |w| <= buf.Length && (bi < buf.Length || bi == 0) && buf[..bi] == w
        invariant Common(prefix, w) && (HasKey(prefix) || w == [])
        invariant Nibbles(prefix + w) in addr && n == addr[Nibbles(prefix + w)]
        decreases buf.Length - bi
      {
        ghost var q := Nibbles(prefix + w);
        var cnt, j, f := CountChildren(n, q);
        if cnt > 1 || (cnt == 1 && n.val.Some?) {
          if cnt > 1 { ForkBranches(prefix, w, q, f, j); } else { KeyBranches(prefix, w, j); }
          ret := Branch;
          break;
        } else if cnt == 0 {
          DeadEnd(prefix, w);
          if n.val.None? {
            return Aborted, w;
          }
          ret := Leaf;
          break;
        }
        Lookup(prefix + w);
        WayOn(prefix, w, j);
        n := n.children[j];
        NibblesTake(prefix + w, |prefix + w|);
        FrontNode(q + [j]);
        var cnt', j', f' := CountChildren(n, q + [j]);
        if cnt' > 1 {
          ForkBranches(prefix, w, q + [j], f', j');
          ret := Branch;
          break;
        }
        var c := Byte2(j, j');
        ExtendCommon(prefix, w, j, j');
        n := n.children[j'];
        w := w + [c];
        if bi >= LastIndex(buf.Length) {
          return TooSmall, w;
        }
        if bi >= buf.Length {
          return Outside, w;
        }
        buf[bi] := c;
        bi := bi + 1;
      }
      ManyHaveKey(prefix);
      if bi >= buf.Length {
        return Outside, w;
      }
      buf[bi] := 0;
    }

    lemma ManyHaveKey(prefix: Key)
      ensures TwoKeys(prefix) ==> HasKey(prefix)
    {}

    // Whether there is a node at the prefix.
    lemma Arrived(prefix: Key)
      requires Valid()
      ensures Nibbles(prefix) in addr <==> prefix == [] || HasKey(prefix)
      ensures prefix == [] ==> (HasKey(prefix) <==> contents.Keys != {})
    {
      hide Shape, Stores, Alive, Nibbles;
      NibblesTake(prefix, |prefix|);
      RootIn();
      if contents.Keys != {} || prefix != [] { PrefixHasKey(prefix); }
      if prefix == [] && contents.Keys != {} {
        var k :| k in contents.Keys;
        assert prefix <= k;
      }
    }

    // Without children the node is a key, unless it is the root of an empty trie.
    lemma DeadEnd(prefix: Key, w: Key)
      requires Valid() && Common(prefix, w) && Nibbles(prefix + w) in addr && (HasKey(prefix) || w == [])
      requires forall i :: 0 <= i < 16 ==> Nibbles(prefix + w) + [i] !in addr
      ensures addr[Nibbles(prefix + w)].val.Some? <==> HasKey(prefix)
      ensures HasKey(prefix) ==> Longest(prefix, w) && Only(prefix, prefix + w)
      ensures !HasKey(prefix) ==> prefix == [] && contents.Keys == {}
    {
      hide Shape, Stores, Alive, Nibbles;
      if HasKey(prefix) {
        DeadEndIsKey(prefix, w);
        Lookup(prefix + w);
      } else {
        assert prefix + w == prefix;
        Arrived(prefix);
        NibblesTake(prefix, |prefix|);
        EmptyRoot();
      }
    }

    // With a child there is a key.
    lemma WayOn(prefix: Key, w: Key, i: nat)
      requires Valid() && Nibbles(prefix + w) + [i] in addr
      ensures HasKey(prefix)
    {
      hide Shape, Stores, Alive, Nibbles;
      NibblesPrefix(prefix, prefix + w);
      var k := KeyThrough(Nibbles(prefix + w) + [i], prefix);
    }

    // A node at the end of the prefix means a stored key that starts with it.
    lemma PrefixHasKey(prefix: Key)
      requires Valid() && (contents.Keys != {} || prefix != [])
      ensures Nibbles(prefix) in addr <==> exists k :: k in contents && prefix <= k
    {
      hide Shape, Stores, Alive, Nibbles;
      NodesArePrefixes(Nibbles(prefix));
      NibblesTake(prefix, |prefix|);
      if prefix == [] {
        var k :| k in contents.Keys;
        assert prefix <= k;
        RootIn();
      }
      forall k: Key | k in contents ensures Leads(Nibbles(prefix), k) <==> prefix <= k {
        NibblesPrefix(prefix, k);
      }
    }
  }

  // The empty prefix in a new trie, whatever the buffer.
  method CompleteNothing<V(==)>(buf: array<Byte>) returns (ret: Completion)
    modifies buf
    ensures ret == Aborted
  {
    var t := new Trie<V>();
    ghost var w;
    ret, w := t.AutoComplete([], buf);
  }
}
