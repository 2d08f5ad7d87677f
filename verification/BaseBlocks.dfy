// The stack of base blocks: a growing array, from which the topmost occurrence of a
// block is removed, wherever it lies.
module BaseBlocks {
  import opened Wrappers

  type Ref = nat

  // The sequence without its last occurrence of e.
  ghost function RemoveTop<T>(s: seq<T>, e: T): seq<T> {
    if s == [] then []
    else
      var n := |s| - 1;
      if s[n] == e then s[..n] else RemoveTop(s[..n], e) + [s[n]]
  }

  lemma {:induction false} RemoveTopAt<T>(s: seq<T>, e: T, i: nat)
    requires i < |s| && s[i] == e && e !in s[i + 1..]
    ensures RemoveTop(s, e) == s[..i] + s[i + 1..]
    decreases |s|
  {
    var n := |s| - 1;
    if i < n {
      assert s[n] == s[i + 1..][n - i - 1];
      assert s[..n][i + 1..] == s[i + 1..n] && s[i + 1..] == s[i + 1..n] + [s[n]];
      RemoveTopAt(s[..n], e, i);
      assert s[..n][..i] + s[..n][i + 1..] + [s[n]] == s[..i] + s[i + 1..];
    }
  }

  lemma {:induction false} RemoveTopAbsent<T>(s: seq<T>, e: T)
    requires e !in s
    ensures RemoveTop(s, e) == s
    decreases |s|
  {
    if s != [] {
      RemoveTopAbsent(s[..|s| - 1], e);
      assert s[..|s| - 1] + [s[|s| - 1]] == s;
    }
  }

  // As a multiset, one occurrence goes, if there is one.
  lemma {:induction false} RemoveTopMultiset<T>(s: seq<T>, e: T)
    ensures multiset(RemoveTop(s, e)) == multiset(s) - multiset{e}
    decreases |s|
  {
    if s != [] {
      var n := |s| - 1;
      assert s == s[..n] + [s[n]];
      RemoveTopMultiset(s[..n], e);
    }
  }

  class Stack {
    var item: array<Ref>
    var sz: nat

    ghost predicate Valid()
      reads this
    {
      0 < item.Length && sz <= item.Length
    }

    ghost function Contents(): seq<Ref>
      requires Valid()
      reads this, item
    {
      item[..sz]
    }

    // ylstk_create
    constructor (initLimit: nat)
      ensures Valid() && fresh(item) && Contents() == []
    {
      item := new Ref[if initLimit == 0 then 16 else initLimit](_ => 0);
      sz := 0;
    }

    // ylstk_push, ylmp_add_bb
    method Push(e: Ref)
      requires Valid()
      modifies this, item
      ensures Valid() && Contents() == old(Contents()) + [e]
      ensures item == old(item) || fresh(item)
    {
      if sz >= item.Length {
        var tmp := new Ref[item.Length * 2](_ => 0);
        var i := 0;
        while i < sz
          invariant 0 <= i <= sz <= item.Length < tmp.Length
          invariant tmp[..i] == item[..i] && item[..sz] == old(item[..sz])
          modifies tmp
        {
          tmp[i] := item[i];
          i := i + 1;
        }
        item := tmp;
      }
      item[sz] := e;
      sz := sz + 1;
    }

    // ylstk_pop; popping an empty stack is refused
    method Pop() returns (e: Option<Ref>)
      requires Valid()
      modifies this`sz
      ensures Valid()
      ensures e.None? <==> old(Contents()) == []
      ensures e.None? ==> Contents() == []
      ensures e.Some? ==> old(Contents()) == Contents() + [e.value]
    {
      if sz == 0 {
        return None;
      }
      sz := sz - 1;
      e := Some(item[sz]);
    }

    // ylmp_rm_bb: false when the block was not there
    method Remove(e: Ref) returns (found: bool)
      requires Valid()
      modifies this`sz, item
      ensures Valid() && Contents() == RemoveTop(old(Contents()), e)
      ensures found <==> e in old(Contents())
    {
      ghost var s := Contents();
      var i := sz - 1;
      while i >= 0
        invariant -1 <= i < sz && Contents() == s && sz == |s|
        invariant e !in s[i + 1..]
      {
        if item[i] == e {
          RemoveTopAt(s, e, i);
          ShiftDown(i, s);
          sz := sz - 1;
          assert item[..sz] == s[..i] + s[i + 1..];
          return true;
        }
        assert s[i..] == [s[i]] + s[i + 1..];
        i := i - 1;
      }
      RemoveTopAbsent(s, e);
      found := false;
    }

    // the memmove: everything above i moves down by one
    method ShiftDown(i: nat, ghost s: seq<Ref>)
      requires Valid() && i < sz && Contents() == s
      modifies item
      ensures item[..sz - 1] == s[..i] + s[i + 1..]
    {
      var j := i;
      while j + 1 < sz
        invariant i <= j < sz
        invariant forall k :: 0 <= k < i ==> item[k] == s[k]
        invariant forall k :: i <= k < j ==> item[k] == s[k + 1]
        invariant forall k :: j < k < sz ==> item[k] == s[k]
      {
        item[j] := item[j + 1];
        j := j + 1;
      }
    }
  }

  // ---------------------------------------------------------------- one thread

  ghost function RemoveAll<T>(s: seq<T>, es: seq<T>): seq<T>
    decreases |es|
  {
    if es == [] then s else RemoveAll(RemoveTop(s, es[0]), es[1..])
  }

  lemma {:induction false} RemoveTopAbove<T>(s: seq<T>, p: seq<T>, e: T)
    requires e in p
    ensures RemoveTop(s + p, e) == s + RemoveTop(p, e)
    decreases |p|
  {
    var n := |p| - 1;
    assert (s + p)[..|s + p| - 1] == s + p[..n] && (s + p)[|s + p| - 1] == p[n];
    if p[n] != e {
      assert e in p[..n];
      RemoveTopAbove(s, p[..n], e);
      assert s + RemoveTop(p[..n], e) + [p[n]] == s + (RemoveTop(p[..n], e) + [p[n]]);
    }
  }

  // What is protected and then released, in whatever order, leaves the stack as it was.
  lemma {:induction false} ReleasedInAnyOrder<T>(s: seq<T>, p: seq<T>, es: seq<T>)
    requires multiset(es) == multiset(p)
    ensures RemoveAll(s + p, es) == s
    decreases |es|
  {
    if es == [] {
      assert |p| == |multiset(p)| == |multiset(es)| == 0;
      assert s + p == s;
    } else {
      assert es[0] in multiset(p);
      RemoveTopAbove(s, p, es[0]);
      RemoveTopMultiset(p, es[0]);
      assert es == [es[0]] + es[1..];
      ReleasedInAnyOrder(s, RemoveTop(p, es[0]), es[1..]);
    }
  }

  // ---------------------------------------------------------------- many threads

  // Threads are numbered; each adds blocks, and removes only what it has added.
  datatype Op = Add(t: nat, e: Ref) | Release(t: nat, e: Ref)

  datatype State = State(stack: seq<Ref>, held: seq<multiset<Ref>>)

  ghost predicate Allowed(s: State, op: Op) {
    op.t < |s.held| && (op.Release? ==> op.e in s.held[op.t])
  }

  ghost function Apply(s: State, op: Op): State
    requires Allowed(s, op)
  {
    match op
    case Add(t, e) => State(s.stack + [e], s.held[t := s.held[t] + multiset{e}])
    case Release(t, e) => State(RemoveTop(s.stack, e), s.held[t := s.held[t] - multiset{e}])
  }

  ghost function Union(held: seq<multiset<Ref>>): multiset<Ref> {
    if held == [] then multiset{} else held[0] + Union(held[1..])
  }

  ghost predicate IsRun(states: seq<State>, ops: seq<Op>) {
    && |states| == |ops| + 1
    && states[0].stack == [] && (forall t :: 0 <= t < |states[0].held| ==> states[0].held[t] == multiset{})
    && forall i :: 0 <= i < |ops| ==> Allowed(states[i], ops[i]) && states[i + 1] == Apply(states[i], ops[i])
  }

  lemma {:induction false} UnionEmpty(held: seq<multiset<Ref>>)
    requires forall t :: 0 <= t < |held| ==> held[t] == multiset{}
    ensures Union(held) == multiset{}
  {
    if held != [] { UnionEmpty(held[1..]); }
  }

  lemma {:induction false} UnionAdd(held: seq<multiset<Ref>>, t: nat, e: Ref)
    requires t < |held|
    ensures Union(held[t := held[t] + multiset{e}]) == Union(held) + multiset{e}
  {
    if t > 0 {
      UnionAdd(held[1..], t - 1, e);
      assert held[t := held[t] + multiset{e}][1..] == held[1..][t - 1 := held[t] + multiset{e}];
    }
  }

  lemma {:induction false} HeldInUnion(held: seq<multiset<Ref>>, t: nat)
    requires t < |held|
    ensures held[t] <= Union(held)
  {
    if t > 0 { HeldInUnion(held[1..], t - 1); }
  }

  lemma {:induction false} UnionRelease(held: seq<multiset<Ref>>, t: nat, e: Ref)
    requires t < |held| && e in held[t]
    ensures Union(held[t := held[t] - multiset{e}]) == Union(held) - multiset{e}
  {
    var held' := held[t := held[t] - multiset{e}];
    if t == 0 {
      assert held'[1..] == held[1..];
    } else {
      HeldInUnion(held[1..], t - 1);
      assert e in Union(held[1..]);
      UnionRelease(held[1..], t - 1, e);
      assert held'[1..] == held[1..][t - 1 := held[t] - multiset{e}];
    }
  }

  // However the threads interleave, the stack is the union of what they hold: nobody
  // loses a protection to somebody else's removal.
  lemma {:induction false} StackIsUnion(states: seq<State>, ops: seq<Op>, i: nat)
    requires IsRun(states, ops) && i < |states|
    ensures multiset(states[i].stack) == Union(states[i].held)
    ensures forall t, e :: 0 <= t < |states[i].held| && e in states[i].held[t] ==> e in states[i].stack
  {
    if i == 0 {
      UnionEmpty(states[0].held);
    } else {
      StackIsUnion(states, ops, i - 1);
      var s, op := states[i - 1], ops[i - 1];
      assert Allowed(s, op) && states[i] == Apply(s, op);
      match op
      case Add(t, e) => UnionAdd(s.held, t, e);
      case Release(t, e) =>
        UnionRelease(s.held, t, e);
        RemoveTopMultiset(s.stack, e);
    }
    forall t, e | 0 <= t < |states[i].held| && e in states[i].held[t] ensures e in states[i].stack {
      HeldInUnion(states[i].held, t);
      assert e in Union(states[i].held);
    }
  }
}
