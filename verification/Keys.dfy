// Byte-string keys, the nibble paths that a 4-bit trie stores them under, and
// dictionary order.
module Keys {
  type Byte = b: nat | b < 256
  type Key = seq<Byte>
  type Path = seq<nat>

  // Keys of this many bytes and more are refused.
  const MAX_KEY_LEN := 1024
  const MAX_DEPTH := 2 * (MAX_KEY_LEN - 1)

  predicate IsPath(p: Path) {
    forall i :: 0 <= i < |p| ==> p[i] < 16
  }

  // Two nibbles for each byte, the high one first.
  function Nibbles(k: Key): (p: Path)
    ensures |p| == 2 * |k|
  {
    seq(2 * |k|, i requires 0 <= i < 2 * |k| => if i % 2 == 0 then k[i / 2] / 16 else k[i / 2] % 16)
  }

  function Byte2(hi: nat, lo: nat): Byte
    requires hi < 16 && lo < 16
  {
    16 * hi + lo
  }

  function Bytes(p: Path): (k: Key)
    requires IsPath(p) && |p| % 2 == 0
    ensures |p| == 2 * |k|
  {
    seq(|p| / 2, i requires 0 <= i < |p| / 2 => Byte2(p[2 * i], p[2 * i + 1]))
  }

  lemma NibblesAt(k: Key, i: nat)
    requires i < |k|
    ensures Nibbles(k)[2 * i] == k[i] / 16 && Nibbles(k)[2 * i + 1] == k[i] % 16
  {}

  lemma NibblesIsPath(k: Key)
    ensures IsPath(Nibbles(k))
  {}

  lemma NibblesOfBytes(p: Path)
    requires IsPath(p) && |p| % 2 == 0
    ensures Nibbles(Bytes(p)) == p
  {
    forall i | 0 <= i < |p| ensures Nibbles(Bytes(p))[i] == p[i] {
      NibblesAt(Bytes(p), i / 2);
      assert i == 2 * (i / 2) || i == 2 * (i / 2) + 1;
    }
  }

  lemma NibblesInjective(j: Key, k: Key)
    requires Nibbles(j) == Nibbles(k)
    ensures j == k
  {
    forall i | 0 <= i < |j| ensures j[i] == k[i] {
      NibblesAt(j, i);
      NibblesAt(k, i);
    }
  }

  lemma NibblesTake(k: Key, i: nat)
    requires i <= |k|
    ensures Nibbles(k[..i]) == Nibbles(k)[..2 * i]
  {}

  lemma NibblesStep(k: Key, i: nat)
    requires i < |k|
    ensures Nibbles(k[..i + 1]) == Nibbles(k[..i]) + [k[i] / 16] + [k[i] % 16]
    ensures |Nibbles(k[..i])| == 2 * i
  {
    NibblesTake(k, i);
    NibblesTake(k, i + 1);
    NibblesAt(k, i);
  }

  // k starts with j exactly when its path starts with j's path.
  lemma NibblesPrefix(j: Key, k: Key)
    ensures j <= k <==> Nibbles(j) <= Nibbles(k)
  {
    if |j| <= |k| {
      NibblesTake(k, |j|);
      if Nibbles(j) <= Nibbles(k) { NibblesInjective(j, k[..|j|]); }
    }
  }

  // Dictionary order; a proper prefix comes first.
  ghost predicate DifferAt(a: seq<nat>, b: seq<nat>, n: nat) {
    n < |b| && n <= |a| && a[..n] == b[..n] && (n == |a| || a[n] < b[n])
  }

  ghost predicate Less(a: seq<nat>, b: seq<nat>) {
    exists n: nat :: DifferAt(a, b, n)
  }

  // The order of the paths is the order of the keys.
  lemma NibblesOrder(j: Key, k: Key)
    requires Less(Nibbles(j), Nibbles(k))
    ensures Less(j, k)
  {
    var n: nat :| DifferAt(Nibbles(j), Nibbles(k), n);
    var i := n / 2;
    NibblesTake(j, i);
    NibblesTake(k, i);
    assert Nibbles(j)[..n][..2 * i] == Nibbles(j)[..2 * i] && Nibbles(k)[..n][..2 * i] == Nibbles(k)[..2 * i];
    NibblesInjective(j[..i], k[..i]);
    if i < |j| {
      NibblesAt(j, i);
      NibblesAt(k, i);
      if n == 2 * i + 1 { assert Nibbles(j)[..n][2 * i] == Nibbles(k)[..n][2 * i]; }
    }
    assert DifferAt(j, k, i);
  }

  // ---------------------------------------------------------------- listings

  // The members of P at and below q, in the order of a depth-first walk of the
  // complete 16-ary tree: an independent reference for the trie's walk.
  ghost function Listing(P: set<Path>, q: Path): seq<Path>
    decreases MAX_DEPTH + 1 - |q|, 17
  {
    if |q| > MAX_DEPTH then []
    else (if q in P then [q] else []) + ListingFrom(P, q, 0)
  }

  ghost function ListingFrom(P: set<Path>, q: Path, i: nat): seq<Path>
    requires |q| <= MAX_DEPTH
    decreases MAX_DEPTH + 1 - |q|, 16 - i
  {
    if i >= 16 then [] else Listing(P, q + [i]) + ListingFrom(P, q, i + 1)
  }

  ghost predicate Sorted(l: seq<Path>) {
    forall i, j :: 0 <= i < j < |l| ==> Less(l[i], l[j])
  }

  // Members of P that pass through child i of q, or a later one.
  ghost predicate Beyond(q: Path, i: nat, p: Path) {
    q <= p && |q| < |p| && p[|q|] >= i
  }

  lemma {:induction false} ListingSound(P: set<Path>, q: Path)
    ensures forall p :: p in Listing(P, q) ==> p in P && q <= p
    decreases MAX_DEPTH + 1 - |q|, 17
  {
    if |q| <= MAX_DEPTH { ListingFromSound(P, q, 0); }
  }

  lemma {:induction false} ListingFromSound(P: set<Path>, q: Path, i: nat)
    requires |q| <= MAX_DEPTH
    ensures forall p :: p in ListingFrom(P, q, i) ==> p in P && Beyond(q, i, p)
    decreases MAX_DEPTH + 1 - |q|, 16 - i
  {
    if i < 16 {
      ListingSound(P, q + [i]);
      ListingFromSound(P, q, i + 1);
      forall p | p in Listing(P, q + [i]) ensures Beyond(q, i, p) { assert (q + [i]) <= p; }
    }
  }

  lemma {:induction false} ListingComplete(P: set<Path>, q: Path, p: Path)
    requires p in P && q <= p && IsPath(p) && |p| <= MAX_DEPTH
    ensures p in Listing(P, q)
    decreases MAX_DEPTH + 1 - |q|, 17
  {
    if q != p { ListingFromComplete(P, q, 0, p); }
  }

  lemma {:induction false} ListingFromComplete(P: set<Path>, q: Path, i: nat, p: Path)
    requires |q| <= MAX_DEPTH && p in P && Beyond(q, i, p) && IsPath(p) && |p| <= MAX_DEPTH
    ensures p in ListingFrom(P, q, i)
    decreases MAX_DEPTH + 1 - |q|, 16 - i
  {
    if p[|q|] == i { ListingComplete(P, q + [i], p); }
    else { ListingFromComplete(P, q, i + 1, p); }
  }

  lemma ConcatSorted(a: seq<Path>, b: seq<Path>)
    requires Sorted(a) && Sorted(b) && forall x, y :: x in a && y in b ==> Less(x, y)
    ensures Sorted(a + b)
  {
    var c := a + b;
    forall i, j | 0 <= i < j < |c| ensures Less(c[i], c[j]) {
      if i < |a| && j >= |a| { assert c[i] in a && c[j] in b; }
    }
  }

  // Each member once, in dictionary order.
  lemma {:induction false} ListingSorted(P: set<Path>, q: Path)
    ensures Sorted(Listing(P, q))
    decreases MAX_DEPTH + 1 - |q|, 17
  {
    if |q| <= MAX_DEPTH {
      ListingFromSorted(P, q, 0);
      ListingFromSound(P, q, 0);
      if q in P {
        forall y | y in ListingFrom(P, q, 0) ensures Less(q, y) { assert DifferAt(q, y, |q|); }
        ConcatSorted([q], ListingFrom(P, q, 0));
      } else {
        assert [] + ListingFrom(P, q, 0) == ListingFrom(P, q, 0);
      }
    }
  }

  lemma {:induction false} ListingFromSorted(P: set<Path>, q: Path, i: nat)
    requires |q| <= MAX_DEPTH
    ensures Sorted(ListingFrom(P, q, i))
    decreases MAX_DEPTH + 1 - |q|, 16 - i
  {
    if i < 16 {
      ListingSorted(P, q + [i]);
      ListingSound(P, q + [i]);
      ListingFromSorted(P, q, i + 1);
      ListingFromSound(P, q, i + 1);
      forall x, y | x in Listing(P, q + [i]) && y in ListingFrom(P, q, i + 1) ensures Less(x, y) {
        assert (q + [i]) <= x && x[..|q|] == y[..|q|];
        assert DifferAt(x, y, |q|);
      }
      ConcatSorted(Listing(P, q + [i]), ListingFrom(P, q, i + 1));
    }
  }

  // Nothing below q: nothing to list.
  lemma {:induction false} ListingEmpty(P: set<Path>, q: Path)
    requires forall p :: p in P ==> !(q <= p)
    ensures Listing(P, q) == []
    decreases MAX_DEPTH + 1 - |q|, 17
  {
    if |q| <= MAX_DEPTH {
      ListingFromEmpty(P, q, 0);
    }
  }

  lemma {:induction false} ListingFromEmpty(P: set<Path>, q: Path, i: nat)
    requires |q| <= MAX_DEPTH && forall p :: p in P ==> !(q <= p)
    ensures ListingFrom(P, q, i) == []
    decreases MAX_DEPTH + 1 - |q|, 16 - i
  {
    if i < 16 {
      forall p | p in P ensures !(q + [i] <= p) { assert q + [i] <= p ==> q <= p; }
      ListingEmpty(P, q + [i]);
      ListingFromEmpty(P, q, i + 1);
    }
  }
}
