// What several of the modules share.
module Wrappers {
  datatype Option<+T> = None | Some(value: T)
}

module Arithmetic {
  lemma Multiples(x: int, y: int, d: nat)
    ensures y <= x ==> y * d <= x * d
  {
    if y <= x { assert x * d == y * d + (x - y) * d; }
  }

  // Comparing a quotient is comparing with a multiple.
  lemma Quotient(x: nat, d: nat, q: int)
    requires d > 0
    ensures x / d >= q <==> x >= q * d
  {
    var m := x / d;
    assert m * d <= x < m * d + d;
    if m >= q { Multiples(m, q, d); } else { Multiples(q, m + 1, d); }
    assert (m + 1) * d == m * d + d;
  }
}
