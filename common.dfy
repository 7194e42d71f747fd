/** The optional value used where the components hold "an id or null". */
module Wrappers {

  datatype Option<+T> = None | Some(value: T)
}

/** Wrap-around successor on the indices 0 .. n-1, the `(i + 1) % n` step that
    both the breathing timer and the mantra rotator use. */
module Cyclic {

  /** The index after `i` in a cycle of length `n`. */
  function Next(i: nat, n: nat): (r: nat)
    requires n > 0
    ensures r < n
    ensures i < n ==> (r == 0 <==> i == n - 1)
    ensures i < n - 1 ==> r == i + 1
  {
    (i + 1) % n
  }

  /** `Next` applied `k` times, starting at `i`. */
  function Iterate(i: nat, n: nat, k: nat): nat
    requires n > 0
    decreases k
  {
    if k == 0 then i else Iterate(Next(i, n), n, k - 1)
  }

  /** Up to one full turn, iterating `Next` is addition that wraps at most once. */
  lemma {:induction false} IterateWithinTurn(i: nat, n: nat, k: nat)
    requires i < n && k <= n
    ensures Iterate(i, n, k) == if i + k < n then i + k else i + k - n
    decreases k
  {
    if k > 0 {
      if i + 1 < n {
        IterateWithinTurn(i + 1, n, k - 1);
      } else {
        IterateWithinTurn(0, n, k - 1);
      }
    }
  }

  /** `n` steps around a cycle of length `n` return to the starting index. */
  lemma FullTurn(i: nat, n: nat)
    requires i < n
    ensures Iterate(i, n, n) == i
  {
    IterateWithinTurn(i, n, n);
  }
}
