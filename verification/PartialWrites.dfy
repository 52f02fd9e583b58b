/** A writer that takes of each write as much as its next size allows. A write that takes nothing ends the
    writing, and so does a writer with no sizes left. */
module PartialWrites {
  /** What one write of `n` bytes takes. */
  function Taken(sizes: seq<nat>, n: nat): nat {
    if sizes == [] then 0 else if sizes[0] < n then sizes[0] else n
  }

  /** Writing on until all is written gets `n` bytes through. */
  predicate Carries(sizes: seq<nat>, n: nat) {
    n == 0 || (Taken(sizes, n) > 0 && Carries(sizes[1..], n - Taken(sizes, n)))
  }

  /** The sizes that are left then. */
  function Unspent(sizes: seq<nat>, n: nat): seq<nat>
    requires Carries(sizes, n)
  {
    if n == 0 then sizes else Unspent(sizes[1..], n - Taken(sizes, n))
  }

  function Sum(sizes: seq<nat>): nat {
    if sizes == [] then 0 else sizes[0] + Sum(sizes[1..])
  }

  /** So many writes, none of them empty, have room for `n` bytes. */
  predicate Room(sizes: seq<nat>, n: nat, writes: nat) {
    writes <= |sizes| && (forall i :: 0 <= i < writes ==> sizes[i] > 0) && n <= Sum(sizes[..writes])
  }

  /** Everything gets through exactly when the sizes add up to it before the first empty one. */
  lemma {:induction false} CarriesExactly(sizes: seq<nat>, n: nat)
    ensures Carries(sizes, n) <==> exists writes: nat :: Room(sizes, n, writes)
    decreases n
  {
    if n == 0 {
      assert Room(sizes, n, 0);
    } else if Taken(sizes, n) == 0 {
      assert sizes == [] || sizes[0] == 0;
      assert forall writes: nat :: Room(sizes, n, writes) ==> writes == 0 && sizes[..writes] == [];
    } else {
      var rest := n - Taken(sizes, n);
      CarriesExactly(sizes[1..], rest);
      if writes: nat :| Room(sizes[1..], rest, writes) {
        assert sizes[..writes + 1][1..] == sizes[1..][..writes];
        assert Room(sizes, n, writes + 1);
      }
      if writes: nat :| Room(sizes, n, writes) {
        assert writes > 0;
        assert sizes[..writes][1..] == sizes[1..][..writes - 1];
        assert Room(sizes[1..], rest, writes - 1);
      }
    }
  }
}
