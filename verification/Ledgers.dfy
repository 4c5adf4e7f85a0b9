/** Accounts of what a run takes in and gives back. */
module Ledgers {

  /** Entry `n` of the ledger takes `x` in and no later one gives it back. */
  predicate LeftAt<T(==)>(taken: seq<set<T>>, given: seq<set<T>>, n: nat, x: T) {
    n < |taken| == |given| && x in taken[n] && forall m | n < m < |given| :: x !in given[m]
  }

  /** A balance that is empty at the start holds what was taken in and not given back since. */
  lemma {:induction false} Ledger<T>(balance: seq<set<T>>, taken: seq<set<T>>, given: seq<set<T>>, x: T)
    requires |balance| == |taken| + 1 == |given| + 1 && balance[0] == {}
    requires forall n | 0 <= n < |taken| ::
      balance[n + 1] == (balance[n] + taken[n]) - given[n] && taken[n] !! given[n]
    ensures x in balance[|taken|] <==> exists n: nat :: LeftAt(taken, given, n, x)
  {
    if taken != [] {
      var k := |taken| - 1;
      assert balance[k + 1] == (balance[k] + taken[k]) - given[k];
      Ledger(balance[..k + 1], taken[..k], given[..k], x);
      if n: nat :| LeftAt(taken, given, n, x) {
        assert n < k ==> LeftAt(taken[..k], given[..k], n, x);
      }
      if n: nat :| LeftAt(taken[..k], given[..k], n, x) {
        assert x !in given[k] ==> LeftAt(taken, given, n, x);
      }
      assert x in taken[k] ==> LeftAt(taken, given, k, x);
    }
  }
}
