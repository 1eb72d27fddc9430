/**
 * Row ids of a table in creation order. Ids come from one counter, so
 * ascending id order is the order rows were created in, and `createdAt:
 * 'desc'` is descending id order.
 */
module Listing {

  /** The keys of `m` below `n`, ascending. */
  function KeysUp<T>(m: map<nat, T>, n: nat): (ks: seq<nat>)
    ensures forall i :: 0 <= i < |ks| ==> ks[i] in m && ks[i] < n
  {
    if n == 0 then [] else KeysUp(m, n - 1) + (if n - 1 in m then [n - 1] else [])
  }

  /** The keys of `m` below `n`, descending. */
  function KeysDown<T>(m: map<nat, T>, n: nat): (ks: seq<nat>)
    ensures forall i :: 0 <= i < |ks| ==> ks[i] in m && ks[i] < n
  {
    if n == 0 then [] else (if n - 1 in m then [n - 1] else []) + KeysDown(m, n - 1)
  }

  predicate Ascending(ks: seq<nat>) {
    forall i, j :: 0 <= i < j < |ks| ==> ks[i] < ks[j]
  }

  predicate Descending(ks: seq<nat>) {
    forall i, j :: 0 <= i < j < |ks| ==> ks[i] > ks[j]
  }

  /** A key above every listed key may be appended to an ascending list. */
  lemma AscendingSnoc(ks: seq<nat>, k: nat)
    requires Ascending(ks)
    requires forall i :: 0 <= i < |ks| ==> ks[i] < k
    ensures Ascending(ks + [k])
  {
  }

  /** Every key of `m` below `n` is listed, in ascending order. */
  lemma {:induction false} KeysUpComplete<T>(m: map<nat, T>, n: nat)
    ensures forall k :: k in m && k < n <==> k in KeysUp(m, n)
    ensures Ascending(KeysUp(m, n))
    decreases n
  {
    if n > 0 {
      KeysUpComplete(m, n - 1);
      var init := KeysUp(m, n - 1);
      var ks := KeysUp(m, n);
      forall k | k in m && k < n
        ensures k in ks
      {
        if k < n - 1 {
          var i :| 0 <= i < |init| && init[i] == k;
          assert ks[i] == k;
        } else {
          assert ks[|ks| - 1] == k;
        }
      }
    }
  }

  /** Every key of `m` below `n` is listed, in descending order. */
  lemma {:induction false} KeysDownComplete<T>(m: map<nat, T>, n: nat)
    ensures forall k :: k in m && k < n <==> k in KeysDown(m, n)
    ensures Descending(KeysDown(m, n))
    decreases n
  {
    if n > 0 {
      KeysDownComplete(m, n - 1);
      var rest := KeysDown(m, n - 1);
      var ks := KeysDown(m, n);
      forall k | k in m && k < n
        ensures k in ks
      {
        if k < n - 1 {
          var i :| 0 <= i < |rest| && rest[i] == k;
          assert ks[|ks| - |rest| + i] == k;
        } else {
          assert ks[0] == k;
        }
      }
    }
  }
}
