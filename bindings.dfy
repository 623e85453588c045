/** Successive dictionary assignments `d[k] = v`, as the import tables perform them. */
module Bindings {

  /** `m` after assigning every pair of `bs`, in order. */
  function Bind<K, V>(m: map<K, V>, bs: seq<(K, V)>): map<K, V>
  {
    if bs == [] then m else Bind(m, bs[..|bs| - 1])[bs[|bs| - 1].0 := bs[|bs| - 1].1]
  }

  /** A key is bound afterwards iff it was bound before or some assignment names it. */
  lemma {:induction false} BindKeys<K, V>(m: map<K, V>, bs: seq<(K, V)>, k: K)
    ensures k in Bind(m, bs) <==> k in m || exists i :: 0 <= i < |bs| && bs[i].0 == k
    decreases |bs|
  {
    if bs != [] {
      var bs' := bs[..|bs| - 1];
      BindKeys(m, bs', k);
      if k in Bind(m, bs') {
        if k !in m {
          var i :| 0 <= i < |bs'| && bs'[i].0 == k;
          assert bs[i].0 == k;
        }
      }
      if exists i :: 0 <= i < |bs| && bs[i].0 == k {
        var i :| 0 <= i < |bs| && bs[i].0 == k;
        if i < |bs| - 1 {
          assert bs'[i].0 == k;
        }
      }
    }
  }

  /** The value of a key is the one given by its LAST assignment: later bindings overwrite. */
  lemma {:induction false} LastBindingWins<K, V>(m: map<K, V>, bs: seq<(K, V)>, j: nat)
    requires j < |bs|
    requires forall i :: j < i < |bs| ==> bs[i].0 != bs[j].0
    ensures bs[j].0 in Bind(m, bs) && Bind(m, bs)[bs[j].0] == bs[j].1
    decreases |bs|
  {
    if j < |bs| - 1 {
      var bs' := bs[..|bs| - 1];
      assert forall i :: j < i < |bs'| ==> bs'[i].0 != bs'[j].0 by {
        forall i | j < i < |bs'| ensures bs'[i].0 != bs'[j].0 {
          assert bs'[i] == bs[i];
        }
      }
      LastBindingWins(m, bs', j);
      assert bs'[j] == bs[j];
    }
  }

  /** A key that no assignment names keeps its old value (or stays unbound). */
  lemma {:induction false} UnboundKeyUnchanged<K, V>(m: map<K, V>, bs: seq<(K, V)>, k: K)
    requires forall i :: 0 <= i < |bs| ==> bs[i].0 != k
    ensures k in Bind(m, bs) <==> k in m
    ensures k in m ==> Bind(m, bs)[k] == m[k]
    decreases |bs|
  {
    if bs != [] {
      var bs' := bs[..|bs| - 1];
      assert forall i :: 0 <= i < |bs'| ==> bs'[i].0 != k by {
        forall i | 0 <= i < |bs'| ensures bs'[i].0 != k {
          assert bs'[i] == bs[i];
        }
      }
      UnboundKeyUnchanged(m, bs', k);
    }
  }

  lemma BindSnoc<K, V>(m: map<K, V>, bs: seq<(K, V)>, b: (K, V))
    ensures Bind(m, bs + [b]) == Bind(m, bs)[b.0 := b.1]
  {
    assert (bs + [b])[..|bs|] == bs;
  }

  lemma BindAppend<K, V>(m: map<K, V>, a: seq<(K, V)>, b: seq<(K, V)>)
    ensures Bind(m, a + b) == Bind(Bind(m, a), b)
    decreases |b|
  {
    if b == [] {
      assert a + b == a;
    } else {
      assert (a + b)[..|a + b| - 1] == a + b[..|b| - 1];
      BindAppend(m, a, b[..|b| - 1]);
    }
  }
}
