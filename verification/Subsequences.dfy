/**
 Subsequences, by their positions.
 */
module Subsequences {

  /** `at` says where in `b` each element of `a` is found, in order. */
  ghost predicate Embeds<T>(a: seq<T>, b: seq<T>, at: seq<nat>) {
    && |at| == |a|
    && (forall i :: 0 <= i < |a| ==> at[i] < |b| && a[i] == b[at[i]])
    && (forall i, j :: 0 <= i < j < |a| ==> at[i] < at[j])
  }

  ghost predicate Subsequence<T>(a: seq<T>, b: seq<T>) {
    exists at: seq<nat> :: Embeds(a, b, at)
  }

  lemma Reflexive<T>(a: seq<T>)
    ensures Subsequence(a, a)
  {
    assert Embeds(a, a, seq(|a|, i requires 0 <= i < |a| => i));
  }

  lemma Transitive<T>(a: seq<T>, b: seq<T>, c: seq<T>)
    requires Subsequence(a, b) && Subsequence(b, c)
    ensures Subsequence(a, c)
  {
    var f: seq<nat> :| Embeds(a, b, f);
    var g: seq<nat> :| Embeds(b, c, g);
    assert Embeds(a, c, seq(|a|, i requires 0 <= i < |a| => g[f[i]]));
  }

  lemma Extend<T>(a: seq<T>, b: seq<T>, x: T)
    requires Subsequence(a, b)
    ensures Subsequence(a + [x], b + [x])
  {
    var f: seq<nat> :| Embeds(a, b, f);
    assert Embeds(a + [x], b + [x], f + [|b|]);
  }

  lemma Remove<T>(a: seq<T>, k: nat, b: seq<T>)
    requires Subsequence(a, b) && k < |a|
    ensures Subsequence(a[..k] + a[k + 1..], b)
  {
    var f: seq<nat> :| Embeds(a, b, f);
    assert Embeds(a[..k] + a[k + 1..], b, f[..k] + f[k + 1..]);
  }

  lemma Prefix<T>(a: seq<T>, c: seq<T>, b: seq<T>)
    requires Subsequence(a + c, b)
    ensures Subsequence(a, b)
  {
    var f: seq<nat> :| Embeds(a + c, b, f);
    assert forall i :: 0 <= i < |a| ==> (a + c)[i] == a[i];
    assert Embeds(a, b, f[..|a|]);
  }
}
