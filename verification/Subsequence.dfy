/** In-order subsequences. */
module Subsequence {

  ghost predicate Subseq<T>(a: seq<T>, b: seq<T>)
    decreases |b|
  {
    if a == [] then true
    else if b == [] then false
    else Subseq(a, b[..|b| - 1]) || (a[|a| - 1] == b[|b| - 1] && Subseq(a[..|a| - 1], b[..|b| - 1]))
  }

  lemma SubseqSnoc<T>(a: seq<T>, b: seq<T>, x: T)
    requires Subseq(a, b)
    ensures Subseq(a, b + [x]) && Subseq(a + [x], b + [x])
  {
    assert (b + [x])[..|b|] == b && (a + [x])[..|a|] == a;
  }

  lemma {:induction false} SubseqPrefix<T>(a: seq<T>, b: seq<T>)
    requires a != [] && Subseq(a, b)
    ensures Subseq(a[..|a| - 1], b)
    decreases |b|
  {
    if Subseq(a, b[..|b| - 1]) {
      SubseqPrefix(a, b[..|b| - 1]);
    }
    assert |a| > 1 ==> b != [];
  }

  /** Leaving one element out of a subsequence leaves a subsequence. */
  lemma {:induction false} SubseqWithout<T>(a: seq<T>, i: nat, b: seq<T>)
    requires i < |a| && Subseq(a, b)
    ensures Subseq(a[..i] + a[i + 1..], b)
    decreases |b|
  {
    var init, w := a[..|a| - 1], a[..i] + a[i + 1..];
    if Subseq(a, b[..|b| - 1]) {
      SubseqWithout(a, i, b[..|b| - 1]);
    } else if i == |a| - 1 {
      assert w == init;
      SubseqPrefix(a, b);
    } else {
      SubseqWithout(init, i, b[..|b| - 1]);
      assert w[..|w| - 1] == init[..i] + init[i + 1..];
    }
  }

  lemma {:induction false} SubseqCut<T>(a: seq<T>, rest: seq<T>, b: seq<T>)
    requires Subseq(a + rest, b)
    ensures Subseq(a, b)
    decreases |rest|
  {
    if rest == [] {
      assert a + rest == a;
    } else {
      SubseqPrefix(a + rest, b);
      assert (a + rest)[..|a + rest| - 1] == a + rest[..|rest| - 1];
      SubseqCut(a, rest[..|rest| - 1], b);
    }
  }
}
