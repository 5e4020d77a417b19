/** Order-preserving, duplicate-free selection: every element of a is matched with its own element of b. */
module Subsequence {

  /** The places in b from which a is picked: one for each element of a, going up. */
  ghost predicate Picks<T>(a: seq<T>, b: seq<T>, at: seq<nat>) {
    && |at| == |a|
    && (forall i :: 0 <= i < |at| ==> at[i] < |b| && b[at[i]] == a[i])
    && (forall i, j :: 0 <= i < j < |at| ==> at[i] < at[j])
  }

  ghost predicate Sub<T>(a: seq<T>, b: seq<T>) {
    exists at: seq<nat> :: Picks(a, b, at)
  }

  lemma SubGrowsBoth<T>(a: seq<T>, b: seq<T>, x: T)
    requires Sub(a, b)
    ensures Sub(a + [x], b + [x])
  {
    var at: seq<nat> :| Picks(a, b, at);
    var at' := at + [|b|];
    assert Picks(a + [x], b + [x], at');
  }

  lemma SubGrowsRight<T>(a: seq<T>, b: seq<T>, x: T)
    requires Sub(a, b)
    ensures Sub(a, b + [x])
  {
    var at: seq<nat> :| Picks(a, b, at);
    assert Picks(a, b + [x], at);
  }

  lemma SubTrans<T>(a: seq<T>, b: seq<T>, c: seq<T>)
    requires Sub(a, b) && Sub(b, c)
    ensures Sub(a, c)
  {
    var ab: seq<nat> :| Picks(a, b, ab);
    var bc: seq<nat> :| Picks(b, c, bc);
    var ac: seq<nat> := seq(|a|, i requires 0 <= i < |a| => bc[ab[i]]);
    assert Picks(a, c, ac);
  }

  /** What is left of a sequence after its first j elements is a selection of it. */
  lemma SuffixIsSub<T>(b: seq<T>, j: nat)
    requires j <= |b|
    ensures Sub(b[j..], b)
  {
    var at: seq<nat> := seq(|b| - j, i requires 0 <= i < |b| - j => i + j);
    assert Picks(b[j..], b, at);
  }

  /** Leaving out one element of the selection. */
  lemma SubDrops<T>(a: seq<T>, x: T, c: seq<T>, b: seq<T>)
    requires Sub(a + [x] + c, b)
    ensures Sub(a + c, b)
  {
    var s := a + [x] + c;
    var at: seq<nat> :| Picks(s, b, at);
    var rest: seq<nat> := at[..|a|] + at[|a| + 1..];
    assert forall i :: 0 <= i < |rest| ==> rest[i] == at[if i < |a| then i else i + 1];
    assert forall i :: 0 <= i < |a + c| ==> (a + c)[i] == s[if i < |a| then i else i + 1];
    assert Picks(a + c, b, rest);
  }

  lemma SubOfPrefix<T>(a: seq<T>, c: seq<T>, b: seq<T>)
    requires Sub(a + c, b)
    ensures Sub(a, b)
  {
    var at: seq<nat> :| Picks(a + c, b, at);
    assert forall i :: 0 <= i < |a| ==> a[i] == (a + c)[i];
    assert Picks(a, b, at[..|a|]);
  }

}
