/** Facts about the members of sequences, counted with multiplicity. */
module Bags {

  lemma SameSize<T>(s: seq<T>, t: seq<T>)
    requires multiset(s) == multiset(t)
    ensures |s| == |t|
  {
    assert |multiset(s)| == |multiset(t)|;
  }

  ghost function Without<T>(s: seq<T>, i: nat): seq<T>
    requires i < |s|
  {
    s[..i] + s[i + 1..]
  }

  lemma TakeOut<T>(s: seq<T>, i: nat)
    requires i < |s|
    ensures multiset(s) == multiset(Without(s, i)) + multiset{s[i]}
  {
    assert s == s[..i] + [s[i]] + s[i + 1..];
  }

  /** Where a member of one sequence sits in a sequence with the same members. */
  lemma Locate<T>(s: seq<T>, i: nat, t: seq<T>) returns (j: nat)
    requires i < |s| && multiset(s) == multiset(t)
    ensures j < |t| && t[j] == s[i]
    ensures multiset(Without(s, i)) == multiset(Without(t, j))
  {
    assert s[i] in multiset(t);
    j :| 0 <= j < |t| && t[j] == s[i];
    TakeOut(s, i);
    TakeOut(t, j);
    assert multiset(Without(s, i)) == multiset(s) - multiset{s[i]};
    assert multiset(Without(t, j)) == multiset(t) - multiset{t[j]};
  }
}
