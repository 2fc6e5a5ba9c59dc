/** The order in which scan results are tried, and the in-place sort that establishes it. */
module ScanSort {
  import opened WifiTypes

  /** Matching before non-matching, then priority among matching results, then signal. */
  predicate Better(a: ScanResult, b: ScanResult) {
    if a.matches != b.matches then a.matches
    else if a.matches && a.priority != b.priority then a.priority > b.priority
    else a.rssi > b.rssi
  }

  /** Neither is better than the other, so only the scan order separates them. */
  predicate Tied(a: ScanResult, b: ScanResult) {
    !Better(a, b) && !Better(b, a)
  }

  ghost predicate Ordered(s: seq<ScanResult>) {
    forall i, j :: 0 <= i < j < |s| ==> !Better(s[j], s[i])
  }

  /** The results of `s` that tie with `x`, in their order. */
  function TiedWith(s: seq<ScanResult>, x: ScanResult): seq<ScanResult> {
    if s == [] then []
    else TiedWith(s[..|s| - 1], x) + (if Tied(s[|s| - 1], x) then [s[|s| - 1]] else [])
  }

  /** `x` inserted from the right, past exactly the results it is better than. */
  function Insert(s: seq<ScanResult>, x: ScanResult): (r: seq<ScanResult>)
    ensures |r| == |s| + 1
  {
    if s == [] || !Better(x, s[|s| - 1]) then s + [x]
    else Insert(s[..|s| - 1], x) + [s[|s| - 1]]
  }

  function InsertionSort(s: seq<ScanResult>): (r: seq<ScanResult>)
    ensures |r| == |s|
  {
    if s == [] then [] else Insert(InsertionSort(s[..|s| - 1]), s[|s| - 1])
  }

  lemma {:induction false} InsertAtGap(s: seq<ScanResult>, x: ScanResult, p: nat)
    requires p <= |s|
    requires p > 0 ==> !Better(x, s[p - 1])
    requires forall k :: p <= k < |s| ==> Better(x, s[k])
    ensures Insert(s, x) == s[..p] + [x] + s[p..]
  {
    if p < |s| {
      var front := s[..|s| - 1];
      InsertAtGap(front, x, p);
      assert front[..p] == s[..p] && s[p..] == front[p..] + [s[|s| - 1]];
    }
  }

  /** One number to rank results by: a match counts most, then its priority, then the signal. */
  function Rank(r: ScanResult): int {
    if r.matches then 0x10000 + (r.priority + 128) * 0x100 + (r.rssi + 128) else r.rssi
  }

  /** Better compares ranks, so it is a strict weak order: irreflexive, transitive, and ties are transitive. */
  lemma BetterIsStrictWeakOrder(a: ScanResult, b: ScanResult, c: ScanResult)
    ensures Better(a, b) <==> Rank(a) > Rank(b)
    ensures !Better(a, a)
    ensures Better(a, b) ==> !Better(b, a)
    ensures Better(a, b) && Better(b, c) ==> Better(a, c)
    ensures Tied(a, b) && Tied(b, c) ==> Tied(a, c)
    ensures Better(a, c) ==> Better(a, b) || Better(b, c)
  {
  }

  lemma {:induction false} InsertKeepsMembers(s: seq<ScanResult>, x: ScanResult)
    ensures multiset(Insert(s, x)) == multiset(s) + multiset{x}
  {
    if s != [] && Better(x, s[|s| - 1]) {
      InsertKeepsMembers(s[..|s| - 1], x);
      assert s == s[..|s| - 1] + [s[|s| - 1]];
    }
  }

  lemma {:induction false} InsertKeepsOrder(s: seq<ScanResult>, x: ScanResult)
    requires Ordered(s)
    ensures Ordered(Insert(s, x))
  {
    if s != [] && Better(x, s[|s| - 1]) {
      var last := s[|s| - 1];
      var r := Insert(s[..|s| - 1], x);
      InsertKeepsOrder(s[..|s| - 1], x);
      InsertKeepsMembers(s[..|s| - 1], x);
      forall i | 0 <= i < |r| ensures !Better(last, r[i]) {
        assert r[i] in multiset(r);
        assert r[i] == x || r[i] in multiset(s[..|s| - 1]);
      }
    }
  }

  lemma {:induction false} InsertKeepsTies(s: seq<ScanResult>, x: ScanResult, y: ScanResult)
    requires Ordered(s)
    ensures TiedWith(Insert(s, x), y) == TiedWith(s, y) + (if Tied(x, y) then [x] else [])
  {
    if s == [] || !Better(x, s[|s| - 1]) {
      assert (s + [x])[..|s|] == s;
    } else {
      var last := s[|s| - 1];
      var front := s[..|s| - 1];
      InsertKeepsTies(front, x, y);
      var r := Insert(front, x) + [last];
      assert r[..|r| - 1] == Insert(front, x);
      assert !(Tied(x, y) && Tied(last, y));
    }
  }

  /** The sort is a permutation, is in order, and keeps the scan order of ties. */
  lemma {:induction false} SortIsStablePermutation(s: seq<ScanResult>)
    ensures multiset(InsertionSort(s)) == multiset(s)
    ensures Ordered(InsertionSort(s))
    ensures forall y :: TiedWith(InsertionSort(s), y) == TiedWith(s, y)
  {
    if s != [] {
      var front, last := s[..|s| - 1], s[|s| - 1];
      SortIsStablePermutation(front);
      assert s == front + [last];
      InsertKeepsMembers(InsertionSort(front), last);
      InsertKeepsOrder(InsertionSort(front), last);
      forall y ensures TiedWith(InsertionSort(s), y) == TiedWith(s, y) {
        InsertKeepsTies(InsertionSort(front), last, y);
      }
    }
  }

  /** Being in order, a permutation and stable leaves one possible outcome. */
  lemma {:induction false} StableOrderIsUnique(s: seq<ScanResult>, t: seq<ScanResult>)
    requires |s| == |t|
    requires Ordered(s) && Ordered(t)
    requires forall y :: TiedWith(s, y) == TiedWith(t, y)
    ensures s == t
  {
    if s != [] {
      var n := |s| - 1;
      LastTied(s, t);
      LastTied(t, s);
      var a, b := s[n], t[n];
      assert TiedWith(s, a)[|TiedWith(s, a)| - 1] == a && TiedWith(t, a)[|TiedWith(t, a)| - 1] == b;
      forall y ensures TiedWith(s[..n], y) == TiedWith(t[..n], y) {
        var tail := if Tied(a, y) then [a] else [];
        assert TiedWith(s, y) == TiedWith(s[..n], y) + tail && TiedWith(t, y) == TiedWith(t[..n], y) + tail;
        SameFront(TiedWith(s[..n], y), TiedWith(t[..n], y), tail);
      }
      StableOrderIsUnique(s[..n], t[..n]);
      assert s == s[..n] + [a] && t == t[..n] + [b];
    }
  }

  lemma SameFront(p: seq<ScanResult>, q: seq<ScanResult>, tail: seq<ScanResult>)
    requires p + tail == q + tail
    ensures p == q
  {
    assert |p + tail| == |q + tail|;
    assert p == (p + tail)[..|p|] && q == (q + tail)[..|q|];
  }

  /** The last of an ordered sequence is beaten by nothing at the end of another with the same ties. */
  lemma LastTied(s: seq<ScanResult>, t: seq<ScanResult>)
    requires |s| == |t| > 0 && Ordered(s)
    requires forall y :: TiedWith(s, y) == TiedWith(t, y)
    ensures !Better(s[|s| - 1], t[|t| - 1])
  {
    var b := t[|t| - 1];
    assert TiedWith(t, b) != [];
    TiedWithMembers(s, b);
    var i :| 0 <= i < |s| && Tied(s[i], b);
    assert !Better(s[|s| - 1], s[i]);
  }

  lemma {:induction false} TiedWithMembers(s: seq<ScanResult>, y: ScanResult)
    ensures TiedWith(s, y) != [] <==> exists i :: 0 <= i < |s| && Tied(s[i], y)
  {
    if s != [] {
      var front := s[..|s| - 1];
      TiedWithMembers(front, y);
      if exists i :: 0 <= i < |front| && Tied(front[i], y) {
        var i :| 0 <= i < |front| && Tied(front[i], y);
        assert Tied(s[i], y);
      }
      if exists i :: 0 <= i < |s| && Tied(s[i], y) {
        var i :| 0 <= i < |s| && Tied(s[i], y);
        assert i < |front| ==> Tied(front[i], y);
      }
    }
  }

  /** The rank of `r` is at least that of `x`, field by field. */
  predicate Outranks(r: ScanResult, x: ScanResult) {
    && (x.matches ==> r.matches)
    && (r.matches && x.matches ==> x.priority <= r.priority)
    && (r.matches && x.matches && x.priority == r.priority ==> x.rssi <= r.rssi)
    && (!r.matches && !x.matches ==> x.rssi <= r.rssi)
  }

  /** Of any two results after the sort the earlier one matches if the other does, and so on. */
  lemma EarlierOutranksLater(s: seq<ScanResult>, i: nat, j: nat)
    requires i < j < |s|
    ensures Outranks(InsertionSort(s)[i], InsertionSort(s)[j])
  {
    SortIsStablePermutation(s);
    assert !Better(InsertionSort(s)[j], InsertionSort(s)[i]);
  }

  /** The first result after the sort is one of the scan, and at least as good as every other. */
  lemma BestComesFirst(s: seq<ScanResult>)
    requires s != []
    ensures InsertionSort(s)[0] in s
    ensures forall x :: x in s ==> !Better(x, InsertionSort(s)[0]) && Outranks(InsertionSort(s)[0], x)
  {
    var r := InsertionSort(s);
    SortIsStablePermutation(s);
    assert r[0] in multiset(r);
    forall x | x in s ensures !Better(x, r[0]) && Outranks(r[0], x) {
      assert x in multiset(r);
      var i :| 0 <= i < |r| && r[i] == x;
    }
  }

  /** Shifts the results before `i` that `results[i]` beats one slot right and drops it into the gap. */
  method InsertInPlace(results: array<ScanResult>, i: nat)
    requires i < results.Length
    modifies results
    ensures results[..i + 1] == Insert(old(results[..i]), old(results[i]))
    ensures forall k :: i < k < results.Length ==> results[k] == old(results[k])
  {
    ghost var was := results[..];
    var key := results[i];
    var j := i - 1;
    while j >= 0 && Better(key, results[j])
      invariant -1 <= j < i
      invariant forall k :: 0 <= k < results.Length && (k <= j || i < k) ==> results[k] == was[k]
      invariant forall k :: j < k < i ==> results[k + 1] == was[k] && Better(key, was[k])
    {
      results[j + 1] := results[j];
      j := j - 1;
    }
    results[j + 1] := key;
    ghost var r, s := results[..i + 1], was[..i];
    assert forall k :: 0 <= k < j + 1 ==> r[k] == s[k];
    assert forall k :: j + 1 <= k < i ==> r[k + 1] == s[k] && Better(key, s[k]);
    GapFilled(r, s, key, j + 1);
  }

  lemma GapFilled(r: seq<ScanResult>, s: seq<ScanResult>, x: ScanResult, p: nat)
    requires p <= |s| && |r| == |s| + 1 && r[p] == x
    requires forall k :: 0 <= k < p ==> r[k] == s[k]
    requires forall k :: p <= k < |s| ==> r[k + 1] == s[k]
    requires p > 0 ==> !Better(x, s[p - 1])
    requires forall k :: p <= k < |s| ==> Better(x, s[k])
    ensures r == Insert(s, x)
  {
    InsertAtGap(s, x, p);
  }

  /** The in-place sort: each new key is shifted left past the results it beats. */
  method SortScanResults(results: array<ScanResult>)
    modifies results
    ensures results[..] == InsertionSort(old(results[..]))
  {
    ghost var was := results[..];
    var i := 1;
    assert results.Length > 0 ==> results[..1] == InsertionSort(was[..1]) by {
      if results.Length > 0 { assert was[..1][..0] == [] && InsertionSort(was[..1][..0]) == []; }
    }
    while i < results.Length
      invariant 1 <= i
      invariant results.Length > 0 ==> i <= results.Length && results[..i] == InsertionSort(was[..i])
      invariant forall k :: i <= k < results.Length ==> results[k] == was[k]
    {
      InsertInPlace(results, i);
      assert was[..i + 1][..i] == was[..i];
      i := i + 1;
    }
    assert results[..] == results[..results.Length] && was == was[..results.Length];
  }
}
