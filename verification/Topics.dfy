/** Topics as segments between slashes. */
module Topics {

  predicate SlashFree(s: string) { forall i :: 0 <= i < |s| ==> s[i] != '/' }

  /** Position of the first slash at or after `pos`, or the length of the topic. */
  function SlashFrom(t: string, pos: nat): (k: nat)
    requires pos <= |t|
    ensures pos <= k <= |t|
    decreases |t| - pos
  {
    if pos == |t| || t[pos] == '/' then pos else SlashFrom(t, pos + 1)
  }

  lemma {:induction false} SlashFromIsFirst(t: string, pos: nat, k: nat)
    requires pos <= k <= |t| && (k < |t| ==> t[k] == '/')
    requires forall i :: pos <= i < k ==> t[i] != '/'
    ensures SlashFrom(t, pos) == k
    decreases k - pos
  {
    if pos < k {
      SlashFromIsFirst(t, pos + 1, k);
    }
  }

  lemma {:induction false} SlashFromFinds(t: string, pos: nat)
    requires pos <= |t|
    ensures SlashFrom(t, pos) < |t| ==> t[SlashFrom(t, pos)] == '/'
    ensures SlashFree(t[pos..SlashFrom(t, pos)])
    decreases |t| - pos
  {
    if pos < |t| && t[pos] != '/' {
      SlashFromFinds(t, pos + 1);
      assert t[pos..SlashFrom(t, pos)] == [t[pos]] + t[pos + 1..SlashFrom(t, pos)];
    }
  }

  function Split(t: string): (segs: seq<string>)
    ensures segs != []
    decreases |t|
  {
    var k := SlashFrom(t, 0);
    if k == |t| then [t] else [t[..k]] + Split(t[k + 1..])
  }

  function Join(segs: seq<string>): string
    requires segs != []
  {
    if |segs| == 1 then segs[0] else segs[0] + "/" + Join(segs[1..])
  }

  predicate AllSlashFree(segs: seq<string>) { forall i :: 0 <= i < |segs| ==> SlashFree(segs[i]) }

  lemma {:induction false} JoinSplit(t: string)
    ensures AllSlashFree(Split(t)) && Join(Split(t)) == t
    decreases |t|
  {
    var k := SlashFrom(t, 0);
    SlashFromFinds(t, 0);
    if k < |t| {
      var rest := t[k + 1..];
      JoinSplit(rest);
      assert Split(t)[1..] == Split(rest);
      assert t == t[..k] + "/" + rest;
    } else {
      assert t[0..k] == t;
    }
  }

  lemma SplitHead(s: string, rest: string)
    requires SlashFree(s)
    ensures Split(s + "/" + rest) == [s] + Split(rest)
    ensures Split(s) == [s]
  {
    var t := s + "/" + rest;
    SlashFromIsFirst(t, 0, |s|);
    SlashFromIsFirst(s, 0, |s|);
    assert t[..|s|] == s && t[|s| + 1..] == rest;
  }

  lemma {:induction false} SplitJoin(segs: seq<string>)
    requires segs != [] && AllSlashFree(segs)
    ensures Split(Join(segs)) == segs
  {
    if |segs| == 1 {
      SplitHead(segs[0], "");
    } else {
      SplitJoin(segs[1..]);
      SplitHead(segs[0], Join(segs[1..]));
    }
  }

  lemma CutAtSlash(a: string, k: nat, b: string)
    requires k < |a| && a[k] == '/'
    ensures a + "/" + b == a[..k] + "/" + (a[k + 1..] + "/" + b)
  {
    assert a == a[..k] + "/" + a[k + 1..];
  }

  lemma {:induction false} SplitAppend(a: string, b: string)
    ensures Split(a + "/" + b) == Split(a) + Split(b)
    decreases |a|
  {
    var k := SlashFrom(a, 0);
    SlashFromFinds(a, 0);
    assert a[0..k] == a[..k];
    if k == |a| {
      SplitHead(a, b);
    } else {
      var rest := a[k + 1..];
      SplitAppend(rest, b);
      SplitHead(a[..k], rest + "/" + b);
      CutAtSlash(a, k, b);
    }
  }

  /** The word `w` stands at position `p`. */
  predicate StandsAt(t: string, w: string, p: int) {
    0 <= p <= |t| - |w| && t[p..p + |w|] == w
  }

  predicate Contains(t: string, w: string) {
    exists p :: 0 <= p <= |t| && StandsAt(t, w, p)
  }

  lemma MiddleStands(a: string, w: string, b: string)
    ensures StandsAt(a + w + b, w, |a|) && Contains(a + w + b, w)
  {
    var t := a + w + b;
    assert t[|a|..|a| + |w|] == w;
    assert StandsAt(t, w, |a|);
  }

  /** `w` is one of the segments that have a segment on either side. */
  predicate InnerSegment(t: string, w: string) {
    exists i :: 0 < i < |Split(t)| - 1 && Split(t)[i] == w
  }

  lemma {:induction false} JoinAppend(a: seq<string>, b: seq<string>)
    requires a != [] && b != []
    ensures Join(a + b) == Join(a) + "/" + Join(b)
  {
    if |a| == 1 {
      assert (a + b)[1..] == b;
    } else {
      JoinAppend(a[1..], b);
      assert (a + b)[1..] == a[1..] + b;
    }
  }

  lemma InnerIsContained(t: string, w: string, i: nat)
    requires 0 < i < |Split(t)| - 1 && Split(t)[i] == w
    ensures Contains(t, "/" + w + "/")
  {
    var segs := Split(t);
    var before, after := Join(segs[..i]), Join(segs[i + 1..]);
    JoinSplit(t);
    JoinAround(segs, i);
    MiddleStands(before, "/" + w + "/", after);
    Regroup(before, w, after);
  }

  lemma JoinAround(segs: seq<string>, i: nat)
    requires 0 < i < |segs| - 1
    ensures Join(segs) == Join(segs[..i]) + "/" + (segs[i] + "/" + Join(segs[i + 1..]))
  {
    JoinAppend(segs[..i], segs[i..]);
    JoinAppend([segs[i]], segs[i + 1..]);
    assert segs[i..] == [segs[i]] + segs[i + 1..] && segs == segs[..i] + segs[i..];
  }

  lemma Regroup(a: string, w: string, b: string)
    ensures a + "/" + (w + "/" + b) == a + ("/" + w + "/") + b
  {
  }

  lemma ContainedIsInner(t: string, w: string, p: nat)
    requires SlashFree(w) && p + |w| + 2 <= |t| && t[p..p + |w| + 2] == "/" + w + "/"
    ensures InnerSegment(t, w)
  {
    var a, b := t[..p], t[p + |w| + 2..];
    assert t == a + "/" + (w + "/" + b);
    SplitAppend(a, w + "/" + b);
    SplitHead(w, b);
    assert Split(t)[|Split(a)|] == w;
  }

  /** A word between slashes is the same as an inner segment. */
  lemma ContainsIffInner(t: string, w: string)
    requires SlashFree(w)
    ensures Contains(t, "/" + w + "/") <==> InnerSegment(t, w)
  {
    var word := "/" + w + "/";
    if Contains(t, word) {
      var p :| 0 <= p <= |t| && StandsAt(t, word, p);
      ContainedIsInner(t, w, p);
    }
    if i :| 0 < i < |Split(t)| - 1 && Split(t)[i] == w {
      InnerIsContained(t, w, i);
    }
  }
}
