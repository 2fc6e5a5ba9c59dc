/** Searching in text. */
module Text {

  predicate At(s: string, w: string, i: int) { 0 <= i <= |s| - |w| && s[i..i + |w|] == w }

  /** Position of the first `w` at or after `pos`, or the length of the text. */
  function Find(s: string, w: string, pos: nat): (k: nat)
    requires pos <= |s|
    ensures pos <= k <= |s|
    decreases |s| - pos
  {
    if pos == |s| || At(s, w, pos) then pos else Find(s, w, pos + 1)
  }

  predicate Has(s: string, w: string) { Find(s, w, 0) < |s| }

  lemma {:induction false} FindIsFirst(s: string, w: string, pos: nat)
    requires pos <= |s|
    ensures Find(s, w, pos) < |s| ==> At(s, w, Find(s, w, pos))
    ensures forall i :: pos <= i < Find(s, w, pos) ==> !At(s, w, i)
    decreases |s| - pos
  {
    if pos < |s| && !At(s, w, pos) {
      FindIsFirst(s, w, pos + 1);
    }
  }

  lemma SliceOfPrefix(s: string, n: nat, i: nat, j: nat)
    requires i <= j <= n <= |s|
    ensures s[..n][i..j] == s[i..j]
  {
  }

  lemma SliceOfSuffix(s: string, n: nat, i: nat, j: nat)
    requires i <= j && n + j <= |s|
    ensures s[n..][i..j] == s[n + i..n + j]
  {
  }

  lemma AtInPrefix(s: string, w: string, n: nat, k: nat)
    requires n <= |s|
    ensures At(s[..n], w, k) <==> At(s, w, k) && k + |w| <= n
  {
    if k + |w| <= n { SliceOfPrefix(s, n, k, k + |w|); }
  }

  lemma AtInSuffix(s: string, w: string, n: nat, k: nat)
    requires n <= |s|
    ensures At(s[n..], w, k) <==> At(s, w, n + k)
  {
    if n + k + |w| <= |s| { SliceOfSuffix(s, n, k, k + |w|); }
  }

  /** Where the text has the word, a prefix has it exactly if it reaches to its end, and then at the same place. */
  lemma FindInPrefix(s: string, w: string, n: nat)
    requires n <= |s| && w != "" && Has(s, w)
    ensures Find(s[..n], w, 0) == if Find(s, w, 0) + |w| <= n then Find(s, w, 0) else n
  {
    var p := s[..n];
    var k, k' := Find(s, w, 0), Find(p, w, 0);
    FindIsFirst(s, w, 0);
    FindIsFirst(p, w, 0);
    AtInPrefix(s, w, n, k);
    AtInPrefix(s, w, n, k');
  }

  /** The value of a decimal or hexadecimal digit, -1 for other characters. */
  function DigitOf(c: char): int {
    if '0' <= c <= '9' then c as int - '0' as int
    else if 'a' <= c <= 'f' then c as int - 'a' as int + 10
    else if 'A' <= c <= 'F' then c as int - 'A' as int + 10
    else -1
  }

  function Lower(c: char): char { if 'A' <= c <= 'Z' then 'a' + (c - 'A') else c }

  predicate SameIgnoringCase(a: string, b: string) {
    |a| == |b| && forall i :: 0 <= i < |a| ==> Lower(a[i]) == Lower(b[i])
  }

  /** Two characters agree exactly if they are the same, or the two cases of one letter. */
  lemma CasesAgreeExactly(a: char, b: char)
    ensures Lower(a) == Lower(b) <==>
            a == b || ('A' <= a <= 'Z' && b as int == a as int + 32) || ('A' <= b <= 'Z' && a as int == b as int + 32)
  {
  }

  lemma {:induction false} FindsAt(s: string, w: string, pos: nat, k: nat)
    requires pos <= k < |s| && At(s, w, k) && forall i :: pos <= i < k ==> !At(s, w, i)
    ensures Find(s, w, pos) == k
    decreases k - pos
  {
    if pos < k {
      FindsAt(s, w, pos + 1, k);
    }
  }

  lemma {:induction false} FindsNone(s: string, w: string, pos: nat)
    requires pos <= |s| && forall i :: pos <= i < |s| ==> !At(s, w, i)
    ensures Find(s, w, pos) == |s|
    decreases |s| - pos
  {
    if pos < |s| {
      FindsNone(s, w, pos + 1);
    }
  }

  /** Searching from a position on is searching what follows it. */
  lemma {:induction false} FindInSuffix(s: string, w: string, pos: nat, i: nat)
    requires pos + i <= |s|
    ensures Find(s, w, pos + i) == pos + Find(s[pos..], w, i)
    decreases |s| - pos - i
  {
    if pos + i < |s| {
      AtInSuffix(s, w, pos, i);
      FindInSuffix(s, w, pos, i + 1);
    }
  }
}
