/** Percent-decoding and the lookup of one parameter in a query string. */
module QueryStrings {
  import opened Basics
  import opened Text

  /** A percent sign without two hexadecimal digits after it stands for itself. */
  function Decode(s: string): string {
    if s == "" then ""
    else if s[0] == '+' then " " + Decode(s[1..])
    else if s[0] == '%' && |s| > 2 && DigitOf(s[1]) >= 0 && DigitOf(s[2]) >= 0 then
      [(DigitOf(s[1]) * 16 + DigitOf(s[2])) as char] + Decode(s[3..])
    else [s[0]] + Decode(s[1..])
  }

  predicate IsEscape(s: string, i: nat)
    requires i < |s|
  {
    s[i] == '%' && i + 2 < |s| && DigitOf(s[i + 1]) >= 0 && DigitOf(s[i + 2]) >= 0
  }

  /** One step of the decoding. */
  lemma DecodeFrom(s: string, i: nat)
    requires i < |s|
    ensures Decode(s[i..]) ==
            if s[i] == '+' then " " + Decode(s[i + 1..])
            else if IsEscape(s, i) then [(DigitOf(s[i + 1]) * 16 + DigitOf(s[i + 2])) as char] + Decode(s[i + 3..])
            else [s[i]] + Decode(s[i + 1..])
  {
    assert s[i..][1..] == s[i + 1..];
    assert i + 2 < |s| ==> s[i..][3..] == s[i + 3..];
  }

  lemma Append(out: string, c: char, rest: string)
    ensures (out + [c]) + rest == out + ([c] + rest)
  {
  }

  method UrlDecode(s: string) returns (out: string)
    ensures out == Decode(s)
  {
    out := "";
    assert s[0..] == s;
    var i := 0;
    while i < |s|
      invariant 0 <= i <= |s| && out + Decode(s[i..]) == Decode(s)
      decreases |s| - i
    {
      DecodeFrom(s, i);
      var c, width := s[i], 1;
      if s[i] == '+' {
        c := ' ';
      } else if s[i] == '%' && i + 2 < |s| {
        var hi, lo := DigitOf(s[i + 1]), DigitOf(s[i + 2]);
        if hi >= 0 && lo >= 0 {
          c, width := (hi * 16 + lo) as char, 3;
        }
      }
      Append(out, c, Decode(s[i + width..]));
      out := out + [c];
      i := i + width;
    }
  }

  /** The decoded value of the first parameter with this name. */
  function Param(query: string, name: string): Maybe<string>
    decreases |query|
  {
    var end := Find(query, "&", 0);
    var eq := Find(query, "=", 0);
    if eq < end && query[..eq] == name then Just(Decode(query[eq + 1..end]))
    else if end == |query| then Nothing
    else Param(query[end + 1..], name)
  }

  lemma SlicesOfSuffix(s: string, pos: nat, i: nat, j: nat)
    requires i <= j && pos + j <= |s|
    ensures s[pos..][..i] == s[pos..pos + i] && s[pos..][i..j] == s[pos + i..pos + j] && s[pos..][j..] == s[pos + j..]
  {
  }

  lemma ParamUnfolds(query: string, name: string, eq: nat, end: nat)
    requires Find(query, "&", 0) == end && Find(query, "=", 0) == eq
    ensures Param(query, name) ==
            if eq < end && query[..eq] == name then Just(Decode(query[eq + 1..end]))
            else if end == |query| then Nothing
            else Param(query[end + 1..], name)
  {
  }

  /** What the parameter at `pos` leads to; `e` and `n` are counted from there. */
  lemma ParamFrom(query: string, name: string, pos: nat, e: nat, n: nat)
    requires pos <= |query| && Find(query[pos..], "&", 0) == n && Find(query[pos..], "=", 0) == e
    ensures
      Param(query[pos..], name) ==
        if e < n && query[pos..pos + e] == name then Just(Decode(query[pos + e + 1..pos + n]))
        else if pos + n == |query| then Nothing
        else Param(query[pos + n + 1..], name)
  {
    ParamUnfolds(query[pos..], name, e, n);
    SlicesOfSuffix(query, pos, e, e);
    if e < n { SlicesOfSuffix(query, pos, e + 1, n); }
    if pos + n < |query| { SlicesOfSuffix(query, pos, n + 1, n + 1); }
  }

  lemma ParamAt(query: string, name: string, pos: nat, eq: nat, end: nat)
    requires pos <= eq <= |query| && pos <= end <= |query|
    requires Find(query[pos..], "&", 0) == end - pos && Find(query[pos..], "=", 0) == eq - pos
    ensures
      Param(query[pos..], name) ==
        if eq < end && query[pos..eq] == name then Just(Decode(query[eq + 1..end]))
        else if end == |query| then Nothing
        else Param(query[end + 1..], name)
  {
    ParamFrom(query, name, pos, eq - pos, end - pos);
  }

  method FindIn(s: string, w: string, pos: nat) returns (k: nat)
    requires pos <= |s|
    ensures pos <= k <= |s| && Find(s[pos..], w, 0) == k - pos
  {
    FindInSuffix(s, w, pos, 0);
    k := Find(s, w, pos);
  }

  /** Looks at the parameter at `pos`: its value if it has the name, and where the next one starts. */
  method OneParam(query: string, name: string, pos: nat) returns (value: Maybe<string>, next: nat)
    requires pos <= |query|
    ensures pos < next <= |query| + 1
    ensures Param(query[pos..], name) ==
            if value.Just? || next > |query| then value else Param(query[next..], name)
  {
    var end := FindIn(query, "&", pos);
    var eq := FindIn(query, "=", pos);
    ParamAt(query, name, pos, eq, end);
    next := end + 1;
    value := Nothing;
    if eq < end && query[pos..eq] == name {
      var decoded := UrlDecode(query[eq + 1..end]);
      value := Just(decoded);
    }
  }

  method QueryParam(query: string, name: string) returns (value: Maybe<string>)
    ensures value == Param(query, name)
  {
    value := Nothing;
    var pos := 0;
    assert query[0..] == query;
    while pos <= |query| && value.Nothing?
      invariant 0 <= pos <= |query| + 1
      invariant Param(query, name) == if value.Just? || pos > |query| then value else Param(query[pos..], name)
      decreases |query| + 1 - pos
    {
      value, pos := OneParam(query, name, pos);
    }
  }

  // ---- What a client encodes, this decodes ----

  predicate Unreserved(c: char) { '0' <= c <= '9' || 'a' <= c <= 'z' || 'A' <= c <= 'Z' || c == '-' || c == '_' || c == '.' }

  function HexDigit(d: nat): char
    requires d < 16
  {
    if d < 10 then ('0' as int + d) as char else ('A' as int + d - 10) as char
  }

  function EncodeChar(c: char): string
    requires c as int < 256
  {
    if Unreserved(c) then [c]
    else if c == ' ' then "+"
    else ['%', HexDigit(c as int / 16), HexDigit(c as int % 16)]
  }

  predicate Bytes(s: string) { forall i :: 0 <= i < |s| ==> s[i] as int < 256 }

  function Encode(s: string): string
    requires Bytes(s)
  {
    if s == "" then "" else EncodeChar(s[0]) + Encode(s[1..])
  }

  lemma CharRoundTrip(c: char, rest: string)
    requires c as int < 256
    ensures Decode(EncodeChar(c) + rest) == [c] + Decode(rest)
  {
    var s := EncodeChar(c) + rest;
    if Unreserved(c) || c == ' ' {
      assert s[1..] == rest;
    } else {
      assert s[3..] == rest;
    }
  }

  lemma {:induction false} DecodeUndoesEncode(s: string)
    requires Bytes(s)
    ensures Decode(Encode(s)) == s
  {
    if s != "" {
      DecodeUndoesEncode(s[1..]);
      CharRoundTrip(s[0], Encode(s[1..]));
    }
  }

  datatype Pair = Pair(name: string, value: string)

  predicate Without(s: string, c: char) { forall i :: 0 <= i < |s| ==> s[i] != c }

  /** Names are compared as they are sent, so they have to be plain. */
  predicate ValidPair(p: Pair) { Without(p.name, '&') && Without(p.name, '=') && Bytes(p.value) }

  predicate ValidPairs(pairs: seq<Pair>) { forall i :: 0 <= i < |pairs| ==> ValidPair(pairs[i]) }

  function Piece(p: Pair): string
    requires ValidPair(p)
  {
    p.name + "=" + Encode(p.value)
  }

  function Render(pairs: seq<Pair>): string
    requires ValidPairs(pairs)
  {
    if pairs == [] then ""
    else if |pairs| == 1 then Piece(pairs[0])
    else Piece(pairs[0]) + "&" + Render(pairs[1..])
  }

  function FirstValue(pairs: seq<Pair>, name: string): Maybe<string> {
    if pairs == [] then Nothing
    else if pairs[0].name == name then Just(pairs[0].value)
    else FirstValue(pairs[1..], name)
  }

  lemma {:induction false} EncodedIsPlain(s: string)
    requires Bytes(s)
    ensures Without(Encode(s), '&')
  {
    if s != "" {
      EncodedIsPlain(s[1..]);
    }
  }

  /** The first occurrence of a character after a stretch without it. */
  lemma FindAfter(plain: string, c: char, after: string)
    requires Without(plain, c)
    ensures after == "" ==> Find(plain + after, [c], 0) == |plain|
    ensures after != "" && after[0] == c ==> Find(plain + after, [c], 0) == |plain|
  {
    var s, k := plain + after, |plain|;
    forall i | 0 <= i < k ensures !At(s, [c], i) {
      assert s[i] == plain[i];
      assert s[i..i + 1][0] == s[i];
    }
    if after == "" {
      FindsNone(s, [c], 0);
    } else if after[0] == c {
      assert s[k..k + 1] == [c];
      FindsAt(s, [c], 0, k);
    }
  }

  lemma PieceFound(p: Pair, more: string)
    requires ValidPair(p) && (more != "" ==> more[0] == '&')
    ensures
      var query := Piece(p) + more;
      && Find(query, "&", 0) == |Piece(p)| && Find(query, "=", 0) == |p.name| < |Piece(p)|
      && query[..|p.name|] == p.name && query[|p.name| + 1..|Piece(p)|] == Encode(p.value)
  {
    var encoded := Encode(p.value);
    EncodedIsPlain(p.value);
    assert "&" == ['&'] && "=" == ['='];
    FindAfter(Piece(p), '&', more);
    assert Piece(p) + more == p.name + ("=" + encoded + more);
    FindAfter(p.name, '=', "=" + encoded + more);
  }

  /** What follows the first pair. */
  function More(pairs: seq<Pair>): string
    requires ValidPairs(pairs) && pairs != []
  {
    if |pairs| == 1 then "" else "&" + Render(pairs[1..])
  }

  /**
   * Looking up a name in an encoded list of parameters gives the value of the first one with that name, or nothing
   * if there is none.
   */
  lemma {:induction false} ParamRoundTrip(pairs: seq<Pair>, name: string)
    requires ValidPairs(pairs)
    ensures Param(Render(pairs), name) == FirstValue(pairs, name)
    decreases |pairs|
  {
    if pairs != [] {
      var p, more := pairs[0], More(pairs);
      assert ValidPair(p);
      assert Render(pairs) == Piece(p) + more;
      PieceFound(p, more);
      DecodeUndoesEncode(p.value);
      if p.name != name && |pairs| > 1 {
        ParamRoundTrip(pairs[1..], name);
        assert (Piece(p) + more)[|Piece(p)| + 1..] == Render(pairs[1..]);
      }
    }
  }
}
