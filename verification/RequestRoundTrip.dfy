/** A writer of requests, and that the reader gets back what was written, however it is cut. */
module RequestRoundTrip {
  import opened Basics
  import opened Text
  import HttpFraming
  import opened RequestReader

  type Field = HttpFraming.Field

  const CRLF := "\r\n"

  predicate NoBreak(s: string) { forall i :: 0 <= i < |s| ==> s[i] != '\r' && s[i] != '\n' }

  predicate Lacks(s: string, c: char) { forall i :: 0 <= i < |s| ==> s[i] != c }

  /** A part of the request line: no blank and no line end. */
  predicate Word(s: string) { NoBreak(s) && Lacks(s, ' ') }

  predicate ValidField(f: Field) { NoBreak(f.name) && Lacks(f.name, ':') && NoBreak(f.value) }

  predicate ValidFields(fields: seq<Field>) { forall i :: 0 <= i < |fields| ==> ValidField(fields[i]) }

  // ---- The writer ----

  function StartLine(verb: string, target: string): string { verb + (" " + (target + (" " + "HTTP/1.1"))) }

  function FieldLine(f: Field): string { f.name + (":" + (" " + f.value)) }

  function FieldLines(fields: seq<Field>): (lines: seq<string>)
    ensures |lines| == |fields|
  {
    if fields == [] then [] else [FieldLine(fields[0])] + FieldLines(fields[1..])
  }

  /** Lines with line ends between them. */
  function Joined(lines: seq<string>): string
    requires lines != []
  {
    if |lines| == 1 then lines[0] else lines[0] + (CRLF + Joined(lines[1..]))
  }

  function Block(verb: string, target: string, fields: seq<Field>): string {
    Joined([StartLine(verb, target)] + FieldLines(fields))
  }

  /** The request as it is sent. */
  function Written(verb: string, target: string, fields: seq<Field>, body: string): string {
    Block(verb, target, fields) + (BLANK_LINE + body)
  }

  // ---- Searching ----

  lemma {:induction false} FindSkips(s: string, w: string, p: nat, q: nat)
    requires p <= q <= |s| && forall i :: p <= i < q ==> !At(s, w, i)
    ensures Find(s, w, p) == Find(s, w, q)
    decreases q - p
  {
    if p < q {
      FindSkips(s, w, p + 1, q);
    }
  }

  /** Text without a character, then that character. */
  lemma CharIsFound(a: string, c: char, rest: string)
    requires Lacks(a, c)
    ensures Find(a + ([c] + rest), [c], 0) == |a|
  {
    var s := a + ([c] + rest);
    assert s[|a|..|a| + 1] == [c];
    forall i | 0 <= i < |a| ensures !At(s, [c], i) {
      assert s[i..i + 1][0] == a[i];
    }
    FindsAt(s, [c], 0, |a|);
  }

  lemma CharIsMissing(a: string, c: char)
    requires Lacks(a, c)
    ensures Find(a, [c], 0) == |a|
  {
    forall i | 0 <= i < |a| ensures !At(a, [c], i) {
      if i + 1 <= |a| { assert a[i..i + 1][0] == a[i]; }
    }
    FindsNone(a, [c], 0);
  }

  /** Where the line ends, whatever follows. */
  lemma BreakIsFound(line: string, rest: string)
    requires NoBreak(line)
    ensures Find(line + (CRLF + rest), CRLF, 0) == |line|
  {
    var s := line + (CRLF + rest);
    assert s[|line|..|line| + 2] == CRLF;
    forall i | 0 <= i < |line| ensures !At(s, CRLF, i) {
      if i + 2 <= |s| { assert s[i..i + 2][0] == line[i]; }
    }
    FindsAt(s, CRLF, 0, |line|);
  }

  lemma NoBreakIsFound(line: string)
    requires NoBreak(line)
    ensures Find(line, CRLF, 0) == |line|
  {
    forall i | 0 <= i < |line| ensures !At(line, CRLF, i) {
      if i + 2 <= |line| { assert line[i..i + 2][0] == line[i]; }
    }
    FindsNone(line, CRLF, 0);
  }

  predicate Plain(lines: seq<string>) { forall i :: 0 <= i < |lines| ==> NoBreak(lines[i]) && lines[i] != "" }

  /** No blank line starts within a line or at its end, if another line follows. */
  lemma LineHasNoBlankLine(line: string, rest: string)
    requires NoBreak(line) && rest != "" && rest[0] != '\r'
    ensures
      var s := line + (CRLF + rest);
      forall i :: 0 <= i < |line| + 2 ==> !At(s, BLANK_LINE, i)
  {
    var s := line + (CRLF + rest);
    forall i | 0 <= i < |line| + 2 ensures !At(s, BLANK_LINE, i) {
      if i + 4 <= |s| {
        assert s[i..i + 4][0] == s[i] && s[i..i + 4][2] == s[i + 2];
      }
    }
  }

  lemma EndIsFound(line: string, rest: string)
    requires NoBreak(line)
    ensures Find(line + (BLANK_LINE + rest), BLANK_LINE, 0) == |line|
  {
    var s := line + (BLANK_LINE + rest);
    assert s[|line|..|line| + 4] == BLANK_LINE;
    forall i | 0 <= i < |line| ensures !At(s, BLANK_LINE, i) {
      assert s[i..i + 4][0] == line[i];
    }
    FindsAt(s, BLANK_LINE, 0, |line|);
  }

  lemma Regroup(a: string, b: string, c: string, d: string)
    ensures (a + (b + c)) + d == a + (b + (c + d))
  {
  }

  lemma {:induction false} JoinedStarts(lines: seq<string>, rest: string)
    requires lines != [] && Plain(lines)
    ensures Joined(lines) != "" && (Joined(lines) + rest)[0] == lines[0][0]
  {
  }

  lemma SearchGoesOn(line: string, rest: string)
    requires NoBreak(line) && rest != "" && rest[0] != '\r'
    ensures Find(line + (CRLF + rest), BLANK_LINE, 0) == Find(line + (CRLF + rest), BLANK_LINE, |line| + 2)
  {
    LineHasNoBlankLine(line, rest);
    FindSkips(line + (CRLF + rest), BLANK_LINE, 0, |line| + 2);
  }

  lemma AfterLine(line: string, rest: string)
    ensures (line + (CRLF + rest))[|line| + 2..] == rest
  {
  }

  lemma BlankLineIsLater(line: string, rest: string)
    requires NoBreak(line) && rest != "" && rest[0] != '\r'
    ensures Find(line + (CRLF + rest), BLANK_LINE, 0) == |line| + 2 + Find(rest, BLANK_LINE, 0)
  {
    SearchGoesOn(line, rest);
    FindInSuffix(line + (CRLF + rest), BLANK_LINE, |line| + 2, 0);
    AfterLine(line, rest);
  }

  /** The block ends at the first blank line. */
  lemma {:induction false} BlockEnds(lines: seq<string>, body: string)
    requires lines != [] && Plain(lines)
    ensures Find(Joined(lines) + (BLANK_LINE + body), BLANK_LINE, 0) == |Joined(lines)|
  {
    if |lines| == 1 {
      EndIsFound(lines[0], body);
    } else {
      Regroup(lines[0], CRLF, Joined(lines[1..]), BLANK_LINE + body);
      BlockEnds(lines[1..], body);
      JoinedStarts(lines[1..], BLANK_LINE + body);
      BlankLineIsLater(lines[0], Joined(lines[1..]) + (BLANK_LINE + body));
    }
  }

  // ---- The request line ----

  function UpTo(s: string, c: char): string { if s == "" || s[0] == c then "" else [s[0]] + UpTo(s[1..], c) }

  lemma {:induction false} UpToIsFound(s: string, c: char)
    ensures s[..Find(s, [c], 0)] == UpTo(s, c)
  {
    if s != "" && s[0] != c {
      UpToIsFound(s[1..], c);
      FindInSuffix(s, [c], 1, 0);
      assert !At(s, [c], 0) by {
        if |s| >= 1 { assert s[0..1][0] == s[0]; }
      }
      assert s[..1 + Find(s[1..], [c], 0)] == [s[0]] + s[1..][..Find(s[1..], [c], 0)];
    } else if s != "" {
      assert s[0..1] == [c];
    }
  }

  lemma StartLineParts(verb: string, target: string)
    requires Word(verb) && Word(target)
    ensures
      var line := StartLine(verb, target);
      && NoBreak(line) && line != "" && Find(line, " ", 0) == |verb| && |verb| < |line|
      && line[..|verb|] == verb && Find(line, " ", |verb| + 1) == |verb| + 1 + |target|
      && line[|verb| + 1..|verb| + 1 + |target|] == target
  {
    var line, rest := StartLine(verb, target), target + (" " + "HTTP/1.1");
    assert " " == [' '];
    CharIsFound(verb, ' ', rest);
    CharIsFound(target, ' ', "HTTP/1.1");
    FindInSuffix(line, " ", |verb| + 1, 0);
    assert line[|verb| + 1..] == rest;
  }

  lemma RequestLineIsFirst(lines: seq<string>)
    requires lines != [] && Plain(lines)
    ensures RequestLine(Joined(lines)) == lines[0]
  {
    if |lines| == 1 {
      NoBreakIsFound(lines[0]);
    } else {
      BreakIsFound(lines[0], Joined(lines[1..]));
    }
  }

  lemma LineOfParts(line: string, verb: string, target: string, url: string)
    requires target[..Find(target, "?", 0)] == url
    requires Find(line, " ", 0) == |verb| < |line| && line[..|verb|] == verb
    requires Find(line, " ", |verb| + 1) == |verb| + 1 + |target| && line[|verb| + 1..|verb| + 1 + |target|] == target
    ensures ParseLine(line) == Just((verb, url))
  {
    var methodEnd := Find(line, " ", 0);
    var cut := line[methodEnd + 1..Find(line, " ", methodEnd + 1)];
    assert line[..methodEnd] == verb && cut == target;
    assert cut[..Find(cut, "?", 0)] == url;
    assert ParseLine(line) == Just((line[..methodEnd], cut[..Find(cut, "?", 0)]));
  }

  lemma LineIsParsed(verb: string, target: string)
    requires Word(verb) && Word(target)
    ensures ParseLine(StartLine(verb, target)) == Just((verb, UpTo(target, '?')))
  {
    StartLineParts(verb, target);
    UpToIsFound(target, '?');
    LineOfParts(StartLine(verb, target), verb, target, UpTo(target, '?'));
  }

  lemma HeadIsParsed(verb: string, target: string, fields: seq<Field>)
    requires Word(verb) && Word(target) && ValidFields(fields)
    ensures ParseHead(Block(verb, target, fields)) ==
            Just(Head(verb, UpTo(target, '?'), FramingOf(Block(verb, target, fields))))
  {
    LinesArePlain(verb, target, fields);
    RequestLineIsFirst([StartLine(verb, target)] + FieldLines(fields));
    LineIsParsed(verb, target);
  }

  lemma {:induction false} FieldLinesArePlain(fields: seq<Field>)
    requires ValidFields(fields)
    ensures Plain(FieldLines(fields))
  {
    if fields != [] {
      FieldLinesArePlain(fields[1..]);
    }
  }

  lemma LinesArePlain(verb: string, target: string, fields: seq<Field>)
    requires Word(verb) && Word(target) && ValidFields(fields)
    ensures Plain([StartLine(verb, target)] + FieldLines(fields))
  {
    FieldLinesArePlain(fields);
  }

  // ---- The fields ----

  /** The line gives a value to this name. */
  predicate Names(line: string, name: string) {
    |name| < |line| && SameIgnoringCase(line[..|name|], name) && line[|name|] == ':'
  }

  predicate IsName(name: string) { NoBreak(name) && Lacks(name, ':') }

  function ValueIn(line: string, name: string): string
    requires Names(line, name)
  {
    HttpFraming.TrimLeft(line[|name| + 1..])
  }

  /** The value that the first line with this name gives. */
  function FirstValue(lines: seq<string>, name: string): Maybe<string> {
    if lines == [] then Nothing
    else if Names(lines[0], name) then Just(ValueIn(lines[0], name))
    else FirstValue(lines[1..], name)
  }

  lemma {:induction false} HeaderSkips(h: string, name: string, p: nat, q: nat)
    requires p <= q <= |h| && forall i :: p <= i < q ==> !NamedAt(h, name, i)
    ensures HeaderFrom(h, name, p) == HeaderFrom(h, name, q)
    decreases q - p
  {
    if p < q && p + |name| < |h| {
      HeaderSkips(h, name, p + 1, q);
    }
  }

  /** Text in which a line starts at `pos`, and ends there or with a line end. */
  predicate LineAt(h: string, line: string, pos: nat) {
    && pos + |line| <= |h| && h[pos..pos + |line|] == line && NoBreak(line)
    && (pos == 0 || h[pos - 1] == '\n')
    && (pos + |line| == |h| || h[pos + |line|] == '\r')
  }

  lemma SameCharacters(a: string, b: string, i: nat)
    requires SameIgnoringCase(a, b) && i < |a| && NoBreak(b)
    ensures a[i] != '\r'
  {
    assert Lower(a[i]) == Lower(b[i]);
  }

  lemma NamedAtLine(h: string, line: string, name: string, pos: nat)
    requires LineAt(h, line, pos) && IsName(name)
    ensures NamedAt(h, name, pos) <==> Names(line, name)
  {
    if |name| < |line| {
      assert h[pos..pos + |name|] == line[..|name|] && h[pos + |name|] == line[|name|];
    } else if NamedAt(h, name, pos) && |line| < |name| {
      SameCharacters(h[pos..pos + |name|], name, |line|);
    }
  }

  lemma {:induction false} BlanksEnd(h: string, line: string, pos: nat, i: nat)
    requires LineAt(h, line, pos) && i <= |line|
    ensures
      var k := SkipBlanks(h, pos + i);
      k <= pos + |line| && h[k..pos + |line|] == HttpFraming.TrimLeft(line[i..])
    decreases |line| - i
  {
    if i < |line| {
      assert h[pos + i] == line[i] && line[i..][0] == line[i] && line[i..][1..] == line[i + 1..];
      if HttpFraming.IsBlank(line[i]) {
        BlanksEnd(h, line, pos, i + 1);
      } else {
        assert h[pos + i..pos + |line|] == line[i..];
      }
    } else {
      assert line[i..] == "";
    }
  }

  lemma ReturnIsFound(h: string, line: string, pos: nat, k: nat)
    requires LineAt(h, line, pos) && pos <= k <= pos + |line|
    ensures Find(h, "\r", k) == pos + |line|
  {
    var end := pos + |line|;
    forall i | k <= i < end ensures !At(h, "\r", i) {
      assert h[i..i + 1][0] == h[i] && h[i] == h[pos..end][i - pos];
    }
    if end < |h| {
      assert h[end..end + 1] == "\r";
      FindsAt(h, "\r", k, end);
    } else {
      FindsNone(h, "\r", k);
    }
  }

  lemma ValueAtLine(h: string, line: string, name: string, pos: nat)
    requires LineAt(h, line, pos) && Names(line, name)
    ensures ValueFrom(h, pos + |name| + 1) == ValueIn(line, name)
  {
    BlanksEnd(h, line, pos, |name| + 1);
    ReturnIsFound(h, line, pos, SkipBlanks(h, pos + |name| + 1));
  }

  /** Only at the start of a line is a name looked for. */
  lemma NothingInsideLine(h: string, line: string, name: string, pos: nat)
    requires LineAt(h, line, pos) && (pos + |line| < |h| ==> pos + |line| + 2 <= |h|)
    ensures
      var next := if pos + |line| < |h| then pos + |line| + 2 else |h|;
      next <= |h| && forall i :: pos < i < next ==> !NamedAt(h, name, i)
  {
    var next := if pos + |line| < |h| then pos + |line| + 2 else |h|;
    forall i | pos < i < next ensures !NamedAt(h, name, i) {
      assert i - 1 < pos + |line| ==> h[i - 1] == line[i - 1 - pos];
    }
  }

  lemma LineDecides(h: string, line: string, name: string, pos: nat)
    requires LineAt(h, line, pos) && IsName(name) && (pos + |line| < |h| ==> pos + |line| + 2 <= |h|)
    ensures
      var next := if pos + |line| < |h| then pos + |line| + 2 else |h|;
      next <= |h| &&
      HeaderFrom(h, name, pos) == if Names(line, name) then Just(ValueIn(line, name)) else HeaderFrom(h, name, next)
  {
    NamedAtLine(h, line, name, pos);
    if Names(line, name) {
      ValueAtLine(h, line, name, pos);
    } else {
      NothingInsideLine(h, line, name, pos);
      HeaderSkips(h, name, pos, if pos + |line| < |h| then pos + |line| + 2 else |h|);
    }
  }

  lemma NextPiece(before: string, line: string, rest: string)
    ensures
      var more := before + (line + CRLF);
      && before + (line + (CRLF + rest)) == more + rest && |more| == |before| + |line| + 2
      && more[|more| - 1] == '\n'
  {
  }

  lemma LineInside(before: string, line: string, rest: string)
    requires NoBreak(line) && (before != "" ==> before[|before| - 1] == '\n')
    ensures
      var h := before + (line + (CRLF + rest));
      LineAt(h, line, |before|) && |before| + |line| + 2 <= |h|
  {
    var h := before + (line + (CRLF + rest));
    assert h[|before|..|before| + |line|] == line && h[|before| + |line|] == '\r';
    assert before != "" ==> h[|before| - 1] == '\n';
  }

  lemma LineAtEnd(before: string, line: string)
    requires NoBreak(line) && (before != "" ==> before[|before| - 1] == '\n')
    ensures LineAt(before + line, line, |before|)
  {
    var h := before + line;
    assert h[|before|..|before| + |line|] == line;
    assert before != "" ==> h[|before| - 1] == '\n';
  }

  lemma NextLineDecides(before: string, line: string, rest: string, name: string)
    requires NoBreak(line) && IsName(name) && (before != "" ==> before[|before| - 1] == '\n')
    ensures
      var more := before + (line + CRLF);
      && more != "" && more[|more| - 1] == '\n'
      && HeaderFrom(before + (line + (CRLF + rest)), name, |before|) ==
           if Names(line, name) then Just(ValueIn(line, name)) else HeaderFrom(more + rest, name, |more|)
  {
    LineInside(before, line, rest);
    LineDecides(before + (line + (CRLF + rest)), line, name, |before|);
    NextPiece(before, line, rest);
  }

  lemma LastLineDecides(before: string, line: string, name: string)
    requires NoBreak(line) && IsName(name) && (before != "" ==> before[|before| - 1] == '\n')
    ensures HeaderFrom(before + line, name, |before|) ==
            if Names(line, name) then Just(ValueIn(line, name)) else Nothing
  {
    LineAtEnd(before, line);
    LineDecides(before + line, line, name, |before|);
  }

  /** The search over the block finds what the first line with the name says. */
  lemma {:induction false} HeaderOfLines(before: string, lines: seq<string>, name: string)
    requires lines != [] && Plain(lines) && IsName(name) && (before != "" ==> before[|before| - 1] == '\n')
    ensures HeaderFrom(before + Joined(lines), name, |before|) == FirstValue(lines, name)
    decreases |lines|
  {
    if |lines| == 1 {
      LastLineDecides(before, lines[0], name);
      assert FirstValue(lines[1..], name) == Nothing;
    } else {
      NextLineDecides(before, lines[0], Joined(lines[1..]), name);
      HeaderOfLines(before + (lines[0] + CRLF), lines[1..], name);
    }
  }

  lemma FieldLineNames(f: Field, name: string)
    requires ValidField(f) && IsName(name)
    ensures Names(FieldLine(f), name) <==> SameIgnoringCase(f.name, name)
    ensures Names(FieldLine(f), name) ==> ValueIn(FieldLine(f), name) == HttpFraming.TrimLeft(f.value)
  {
    var line := FieldLine(f);
    assert line[|f.name|] == ':';
    if |name| == |f.name| {
      assert line[..|name|] == f.name;
      assert line[|name| + 1..] == " " + f.value && (" " + f.value)[1..] == f.value;
    } else if |f.name| < |name| < |line| {
      assert Lower(line[..|name|][|f.name|]) != Lower(name[|f.name|]);
    } else if |name| < |f.name| {
      assert line[|name|] == f.name[|name|];
    }
  }

  /** The value of the first field with this name, without the blanks before it. */
  function FieldValue(fields: seq<Field>, name: string): Maybe<string> {
    match HttpFraming.Lookup(fields, name)
    case Nothing => Nothing
    case Just(value) => Just(HttpFraming.TrimLeft(value))
  }

  lemma {:induction false} FirstFieldDecides(fields: seq<Field>, name: string)
    requires ValidFields(fields) && IsName(name)
    ensures FirstValue(FieldLines(fields), name) == FieldValue(fields, name)
  {
    if fields != [] {
      FieldLineNames(fields[0], name);
      FirstFieldDecides(fields[1..], name);
    }
  }

  /** A method that could be taken for a field; it has a colon, so it is no token of section 9.1 of RFC 9110. */
  predicate LooksLikeField(verb: string) { Names(verb, "Content-Length") || Names(verb, "Transfer-Encoding") }

  lemma StartLineNames(verb: string, target: string, name: string)
    requires Word(verb) && Lacks(name, ' ')
    ensures Names(StartLine(verb, target), name) <==> Names(verb, name)
  {
    var line := StartLine(verb, target);
    if |name| < |verb| {
      assert line[..|name|] == verb[..|name|];
    } else if |verb| < |name| < |line| {
      assert Lower(line[..|name|][|verb|]) != Lower(name[|verb|]);
    }
  }

  /** The request line counts as the first of the fields. */
  lemma BlockValue(verb: string, target: string, fields: seq<Field>, name: string)
    requires Word(verb) && Word(target) && ValidFields(fields) && IsName(name) && Lacks(name, ' ')
    ensures
      var line := StartLine(verb, target);
      && (Names(line, name) <==> Names(verb, name))
      && HeaderFrom(Block(verb, target, fields), name, 0) ==
           if Names(verb, name) then Just(ValueIn(line, name)) else FieldValue(fields, name)
  {
    var lines := [StartLine(verb, target)] + FieldLines(fields);
    LinesArePlain(verb, target, fields);
    assert "" + Joined(lines) == Joined(lines);
    HeaderOfLines("", lines, name);
    StartLineNames(verb, target, name);
    assert lines[1..] == FieldLines(fields);
    FirstFieldDecides(fields, name);
  }

  // ---- The length ----

  lemma {:induction false} DigitsAppend(s: string, c: char, sum: nat)
    requires HttpFraming.IsNumeral(10, s) && IsDigit(c)
    ensures Digits(s + [c], sum) == 10 * Digits(s, sum) + (c as int - '0' as int)
  {
    assert HttpFraming.IsDigitIn(10, s[0]) && IsDigit(s[0]);
    var more := 10 * sum + (s[0] as int - '0' as int);
    assert (s + [c])[1..] == s[1..] + [c];
    if |s| == 1 {
      assert s[1..] == "" && s[1..] + [c] == [c] && [c][1..] == "";
      assert Digits("", more) == more && Digits([c], more) == Digits("", 10 * more + (c as int - '0' as int));
    } else {
      assert HttpFraming.IsNumeral(10, s[1..]);
      DigitsAppend(s[1..], c, more);
    }
  }

  lemma {:induction false} DigitsAreValue(s: string)
    requires HttpFraming.IsNumeral(10, s)
    ensures Digits(s, 0) == HttpFraming.ValueOf(10, s)
  {
    var n := |s| - 1;
    assert HttpFraming.IsDigitIn(10, s[n]) && IsDigit(s[n]) && DigitOf(s[n]) == s[n] as int - '0' as int;
    assert s == s[..n] + [s[n]];
    if n == 0 {
      assert s[1..] == "" && HttpFraming.ValueOf(10, s[..0]) == 0;
    } else {
      assert HttpFraming.IsNumeral(10, s[..n]);
      DigitsAreValue(s[..n]);
      DigitsAppend(s[..n], s[n], 0);
    }
  }

  /** A size is read back, also with zeros before it; one that does not fit into 32 bits as the largest that does. */
  lemma LengthReadsBack(s: string)
    requires HttpFraming.IsNumeral(10, s)
    ensures
      var n := HttpFraming.ValueOf(10, s);
      ParseLength(s) == (if n <= 0xFFFF_FFFF then n else 0xFFFF_FFFF) && HttpFraming.TrimLeft(s) == s
  {
    assert HttpFraming.IsDigitIn(10, s[0]) && IsDigit(s[0]);
    DigitsAreValue(s);
  }

  /** White space before a size is skipped. */
  lemma SpaceIsSkipped(c: char, s: string)
    requires c == ' ' || 9 <= c as int <= 13
    ensures ParseLength([c] + s) == ParseLength(s)
  {
    assert ([c] + s)[1..] == s;
  }

  /** A value without a number is a size of 0. */
  lemma NoNumberIsZero(s: string)
    requires s == "" || !(IsSpace(s[0]) || IsDigit(s[0]) || s[0] == '+' || s[0] == '-')
    ensures ParseLength(s) == 0
  {
  }

  /** A sign is taken as strtoul takes it: a negative size wraps around. */
  lemma SignIsRead(s: string)
    requires HttpFraming.IsNumeral(10, s)
    ensures
      var n := HttpFraming.ValueOf(10, s);
      && ParseLength("+" + s) == ParseLength(s)
      && (0 < n <= 0xFFFF_FFFF ==> ParseLength("-" + s) == 0x1_0000_0000 - n)
  {
    DigitsAreValue(s);
    LengthReadsBack(s);
    assert ("+" + s)[1..] == s && ("-" + s)[1..] == s;
  }

  // ---- The round trip ----

  function Framed(fields: seq<Field>): Framing {
    match FieldValue(fields, "Content-Length")
    case Just(value) => Length(ParseLength(value))
    case Nothing => if FieldValue(fields, "Transfer-Encoding").Just? then Unsupported else Length(0)
  }

  /** What frames the body, for every method: one that looks like a field counts before all fields. */
  lemma FramingExactly(verb: string, target: string, fields: seq<Field>)
    requires Word(verb) && Word(target) && ValidFields(fields)
    ensures Names(verb, "Content-Length") ==> Names(StartLine(verb, target), "Content-Length")
    ensures FramingOf(Block(verb, target, fields)) ==
            if Names(verb, "Content-Length") then Length(ParseLength(ValueIn(StartLine(verb, target), "Content-Length")))
            else if Names(verb, "Transfer-Encoding") && FieldValue(fields, "Content-Length").Nothing? then Unsupported
            else Framed(fields)
  {
    BlockValue(verb, target, fields, "Content-Length");
    BlockValue(verb, target, fields, "Transfer-Encoding");
  }

  lemma WrittenParts(verb: string, target: string, fields: seq<Field>, body: string)
    requires Word(verb) && Word(target) && ValidFields(fields)
    ensures
      var block, stream := Block(verb, target, fields), Written(verb, target, fields, body);
      && Find(stream, BLANK_LINE, 0) == |block| && Has(stream, BLANK_LINE)
      && HeaderBlock(stream) == block && AfterHeader(stream) == body
  {
    LinesArePlain(verb, target, fields);
    BlockEnds([StartLine(verb, target)] + FieldLines(fields), body);
    var block, stream := Block(verb, target, fields), Written(verb, target, fields, body);
    assert stream[..|block|] == block && stream[|block| + 4..] == body;
  }

  /** The fields announce the body: its size in decimal, a transfer coding instead, or neither for no body. */
  predicate AnnouncesBody(fields: seq<Field>, body: string) {
    match HttpFraming.Lookup(fields, "Content-Length")
    case Just(value) => |body| <= 0xFFFF_FFFF && value == HttpFraming.Numeral(10, |body|)
    case Nothing => HttpFraming.Lookup(fields, "Transfer-Encoding").Just? || body == ""
  }

  /** What is expected of the reader: body and completeness, besides method and url. */
  function Expected(verb: string, target: string, fields: seq<Field>, body: string, maxBody: nat): Request {
    if HttpFraming.Lookup(fields, "Content-Length").Nothing? && HttpFraming.Lookup(fields, "Transfer-Encoding").Just? then
      Request(verb, UpTo(target, '?'), "", false)
    else Request(verb, UpTo(target, '?'), body[..Min(maxBody, |body|)], |body| <= maxBody)
  }

  lemma FramedAsAnnounced(fields: seq<Field>, body: string)
    requires AnnouncesBody(fields, body)
    ensures
      if HttpFraming.Lookup(fields, "Content-Length").Nothing? && HttpFraming.Lookup(fields, "Transfer-Encoding").Just?
      then Framed(fields) == Unsupported else Framed(fields) == Length(|body|)
  {
    HttpFraming.NumeralReadsBack(10, |body|);
    if HttpFraming.Lookup(fields, "Content-Length").Just? {
      LengthReadsBack(HttpFraming.Numeral(10, |body|));
    }
  }

  /**
   * A written request whose header block takes at most 2045 bytes is read back, however it is cut into pieces of up to
   * 512 bytes and however often the reader has to wait: the method, the target up to its query, and the body up to
   * the limit, marked complete exactly if nothing was cut; after a transfer coding an empty body that is not.
   */
  lemma RequestReadsBack(verb: string, target: string, fields: seq<Field>, body: string, arrivals: seq<Read>, maxBody: nat)
    requires Word(verb) && Word(target) && ValidFields(fields) && !LooksLikeField(verb)
    requires AnnouncesBody(fields, body) && |Block(verb, target, fields)| + 3 <= 2048
    requires Stream(arrivals) == Written(verb, target, fields, body)
    requires forall i :: 0 <= i < |arrivals| ==>
               arrivals[i].WantIo? || (arrivals[i].Data? && 0 < |arrivals[i].bytes| <= 512)
    ensures Receive(arrivals, maxBody) == Just(Expected(verb, target, fields, body, maxBody))
  {
    WrittenParts(verb, target, fields, body);
    HeadIsParsed(verb, target, fields);
    FramingExactly(verb, target, fields);
    FramedAsAnnounced(fields, body);
    FragmentationIndependent(arrivals, maxBody);
  }

  lemma {:induction false} NothingMoreIsRead(arrivals: seq<Read>, body: string, length: nat, maxBody: nat)
    requires Benign(arrivals) && Stream(arrivals) == "" && |body| <= maxBody && length > 0
    ensures ReadBody(body, 0, length, maxBody, arrivals) == Nothing
    decreases arrivals
  {
    if arrivals != [] {
      assert |Bytes(arrivals[0])| <= |Stream(arrivals)|;
      NothingMoreIsRead(arrivals[1..], body, length, maxBody);
    }
  }

  /** If a body is announced and none comes, the reader waits in vain. */
  lemma MissingBodyIsNothing(arrivals: seq<Read>, length: nat, maxBody: nat)
    requires Benign(arrivals) && HeaderFits(Stream(arrivals)) && AfterHeader(Stream(arrivals)) == ""
    requires Announces(ParseHead(HeaderBlock(Stream(arrivals))), length) && length > 0
    ensures Receive(arrivals, maxBody) == Nothing
  {
    var stream := Stream(arrivals);
    assert "" + stream == stream;
    HeadIsFound(stream, "", arrivals);
    var (buffer, rest) := ReadHead("", arrivals).value;
    PrefixParts(stream, buffer, Stream(rest));
    assert |AfterHeader(buffer)| + |Stream(rest)| == 0;
    NothingMoreIsRead(rest, "", length, maxBody);
    ReceiveContinues(arrivals, buffer, rest, maxBody);
  }

  /** Without fields and body, a method that looks like a length announces it. */
  lemma LengthFromMethod(verb: string, target: string)
    requires Word(verb) && Word(target) && Names(verb, "Content-Length")
    ensures
      var line := StartLine(verb, target);
      && Names(line, "Content-Length")
      && ParseHead(Block(verb, target, [])) ==
           Just(Head(verb, UpTo(target, '?'), Length(ParseLength(ValueIn(line, "Content-Length")))))
  {
    HeadIsParsed(verb, target, []);
    FramingExactly(verb, target, []);
  }

  /**
   * A method that looks like a length is taken for one. Without fields and body, such a request is read only if that
   * length is 0, and is waited for in vain otherwise.
   */
  lemma MethodLikeFieldIsMisread(verb: string, target: string, arrivals: seq<Read>, maxBody: nat)
    requires Word(verb) && Word(target) && Names(verb, "Content-Length") && |Block(verb, target, [])| + 3 <= 2048
    requires Benign(arrivals) && Stream(arrivals) == Written(verb, target, [], "")
    ensures
      var line := StartLine(verb, target);
      Names(line, "Content-Length") &&
      Receive(arrivals, maxBody) ==
        if ParseLength(ValueIn(line, "Content-Length")) == 0 then Just(Request(verb, UpTo(target, '?'), "", true))
        else Nothing
  {
    WrittenParts(verb, target, [], "");
    LengthFromMethod(verb, target);
    var length := ParseLength(ValueIn(StartLine(verb, target), "Content-Length"));
    if length == 0 {
      FragmentationIndependent(arrivals, maxBody);
    } else {
      MissingBodyIsNothing(arrivals, length, maxBody);
    }
  }

  lemma NamesItself(name: string, rest: string)
    requires |name| > 0
    ensures Names(name + (":" + rest), name)
    ensures ValueIn(name + (":" + rest), name) == HttpFraming.TrimLeft(rest)
  {
    var line := name + (":" + rest);
    assert line[..|name|] == name && line[|name| + 1..] == rest;
  }

  lemma OneDigit(rest: string)
    requires rest != "" && !IsDigit(rest[0])
    ensures ParseLength("1" + rest) == 1 && HttpFraming.TrimLeft("1" + rest) == "1" + rest
  {
    assert ("1" + rest)[1..] == rest && Digits(rest, 1) == 1;
  }

  /** One such method: the part before the colon is the name of the field, the part after it the length 1. */
  lemma SuchAMethod(target: string)
    requires Word(target)
    ensures
      var verb := "Content-Length" + (":" + "1");
      var line := StartLine(verb, target);
      && Word(verb) && LooksLikeField(verb) && AnnouncesBody([], "") && Names(line, "Content-Length")
      && ParseLength(ValueIn(line, "Content-Length")) == 1
  {
    var name, rest := "Content-Length", " " + (target + (" " + "HTTP/1.1"));
    NamesItself(name, "1");
    NamesItself(name, "1" + rest);
    OneDigit(rest);
    assert (name + (":" + "1")) + rest == name + (":" + ("1" + rest));
  }
}
