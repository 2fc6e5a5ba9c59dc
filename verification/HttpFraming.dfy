/** The raw response the battery insists on, and a parser that recovers the body from it. */
module HttpFraming {
  import opened Basics
  import opened Text

  const CRLF := "\r\n"

  datatype Field = Field(name: string, value: string)

  // ---- Numbers ----

  function DigitChar(d: nat): char
    requires d < 16
  {
    if d < 10 then ('0' as int + d) as char else ('a' as int + d - 10) as char
  }

  predicate IsDigitIn(base: nat, c: char) { 0 <= DigitOf(c) < base }

  predicate IsNumeral(base: nat, s: string) { s != "" && forall i :: 0 <= i < |s| ==> IsDigitIn(base, s[i]) }

  function Numeral(base: nat, n: nat): (s: string)
    requires 2 <= base <= 16
    ensures s != ""
  {
    if n < base then [DigitChar(n)] else Numeral(base, n / base) + [DigitChar(n % base)]
  }

  function ValueOf(base: nat, s: string): int {
    if s == "" then 0 else ValueOf(base, s[..|s| - 1]) * base + DigitOf(s[|s| - 1])
  }

  lemma DigitReadsBack(d: nat)
    requires d < 16
    ensures DigitOf(DigitChar(d)) == d
  {
  }

  /** The two bases in use. */
  predicate IsBase(base: nat) { base == 10 || base == 16 }

  lemma DivideAndMultiply(n: nat, base: nat)
    requires IsBase(base)
    ensures n / base * base + n % base == n && n % base < base
    ensures n >= base ==> n / base < n
  {
    if base == 10 {
      assert n / 10 * 10 + n % 10 == n;
    } else {
      assert n / 16 * 16 + n % 16 == n;
    }
  }

  lemma OneMoreDigit(base: nat, s: string, c: char, n: nat)
    requires IsBase(base) && ValueOf(base, s) == n / base && DigitOf(c) == n % base
    ensures ValueOf(base, s + [c]) == n
    ensures s == "" || IsNumeral(base, s) ==> IsNumeral(base, s + [c])
  {
    DivideAndMultiply(n, base);
    assert (s + [c])[..|s|] == s;
  }

  lemma {:induction false} NumeralReadsBack(base: nat, n: nat)
    requires IsBase(base)
    ensures IsNumeral(base, Numeral(base, n)) && ValueOf(base, Numeral(base, n)) == n
    decreases n
  {
    DivideAndMultiply(n, base);
    DigitReadsBack(n % base);
    if n < base {
      assert "" + [DigitChar(n)] == [DigitChar(n)];
      OneMoreDigit(base, "", DigitChar(n), n);
    } else {
      NumeralReadsBack(base, n / base);
      OneMoreDigit(base, Numeral(base, n / base), DigitChar(n % base), n);
    }
  }

  // ---- The writer ----

  datatype Response = Response(code: nat, contentType: string, body: string, kongHeaders: bool, contentLength: bool)

  /** What comes from clocks and random numbers. */
  datatype Stamp = Stamp(date: string, traceId: string, kongId: string)

  function Line(f: Field): string { f.name + ": " + f.value + CRLF }

  function Render(fields: seq<Field>): string {
    if fields == [] then "" else Line(fields[0]) + Render(fields[1..])
  }

  function Reason(code: nat): string { if code == 404 then "Not Found" else "OK" }

  function StatusLine(code: nat): string { "HTTP/1.1 " + Numeral(10, code) + " " + Reason(code) }

  function ErrorFields(stamp: Stamp): seq<Field> {
    [Field("Date", stamp.date), Field("Content-Length", "0"), Field("Connection", "keep-alive")]
  }

  function LengthFields(res: Response, stamp: Stamp): seq<Field> {
    [Field("Date", stamp.date), Field("Content-Type", res.contentType),
     Field("Content-Length", Numeral(10, |res.body|)), Field("Connection", "keep-alive"), Field("vary", "Origin"),
     Field("Access-Control-Allow-Credentials", "true")]
  }

  function KongFields(stamp: Stamp): seq<Field> {
    [Field("vary", "Origin"), Field("Access-Control-Allow-Credentials", "true"), Field("X-Kong-Upstream-Latency", "2"),
     Field("X-Kong-Proxy-Latency", "0"), Field("Via", "1.1 kong/3.9.1"), Field("X-Kong-Request-Id", stamp.kongId),
     Field("Strict-Transport-Security", "max-age=31536000; includeSubDomains")]
  }

  function ChunkedFields(res: Response, stamp: Stamp): seq<Field> {
    [Field("Date", stamp.date), Field("Content-Type", res.contentType), Field("Transfer-Encoding", "chunked"),
     Field("Connection", "keep-alive"), Field("Trace-Id", stamp.traceId)] +
    (if res.kongHeaders then KongFields(stamp) else [])
  }

  function Fields(res: Response, stamp: Stamp): seq<Field> {
    if res.code != 200 then ErrorFields(stamp)
    else if res.contentLength then LengthFields(res, stamp)
    else ChunkedFields(res, stamp)
  }

  const LAST_CHUNK := "0\r\n\r\n"

  function Chunks(body: string): string {
    if body == "" then LAST_CHUNK else Numeral(16, |body|) + CRLF + (body + CRLF + LAST_CHUNK)
  }

  function Payload(res: Response): string {
    if res.code != 200 then "" else if res.contentLength then res.body else Chunks(res.body)
  }

  function Build(res: Response, stamp: Stamp): string {
    StatusLine(res.code) + CRLF + (Render(Fields(res, stamp)) + CRLF + Payload(res))
  }

  // ---- A parser after sections 5, 6 and 7.1 of RFC 9112 ----

  predicate IsBlank(c: char) { c == ' ' || c == '\t' }

  function TrimLeft(s: string): string { if s != "" && IsBlank(s[0]) then TrimLeft(s[1..]) else s }

  function Trim(s: string): string
    decreases |s|
  {
    var t := TrimLeft(s);
    if t != "" && IsBlank(t[|t| - 1]) && |t| <= |s| then Trim(t[..|t| - 1]) else t
  }

  /** A line without its end, and what follows. */
  function NextLine(s: string): Maybe<(string, string)> {
    var k := Find(s, CRLF, 0);
    if k + 2 > |s| then Nothing else Just((s[..k], s[k + 2..]))
  }

  function ParseField(line: string): Maybe<Field> {
    var colon := Find(line, ":", 0);
    if colon == |line| || colon == 0 then Nothing else Just(Field(line[..colon], Trim(line[colon + 1..])))
  }

  /** Field lines up to and including the empty line. */
  function ParseFields(s: string): Maybe<(seq<Field>, string)>
    decreases |s|
  {
    match NextLine(s)
    case Nothing => Nothing
    case Just((line, rest)) =>
      if line == "" then Just(([], rest))
      else
        match ParseField(line)
        case Nothing => Nothing
        case Just(field) =>
          match ParseFields(rest)
          case Nothing => Nothing
          case Just((fields, after)) => Just(([field] + fields, after))
  }

  function Lookup(fields: seq<Field>, name: string): Maybe<string> {
    if fields == [] then Nothing
    else if SameIgnoringCase(fields[0].name, name) then Just(fields[0].value)
    else Lookup(fields[1..], name)
  }

  /** The size at the start of a chunk; extensions after a semicolon are skipped. */
  function ChunkSize(line: string): Maybe<nat> {
    var digits := line[..Find(line, ";", 0)];
    if IsNumeral(16, digits) && ValueOf(16, digits) >= 0 then Just(ValueOf(16, digits)) else Nothing
  }

  /** Chunks up to the last one and the trailer section after it: the joined data, and what follows. */
  function ParseChunks(s: string): Maybe<(string, string)>
    decreases |s|
  {
    match NextLine(s)
    case Nothing => Nothing
    case Just((line, rest)) =>
      match ChunkSize(line)
      case Nothing => Nothing
      case Just(size) =>
        if size == 0 then
          match ParseFields(rest)
          case Nothing => Nothing
          case Just((_, after)) => Just(("", after))
        else if |rest| < size + 2 || rest[size..size + 2] != CRLF then Nothing
        else
          match ParseChunks(rest[size + 2..])
          case Nothing => Nothing
          case Just((data, after)) => Just((rest[..size] + data, after))
  }

  datatype Parsed = Parsed(status: string, fields: seq<Field>, body: string, after: string)

  function ParseBody(fields: seq<Field>, s: string): Maybe<(string, string)> {
    match Lookup(fields, "Transfer-Encoding")
    case Just(coding) => if SameIgnoringCase(coding, "chunked") then ParseChunks(s) else Just((s, ""))
    case Nothing =>
      match Lookup(fields, "Content-Length")
      case Nothing => Just((s, ""))
      case Just(value) =>
        if !IsNumeral(10, value) || ValueOf(10, value) < 0 || ValueOf(10, value) > |s| then Nothing
        else Just((s[..ValueOf(10, value)], s[ValueOf(10, value)..]))
  }

  function Parse(s: string): Maybe<Parsed> {
    match NextLine(s)
    case Nothing => Nothing
    case Just((status, rest)) =>
      match ParseFields(rest)
      case Nothing => Nothing
      case Just((fields, payload)) =>
        match ParseBody(fields, payload)
        case Nothing => Nothing
        case Just((body, after)) => Just(Parsed(status, fields, body, after))
  }

  // ---- Lines ----

  predicate LineEndAt(s: string, i: nat) { i + 1 < |s| && s[i] == '\r' && s[i + 1] == '\n' }

  /** The text has no line end inside. */
  predicate OneLine(s: string) { forall i :: 0 <= i < |s| ==> !LineEndAt(s, i) }

  predicate NoReturn(s: string) { forall i :: 0 <= i < |s| ==> s[i] != '\r' }

  lemma LineEndIsFound(s: string, i: nat)
    requires i < |s|
    ensures At(s, CRLF, i) <==> LineEndAt(s, i)
  {
    if i + 2 <= |s| {
      assert s[i..i + 2] == [s[i], s[i + 1]];
    }
  }

  lemma NoReturnIsOneLine(s: string)
    requires NoReturn(s)
    ensures OneLine(s)
  {
  }

  /** A line end across two pieces needs the first to end with a carriage return and the second to go on from there. */
  lemma OneLineJoins(a: string, b: string)
    requires OneLine(a) && OneLine(b) && (a != "" && b != "" ==> a[|a| - 1] != '\r' || b[0] != '\n')
    ensures OneLine(a + b)
  {
    forall i | 0 <= i < |a + b| ensures !LineEndAt(a + b, i) {
      assert i < |a| ==> !LineEndAt(a, i);
      assert i >= |a| ==> !LineEndAt(b, i - |a|);
    }
  }

  lemma LineEnds(line: string, rest: string)
    requires OneLine(line)
    ensures NextLine(line + CRLF + rest) == Just((line, rest))
  {
    var s := line + CRLF + rest;
    assert s[|line|..|line| + 2] == CRLF && At(s, CRLF, |line|);
    forall i | 0 <= i < |line| ensures !At(s, CRLF, i) {
      assert !LineEndAt(line, i);
      LineEndIsFound(s, i);
    }
    FindsAt(s, CRLF, 0, |line|);
    assert s[..|line|] == line && s[|line| + 2..] == rest;
  }

  /** A field that can be written on a line of its own and read back. */
  predicate ValidField(f: Field) {
    ValidName(f.name) && OneLine(f.value)
  }

  predicate ValidName(name: string) {
    name != "" && NoReturn(name) && forall i :: 0 <= i < |name| ==> name[i] != ':'
  }

  lemma FieldIsOneLine(f: Field)
    requires ValidField(f)
    ensures OneLine(f.name + ": " + f.value)
  {
    NoReturnIsOneLine(f.name);
    NoReturnIsOneLine(": ");
    OneLineJoins(": ", f.value);
    OneLineJoins(f.name, ": " + f.value);
    assert f.name + (": " + f.value) == f.name + ": " + f.value;
  }

  function Read(f: Field): Field { Field(f.name, Trim(" " + f.value)) }

  lemma ColonIsFound(name: string, rest: string)
    requires ValidName(name)
    ensures Find(name + ":" + rest, ":", 0) == |name|
  {
    var line := name + ":" + rest;
    assert line[|name|..|name| + 1] == ":";
    forall i | 0 <= i < |name| ensures !At(line, ":", i) {
      assert line[i..i + 1][0] == name[i];
    }
    FindsAt(line, ":", 0, |name|);
  }

  lemma FieldReadsBack(f: Field)
    requires ValidField(f)
    ensures ParseField(f.name + ": " + f.value) == Just(Read(f))
  {
    var line, rest := f.name + ": " + f.value, " " + f.value;
    assert line == f.name + ":" + rest;
    ColonIsFound(f.name, rest);
    assert line[..|f.name|] == f.name && line[|f.name| + 1..] == rest;
  }

  function ReadAll(fields: seq<Field>): seq<Field> {
    if fields == [] then [] else [Read(fields[0])] + ReadAll(fields[1..])
  }

  predicate ValidFields(fields: seq<Field>) { forall i :: 0 <= i < |fields| ==> ValidField(fields[i]) }

  lemma FirstLineOf(f: Field, more: string, rest: string)
    ensures (Line(f) + more) + CRLF + rest == (f.name + ": " + f.value) + CRLF + (more + CRLF + rest)
  {
  }

  lemma OneFieldReadsBack(f: Field, more: string)
    requires ValidField(f)
    ensures
      var s := (f.name + ": " + f.value) + CRLF + more;
      ParseFields(s) ==
        match ParseFields(more)
        case Nothing => Nothing
        case Just((fields, after)) => Just(([Read(f)] + fields, after))
  {
    FieldReadsBack(f);
    FieldIsOneLine(f);
    LineEnds(f.name + ": " + f.value, more);
  }

  lemma {:induction false} FieldsReadBack(fields: seq<Field>, rest: string)
    requires ValidFields(fields)
    ensures ParseFields(Render(fields) + CRLF + rest) == Just((ReadAll(fields), rest))
  {
    if fields == [] {
      LineEnds("", rest);
      assert Render(fields) + CRLF + rest == "" + CRLF + rest;
    } else {
      FieldsReadBack(fields[1..], rest);
      FirstLineOf(fields[0], Render(fields[1..]), rest);
      OneFieldReadsBack(fields[0], Render(fields[1..]) + CRLF + rest);
    }
  }

  // ---- Payloads ----

  lemma NumeralIsPlain(base: nat, s: string)
    requires base <= 16 && IsNumeral(base, s)
    ensures OneLine(s) && forall i :: 0 <= i < |s| ==> s[i] != ';' && !IsBlank(s[i])
  {
    forall i | 0 <= i < |s| ensures s[i] != '\r' && s[i] != ';' && !IsBlank(s[i]) {
      assert IsDigitIn(base, s[i]);
    }
    NoReturnIsOneLine(s);
  }

  lemma SizeReadsBack(n: nat)
    ensures OneLine(Numeral(16, n)) && ChunkSize(Numeral(16, n)) == Just(n)
  {
    var line := Numeral(16, n);
    NumeralReadsBack(16, n);
    NumeralIsPlain(16, line);
    forall i | 0 <= i < |line| ensures !At(line, ";", i) {
      assert line[i..i + 1][0] == line[i];
    }
    FindsNone(line, ";", 0);
    assert line[..|line|] == line;
  }

  lemma NoTrailer()
    ensures ParseFields(CRLF) == Just(([], ""))
  {
    LineEnds("", "");
    assert CRLF == "" + CRLF + "";
  }

  lemma LastChunk()
    ensures ParseChunks(LAST_CHUNK) == Just(("", ""))
  {
    SizeReadsBack(0);
    LineEnds("0", CRLF);
    NoTrailer();
    assert Numeral(16, 0) == "0" && LAST_CHUNK == "0" + CRLF + CRLF;
  }

  lemma OneChunk(body: string, more: string)
    requires body != ""
    ensures
      ParseChunks(Numeral(16, |body|) + CRLF + (body + CRLF + more)) ==
        match ParseChunks(more)
        case Nothing => Nothing
        case Just((data, after)) => Just((body + data, after))
  {
    var rest := body + CRLF + more;
    SizeReadsBack(|body|);
    LineEnds(Numeral(16, |body|), rest);
    assert rest[..|body|] == body && rest[|body|..|body| + 2] == CRLF && rest[|body| + 2..] == more;
  }

  lemma ChunksReadBack(body: string)
    ensures ParseChunks(Chunks(body)) == Just((body, ""))
  {
    LastChunk();
    if body != "" {
      OneChunk(body, LAST_CHUNK);
      assert body + "" == body;
    }
  }

  // ---- Header fields ----

  lemma TrimsOneBlank(v: string)
    requires v != "" && !IsBlank(v[0]) && !IsBlank(v[|v| - 1])
    ensures Trim(" " + v) == v
  {
    assert (" " + v)[1..] == v;
    assert TrimLeft(v) == v;
  }

  predicate ValidStamp(stamp: Stamp) { OneLine(stamp.date) && OneLine(stamp.traceId) && OneLine(stamp.kongId) }

  lemma NamesAreValid(value: string)
    requires OneLine(value)
    ensures ValidField(Field("Date", value)) && ValidField(Field("Content-Type", value))
    ensures ValidField(Field("Content-Length", value)) && ValidField(Field("Trace-Id", value))
  {
  }

  lemma ConnectionIsValid()
    ensures ValidField(Field("Connection", "keep-alive")) && ValidField(Field("vary", "Origin"))
  {
    NoReturnIsOneLine("keep-alive");
    NoReturnIsOneLine("Origin");
  }

  lemma CredentialsAreValid()
    ensures ValidField(Field("Access-Control-Allow-Credentials", "true"))
  {
    NoReturnIsOneLine("true");
  }

  lemma CodingIsValid()
    ensures ValidField(Field("Transfer-Encoding", "chunked"))
  {
    NoReturnIsOneLine("chunked");
  }

  lemma UpstreamIsValid()
    ensures ValidField(Field("X-Kong-Upstream-Latency", "2"))
  {
    NoReturnIsOneLine("2");
  }

  lemma ProxyIsValid()
    ensures ValidField(Field("X-Kong-Proxy-Latency", "0"))
  {
    NoReturnIsOneLine("0");
  }

  lemma KongNamesAreValid(value: string)
    requires OneLine(value)
    ensures ValidField(Field("X-Kong-Request-Id", value)) && ValidField(Field("Via", "1.1 kong/3.9.1"))
  {
    NoReturnIsOneLine("1.1 kong/3.9.1");
  }

  lemma SecurityNameIsValid(value: string)
    requires OneLine(value)
    ensures ValidField(Field("Strict-Transport-Security", value))
  {
  }

  lemma SecurityIsOneLine()
    ensures OneLine("max-age=31536000; includeSubDomains")
  {
    NoReturnIsOneLine("max-age=31536000; includeSubDomains");
  }

  lemma KongFieldsAreValid(stamp: Stamp)
    requires ValidStamp(stamp)
    ensures ValidFields(KongFields(stamp))
  {
    ConnectionIsValid();
    CredentialsAreValid();
    UpstreamIsValid();
    ProxyIsValid();
    KongNamesAreValid(stamp.kongId);
    SecurityIsOneLine();
    SecurityNameIsValid("max-age=31536000; includeSubDomains");
  }

  lemma FieldsAreValid(res: Response, stamp: Stamp)
    requires ValidStamp(stamp) && OneLine(res.contentType)
    ensures ValidFields(Fields(res, stamp))
  {
    ConnectionIsValid();
    CredentialsAreValid();
    CodingIsValid();
    NamesAreValid(stamp.date);
    NamesAreValid(stamp.traceId);
    NamesAreValid(res.contentType);
    NamesAreValid("0");
    KongFieldsAreValid(stamp);
    NumeralReadsBack(10, |res.body|);
    NumeralIsPlain(10, Numeral(10, |res.body|));
    NamesAreValid(Numeral(10, |res.body|));
  }

  lemma {:induction false} LookupFirst(fields: seq<Field>, name: string, k: nat)
    requires k <= |fields| && forall j :: 0 <= j < k ==> !SameIgnoringCase(fields[j].name, name)
    requires k < |fields| ==> SameIgnoringCase(fields[k].name, name)
    ensures Lookup(ReadAll(fields), name) == if k < |fields| then Just(Trim(" " + fields[k].value)) else Nothing
  {
    if k > 0 {
      LookupFirst(fields[1..], name, k - 1);
      assert Lookup(ReadAll(fields), name) == Lookup(ReadAll(fields)[1..], name);
    }
  }

  lemma ErrorFraming(stamp: Stamp)
    ensures Lookup(ReadAll(ErrorFields(stamp)), "Transfer-Encoding") == Nothing
    ensures Lookup(ReadAll(ErrorFields(stamp)), "Content-Length") == Just("0")
  {
    LookupFirst(ErrorFields(stamp), "Transfer-Encoding", 3);
    LookupFirst(ErrorFields(stamp), "Content-Length", 1);
    TrimsOneBlank("0");
  }

  lemma LengthFraming(res: Response, stamp: Stamp)
    ensures Lookup(ReadAll(LengthFields(res, stamp)), "Transfer-Encoding") == Nothing
    ensures Lookup(ReadAll(LengthFields(res, stamp)), "Content-Length") == Just(Numeral(10, |res.body|))
  {
    LookupFirst(LengthFields(res, stamp), "Transfer-Encoding", 6);
    LookupFirst(LengthFields(res, stamp), "Content-Length", 2);
    var v := Numeral(10, |res.body|);
    NumeralReadsBack(10, |res.body|);
    NumeralIsPlain(10, v);
    TrimsOneBlank(v);
  }

  lemma ChunkedFraming(res: Response, stamp: Stamp)
    ensures Lookup(ReadAll(ChunkedFields(res, stamp)), "Transfer-Encoding") == Just("chunked")
  {
    LookupFirst(ChunkedFields(res, stamp), "Transfer-Encoding", 2);
    TrimsOneBlank("chunked");
  }

  /** What the header says about the body is what was written after it. */
  lemma BodyReadsBack(res: Response, stamp: Stamp)
    ensures ParseBody(ReadAll(Fields(res, stamp)), Payload(res)) == Just((if res.code == 200 then res.body else "", ""))
  {
    if res.code != 200 {
      ErrorFraming(stamp);
      NumeralReadsBack(10, 0);
      assert Numeral(10, 0) == "0";
    } else if res.contentLength {
      LengthFraming(res, stamp);
      NumeralReadsBack(10, |res.body|);
      assert res.body[..|res.body|] == res.body && res.body[|res.body|..] == "";
    } else {
      ChunkedFraming(res, stamp);
      ChunksReadBack(res.body);
    }
  }

  lemma StatusIsOneLine(code: nat)
    ensures OneLine(StatusLine(code))
  {
    var number, reason := Numeral(10, code), " " + Reason(code);
    NumeralReadsBack(10, code);
    NumeralIsPlain(10, number);
    NoReturnIsOneLine("HTTP/1.1 ");
    NoReturnIsOneLine(reason);
    OneLineJoins("HTTP/1.1 ", number);
    OneLineJoins("HTTP/1.1 " + number, reason);
    assert StatusLine(code) == "HTTP/1.1 " + number + reason;
  }

  /**
   * A parser recovers from every response exactly its body and nothing after it, in all three shapes and also for
   * an empty body; a response other than 200 has none.
   */
  lemma FramingRoundTrip(res: Response, stamp: Stamp)
    requires ValidStamp(stamp) && OneLine(res.contentType)
    ensures Parse(Build(res, stamp)) ==
            Just(Parsed(StatusLine(res.code), ReadAll(Fields(res, stamp)), if res.code == 200 then res.body else "", ""))
  {
    StatusIsOneLine(res.code);
    LineEnds(StatusLine(res.code), Render(Fields(res, stamp)) + CRLF + Payload(res));
    FieldsAreValid(res, stamp);
    FieldsReadBack(Fields(res, stamp), Payload(res));
    BodyReadsBack(res, stamp);
  }

  lemma PrintedCodes()
    ensures Numeral(10, 200) == "200" && Numeral(10, 404) == "404"
  {
    assert Numeral(10, 2) == "2" && Numeral(10, 20) == "20";
    assert Numeral(10, 4) == "4" && Numeral(10, 40) == "40";
  }

  /** Header set and order are what the battery was seen to accept; anything else it may reject. */
  lemma HeaderAsCaptured(res: Response, stamp: Stamp)
    requires ValidStamp(stamp) && OneLine(res.contentType)
    ensures
      var p := Parse(Build(res, stamp));
      p.Just? && p.value.fields ==
        if res.code != 200 then
          ReadAll([Field("Date", stamp.date), Field("Content-Length", "0"), Field("Connection", "keep-alive")])
        else if res.contentLength then
          ReadAll([Field("Date", stamp.date), Field("Content-Type", res.contentType),
                   Field("Content-Length", Numeral(10, |res.body|)), Field("Connection", "keep-alive"),
                   Field("vary", "Origin"), Field("Access-Control-Allow-Credentials", "true")])
        else
          ReadAll([Field("Date", stamp.date), Field("Content-Type", res.contentType),
                   Field("Transfer-Encoding", "chunked"), Field("Connection", "keep-alive"),
                   Field("Trace-Id", stamp.traceId)] +
                  if !res.kongHeaders then []
                  else [Field("vary", "Origin"), Field("Access-Control-Allow-Credentials", "true"),
                        Field("X-Kong-Upstream-Latency", "2"), Field("X-Kong-Proxy-Latency", "0"),
                        Field("Via", "1.1 kong/3.9.1"), Field("X-Kong-Request-Id", stamp.kongId),
                        Field("Strict-Transport-Security", "max-age=31536000; includeSubDomains")])
  {
    FramingRoundTrip(res, stamp);
  }

  lemma StatusAsCaptured(res: Response, stamp: Stamp)
    requires ValidStamp(stamp) && OneLine(res.contentType)
    ensures
      var p := Parse(Build(res, stamp));
      && p.Just?
      && (res.code == 200 ==> p.value.status == "HTTP/1.1 " + "200" + " " + "OK")
      && (res.code == 404 ==> p.value.status == "HTTP/1.1 " + "404" + " " + "Not Found")
  {
    FramingRoundTrip(res, stamp);
    PrintedCodes();
  }

  // ---- The append loop ----

  method AppendFields(out: string, fields: seq<Field>) returns (out': string)
    ensures out' == out + Render(fields)
  {
    out' := out;
    for i := 0 to |fields|
      invariant out' + Render(fields[i..]) == out + Render(fields)
    {
      assert fields[i..][1..] == fields[i + 1..];
      out' := out' + fields[i].name + ": " + fields[i].value + CRLF;
    }
  }

  lemma Assemble(status: string, fields: string, payload: string)
    ensures (status + CRLF + fields) + CRLF + payload == status + CRLF + (fields + CRLF + payload)
  {
  }

  method BuildRawResponse(res: Response, stamp: Stamp) returns (out: string)
    ensures out == Build(res, stamp)
  {
    Assemble(StatusLine(res.code), Render(Fields(res, stamp)), Payload(res));
    var status := StatusLine(res.code) + CRLF;
    if res.code != 200 {
      out := AppendFields(status, ErrorFields(stamp));
      out := out + CRLF;
      assert out + "" == out;
      return;
    }
    if res.contentLength {
      out := AppendFields(status, LengthFields(res, stamp));
      out := out + CRLF + res.body;
      return;
    }
    out := AppendFields(status, ChunkedFields(res, stamp));
    out := out + CRLF;
    if res.body == "" {
      out := out + LAST_CHUNK;
      return;
    }
    out := out + (Numeral(16, |res.body|) + CRLF + (res.body + CRLF + LAST_CHUNK));
  }
}
