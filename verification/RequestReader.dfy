/** Reading one request from a connection that delivers it in pieces of any size. */
module RequestReader {
  import opened Basics
  import opened Text

  const MAX_HEADER_BYTES: nat := 2048
  const CHUNK_BYTES: nat := 512
  const BLANK_LINE := "\r\n\r\n"

  /** What one attempt to read brings. A deadline found to have passed counts as one. */
  datatype Read = Data(bytes: string) | WantIo | Closed | Expired

  datatype Request = Request(method_: string, url: string, body: string, bodyComplete: bool)

  function Take(s: string, n: nat): string { s[..Min(n, |s|)] }

  // ---- The header block ----

  /** A line with this header name starts at `pos`. */
  predicate NamedAt(headers: string, name: string, pos: nat) {
    && pos + |name| < |headers|
    && (pos == 0 || headers[pos - 1] == '\n')
    && SameIgnoringCase(headers[pos..pos + |name|], name)
    && headers[pos + |name|] == ':'
  }

  function SkipBlanks(s: string, pos: nat): (k: nat)
    requires pos <= |s|
    ensures pos <= k <= |s|
    decreases |s| - pos
  {
    if pos < |s| && (s[pos] == ' ' || s[pos] == '\t') then SkipBlanks(s, pos + 1) else pos
  }

  function ValueFrom(headers: string, pos: nat): string
    requires pos <= |headers|
  {
    var value := SkipBlanks(headers, pos);
    headers[value..Find(headers, "\r", value)]
  }

  /** The value of the first line with this name. */
  function HeaderFrom(headers: string, name: string, pos: nat): Maybe<string>
    decreases |headers| - pos
  {
    if pos + |name| >= |headers| then Nothing
    else if NamedAt(headers, name, pos) then Just(ValueFrom(headers, pos + |name| + 1))
    else HeaderFrom(headers, name, pos + 1)
  }

  method HeaderValue(headers: string, name: string) returns (value: Maybe<string>)
    ensures value == HeaderFrom(headers, name, 0)
  {
    var pos := 0;
    while pos + |name| < |headers|
      invariant 0 <= pos && HeaderFrom(headers, name, 0) == HeaderFrom(headers, name, pos)
      decreases |headers| - pos
    {
      if (pos == 0 || headers[pos - 1] == '\n') && SameIgnoringCase(headers[pos..pos + |name|], name)
         && headers[pos + |name|] == ':' {
        var start := pos + |name| + 1;
        var begin := start;
        while begin < |headers| && (headers[begin] == ' ' || headers[begin] == '\t')
          invariant start <= begin <= |headers| && SkipBlanks(headers, start) == SkipBlanks(headers, begin)
        {
          begin := begin + 1;
        }
        return Just(headers[begin..Find(headers, "\r", begin)]);
      }
      pos := pos + 1;
    }
    return Nothing;
  }

  const ULONG_MAX: nat := 0xFFFF_FFFF

  predicate IsSpace(c: char) { c == ' ' || '\t' <= c <= '\r' }

  predicate IsDigit(c: char) { '0' <= c <= '9' }

  /** The digits at the front, read as a number. */
  function Digits(s: string, sum: nat): nat {
    if s == "" || !IsDigit(s[0]) then sum else Digits(s[1..], 10 * sum + (s[0] as int - '0' as int))
  }

  /** strtoul with base 10 where `unsigned long` has 32 bits: blanks, a sign, digits, saturation. */
  function ParseLength(s: string): (n: nat)
    ensures n <= ULONG_MAX
  {
    if s == "" then 0
    else if IsSpace(s[0]) then ParseLength(s[1..])
    else
      var negative := s[0] == '-';
      var n := Digits(if negative || s[0] == '+' then s[1..] else s, 0);
      if n > ULONG_MAX then ULONG_MAX else if negative && n > 0 then ULONG_MAX + 1 - n else n
  }

  /** What the header block says: the request line, and how the body is framed. */
  datatype Head = Head(method_: string, url: string, framing: Framing)

  datatype Framing = Length(bytes: nat) | Unsupported

  function FramingOf(headers: string): Framing {
    match HeaderFrom(headers, "Content-Length", 0)
    case Just(value) => Length(ParseLength(value))
    case Nothing => if HeaderFrom(headers, "Transfer-Encoding", 0).Just? then Unsupported else Length(0)
  }

  function RequestLine(headers: string): string { headers[..Find(headers, "\r\n", 0)] }

  /** Method and target without its query, or Nothing without a space after the method. */
  function ParseLine(line: string): Maybe<(string, string)> {
    var methodEnd := Find(line, " ", 0);
    if methodEnd == |line| then Nothing
    else
      var target := line[methodEnd + 1..Find(line, " ", methodEnd + 1)];
      Just((line[..methodEnd], target[..Find(target, "?", 0)]))
  }

  function ParseHead(headers: string): Maybe<Head> {
    match ParseLine(RequestLine(headers))
    case Nothing => Nothing
    case Just((method_, url)) => Just(Head(method_, url, FramingOf(headers)))
  }

  // ---- Reading ----

  /** Reads up to the blank line: the bytes so far and the arrivals that are left. */
  function ReadHead(buffer: string, arrivals: seq<Read>): Maybe<(string, seq<Read>)>
    decreases arrivals
  {
    if arrivals == [] then Nothing
    else
      match arrivals[0]
      case Data(bytes) =>
        var more := buffer + bytes;
        if bytes == "" then Nothing
        else if Has(more, BLANK_LINE) then Just((more, arrivals[1..]))
        else if |more| > MAX_HEADER_BYTES then Nothing
        else ReadHead(more, arrivals[1..])
      case WantIo => ReadHead(buffer, arrivals[1..])
      case _ => Nothing
  }

  /** Reads until `length` bytes of the body have arrived, keeping at most `maxBody` of them. */
  function ReadBody(body: string, received: nat, length: nat, maxBody: nat, arrivals: seq<Read>): Maybe<string>
    requires |body| <= maxBody
    decreases arrivals
  {
    if received >= length then Just(body)
    else if arrivals == [] then Nothing
    else
      match arrivals[0]
      case Data(bytes) =>
        if bytes == "" then Nothing
        else ReadBody(body + Take(bytes, maxBody - |body|), received + |bytes|, length, maxBody, arrivals[1..])
      case WantIo => ReadBody(body, received, length, maxBody, arrivals[1..])
      case _ => Nothing
  }

  /** The request after its header block, of whose body `early` has already arrived. */
  function ReceiveBody(head: Maybe<Head>, early: string, arrivals: seq<Read>, maxBody: nat): Maybe<Request> {
    match head
    case Nothing => Nothing
    case Just(Head(method_, url, Unsupported)) => Just(Request(method_, url, "", false))
    case Just(Head(method_, url, Length(length))) =>
      match ReadBody(Take(early, maxBody), |early|, length, maxBody, arrivals)
      case Nothing => Nothing
      case Just(body) => Just(Request(method_, url, body, length <= maxBody))
  }

  /** What follows the header block in the buffer is the start of the body. */
  function AfterHeader(buffer: string): string { buffer[Min(Find(buffer, BLANK_LINE, 0) + 4, |buffer|)..] }

  function HeaderBlock(buffer: string): string { buffer[..Find(buffer, BLANK_LINE, 0)] }

  function Receive(arrivals: seq<Read>, maxBody: nat): Maybe<Request> {
    match ReadHead("", arrivals)
    case Nothing => Nothing
    case Just((buffer, rest)) => ReceiveBody(ParseHead(HeaderBlock(buffer)), AfterHeader(buffer), rest, maxBody)
  }

  method ReadRequest(arrivals: seq<Read>, maxBody: nat) returns (request: Maybe<Request>)
    ensures request == Receive(arrivals, maxBody)
  {
    var buffer, found, next := ReadUpToBlankLine(arrivals);
    if !found { return Nothing; }
    FindIsFirst(buffer, BLANK_LINE, 0);
    var headerEnd := Find(buffer, BLANK_LINE, 0);
    var head := ParseHead(buffer[..headerEnd]);
    if head.Nothing? { return Nothing; }
    if head.value.framing.Unsupported? { return Just(Request(head.value.method_, head.value.url, "", false)); }
    var length := head.value.framing.bytes;
    var received := |buffer| - (headerEnd + 4);
    var body := Take(buffer[headerEnd + 4..], maxBody);
    assert AfterHeader(buffer) == buffer[headerEnd + 4..];
    var all := ReadRestOfBody(body, received, length, maxBody, arrivals[next..]);
    if all.Nothing? { return Nothing; }
    return Just(Request(head.value.method_, head.value.url, all.value, length <= maxBody));
  }

  method ReadUpToBlankLine(arrivals: seq<Read>) returns (buffer: string, found: bool, next: nat)
    ensures next <= |arrivals|
    ensures ReadHead("", arrivals) == if found then Just((buffer, arrivals[next..])) else Nothing
    ensures found ==> Has(buffer, BLANK_LINE)
  {
    buffer, found, next := "", false, 0;
    assert arrivals[0..] == arrivals;
    while !found
      invariant next <= |arrivals|
      invariant ReadHead("", arrivals) == if found then Just((buffer, arrivals[next..])) else ReadHead(buffer, arrivals[next..])
      invariant found ==> Has(buffer, BLANK_LINE)
      decreases |arrivals| - next, !found
    {
      if next == |arrivals| { return; }
      var read := arrivals[next];
      next := next + 1;
      assert arrivals[next - 1..][1..] == arrivals[next..];
      match read {
        case WantIo =>
        case Data(bytes) =>
          if bytes == "" { return; }
          buffer := buffer + bytes;
          found := Has(buffer, BLANK_LINE);
          if !found && |buffer| > MAX_HEADER_BYTES { return; }
        case _ => return;
      }
    }
  }

  method ReadRestOfBody(start: string, before: nat, length: nat, maxBody: nat, arrivals: seq<Read>)
    returns (result: Maybe<string>)
    requires |start| <= maxBody
    ensures result == ReadBody(start, before, length, maxBody, arrivals)
  {
    var body := start;
    var received: nat, next: nat := before, 0;
    assert arrivals[0..] == arrivals;
    while received < length
      invariant next <= |arrivals| && |body| <= maxBody
      invariant ReadBody(start, before, length, maxBody, arrivals) == ReadBody(body, received, length, maxBody, arrivals[next..])
      decreases |arrivals| - next
    {
      if next == |arrivals| { return Nothing; }
      var read := arrivals[next];
      next := next + 1;
      assert arrivals[next - 1..][1..] == arrivals[next..];
      match read {
        case WantIo =>
        case Data(bytes) =>
          if bytes == "" { return Nothing; }
          ghost var kept := body;
          if |body| < maxBody {
            body := body + bytes[..Min(|bytes|, maxBody - |body|)];
          }
          assert body == kept + Take(bytes, maxBody - |kept|);
          received := received + |bytes|;
        case _ => return Nothing;
      }
    }
    return Just(body);
  }

  // ---- Fragmentation does not matter ----

  /** Only data and attempts that found none yet; no piece is empty or longer than a chunk. */
  predicate Benign(arrivals: seq<Read>) {
    forall i :: 0 <= i < |arrivals| ==>
      arrivals[i].WantIo? || (arrivals[i].Data? && 0 < |arrivals[i].bytes| <= CHUNK_BYTES)
  }

  function Bytes(r: Read): string { if r.Data? then r.bytes else "" }

  function Stream(arrivals: seq<Read>): string {
    if arrivals == [] then ""
    else Bytes(arrivals[0]) + Stream(arrivals[1..])
  }

  function Whole(head: Maybe<Head>, sent: string, maxBody: nat): Maybe<Request> {
    match head
    case Nothing => Nothing
    case Just(Head(method_, url, Unsupported)) => Just(Request(method_, url, "", false))
    case Just(Head(method_, url, Length(length))) => Just(Request(method_, url, Take(sent, maxBody), length <= maxBody))
  }

  /** What the bytes say, however they are cut. */
  function Parse(stream: string, maxBody: nat): Maybe<Request> {
    Whole(ParseHead(HeaderBlock(stream)), AfterHeader(stream), maxBody)
  }

  predicate Announces(head: Maybe<Head>, length: nat) { head.Just? && head.value.framing == Length(length) }

  /** The header block ends within the limit. */
  predicate HeaderFits(stream: string) {
    Has(stream, BLANK_LINE) && Find(stream, BLANK_LINE, 0) + 3 <= MAX_HEADER_BYTES
  }

  /** After the header block come exactly as many bytes as it announces. */
  predicate BodyIsWhole(stream: string) {
    var head := ParseHead(HeaderBlock(stream));
    head.Just? && head.value.framing.Length? ==> |AfterHeader(stream)| == head.value.framing.bytes
  }

  lemma Regroup(a: string, b: string, c: string)
    ensures a + (b + c) == (a + b) + c
    ensures ((a + b) + c)[..|a + b|] == a + b
  {
  }

  /** One more read moves bytes from the arrivals to the buffer. */
  lemma StreamMoves(stream: string, buffer: string, arrivals: seq<Read>)
    requires arrivals != [] && stream == buffer + Stream(arrivals)
    ensures
      var more := buffer + Bytes(arrivals[0]);
      stream == more + Stream(arrivals[1..]) && |more| <= |stream| && stream[..|more|] == more
  {
    Regroup(buffer, Bytes(arrivals[0]), Stream(arrivals[1..]));
  }

  /** Reading the header block stops with a prefix of the stream that includes it. */
  lemma {:induction false} HeadIsFound(stream: string, buffer: string, arrivals: seq<Read>)
    requires HeaderFits(stream) && Benign(arrivals) && stream == buffer + Stream(arrivals)
    requires |buffer| < Find(stream, BLANK_LINE, 0) + 4
    ensures
      var end := Find(stream, BLANK_LINE, 0);
      match ReadHead(buffer, arrivals)
      case Nothing => false
      case Just((b, rest)) => Benign(rest) && stream == b + Stream(rest) && end + 4 <= |b| && Find(b, BLANK_LINE, 0) == end
    decreases arrivals
  {
    FindIsFirst(stream, BLANK_LINE, 0);
    assert arrivals != [];
    StreamMoves(stream, buffer, arrivals);
    if arrivals[0].Data? {
      var more := buffer + arrivals[0].bytes;
      FindInPrefix(stream, BLANK_LINE, |more|);
      if !Has(more, BLANK_LINE) {
        HeadIsFound(stream, more, arrivals[1..]);
      }
    } else {
      HeadIsFound(stream, buffer, arrivals[1..]);
    }
  }

  lemma TakeTwice(a: string, b: string, n: nat)
    ensures Take(Take(a, n) + Take(b, n - |Take(a, n)|), n) == Take(a + b, n)
    ensures Take(a, n) + Take(b, n - |Take(a, n)|) == Take(a + b, n)
  {
  }

  /** Reading the body stops when all of it is there, with its first `maxBody` bytes. */
  lemma {:induction false} BodyIsRead(soFar: string, length: nat, maxBody: nat, arrivals: seq<Read>)
    requires Benign(arrivals) && |soFar| + |Stream(arrivals)| == length
    ensures ReadBody(Take(soFar, maxBody), |soFar|, length, maxBody, arrivals) ==
            Just(Take(soFar + Stream(arrivals), maxBody))
    decreases arrivals
  {
    if |soFar| >= length {
      assert soFar + Stream(arrivals) == soFar;
    } else if arrivals[0].Data? {
      var bytes := arrivals[0].bytes;
      TakeTwice(soFar, bytes, maxBody);
      BodyIsRead(soFar + bytes, length, maxBody, arrivals[1..]);
      assert (soFar + bytes) + Stream(arrivals[1..]) == soFar + Stream(arrivals);
    } else {
      assert Stream(arrivals) == Stream(arrivals[1..]);
      BodyIsRead(soFar, length, maxBody, arrivals[1..]);
    }
  }

  lemma BodyIsIndependent(head: Maybe<Head>, early: string, arrivals: seq<Read>, maxBody: nat)
    requires Benign(arrivals)
    requires head.Just? && head.value.framing.Length? ==> |early| + |Stream(arrivals)| == head.value.framing.bytes
    ensures ReceiveBody(head, early, arrivals, maxBody) == Whole(head, early + Stream(arrivals), maxBody)
  {
    if head.Just? && head.value.framing.Length? {
      BodyIsRead(early, head.value.framing.bytes, maxBody, arrivals);
    }
  }

  lemma PrefixSlices(buffer: string, rest: string, end: nat)
    requires end + 4 <= |buffer|
    ensures (buffer + rest)[..end] == buffer[..end] && (buffer + rest)[end + 4..] == buffer[end + 4..] + rest
  {
  }

  /** A prefix that includes the header block. */
  lemma PrefixParts(stream: string, buffer: string, rest: string)
    requires stream == buffer + rest && Find(stream, BLANK_LINE, 0) + 4 <= |buffer|
    requires Find(buffer, BLANK_LINE, 0) == Find(stream, BLANK_LINE, 0)
    ensures HeaderBlock(buffer) == HeaderBlock(stream) && AfterHeader(buffer) + rest == AfterHeader(stream)
  {
    PrefixSlices(buffer, rest, Find(stream, BLANK_LINE, 0));
  }

  /** Once the header block is read, the rest is read as announced. */
  lemma RestIsRead(stream: string, buffer: string, rest: seq<Read>, maxBody: nat)
    requires Benign(rest) && stream == buffer + Stream(rest) && BodyIsWhole(stream)
    requires Find(stream, BLANK_LINE, 0) + 4 <= |buffer| && Find(buffer, BLANK_LINE, 0) == Find(stream, BLANK_LINE, 0)
    ensures ReceiveBody(ParseHead(HeaderBlock(buffer)), AfterHeader(buffer), rest, maxBody) == Parse(stream, maxBody)
  {
    PrefixParts(stream, buffer, Stream(rest));
    BodyIsIndependent(ParseHead(HeaderBlock(stream)), AfterHeader(buffer), rest, maxBody);
  }

  lemma ReceiveContinues(arrivals: seq<Read>, buffer: string, rest: seq<Read>, maxBody: nat)
    requires ReadHead("", arrivals) == Just((buffer, rest))
    ensures Receive(arrivals, maxBody) ==
            ReceiveBody(ParseHead(HeaderBlock(buffer)), AfterHeader(buffer), rest, maxBody)
  {
  }

  /**
   * A request whose header block fits and whose body has the announced length is read the same way however it is
   * cut into pieces, with any number of waits between them.
   */
  lemma FragmentationIndependent(arrivals: seq<Read>, maxBody: nat)
    requires Benign(arrivals) && HeaderFits(Stream(arrivals)) && BodyIsWhole(Stream(arrivals))
    ensures Receive(arrivals, maxBody) == Parse(Stream(arrivals), maxBody)
  {
    var stream := Stream(arrivals);
    assert "" + stream == stream;
    HeadIsFound(stream, "", arrivals);
    var (buffer, rest) := ReadHead("", arrivals).value;
    RestIsRead(stream, buffer, rest, maxBody);
    ReceiveContinues(arrivals, buffer, rest, maxBody);
  }

  /** The body is what was announced, up to the limit; it counts as complete exactly when nothing was cut. */
  lemma BodyIsAnnounced(arrivals: seq<Read>, maxBody: nat, length: nat)
    requires Benign(arrivals) && HeaderFits(Stream(arrivals)) && BodyIsWhole(Stream(arrivals))
    requires Announces(ParseHead(HeaderBlock(Stream(arrivals))), length)
    ensures
      var sent := AfterHeader(Stream(arrivals));
      var request := Receive(arrivals, maxBody);
      && |sent| == length && request.Just?
      && request.value.body == sent[..Min(length, maxBody)]
      && (request.value.bodyComplete <==> request.value.body == sent)
  {
    FragmentationIndependent(arrivals, maxBody);
  }

  // ---- Header blocks over the limit ----

  lemma {:induction false} PrefixLacks(s: string, w: string, n: nat)
    requires n <= |s| && w != "" && (Has(s, w) ==> Find(s, w, 0) + |w| > n)
    ensures Find(s[..n], w, 0) == n
  {
    if Has(s, w) {
      FindInPrefix(s, w, n);
    } else {
      FindIsFirst(s, w, 0);
      FindIsFirst(s[..n], w, 0);
      AtInPrefix(s, w, n, Find(s[..n], w, 0));
    }
  }

  /** A header block that does not end within the limit and one more chunk is refused, however it is cut. */
  lemma {:induction false} LongHeaderIsRefused(stream: string, buffer: string, arrivals: seq<Read>)
    requires Benign(arrivals) && stream == buffer + Stream(arrivals) && |buffer| <= MAX_HEADER_BYTES
    requires Has(stream, BLANK_LINE) ==> Find(stream, BLANK_LINE, 0) + 4 > 2048 + 512
    ensures ReadHead(buffer, arrivals) == Nothing
    decreases arrivals
  {
    if arrivals != [] {
      StreamMoves(stream, buffer, arrivals);
      if arrivals[0].Data? {
        var more := buffer + arrivals[0].bytes;
        PrefixLacks(stream, BLANK_LINE, |more|);
        if |more| <= MAX_HEADER_BYTES {
          LongHeaderIsRefused(stream, more, arrivals[1..]);
        }
      } else {
        LongHeaderIsRefused(stream, buffer, arrivals[1..]);
      }
    }
  }

  /** The text in full chunks, the last one shorter. */
  function Chop(s: string): seq<Read>
    decreases |s|
  {
    if s == "" then []
    else if |s| <= CHUNK_BYTES then [Data(s)]
    else [Data(s[..CHUNK_BYTES])] + Chop(s[CHUNK_BYTES..])
  }

  lemma {:induction false} ChopIsBenign(s: string)
    ensures Benign(Chop(s)) && Stream(Chop(s)) == s
    decreases |s|
  {
    if |s| > CHUNK_BYTES {
      ChopIsBenign(s[CHUNK_BYTES..]);
      assert Chop(s)[1..] == Chop(s[CHUNK_BYTES..]);
      assert s == s[..CHUNK_BYTES] + s[CHUNK_BYTES..];
    } else if s != "" {
      assert Stream(Chop(s)) == s + Stream(Chop(s)[1..]);
      assert s + "" == s;
    }
  }

  /** The header block ends beyond the limit, but within one more chunk. */
  predicate HeaderStraddles(stream: string) {
    && Has(stream, BLANK_LINE)
    && Find(stream, BLANK_LINE, 0) + 3 > 2048
    && Find(stream, BLANK_LINE, 0) + 4 <= 2048 + 512
  }

  lemma ChopFrom(s: string, from: nat)
    requires from < |s|
    ensures
      var to := Min(from + CHUNK_BYTES, |s|);
      Chop(s[from..]) == [Data(s[from..to])] + Chop(s[to..])
  {
    var to := Min(from + CHUNK_BYTES, |s|);
    if from + CHUNK_BYTES < |s| {
      assert s[from..][..CHUNK_BYTES] == s[from..to] && s[from..][CHUNK_BYTES..] == s[to..];
    } else {
      assert s[from..to] == s[from..] && s[to..] == "";
    }
  }

  lemma ReadOne(buffer: string, bytes: string, rest: seq<Read>)
    requires bytes != ""
    ensures
      var more := buffer + bytes;
      ReadHead(buffer, [Data(bytes)] + rest) ==
        if Has(more, BLANK_LINE) then Just((more, rest))
        else if |more| > MAX_HEADER_BYTES then Nothing
        else ReadHead(more, rest)
  {
    assert ([Data(bytes)] + rest)[1..] == rest;
  }

  /** What reading one piece of the stream leads to. */
  lemma ReadPiece(stream: string, from: nat, to: nat, rest: seq<Read>)
    requires Has(stream, BLANK_LINE) && from < to <= |stream|
    ensures
      ReadHead(stream[..from], [Data(stream[from..to])] + rest) ==
        if Find(stream, BLANK_LINE, 0) + 4 <= to then Just((stream[..to], rest))
        else if to > MAX_HEADER_BYTES then Nothing
        else ReadHead(stream[..to], rest)
  {
    FindIsFirst(stream, BLANK_LINE, 0);
    FindInPrefix(stream, BLANK_LINE, to);
    assert stream[..from] + stream[from..to] == stream[..to];
    ReadOne(stream[..from], stream[from..to], rest);
  }

  /** Reading a chopped stream from `from` on. */
  function ReadFrom(stream: string, from: nat): Maybe<(string, seq<Read>)>
    requires from <= |stream|
  {
    ReadHead(stream[..from], Chop(stream[from..]))
  }

  lemma ReadChunk(stream: string, from: nat)
    requires Has(stream, BLANK_LINE) && from < |stream|
    ensures
      var to := Min(from + CHUNK_BYTES, |stream|);
      ReadFrom(stream, from) ==
        if Find(stream, BLANK_LINE, 0) + 4 <= to then Just((stream[..to], Chop(stream[to..])))
        else if to > MAX_HEADER_BYTES then Nothing
        else ReadFrom(stream, to)
  {
    var to := Min(from + CHUNK_BYTES, |stream|);
    ChopFrom(stream, from);
    ReadPiece(stream, from, to, Chop(stream[to..]));
  }

  lemma StraddlingIsLong(stream: string)
    requires HeaderStraddles(stream)
    ensures |stream| >= Find(stream, BLANK_LINE, 0) + 4
  {
    FindIsFirst(stream, BLANK_LINE, 0);
  }

  /** Full chunks end exactly at the limit, which is not yet too much; the next chunk brings the blank line. */
  lemma {:induction false} FullChunksAreAccepted(stream: string, k: nat)
    requires HeaderStraddles(stream) && k <= 4
    ensures |stream| >= Find(stream, BLANK_LINE, 0) + 4
    ensures
      var to := Min(MAX_HEADER_BYTES + CHUNK_BYTES, |stream|);
      ReadFrom(stream, 512 * k) == Just((stream[..to], Chop(stream[to..])))
    decreases 4 - k
  {
    StraddlingIsLong(stream);
    ReadChunk(stream, 512 * k);
    if k < 4 {
      FullChunksAreAccepted(stream, k + 1);
    }
  }

  /** One byte first, and the chunks pass the limit before the blank line is complete. */
  lemma {:induction false} ShiftedChunksAreRefused(stream: string, k: nat)
    requires HeaderStraddles(stream) && k <= 3
    ensures |stream| >= Find(stream, BLANK_LINE, 0) + 4 && ReadFrom(stream, 512 * k + 1) == Nothing
    decreases 3 - k
  {
    StraddlingIsLong(stream);
    ReadChunk(stream, 512 * k + 1);
    if k < 3 {
      ShiftedChunksAreRefused(stream, k + 1);
    }
  }

  lemma TwoParts(s: string, n: nat)
    requires n <= |s|
    ensures s == s[..n] + s[n..]
  {
  }

  lemma ChoppedIsRead(stream: string, maxBody: nat)
    requires HeaderStraddles(stream) && BodyIsWhole(stream)
    ensures Receive(Chop(stream), maxBody) == Parse(stream, maxBody)
  {
    var to := Min(MAX_HEADER_BYTES + CHUNK_BYTES, |stream|);
    var buffer, rest := stream[..to], Chop(stream[to..]);
    FullChunksAreAccepted(stream, 0);
    assert stream[..0] == "" && stream[0..] == stream;
    ChopIsBenign(stream[to..]);
    TwoParts(stream, to);
    FindInPrefix(stream, BLANK_LINE, to);
    RestIsRead(stream, buffer, rest, maxBody);
    ReceiveContinues(Chop(stream), buffer, rest, maxBody);
  }

  /**
   * Between the two the answer depends on the cuts: the same bytes are read in full chunks and refused when one byte
   * comes first. So exactly the blocks that fit, and those too long by more than a chunk, are read independently.
   */
  lemma LongHeaderDependsOnCuts(stream: string, maxBody: nat)
    requires HeaderStraddles(stream) && BodyIsWhole(stream)
    ensures
      var whole, shifted := Chop(stream), [Data(stream[..1])] + Chop(stream[1..]);
      && Benign(whole) && Stream(whole) == stream && Receive(whole, maxBody) == Parse(stream, maxBody)
      && Benign(shifted) && Stream(shifted) == stream && Receive(shifted, maxBody) == Nothing
  {
    ChopIsBenign(stream);
    ChoppedIsRead(stream, maxBody);
    OneByteFirst(stream);
  }

  lemma OneByteFirst(stream: string)
    requires HeaderStraddles(stream)
    ensures
      var shifted := [Data(stream[..1])] + Chop(stream[1..]);
      Benign(shifted) && Stream(shifted) == stream && ReadHead("", shifted) == Nothing
  {
    ShiftedChunksAreRefused(stream, 0);
    ChopIsBenign(stream[1..]);
    TwoParts(stream, 1);
    var shifted := [Data(stream[..1])] + Chop(stream[1..]);
    assert shifted[1..] == Chop(stream[1..]);
    assert stream[..0] == "" && stream[0..1] == stream[..1];
    ReadPiece(stream, 0, 1, Chop(stream[1..]));
  }
}
