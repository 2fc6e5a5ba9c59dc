/** DNS messages as sections 4.1 and 4.1.4 of RFC 1035 define them: a decoder, and the encoding of a query. */
module Dns {
  import opened Basics

  type Byte = b: int | 0 <= b < 256

  type Label = seq<Byte>

  const TYPE_A: nat := 1
  const CLASS_IN: nat := 1
  const HEADER_BYTES: nat := 12

  datatype Question = Question(name: seq<Label>, qtype: nat, qclass: nat)

  datatype Record = Record(name: seq<Label>, rtype: nat, rclass: nat, ttl: nat, rdata: seq<Byte>)

  datatype Message = Message(
    id: nat,
    flags: nat,
    questions: seq<Question>,
    answers: seq<Record>,
    authority: seq<Record>,
    additional: seq<Record>)

  function U16(msg: seq<Byte>, pos: nat): (n: nat)
    requires pos + 2 <= |msg|
    ensures n < 0x1_0000
  {
    (msg[pos] as int) * 256 + msg[pos + 1]
  }

  function U32(msg: seq<Byte>, pos: nat): nat
    requires pos + 4 <= |msg|
  {
    U16(msg, pos) * 0x1_0000 + U16(msg, pos + 2)
  }

  /** A name and the position after it. A pointer leads to an earlier name, before `limit`. */
  function DecodeName(msg: seq<Byte>, pos: nat, limit: nat): Maybe<(seq<Label>, nat)>
    decreases limit, |msg| - pos
  {
    if pos >= |msg| then Nothing
    else if msg[pos] == 0 then Just(([], pos + 1))
    else if msg[pos] < 64 then
      var end := pos + 1 + msg[pos];
      if end > |msg| then Nothing
      else
        match DecodeName(msg, end, limit)
        case Nothing => Nothing
        case Just((labels, next)) => Just(([msg[pos + 1..end]] + labels, next))
    else if msg[pos] >= 192 && pos + 2 <= |msg| then
      var target := U16(msg, pos) - 0xC000;
      if target >= limit then Nothing
      else
        match DecodeName(msg, target, target)
        case Nothing => Nothing
        case Just((labels, _)) => Just((labels, pos + 2))
    else Nothing
  }

  function DecodeQuestion(msg: seq<Byte>, pos: nat): Maybe<(Question, nat)> {
    match DecodeName(msg, pos, pos)
    case Nothing => Nothing
    case Just((name, next)) =>
      if next + 4 > |msg| then Nothing
      else Just((Question(name, U16(msg, next), U16(msg, next + 2)), next + 4))
  }

  function DecodeRecord(msg: seq<Byte>, pos: nat): Maybe<(Record, nat)> {
    match DecodeName(msg, pos, pos)
    case Nothing => Nothing
    case Just((name, next)) =>
      if next + 10 > |msg| || next + 10 + U16(msg, next + 8) > |msg| then Nothing
      else
        var end := next + 10 + U16(msg, next + 8);
        Just((Record(name, U16(msg, next), U16(msg, next + 2), U32(msg, next + 4), msg[next + 10..end]), end))
  }

  function DecodeQuestions(msg: seq<Byte>, pos: nat, count: nat): Maybe<(seq<Question>, nat)>
    decreases count
  {
    if count == 0 then Just(([], pos))
    else
      match DecodeQuestion(msg, pos)
      case Nothing => Nothing
      case Just((q, next)) =>
        match DecodeQuestions(msg, next, count - 1)
        case Nothing => Nothing
        case Just((qs, end)) => Just(([q] + qs, end))
  }

  function DecodeRecords(msg: seq<Byte>, pos: nat, count: nat): Maybe<(seq<Record>, nat)>
    decreases count
  {
    if count == 0 then Just(([], pos))
    else
      match DecodeRecord(msg, pos)
      case Nothing => Nothing
      case Just((r, next)) =>
        match DecodeRecords(msg, next, count - 1)
        case Nothing => Nothing
        case Just((rs, end)) => Just(([r] + rs, end))
  }

  /** The whole message, with nothing after its last record. */
  function Decode(msg: seq<Byte>): Maybe<Message> {
    if |msg| < HEADER_BYTES then Nothing
    else
      match DecodeQuestions(msg, HEADER_BYTES, U16(msg, 4))
      case Nothing => Nothing
      case Just((questions, p)) =>
        match DecodeRecords(msg, p, U16(msg, 6))
        case Nothing => Nothing
        case Just((answers, q)) =>
          match DecodeRecords(msg, q, U16(msg, 8))
          case Nothing => Nothing
          case Just((authority, r)) =>
            match DecodeRecords(msg, r, U16(msg, 10))
            case Nothing => Nothing
            case Just((additional, end)) =>
              if end != |msg| then Nothing
              else Just(Message(U16(msg, 0), U16(msg, 2), questions, answers, authority, additional))
  }

  // ---- Encoding ----

  predicate ValidLabel(l: Label) { 0 < |l| < 64 }

  predicate ValidName(name: seq<Label>) { forall i :: 0 <= i < |name| ==> ValidLabel(name[i]) }

  function EncodeName(name: seq<Label>): (wire: seq<Byte>)
    requires ValidName(name)
    ensures |wire| >= 1
  {
    if name == [] then [0] else [|name[0]|] + name[0] + EncodeName(name[1..])
  }
}
