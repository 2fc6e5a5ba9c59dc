/** The captive DNS server: it parses a request and turns it into the reply in the same buffer. */
module DnsResponder {
  import opened Basics
  import opened Dns

  const BUFFER_BYTES: nat := 192
  const ANSWER_BYTES: nat := 16
  const ANSWER_TTL: nat := 300

  type Ip = a: seq<Byte> | |a| == 4 witness [0, 0, 0, 0]

  /** What of a datagram arrives in the buffer. */
  function Received(datagram: seq<Byte>): (data: seq<Byte>)
    ensures |data| <= BUFFER_BYTES
  {
    datagram[..Min(|datagram|, BUFFER_BYTES)]
  }

  /** The position after the name at `pos`, which has no pointers. */
  function NameEnd(data: seq<Byte>, pos: nat): (end: Maybe<nat>)
    ensures end.Just? ==> pos < end.value <= |data|
    decreases |data| - pos
  {
    if pos >= |data| then Nothing
    else if data[pos] == 0 then Just(pos + 1)
    else if data[pos] > 63 || pos + data[pos] + 1 > |data| then Nothing
    else NameEnd(data, pos + data[pos] + 1)
  }

  /** Sixteen bytes: a pointer to the question's name, type, class, time to live, length and address. */
  function Answer(ip: Ip): (a: seq<Byte>)
    ensures |a| == ANSWER_BYTES
  {
    [0xC0, 12, 0, TYPE_A, 0, CLASS_IN, 0, 0, ANSWER_TTL / 256, ANSWER_TTL % 256, 0, 4] + ip
  }

  predicate IsStandardQuery(data: seq<Byte>) {
    |data| > HEADER_BYTES && U16(data, 2) / 0x800 == 0 && U16(data, 4) == 1
  }

  predicate AsksForAddress(data: seq<Byte>, end: nat) {
    end + 4 <= |data| && U16(data, end) == TYPE_A && U16(data, end + 2) == CLASS_IN
  }

  function ReplyBytes(ip: Ip, data: seq<Byte>, end: nat): seq<Byte>
    requires HEADER_BYTES <= end && end + 4 <= |data|
  {
    data[..2] + [0x84, 0] + data[4..6] + [0, 1] + data[8..end + 4] + Answer(ip)
  }

  /** The reply to the received bytes, if there is one. */
  function Respond(ip: Ip, data: seq<Byte>): Maybe<seq<Byte>> {
    if !IsStandardQuery(data) then Nothing
    else
      match NameEnd(data, HEADER_BYTES)
      case Nothing => Nothing
      case Just(end) =>
        if !AsksForAddress(data, end) || end + 4 + ANSWER_BYTES > BUFFER_BYTES then Nothing
        else Just(ReplyBytes(ip, data, end))
  }

  /** The reply, byte by byte. */
  lemma ReplyLayout(ip: Ip, data: seq<Byte>, end: nat, msg: seq<Byte>)
    requires HEADER_BYTES <= end && end + 4 <= |data| && |msg| == end + 4 + ANSWER_BYTES
    requires msg[2] == 0x84 && msg[3] == 0 && msg[6] == 0 && msg[7] == 1
    requires forall i :: 0 <= i < end + 4 && !(2 <= i < 4) && !(6 <= i < 8) ==> msg[i] == data[i]
    requires msg[end + 4..] == Answer(ip)
    ensures msg == ReplyBytes(ip, data, end)
  {
    var reply := ReplyBytes(ip, data, end);
    ReplyAt(ip, data, end);
    forall i | 0 <= i < |msg| ensures msg[i] == reply[i] {
      if i >= end + 4 { assert msg[i] == msg[end + 4..][i - end - 4] && reply[i] == reply[end + 4..][i - end - 4]; }
    }
  }

  class DnsServer {
    const serverIp: Ip
    const buffer: array<Byte>

    predicate Valid() { buffer.Length == BUFFER_BYTES }

    constructor (ip: Ip)
      ensures Valid() && serverIp == ip && fresh(buffer)
    {
      serverIp := ip;
      buffer := new Byte[BUFFER_BYTES];
    }

    /** Copies what fits of the datagram. */
    method Receive(datagram: seq<Byte>) returns (len: nat)
      requires Valid()
      modifies buffer
      ensures len == |Received(datagram)| && buffer[..len] == Received(datagram)
    {
      len := Min(|datagram|, buffer.Length);
      for i := 0 to len
        invariant buffer[..i] == datagram[..i]
      {
        buffer[i] := datagram[i];
      }
    }

    method SkipName(len: nat) returns (end: Maybe<nat>)
      requires Valid() && HEADER_BYTES < len <= buffer.Length
      ensures end == NameEnd(buffer[..len], HEADER_BYTES)
    {
      var ptr := HEADER_BYTES;
      ghost var data := buffer[..len];
      while ptr < len && buffer[ptr] != 0
        invariant HEADER_BYTES <= ptr <= len
        invariant NameEnd(data, HEADER_BYTES) == NameEnd(data, ptr)
        decreases len - ptr
      {
        var labelLen := buffer[ptr];
        assert labelLen == data[ptr];
        if labelLen > 63 { return Nothing; }
        if ptr + labelLen + 1 > len { return Nothing; }
        ptr := ptr + labelLen + 1;
      }
      if ptr >= len { return Nothing; }
      assert data[ptr] == 0;
      return Just(ptr + 1);
    }

    /** Stores a number in network byte order. */
    method Put16(pos: nat, value: nat)
      requires Valid() && pos + 2 <= buffer.Length && value < 0x1_0000
      modifies buffer
      ensures buffer[pos] == value / 256 && buffer[pos + 1] == value % 256
      ensures forall i :: 0 <= i < buffer.Length && i != pos && i != pos + 1 ==> buffer[i] == old(buffer[i])
    {
      buffer[pos] := value / 256;
      buffer[pos + 1] := value % 256;
    }

    function Get16(pos: nat): nat
      requires Valid() && pos + 2 <= buffer.Length
      reads buffer
    {
      (buffer[pos] as int) * 256 + buffer[pos + 1]
    }

    /** Marks the header as an authoritative response with one answer. */
    method SetReplyHeader()
      requires Valid()
      modifies buffer
      ensures buffer[2] == 0x84 && buffer[3] == 0 && buffer[6] == 0 && buffer[7] == 1
      ensures forall i :: 0 <= i < buffer.Length && !(2 <= i < 4) && !(6 <= i < 8) ==> buffer[i] == old(buffer[i])
    {
      Put16(2, 0x8400);
      Put16(6, 1);
    }

    method PutAnswerHead(pos: nat)
      requires Valid() && pos + 6 <= buffer.Length
      modifies buffer
      ensures buffer[pos..pos + 6] == [0xC0, 12, 0, TYPE_A, 0, CLASS_IN]
      ensures forall i :: 0 <= i < buffer.Length && !(pos <= i < pos + 6) ==> buffer[i] == old(buffer[i])
    {
      Put16(pos, 0xC000 + HEADER_BYTES);
      Put16(pos + 2, TYPE_A);
      Put16(pos + 4, CLASS_IN);
    }

    method PutAnswerTail(pos: nat)
      requires Valid() && pos + 10 <= buffer.Length
      modifies buffer
      ensures buffer[pos..pos + 10] == [0, 0, ANSWER_TTL / 256, ANSWER_TTL % 256, 0, 4] + serverIp
      ensures forall i :: 0 <= i < buffer.Length && !(pos <= i < pos + 10) ==> buffer[i] == old(buffer[i])
    {
      Put16(pos, 0);
      Put16(pos + 2, ANSWER_TTL);
      Put16(pos + 4, 4);
      buffer[pos + 6], buffer[pos + 7], buffer[pos + 8], buffer[pos + 9] :=
        serverIp[0], serverIp[1], serverIp[2], serverIp[3];
    }

    /** Turns the request in the buffer into its reply. */
    method BuildReply(len: nat, end: nat) returns (replyLen: nat)
      requires Valid() && len <= buffer.Length && HEADER_BYTES <= end && end + 4 <= len
      requires end + 4 + ANSWER_BYTES <= buffer.Length
      modifies buffer
      ensures replyLen <= buffer.Length
      ensures buffer[..replyLen] == ReplyBytes(serverIp, old(buffer[..len]), end)
    {
      var offset := end + 4;
      SetReplyHeader();
      PutAnswerHead(offset);
      PutAnswerTail(offset + 6);
      replyLen := offset + ANSWER_BYTES;
      assert buffer[offset..offset + 6] == [0xC0, 12, 0, TYPE_A, 0, CLASS_IN];
      assert buffer[offset..replyLen] == buffer[offset..offset + 6] + buffer[offset + 6..replyLen];
      ReplyLayout(serverIp, old(buffer[..len]), end, buffer[..replyLen]);
    }

    /** What the server sends for a datagram depends on nothing but the bytes received now. */
    method ProcessNextRequest(datagram: seq<Byte>) returns (reply: Maybe<seq<Byte>>)
      requires Valid()
      modifies buffer
      ensures reply == Respond(serverIp, Received(datagram))
      ensures reply.Just? ==> |reply.value| <= BUFFER_BYTES
    {
      var len := Receive(datagram);
      ghost var data := buffer[..len];
      if len < HEADER_BYTES + 1 { return Nothing; }
      if Get16(2) / 0x800 != 0 || Get16(4) != 1 { return Nothing; }
      var found := SkipName(len);
      if found.Nothing? { return Nothing; }
      var end := found.value;
      if end + 4 > len { return Nothing; }
      if Get16(end) != TYPE_A || Get16(end + 2) != CLASS_IN { return Nothing; }
      if end + 4 + ANSWER_BYTES > buffer.Length {
        SetReplyHeader();
        return Nothing;
      }
      var replyLen := BuildReply(len, end);
      return Just(buffer[..replyLen]);
    }
  }

  // ---- The reply is a reply ----

  /** Two messages that agree up to the end of a name decode it alike. */
  lemma {:induction false} NameDecodesAlike(data: seq<Byte>, msg: seq<Byte>, pos: nat, limit: nat)
    requires NameEnd(data, pos).Just? && NameEnd(data, pos).value <= |msg|
    requires forall i :: pos <= i < NameEnd(data, pos).value ==> data[i] == msg[i]
    ensures DecodeName(msg, pos, limit) == DecodeName(data, pos, limit)
    ensures DecodeName(msg, pos, limit).Just? && DecodeName(msg, pos, limit).value.1 == NameEnd(data, pos).value
    decreases |data| - pos
  {
    if data[pos] != 0 {
      var end := pos + 1 + data[pos];
      NameDecodesAlike(data, msg, end, limit);
      assert data[pos + 1..end] == msg[pos + 1..end];
    }
  }

  lemma ReplyAt(ip: Ip, data: seq<Byte>, end: nat)
    requires HEADER_BYTES <= end && end + 4 <= |data|
    ensures
      var msg := ReplyBytes(ip, data, end);
      && |msg| == end + 4 + ANSWER_BYTES
      && U16(msg, 0) == U16(data, 0) && U16(msg, 2) == 0x8400 && U16(msg, 4) == U16(data, 4)
      && U16(msg, 6) == 1 && U16(msg, 8) == U16(data, 8) && U16(msg, 10) == U16(data, 10)
      && (forall i :: HEADER_BYTES <= i < end + 4 ==> msg[i] == data[i])
      && msg[end + 4..] == Answer(ip)
  {
  }

  /** The question the reply is about. */
  lemma ReplyQuestion(ip: Ip, data: seq<Byte>, end: nat)
    requires NameEnd(data, HEADER_BYTES) == Just(end) && AsksForAddress(data, end)
    ensures
      var msg := ReplyBytes(ip, data, end);
      && DecodeQuestion(msg, HEADER_BYTES) == DecodeQuestion(data, HEADER_BYTES)
      && DecodeQuestion(data, HEADER_BYTES).Just?
      && DecodeQuestion(data, HEADER_BYTES).value ==
         (Question(DecodeName(data, HEADER_BYTES, HEADER_BYTES).value.0, TYPE_A, CLASS_IN), end + 4)
  {
    var msg := ReplyBytes(ip, data, end);
    ReplyAt(ip, data, end);
    NameDecodesAlike(data, msg, HEADER_BYTES, HEADER_BYTES);
    assert U16(msg, end) == U16(data, end) && U16(msg, end + 2) == U16(data, end + 2);
  }

  lemma AnswerFields(ip: Ip, msg: seq<Byte>, pos: nat)
    requires pos + ANSWER_BYTES == |msg| && msg[pos..] == Answer(ip)
    ensures U16(msg, pos) == 0xC000 + HEADER_BYTES && msg[pos] == 0xC0
    ensures U16(msg, pos + 2) == TYPE_A && U16(msg, pos + 4) == CLASS_IN && U32(msg, pos + 6) == ANSWER_TTL
    ensures U16(msg, pos + 10) == 4 && msg[pos + 12..pos + 16] == ip
  {
    assert forall i :: 0 <= i < ANSWER_BYTES ==> msg[pos..][i] == msg[pos + i];
    assert msg[pos..][12..16] == msg[pos + 12..pos + 16];
  }

  /** The answer record: the name of the question by a pointer, and the address. */
  lemma ReplyRecord(ip: Ip, data: seq<Byte>, end: nat)
    requires NameEnd(data, HEADER_BYTES) == Just(end) && AsksForAddress(data, end)
    ensures
      var msg := ReplyBytes(ip, data, end);
      var name := DecodeName(data, HEADER_BYTES, HEADER_BYTES);
      var size: nat := |msg|;
      name.Just? && DecodeRecord(msg, end + 4) == Just((Record(name.value.0, TYPE_A, CLASS_IN, ANSWER_TTL, ip), size))
  {
    var msg := ReplyBytes(ip, data, end);
    ReplyAt(ip, data, end);
    NameDecodesAlike(data, msg, HEADER_BYTES, HEADER_BYTES);
    AnswerFields(ip, msg, end + 4);
  }

  /**
   * A reply to a request without authority and additional records decodes as: the request's id and question, marked
   * as an authoritative response, and one record with the server's address for the question's name.
   */
  lemma ReplyDecodes(ip: Ip, data: seq<Byte>)
    requires Respond(ip, data).Just? && U16(data, 8) == 0 && U16(data, 10) == 0
    ensures
      var question := DecodeQuestion(data, HEADER_BYTES);
      question.Just? &&
      var q := question.value.0;
      q.qtype == 1 && q.qclass == 1 &&
      Decode(Respond(ip, data).value) ==
        Just(Message(U16(data, 0), 0x8400, [q], [Record(q.name, 1, 1, 300, ip)], [], []))
  {
    var end := NameEnd(data, HEADER_BYTES).value;
    var msg := ReplyBytes(ip, data, end);
    ReplyAt(ip, data, end);
    ReplyQuestion(ip, data, end);
    ReplyRecord(ip, data, end);
    var (q, next) := DecodeQuestion(msg, HEADER_BYTES).value;
    var (r, last) := DecodeRecord(msg, next).value;
    OneQuestion(msg, HEADER_BYTES, q, next);
    OneRecord(msg, next, r, last);
    WholeMessage(msg, q, next, r, last);
  }

  lemma NothingAfterTheEnd(msg: seq<Byte>, last: nat, count: nat)
    requires last == |msg| && count > 0
    ensures DecodeRecords(msg, last, count) == Nothing
  {
    assert DecodeName(msg, last, last) == Nothing;
    assert DecodeRecord(msg, last) == Nothing;
  }

  /**
   * The counts of authority and additional records are copied from the request, the records are not: a reply can
   * be decoded exactly when the request has neither.
   */
  lemma ReplyDecodesExactly(ip: Ip, data: seq<Byte>)
    requires Respond(ip, data).Just?
    ensures Decode(Respond(ip, data).value).Just? <==> U16(data, 8) == 0 && U16(data, 10) == 0
  {
    var end := NameEnd(data, HEADER_BYTES).value;
    var msg := ReplyBytes(ip, data, end);
    ReplyAt(ip, data, end);
    if U16(data, 8) == 0 && U16(data, 10) == 0 {
      ReplyDecodes(ip, data);
    } else {
      ReplyQuestion(ip, data, end);
      ReplyRecord(ip, data, end);
      var (q, next) := DecodeQuestion(msg, HEADER_BYTES).value;
      var (r, last) := DecodeRecord(msg, next).value;
      OneQuestion(msg, HEADER_BYTES, q, next);
      OneRecord(msg, next, r, last);
      if U16(msg, 8) > 0 { NothingAfterTheEnd(msg, last, U16(msg, 8)); } else { NothingAfterTheEnd(msg, last, U16(msg, 10)); }
    }
  }

  lemma OneQuestion(msg: seq<Byte>, pos: nat, q: Question, next: nat)
    requires DecodeQuestion(msg, pos) == Just((q, next))
    ensures DecodeQuestions(msg, pos, 1) == Just(([q], next))
  {
    var none: seq<Question> := [];
    assert DecodeQuestions(msg, next, 0) == Just((none, next)) && [q] + none == [q];
  }

  lemma OneRecord(msg: seq<Byte>, pos: nat, r: Record, next: nat)
    requires DecodeRecord(msg, pos) == Just((r, next))
    ensures DecodeRecords(msg, pos, 1) == Just(([r], next)) && DecodeRecords(msg, next, 0) == Just(([], next))
  {
    var none: seq<Record> := [];
    assert DecodeRecords(msg, next, 0) == Just((none, next)) && [r] + none == [r];
  }

  lemma WholeMessage(msg: seq<Byte>, q: Question, next: nat, r: Record, last: nat)
    requires last == |msg| >= HEADER_BYTES && U16(msg, 4) == 1 && U16(msg, 6) == 1 && U16(msg, 8) == 0 && U16(msg, 10) == 0
    requires DecodeQuestions(msg, HEADER_BYTES, 1) == Just(([q], next))
    requires DecodeRecords(msg, next, 1) == Just(([r], last)) && DecodeRecords(msg, last, 0) == Just(([], last))
    ensures Decode(msg) == Just(Message(U16(msg, 0), U16(msg, 2), [q], [r], [], []))
  {
  }

  // ---- Which queries are answered ----

  /** A datagram that asks for the address of `name`: any id, query flags and record counts, anything after it. */
  function Query(head: seq<Byte>, name: seq<Label>, more: seq<Byte>): seq<Byte>
    requires ValidName(name) && |head| == HEADER_BYTES
  {
    head + EncodeName(name) + [0, TYPE_A, 0, CLASS_IN] + more
  }

  predicate QueryHead(head: seq<Byte>) {
    |head| == HEADER_BYTES && U16(head, 2) / 0x800 == 0 && U16(head, 4) == 1
  }

  lemma {:induction false} EncodedNameEnds(before: seq<Byte>, name: seq<Label>, after: seq<Byte>)
    requires ValidName(name)
    ensures NameEnd(before + EncodeName(name) + after, |before|) == Just(|before| + |EncodeName(name)|)
    decreases |name|
  {
    var data := before + EncodeName(name) + after;
    if name == [] {
      assert data[|before|] == 0;
    } else {
      assert ValidLabel(name[0]);
      var first := [|name[0]|] + name[0];
      EncodedNameEnds(before + first, name[1..], after);
      assert data == (before + first) + EncodeName(name[1..]) + after;
      assert data[|before|] == |name[0]|;
    }
  }

  /** If the name ends within a prefix, it ends there in the whole too. */
  lemma {:induction false} NameEndsInPrefix(data: seq<Byte>, n: nat, pos: nat)
    requires n <= |data|
    ensures NameEnd(data[..n], pos).Just? ==> NameEnd(data, pos) == NameEnd(data[..n], pos)
    ensures NameEnd(data, pos).Just? && NameEnd(data, pos).value <= n ==> NameEnd(data[..n], pos) == NameEnd(data, pos)
    decreases |data| - pos
  {
    if pos < n && data[pos] != 0 && data[pos] <= 63 && pos + data[pos] + 1 <= |data| {
      NameEndsInPrefix(data, n, pos + data[pos] + 1);
    }
  }

  /** A query for an address is answered exactly when the name takes at most 160 bytes. */
  lemma AnswersExactlyShortNames(ip: Ip, head: seq<Byte>, name: seq<Label>, more: seq<Byte>)
    requires ValidName(name) && QueryHead(head)
    ensures Respond(ip, Received(Query(head, name, more))).Just? <==> |EncodeName(name)| <= 160
  {
    var whole := Query(head, name, more);
    var data := Received(whole);
    var end := HEADER_BYTES + |EncodeName(name)|;
    var tail := [0, TYPE_A, 0, CLASS_IN] + more;
    assert whole == head + EncodeName(name) + tail;
    EncodedNameEnds(head, name, tail);
    NameEndsInPrefix(whole, |data|, HEADER_BYTES);
    assert data[..HEADER_BYTES] == head;
    assert U16(data, 2) == U16(head, 2) && U16(data, 4) == U16(head, 4);
    if |EncodeName(name)| <= 160 {
      assert whole[end..end + 4] == [0, TYPE_A, 0, CLASS_IN];
      assert data[end] == whole[end] && data[end + 1] == whole[end + 1];
      assert data[end + 2] == whole[end + 2] && data[end + 3] == whole[end + 3];
    }
  }
}
