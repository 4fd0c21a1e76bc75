/** The connection loop over a byte stream that arrives in pieces of any size. */
module Framing {
  import opened Basics
  import opened Text
  import opened Wire

  /** A connected descriptor. `incoming` is what the peer will still deliver before it closes
      or falls silent; `splits` decides how much each read or write call moves, and `broken`
      which write calls fail. */
  class Socket {
    var incoming: string
    var outgoing: string
    var calls: nat
    const splits: nat -> nat
    const broken: nat -> bool

    constructor (incoming: string, splits: nat -> nat, broken: nat -> bool)
      ensures this.incoming == incoming && outgoing == "" && this.splits == splits && this.broken == broken
    {
      this.incoming, outgoing, calls := incoming, "", 0;
      this.splits, this.broken := splits, broken;
    }

    /** No write call fails. */
    ghost predicate Sound() {
      forall i: nat :: !broken(i)
    }

    /** How much the next call moves, of `most` bytes: at least one of them. */
    method Portion(most: nat) returns (n: nat)
      modifies `calls
      ensures n <= most && (n == 0 <==> most == 0)
    {
      n := splits(calls);
      calls := calls + 1;
      if n > most { n := most; }
      if n == 0 && most > 0 { n := 1; }
    }

    /** read(2): some of the bytes asked for, in place; none only at the end of the stream. */
    method Read(buffer: array<char>, from: nat, want: nat) returns (n: nat)
      requires from + want <= buffer.Length
      modifies this, buffer
      ensures n <= want && n <= |old(incoming)| && (n == 0 <==> want == 0 || old(incoming) == "")
      ensures incoming == old(incoming)[n..] && outgoing == old(outgoing)
      ensures buffer[..from] == old(buffer[..from]) && buffer[from..from + n] == old(incoming)[..n]
    {
      n := Portion(if want <= |incoming| then want else |incoming|);
      forall i | 0 <= i < n {
        buffer[from + i] := incoming[i];
      }
      incoming := incoming[n..];
    }

    /** write(2): some of the bytes given, or a failure. */
    method Write(text: string) returns (n: int)
      modifies this
      ensures -1 <= n <= |text| && (n == 0 <==> n >= 0 && text == "")
      ensures n < 0 ==> !Sound() && outgoing == old(outgoing)
      ensures n >= 0 ==> outgoing == old(outgoing) + text[..n]
      ensures incoming == old(incoming)
    {
      if broken(calls) {
        calls := calls + 1;
        return -1;
      }
      n := Portion(|text|);
      outgoing := outgoing + text[..n];
    }

    /** readFileDescriptor: exactly `length` bytes, or failure; how the stream is split into
        short reads makes no difference. */
    method ReadExact(buffer: array<char>, length: nat) returns (ok: bool)
      requires length <= buffer.Length
      modifies this, buffer
      ensures ok <==> length <= |old(incoming)|
      ensures ok ==> buffer[..length] == old(incoming)[..length] && incoming == old(incoming)[length..]
      ensures outgoing == old(outgoing)
    {
      var total := 0;
      while total < length
        invariant total <= length && total <= |old(incoming)|
        invariant buffer[..total] == old(incoming)[..total]
        invariant incoming == old(incoming)[total..] && outgoing == old(outgoing)
        decreases length - total
      {
        ghost var before := buffer[..total];
        var n := Read(buffer, total, length - total);
        if n == 0 {
          return false;
        }
        assert buffer[..total + n] == before + buffer[total..total + n];
        total := total + n;
      }
      return true;
    }

    /** writeFileDescriptor: the whole text, or, once a call has failed, a front part of it. */
    method WriteAll(text: string) returns (ok: bool)
      modifies this
      ensures ok ==> outgoing == old(outgoing) + text
      ensures !ok ==> !Sound() && exists k: nat :: k < |text| && outgoing == old(outgoing) + text[..k]
      ensures incoming == old(incoming)
    {
      var total := 0;
      assert text[..0] == "" && old(outgoing) + "" == old(outgoing);
      while total < |text|
        invariant total <= |text|
        invariant outgoing == old(outgoing) + text[..total] && incoming == old(incoming)
        decreases |text| - total
      {
        var n := Write(text[total..]);
        if n < 0 {
          return false;
        }
        assert text[..total] + text[total..][..n] == text[..total + n];
        Assoc(old(outgoing), text[..total], text[total..][..n]);
        total := total + n;
      }
      assert text[..total] == text;
      return true;
    }
  }

  /** What a backend makes of a request: its new state, the reply, and whether to go on. */
  type Handler<!S> = (S, Message) -> (S, Reply, bool)

  /** A reply the client can make out: it fits its header and its data has no NUL. */
  predicate Audible(r: Reply) {
    ReplyFits(r) && '\0' !in r.data
  }

  predicate AllAudible(rs: seq<Reply>) {
    forall i :: 0 <= i < |rs| ==> Audible(rs[i])
  }

  const FORMAT_REPLY: Reply := ReplyOf(Error(DEFAULT_TXN_ID, ERROR_SEQ_NUM, InvalidMessageFormat))

  /** generateResponse as text; a header that would not fit is not produced here. */
  function Speak(r: Reply): string {
    if ReplyFits(r) then EncodeReply(r) else ""
  }

  /** What the connection loop does with a whole byte stream. */
  function Serving<S>(handle: Handler<S>, s: S, bytes: string): (S, string)
    decreases |bytes|
  {
    if |bytes| < REQUEST_HEADER_LEN then (s, "")
    else
      var header, rest := bytes[..REQUEST_HEADER_LEN], bytes[REQUEST_HEADER_LEN..];
      var n := ContentLength(header);
      if n < 0 then (s, Speak(FORMAT_REPLY))
      else if |rest| < n then (s, "")
      else
        var m := DecodeRequest(header, rest[..n]);
        if m.None? then (s, "")
        else
          var (s', reply, more) := handle(s, m.value);
          if !more then (s', Speak(reply))
          else
            var (s'', text) := Serving(handle, s', rest[n..]);
            (s'', Speak(reply) + text)
  }

  /** The do/while loop of a connection, for any split of the stream into reads and writes. A
      reply that cannot be written does not stop it: the backend still does everything. */
  method ServeConnection<S>(socket: Socket, handle: Handler<S>, s0: S) returns (s: S, intact: bool)
    requires socket.outgoing == ""
    modifies socket
    ensures s == Serving(handle, s0, old(socket.incoming)).0
    ensures intact ==> socket.outgoing == Serving(handle, s0, old(socket.incoming)).1
    ensures socket.Sound() ==> intact
  {
    hide ContentLength, DecodeRequest, Speak;
    s, intact := s0, true;
    ghost var all := Serving(handle, s0, socket.incoming);
    assert "" + all.1 == all.1;
    var inProgress := true;
    while inProgress
      invariant inProgress ==>
                  var (end, text) := Serving(handle, s, socket.incoming);
                  all.0 == end && (intact ==> all.1 == socket.outgoing + text)
      invariant !inProgress ==> all.0 == s && (intact ==> all.1 == socket.outgoing)
      invariant socket.Sound() ==> intact
      decreases inProgress, |socket.incoming|
    {
      ghost var bytes := socket.incoming;
      ghost var spoken := socket.outgoing;
      assert spoken + "" == spoken;
      var header := new char[REQUEST_HEADER_LEN];
      var ok := socket.ReadExact(header, REQUEST_HEADER_LEN);
      if !ok { break; }
      assert header[..] == header[..REQUEST_HEADER_LEN];
      var n := ContentLength(header[..]);
      if n < 0 {
        inProgress := false;
        ok := socket.WriteAll(Speak(FORMAT_REPLY));
        intact := intact && ok;
      } else {
        var payload := new char[n];
        ok := socket.ReadExact(payload, n);
        if !ok { break; }
        assert payload[..] == payload[..n];
        AcceptedIsDecoded(header[..], payload[..]);
        var m := DecodeRequest(header[..], payload[..]);
        var (s', reply, more) := handle(s, m.value);
        ok := socket.WriteAll(Speak(reply));
        if more { Assoc(spoken, Speak(reply), Serving(handle, s', socket.incoming).1); }
        s, inProgress, intact := s', more, intact && ok;
      }
    }
  }

  lemma AcceptedIsDecoded(header: string, payload: string)
    requires ContentLength(header) >= 0
    ensures DecodeRequest(header, payload).Some?
  {
    AcceptedIsExtracted(header);
  }

  // ---------------------------------------------------------------- any bytes whatever

  /** A header outside the format is refused, whatever the handler, the state and the bytes after
      it: nothing is handled and the connection ends. */
  lemma MalformedIsRefused<S>(handle: Handler<S>, s: S, bytes: string)
    requires |bytes| >= 64
    requires var header := CString(bytes[..64]); |header| != 64 || !Matches(header, [true, true, false])
    ensures var r := Reply("ERROR", -1, -1, 199, "InvalidMessageFormat");
            ReplyFits(r) && Serving(handle, s, bytes) == (s, EncodeReply(r))
  {
    var r := Reply("ERROR", -1, -1, 199, "InvalidMessageFormat");
    assert ReplyOf(Error(DEFAULT_TXN_ID, ERROR_SEQ_NUM, InvalidMessageFormat)) == r;
    AnswersFit(Error(DEFAULT_TXN_ID, ERROR_SEQ_NUM, InvalidMessageFormat));
    ScanIsFormat(CString(bytes[..64]), REQUEST_SIGNS);
    hide CString, Scan, Matches, Extract, EncodeReply, ReplyFits, ReplyOf;
  }

  /** A stream that ends inside a header is dropped. */
  lemma ShortHeaderIsDropped<S>(handle: Handler<S>, s: S, bytes: string)
    requires |bytes| < 64
    ensures Serving(handle, s, bytes) == (s, "")
  {
  }

  /** A header in the format, as its fields: a command, an id, a number and a length. */
  ghost predicate HeaderOf(header: string, command: string, id: string, n: string, length: string) {
    && IsCommand(command) && IsField(id, true) && IsField(n, true) && IsNumber(length) && |header| == 64
    && exists pad :: IsPadding(pad) && header == command + Spaced([id, n, length], pad)
  }

  lemma HeaderIsRead(header: string, command: string, id: string, n: string, length: string)
    requires HeaderOf(header, command, id, n, length)
    ensures IsRequestHeader(header) && ContentLength(header) == Value(length)
    ensures forall payload :: DecodeRequest(header, payload) == Some(Message(command, Number(id), Number(n), CString(payload)))
  {
    var pad :| IsPadding(pad) && header == command + Spaced([id, n, length], pad);
    ThreeFields(header, command, id, n, length, pad);
    hide CString, Scan, Matches, Extract, IsCommand, Spaced, IsField, Number, IsPadding, Value, IsRequestHeader;
  }

  lemma ThreeFields(header: string, command: string, id: string, n: string, length: string, pad: string)
    requires IsCommand(command) && IsField(id, true) && IsField(n, true) && IsNumber(length) && |header| == 64 && IsPadding(pad)
    requires header == command + Spaced([id, n, length], pad)
    ensures IsRequestHeader(header) && Extract(header, 3) == Some(Header(command, [Number(id), Number(n), Value(length)]))
  {
    var fields := [id, n, length];
    assert FieldsFit(fields, REQUEST_SIGNS);
    ThreeNumbers(id, n, length);
    hide CString, Scan, Matches, Extract, IsCommand, IsField, Number, IsPadding, Value, IsNumber, IsRequestHeader;
    SpacedIsInFormat(command, fields, pad, REQUEST_SIGNS);
    HeaderSays(command, fields, pad);
    InFormat(header);
  }

  lemma InFormat(header: string)
    requires |header| == 64 && Matches(header, REQUEST_SIGNS) && '\0' !in header
    ensures IsRequestHeader(header)
  {
    ScanIsFormat(header, REQUEST_SIGNS);
    CStringIff(header);
    hide CString, Scan, Matches;
  }

  lemma ThreeNumbers(id: string, n: string, length: string)
    requires IsField(id, true) && IsField(n, true) && IsNumber(length)
    ensures AllFields([id, n, length]) && Numbers([id, n, length]) == [Number(id), Number(n), Value(length)]
  {
    assert Number(length) == Value(length);
    hide Value, IsNumber, Number, IsField;
    assert [length][1..] == [] && [n, length][1..] == [length] && [id, n, length][1..] == [n, length];
    assert Numbers([length]) == [Number(length)];
    assert Numbers([n, length]) == [Number(n)] + Numbers([length]);
    assert Numbers([id, n, length]) == [Number(id)] + Numbers([n, length]);
  }

  /** A request in the format is handled as its fields say, however they are written, once its
      payload is there; the rest of the stream comes after it, or is never looked at. */
  lemma AcceptedIsServed<S>(handle: Handler<S>, s: S, header: string, command: string, id: string, n: string, length: string,
      payload: string, tail: string)
    requires HeaderOf(header, command, id, n, length) && |payload| == Value(length)
    ensures var (s', reply, more) := handle(s, Message(command, Number(id), Number(n), CString(payload)));
            Serving(handle, s, header + payload + tail)
            == if more then (Serving(handle, s', tail).0, Speak(reply) + Serving(handle, s', tail).1) else (s', Speak(reply))
  {
    HeaderIsRead(header, command, id, n, length);
    hide ContentLength, DecodeRequest, HeaderOf, Speak, Number, IsRequestHeader, Value, CString;
    Peel(header, payload, tail);
  }

  /** A stream that ends inside a payload is dropped. */
  lemma ShortPayloadIsDropped<S>(handle: Handler<S>, s: S, header: string, command: string, id: string, n: string, length: string,
      payload: string)
    requires HeaderOf(header, command, id, n, length) && |payload| < Value(length)
    ensures Serving(handle, s, header + payload) == (s, "")
  {
    HeaderIsRead(header, command, id, n, length);
    assert (header + payload)[..64] == header && (header + payload)[64..] == payload;
    hide ContentLength, DecodeRequest, HeaderOf, IsRequestHeader, Value;
  }

  // ---------------------------------------------------------------- conversations

  /** A request that can be sent: it fits its header and its data has no NUL. */
  predicate Sendable(m: Message) {
    RequestFits(m) && '\0' !in m.data
  }

  predicate AllSendable(ms: seq<Message>) {
    forall i :: 0 <= i < |ms| ==> Sendable(ms[i])
  }

  /** Requests sent back to back. */
  function EncodeAll(ms: seq<Message>): string
    requires AllSendable(ms)
  {
    if ms == [] then "" else EncodeRequest(ms[0]) + EncodeAll(ms[1..])
  }

  function SpeakAll(rs: seq<Reply>): string {
    if rs == [] then "" else Speak(rs[0]) + SpeakAll(rs[1..])
  }

  /** The requests handled one by one: the final state, one reply each up to and including the
      first that stops the connection, and whether none did. */
  function Converse<S>(handle: Handler<S>, s: S, ms: seq<Message>): (S, seq<Reply>, bool)
    decreases |ms|
  {
    if ms == [] then (s, [], true)
    else
      var (s', reply, more) := handle(s, ms[0]);
      if !more then (s', [reply], false)
      else
        var (s'', replies, on) := Converse(handle, s', ms[1..]);
        (s'', [reply] + replies, on)
  }

  /** The handler's state before request i, were none to stop the connection. */
  function StateAt<S>(handle: Handler<S>, s: S, ms: seq<Message>, i: nat): S
    requires i <= |ms|
  {
    if i == 0 then s else StateAt(handle, handle(s, ms[0]).0, ms[1..], i - 1)
  }

  /** One reply per request, in order: reply i answers request i in the state the requests
      before it left; all but the last of a stopped conversation let it go on. */
  lemma {:induction false} OneReplyEach<S>(handle: Handler<S>, s: S, ms: seq<Message>, i: nat)
    requires i < |Converse(handle, s, ms).1|
    ensures var (end, replies, on) := Converse(handle, s, ms);
            && |replies| <= |ms| && (on ==> |replies| == |ms|)
            && replies[i] == handle(StateAt(handle, s, ms, i), ms[i]).1
            && (handle(StateAt(handle, s, ms, i), ms[i]).2 <==> on || i + 1 < |replies|)
            && end == StateAt(handle, s, ms, |replies|)
    decreases |ms|
  {
    var (s', reply, more) := handle(s, ms[0]);
    if more {
      var rest := Converse(handle, s', ms[1..]);
      if rest.1 != [] {
        OneReplyEach(handle, s', ms[1..], if i == 0 then 0 else i - 1);
      }
    }
  }

  lemma ServeOne<S>(handle: Handler<S>, s: S, m: Message, tail: string)
    requires Sendable(m)
    ensures var (s', reply, more) := handle(s, m); var rest := Serving(handle, s', tail);
            Serving(handle, s, EncodeRequest(m) + tail) == if more then (rest.0, Speak(reply) + rest.1) else (s', Speak(reply))
  {
    hide ContentLength, DecodeRequest, EncodeRequest, Speak, Sendable;
    var header := RequestParts(m);
    Peel(header, m.data, tail);
  }

  lemma RequestParts(m: Message) returns (header: string)
    requires Sendable(m)
    ensures EncodeRequest(m) == header + m.data && |header| == REQUEST_HEADER_LEN
    ensures ContentLength(header) == |m.data| && DecodeRequest(header, m.data) == Some(m)
  {
    RequestRoundTrip(m);
    hide ContentLength, DecodeRequest, EncodeRequest, IsRequestHeader, RequestFits;
    var text := EncodeRequest(m);
    header := text[..REQUEST_HEADER_LEN];
    assert text == header + text[REQUEST_HEADER_LEN..];
  }

  lemma Peel(header: string, data: string, tail: string)
    ensures var bytes := header + data + tail;
            && bytes[..|header|] == header && bytes[|header|..] == data + tail
            && (data + tail)[..|data|] == data && (data + tail)[|data|..] == tail
  {
  }

  lemma ReplyParts(r: Reply) returns (header: string)
    requires Audible(r)
    ensures Speak(r) == header + r.data && |header| == RESPONSE_HEADER_LEN && IsResponseHeader(header)
    ensures ReplyLength(header) == |r.data| && DecodeReply(header, r.data) == Some(r)
  {
    ReplyRoundTrip(r);
    hide ReplyLength, DecodeReply, EncodeReply, IsResponseHeader, ReplyFits;
    var text := EncodeReply(r);
    header := text[..RESPONSE_HEADER_LEN];
    assert text == header + text[RESPONSE_HEADER_LEN..];
  }

  /** Framing: the loop hears exactly the requests that were sent, in order, whatever follows
      them in the stream, and answers each once, up to and including the first that stops it. */
  lemma {:induction false} RequestsAreHeard<S>(handle: Handler<S>, s: S, ms: seq<Message>, tail: string)
    requires AllSendable(ms)
    ensures var (s', replies, on) := Converse(handle, s, ms); var rest := Serving(handle, s', tail);
            Serving(handle, s, EncodeAll(ms) + tail) == if on then (rest.0, SpeakAll(replies) + rest.1) else (s', SpeakAll(replies))
    decreases |ms|
  {
    hide Serving, EncodeRequest, Speak, RequestFits;
    if ms == [] {
      assert EncodeAll(ms) + tail == tail;
      assert SpeakAll([]) + Serving(handle, s, tail).1 == Serving(handle, s, tail).1;
    } else {
      var (s', reply, more) := handle(s, ms[0]);
      Assoc(EncodeRequest(ms[0]), EncodeAll(ms[1..]), tail);
      ServeOne(handle, s, ms[0], EncodeAll(ms[1..]) + tail);
      RequestsAreHeard(handle, s', ms[1..], tail);
      var (end, replies, on) := Converse(handle, s', ms[1..]);
      SpeakCons(reply, replies);
      Assoc(Speak(reply), SpeakAll(replies), Serving(handle, end, tail).1);
      SpeakCons(reply, []);
      assert Speak(reply) + SpeakAll([]) == Speak(reply);
    }
  }

  lemma SpeakCons(r: Reply, rs: seq<Reply>)
    ensures SpeakAll([r] + rs) == Speak(r) + SpeakAll(rs)
  {
    assert ([r] + rs)[1..] == rs;
  }

  // ---------------------------------------------------------------- the client's side

  /** getResponse: one reply and what is left of the stream. */
  function HearReply(bytes: string): Option<(Reply, string)> {
    if |bytes| < RESPONSE_HEADER_LEN then None
    else
      var header, rest := bytes[..RESPONSE_HEADER_LEN], bytes[RESPONSE_HEADER_LEN..];
      var n := ReplyLength(header);
      if !IsResponseHeader(header) || n < 0 || |rest| < n then None
      else
        match DecodeReply(header, rest[..n])
        case None => None
        case Some(r) => Some((r, rest[n..]))
  }

  /** The client makes nothing out of a reply outside the format. */
  lemma MalformedReplyIsUnheard(bytes: string)
    requires |bytes| < 128 || (var header := CString(bytes[..128]); |header| != 128 || !Matches(header, [true, true, false, false]))
    ensures HearReply(bytes) == None
  {
    if |bytes| >= 128 { ScanIsFormat(CString(bytes[..128]), RESPONSE_SIGNS); }
    hide CString, Scan, Matches, Extract;
  }

  function HearReplies(bytes: string, n: nat): Option<seq<Reply>>
    decreases n
  {
    if n == 0 then Some([])
    else
      match HearReply(bytes)
      case None => None
      case Some((r, rest)) =>
        match HearReplies(rest, n - 1)
        case None => None
        case Some(rs) => Some([r] + rs)
  }

  lemma HearOne(r: Reply, tail: string)
    requires Audible(r)
    ensures HearReply(Speak(r) + tail) == Some((r, tail))
  {
    hide ReplyLength, DecodeReply, Speak, IsResponseHeader, ReplyFits;
    var header := ReplyParts(r);
    Peel(header, r.data, tail);
  }

  /** The client hears exactly the replies that were spoken. */
  lemma {:induction false} RepliesAreHeard(rs: seq<Reply>, tail: string)
    requires AllAudible(rs)
    ensures HearReplies(SpeakAll(rs) + tail, |rs|) == Some(rs)
    decreases |rs|
  {
    hide HearReply, Speak, ReplyFits;
    if rs != [] {
      HearOne(rs[0], SpeakAll(rs[1..]) + tail);
      Assoc(Speak(rs[0]), SpeakAll(rs[1..]), tail);
      RepliesAreHeard(rs[1..], tail);
      assert [rs[0]] + rs[1..] == rs;
    }
  }

  /** End to end: requests sent back to back over a stream cut anywhere leave the backend as if
      handled one by one, and the client hears one reply for each, in order. */
  lemma ConversationEndToEnd<S>(handle: Handler<S>, s: S, ms: seq<Message>)
    requires AllSendable(ms) && AllAudible(Converse(handle, s, ms).1)
    ensures var (end, text) := Serving(handle, s, EncodeAll(ms)); var (end', replies, on) := Converse(handle, s, ms);
            end == end' && HearReplies(text, |replies|) == Some(replies)
  {
    var (end', replies, on) := Converse(handle, s, ms);
    RequestsAreHeard(handle, s, ms, "");
    assert EncodeAll(ms) + "" == EncodeAll(ms);
    assert Serving(handle, end', "") == (end', "");
    assert SpeakAll(replies) + "" == SpeakAll(replies);
    RepliesAreHeard(replies, "");
  }
}
