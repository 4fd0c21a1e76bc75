/** The server as a function: one request in one state, with what the operating system answers,
    and a whole conversation over a connection. */
module Requests {
  import opened Basics
  import opened Transactions
  import opened Stores
  import opened Effects
  import opened Wire
  import opened Framing

  /** What one request meets: the time, the id NEW_TXN draws, whether files can be opened and
      read, and the results of the write(2) calls. */
  datatype Outside = Outside(now: Time, drawn: TxnId, canOpen: bool, canRead: bool, calls: seq<int>)

  /** The state after a request, the reply, and whether the connection goes on. */
  function Process(st: Store, m: Message, o: Outside): (Store, Reply, bool)
    requires IndexOk(st) && o.drawn !in st.live
  {
    if m.command == "READ" then
      var reply := ReadReply(st, m, o);
      (st, reply, reply.command == "ACK")
    else
      var (st', resp) := Handle(st, m, o);
      (st', ReplyOf(resp), !resp.Error? && m.command != "ABORT")
  }

  /** READ gives the whole file, as a C string. */
  function ReadReply(st: Store, m: Message, o: Outside): Reply {
    if m.data !in st.files || !o.canOpen then ReplyOf(Error(m.id, m.seqNum, ErrorOpeningFile))
    else if !o.canRead then ReplyOf(Error(m.id, m.seqNum, ErrorReadingFile))
    else Reply("ACK", m.id, m.seqNum, 0, CString(st.files[m.data]))
  }

  function Handle(st: Store, m: Message, o: Outside): (r: (Store, Response))
    requires IndexOk(st) && o.drawn !in st.live
    ensures !r.1.Silent?
  {
    if m.command == "NEW_TXN" then
      if m.seqNum != INITIAL_SEQ_NUM then (st, Error(m.id, m.seqNum, InvalidSequenceNumber))
      else (NewEffect(st, o.drawn, m.data, o.now), Ack(o.drawn, INITIAL_SEQ_NUM))
    else if m.command == "WRITE" then WriteEffect(st, m.id, m.seqNum, m.data, o.now)
    else if m.command == "COMMIT" then CommitEffect(st, m.id, m.seqNum, o.now, DiskFor(st, m, o))
    else if m.command == "ABORT" then AbortEffect(st, m.id, m.seqNum)
    else (st, Error(m.id, m.seqNum, InvalidCommand))
  }

  /** How the disk answers a COMMIT that gets that far. */
  function DiskFor(st: Store, m: Message, o: Outside): Disk {
    if m.id in st.live && CommitBody(st.live[m.id], m.id, m.seqNum, o.now).1 == None
    then DiskOf(st.live[m.id].buffers, m.seqNum, o.canOpen, o.calls)
    else NoOpen
  }

  lemma ProcessKeepsIndex(st: Store, m: Message, o: Outside)
    requires IndexOk(st) && o.drawn !in st.live
    ensures IndexOk(Process(st, m, o).0)
  {
    hide IndexOk, NewEffect, WriteEffect, CommitEffect, AbortEffect, DiskFor, ErrorText, ErrorNumber;
    NewKeepsIndex(st, o.drawn, m.data, o.now);
    WriteKeepsIndex(st, m.id, m.seqNum, m.data, o.now);
    CommitKeepsIndex(st, m.id, m.seqNum, o.now, DiskFor(st, m, o));
    AbortKeepsIndex(st, m.id, m.seqNum);
  }

  /** The connection goes on, after a commit too, unless the reply is an error or the request was
      an ABORT, even one that succeeds. */
  lemma GoesOnIff(st: Store, m: Message, o: Outside)
    requires IndexOk(st) && o.drawn !in st.live
    ensures Process(st, m, o).2 <==> Process(st, m, o).1.command != "ERROR" && m.command != "ABORT"
  {
    hide IndexOk, ErrorText, ErrorNumber, CString, NewEffect, WriteEffect, CommitEffect, AbortEffect;
    assert |"ACK"| == 3 && |"ASK_RESEND"| == 10 && |"ERROR"| == 5;
  }

  /** At most one transaction more. */
  lemma ProcessAddsOne(st: Store, m: Message, o: Outside)
    requires IndexOk(st) && o.drawn !in st.live
    ensures Process(st, m, o).0.live.Keys <= st.live.Keys + {o.drawn}
  {
    hide IndexOk, ErrorText, ErrorNumber;
  }

  /** Every answer to a sendable request can be made out, while ids and file sizes are ints. */
  lemma AnswerIsAudible(st: Store, m: Message, o: Outside)
    requires IndexOk(st) && o.drawn !in st.live && Sendable(m)
    requires m.command == "NEW_TXN" ==> IsInt(o.drawn)
    requires m.command == "READ" ==> IsInt(FileSize(st.files, m.data))
    ensures Audible(Process(st, m, o).1)
  {
    hide IndexOk, ReplyOf, ReplyFits;
    if m.command == "READ" {
      SendableInts(m);
      AnswersFit(Error(m.id, m.seqNum, ErrorOpeningFile));
      AnswersFit(Error(m.id, m.seqNum, ErrorReadingFile));
      if m.data in st.files { ContentFits(m, st.files[m.data]); }
    } else {
      HandledInts(st, m, o);
      hide Handle;
      AnswersFit(Handle(st, m, o).1);
    }
  }

  lemma SendableInts(m: Message)
    requires Sendable(m)
    ensures IsInt(m.id) && IsInt(m.seqNum)
  {
    var h := RequestHeader(m);
    assert IsInt(h.numbers[0]) && IsInt(h.numbers[1]);
  }

  lemma HandledInts(st: Store, m: Message, o: Outside)
    requires IndexOk(st) && o.drawn !in st.live && Sendable(m) && (m.command == "NEW_TXN" ==> IsInt(o.drawn))
    ensures IntResponse(Handle(st, m, o).1)
  {
    SendableInts(m);
    hide IndexOk, Sendable, NewEffect, Committed, RolledBack, DiskFor;
  }

  lemma ContentFits(m: Message, data: Data)
    requires Sendable(m) && IsInt(|data|)
    ensures Audible(Reply("ACK", m.id, m.seqNum, 0, CString(data)))
  {
    SendableInts(m);
    CStringIsShorter(data);
    ShortReplyIsAudible("ACK", m.id, m.seqNum, CString(data));
  }

  lemma ShortReplyIsAudible(command: string, id: TxnId, seqNum: SeqNum, data: Data)
    requires IsCommand(command) && |command| <= 80 && IsInt(id) && IsInt(seqNum) && IsInt(|data|) && '\0' !in data
    ensures Audible(Reply(command, id, seqNum, 0, data))
  {
    hide IsCommand;
  }

  lemma CStringIsShorter(bytes: string)
    ensures |CString(bytes)| <= |bytes|
  {
  }

  // ---------------------------------------------------------------- a server

  const INT_MAX: int := 0x7FFF_FFFF

  /** NEW_TXN's loop: some number below INT_MAX that is not live, while there is one. */
  type Draw = f: set<TxnId> -> TxnId | DrawsFresh(f) witness Least

  ghost predicate DrawsFresh(f: set<TxnId> -> TxnId) {
    forall live: set<TxnId> :: Drawn(live, f(live))
  }

  predicate Drawn(live: set<TxnId>, id: TxnId) {
    id !in live && (|live| < INT_MAX ==> 0 <= id < INT_MAX)
  }

  function Least(live: set<TxnId>): (id: TxnId)
    ensures Drawn(live, id)
  {
    LeastFrom(live, 0)
  }

  function LeastFrom(live: set<TxnId>, k: nat): (id: nat)
    ensures id !in live && k <= id <= k + |live|
    decreases |live|
  {
    if k in live then LeastFrom(live - {k}, k + 1) else k
  }

  /** What each request meets in its turn. */
  datatype Surroundings = Surroundings(now: Time, draw: Draw, canOpen: bool, canRead: bool, calls: seq<int>)

  datatype Running = Running(store: Store, turn: nat, meets: nat -> Surroundings)

  type Server = s: Running | IndexOk(s.store)
    witness Running(Store(map[], {}, map[], map[], 0, map[], NO_LOGS), 0, _ => Surroundings(0, Least, true, true, []))

  function Met(s: Server): (o: Outside)
    ensures Drawn(s.store.live.Keys, o.drawn)
  {
    var w := s.meets(s.turn);
    Outside(w.now, w.draw(s.store.live.Keys), w.canOpen, w.canRead, w.calls)
  }

  /** The handler the connection loop calls. */
  function Serve(s: Server, m: Message): (Server, Reply, bool) {
    ProcessKeepsIndex(s.store, m, Met(s));
    var (st, reply, more) := Process(s.store, m, Met(s));
    (Running(st, s.turn + 1, s.meets), reply, more)
  }

  lemma {:induction false} LiveGrows(s: Server, ms: seq<Message>, i: nat)
    requires i <= |ms|
    ensures |StateAt(Serve, s, ms, i).store.live| <= |s.store.live| + i
    decreases i
  {
    hide Serve;
    if i > 0 {
      ServeAddsOne(s, ms[0]);
      LiveGrows(Serve(s, ms[0]).0, ms[1..], i - 1);
    }
  }

  lemma ServeAddsOne(s: Server, m: Message)
    ensures |Serve(s, m).0.store.live| <= |s.store.live| + 1
  {
    ProcessAddsOne(s.store, m, Met(s));
    hide Process, Met;
    var before, after := s.store.live, Serve(s, m).0.store.live;
    SizeOfSubset(after.Keys, before.Keys, Met(s).drawn);
    assert |after| == |after.Keys| && |before| == |before.Keys|;
  }

  lemma SizeOfSubset(a: set<TxnId>, b: set<TxnId>, id: TxnId)
    requires a <= b + {id}
    ensures |a| <= |b| + 1
  {
    if id in a { SubsetIsSmaller(a - {id}, b); } else { SubsetIsSmaller(a, b); }
  }

  lemma {:induction false} SubsetIsSmaller(a: set<TxnId>, b: set<TxnId>)
    requires a <= b
    ensures |a| <= |b|
    decreases a
  {
    if a != {} {
      var id := SomeElement(a);
      SubsetIsSmaller(a - {id}, b - {id});
    }
  }

  /** Every file a READ asks for has an int size when it does. */
  ghost predicate ReadsFit(s: Server, ms: seq<Message>) {
    forall i :: 0 <= i < |ms| && ms[i].command == "READ" ==> IsInt(FileSize(StateAt(Serve, s, ms, i).store.files, ms[i].data))
  }

  /** The whole server, from the client's bytes to the replies the client makes out: any
      sendable requests, whatever they ask and whatever the operating system answers. */
  lemma ServerEndToEnd(s: Server, ms: seq<Message>)
    requires AllSendable(ms) && |s.store.live| + |ms| <= INT_MAX && ReadsFit(s, ms)
    ensures var (end, text) := Serving(Serve, s, EncodeAll(ms)); var (end', replies, on) := Converse(Serve, s, ms);
            end == end' && HearReplies(text, |replies|) == Some(replies)
  {
    var replies := Converse(Serve, s, ms).1;
    forall i | 0 <= i < |replies| ensures Audible(replies[i]) {
      OneReplyEach(Serve, s, ms, i);
      LiveGrows(s, ms, i);
      var s' := StateAt(Serve, s, ms, i);
      hide Sendable;
      AnswerIsAudible(s'.store, ms[i], Met(s'));
    }
    ConversationEndToEnd(Serve, s, ms);
  }
}
