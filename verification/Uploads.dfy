/** What the server is for, from one end to the other: the numbered pieces of a file, sent in any
    order in one go and then committed, are acknowledged one by one and end up in the file in
    the order of their numbers. */
module Uploads {
  import opened Basics
  import opened Transactions
  import opened Stores
  import opened Effects
  import opened Wire
  import opened Framing
  import opened Requests

  /** WRITE requests of one transaction, no number twice. */
  ghost predicate Pieces(ms: seq<Message>, id: TxnId) {
    && (forall i :: 0 <= i < |ms| ==> ms[i].command == "WRITE" && ms[i].id == id)
    && (forall i, j :: 0 <= i < j < |ms| ==> ms[i].seqNum != ms[j].seqNum)
  }

  /** The data sent under number k. */
  function Sent(ms: seq<Message>, k: SeqNum): Option<Data> {
    if ms == [] then None
    else if ms[0].seqNum == k then Some(ms[0].data)
    else Sent(ms[1..], k)
  }

  function CommitOf(id: TxnId, n: SeqNum): Message {
    Message("COMMIT", id, n, "")
  }

  /** The pieces 1 to n in the order of their numbers. */
  function InOrder(ms: seq<Message>, n: SeqNum): Data
    decreases n
  {
    if n <= 0 then "" else InOrder(ms, n - 1) + if Sent(ms, n).Some? then Sent(ms, n).value else ""
  }

  /** The reply that acknowledges number n of a transaction. */
  function Acked(id: TxnId, n: SeqNum): Reply {
    Reply("ACK", id, n, 0, "")
  }

  function Acks(ms: seq<Message>): seq<Reply> {
    if ms == [] then [] else [Acked(ms[0].id, ms[0].seqNum)] + Acks(ms[1..])
  }

  /** The bodies these requests run, whatever the times. */
  ghost predicate OpsOf(ms: seq<Message>, ops: seq<Op>) {
    |ops| == |ms| && forall i :: 0 <= i < |ms| ==> ops[i].WriteOp? && ops[i].seqNum == ms[i].seqNum && ops[i].data == ms[i].data
  }

  lemma {:induction false} SentIsFirstWrite(ms: seq<Message>, ops: seq<Op>, k: SeqNum)
    requires OpsOf(ms, ops)
    ensures FirstWrite(ops, k) == Sent(ms, k)
  {
    if ms != [] {
      assert OpsOf(ms[1..], ops[1..]);
      SentIsFirstWrite(ms[1..], ops[1..], k);
    }
  }

  lemma {:induction false} InOrderIsFirstWrites(ms: seq<Message>, ops: seq<Op>, n: SeqNum)
    requires OpsOf(ms, ops)
    ensures FirstWrites(ops, n) == InOrder(ms, n)
    decreases n
  {
    if n > 0 {
      InOrderIsFirstWrites(ms, ops, n - 1);
      SentIsFirstWrite(ms, ops, n);
    }
  }

  // ---------------------------------------------------------------- one piece

  lemma PieceIsTaken(s: Server, m: Message, attr: Address, start: Time, before: seq<Op>)
    requires m.command == "WRITE" && m.id in s.store.live && m.id !in s.store.commits
    requires s.store.live[m.id] == RunOps(NewTxn(attr, start), before) && FirstWrite(before, m.seqNum) == None
    ensures var (s', reply, more) := Serve(s, m); var ops := before + [WriteOp(m.seqNum, m.data, Met(s).now)];
            && reply == Acked(m.id, m.seqNum) && more
            && s'.store == s.store.(live := s.store.live[m.id := RunOps(NewTxn(attr, start), ops)])
            && s'.turn == s.turn + 1 && s'.meets == s.meets
  {
    var op := WriteOp(m.seqNum, m.data, Met(s).now);
    assert (before + [op])[..|before|] == before;
    AcknowledgedWritesAreKept(attr, start, before, m.seqNum);
    hide IndexOk, ErrorText, ErrorNumber, FirstWrite;
  }

  /** All of them. */
  lemma {:induction false} PiecesAreTaken(s: Server, id: TxnId, attr: Address, start: Time, before: seq<Op>, ms: seq<Message>,
      rest: seq<Message>)
    returns (s': Server, ops: seq<Op>)
    requires id in s.store.live && id !in s.store.commits && s.store.live[id] == RunOps(NewTxn(attr, start), before)
    requires Pieces(ms, id) && forall i :: 0 <= i < |ms| ==> FirstWrite(before, ms[i].seqNum) == None
    ensures OpsOf(ms, ops) && s'.turn == s.turn + |ms| && s'.meets == s.meets
    ensures s'.store == s.store.(live := s.store.live[id := RunOps(NewTxn(attr, start), before + ops)])
    ensures var (end, replies, on) := Converse(Serve, s', rest);
            Converse(Serve, s, ms + rest) == (end, Acks(ms) + replies, on)
    decreases |ms|
  {
    hide Serve, RunOps, Met, Acked, FirstWrite, NewTxn, IndexOk, Content, Process;
    if ms == [] {
      s', ops := s, [];
      assert before + [] == before && [] + rest == rest && s.store.live[id := s.store.live[id]] == s.store.live;
      assert [] + Converse(Serve, s, rest).1 == Converse(Serve, s, rest).1;
    } else {
      PieceIsTaken(s, ms[0], attr, start, before);
      var op := WriteOp(ms[0].seqNum, ms[0].data, Met(s).now);
      var s1 := Serve(s, ms[0]).0;
      forall i | 0 <= i < |ms[1..]| ensures FirstWrite(before + [op], ms[1..][i].seqNum) == None {
        FirstWriteSnoc(before, op, ms[1..][i].seqNum);
      }
      var more;
      s', more := PiecesAreTaken(s1, id, attr, start, before + [op], ms[1..], rest);
      ops := [op] + more;
      assert before + [op] + more == before + ops;
      assert (ms + rest)[1..] == ms[1..] + rest && (ms + rest)[0] == ms[0];
      var replies := Converse(Serve, s', rest).1;
      assert [Acked(id, ms[0].seqNum)] + (Acks(ms[1..]) + replies) == Acks(ms) + replies;
    }
  }

  // ---------------------------------------------------------------- the commit

  /** No call fails: everything is written, in however many pieces. */
  lemma {:induction false} NothingFails(buffers: map<SeqNum, Data>, k: SeqNum, n: SeqNum, calls: seq<int>)
    requires (forall j :: k <= j <= n ==> j in buffers) && forall i :: 0 <= i < |calls| ==> calls[i] >= 0
    ensures WriteBuffers(buffers, k, n, calls).1
    decreases n - k
  {
    if k <= n {
      CallsSucceed(buffers[k], calls);
      NothingFails(buffers, k + 1, n, WriteCalls(buffers[k], calls).2);
    }
  }

  lemma {:induction false} CallsSucceed(data: Data, calls: seq<int>)
    requires forall i :: 0 <= i < |calls| ==> calls[i] >= 0
    ensures var (bytes, ok, left) := WriteCalls(data, calls); ok && forall i :: 0 <= i < |left| ==> left[i] >= 0
    decreases |calls|
  {
    if data != "" && calls != [] {
      CallsSucceed(data[if calls[0] <= |data| then calls[0] else |data|..], calls[1..]);
    }
  }

  /** COMMIT n once the pieces 1..n are there. */
  lemma CommitIsTaken(s: Server, m: Message, attr: Address, start: Time, ops: seq<Op>)
    requires m.command == "COMMIT" && m.id in s.store.live && m.id !in s.store.commits
    requires s.store.live[m.id] == RunOps(NewTxn(attr, start), ops)
    requires 1 <= m.seqNum && Bounds(ops, m.seqNum) && forall k :: 1 <= k <= m.seqNum ==> FirstWrite(ops, k).Some?
    requires Met(s).canOpen && forall i :: 0 <= i < |Met(s).calls| ==> Met(s).calls[i] >= 0
    ensures var (s', reply, more) := Serve(s, m); var name := NameOf(s.store, m.id);
            && reply == Acked(m.id, m.seqNum) && more
            && Content(s'.store.files, name) == Content(s.store.files, name) + FirstWrites(ops, m.seqNum)
            && (forall other :: other != name ==> Content(s'.store.files, other) == Content(s.store.files, other))
  {
    var o := Met(s);
    hide IndexOk, Met, ErrorText, ErrorNumber;
    CommitMeetsNoFailure(s.store, m, o, attr, start, ops);
    AssembleIsFirstWrites(attr, start, ops, m.seqNum);
    hide CommitBody, RunOps, Bounds, FirstWrites, FirstWrite, Assemble, DiskFor;
    CommitAppends(s.store, m.id, m.seqNum, o.now);
    hide CommitEffect;
  }

  lemma CommitMeetsNoFailure(st: Store, m: Message, o: Outside, attr: Address, start: Time, ops: seq<Op>)
    requires m.id in st.live && st.live[m.id] == RunOps(NewTxn(attr, start), ops)
    requires 1 <= m.seqNum && Bounds(ops, m.seqNum) && forall k :: 1 <= k <= m.seqNum ==> FirstWrite(ops, k).Some?
    requires o.canOpen && forall i :: 0 <= i < |o.calls| ==> o.calls[i] >= 0
    ensures CommitBody(st.live[m.id], m.id, m.seqNum, o.now).1 == None && DiskFor(st, m, o) == Works
  {
    CommitReadyIff(attr, start, ops, m.id, m.seqNum, o.now);
    hide RunOps, FirstWrite, Bounds;
    NothingFails(st.live[m.id].buffers, 1, m.seqNum, o.calls);
  }

  /** A transaction that has only just begun, all its pieces, and a disk that works for the COMMIT. */
  ghost predicate Upload(s: Server, id: TxnId, attr: Address, start: Time, ms: seq<Message>, n: SeqNum) {
    && id in s.store.live && id !in s.store.commits && s.store.live[id] == NewTxn(attr, start)
    && Pieces(ms, id) && 1 <= n && (forall i :: 0 <= i < |ms| ==> ms[i].seqNum <= n)
    && (forall k :: 1 <= k <= n ==> Sent(ms, k).Some?)
    && var w := s.meets(s.turn + |ms|); w.canOpen && forall i :: 0 <= i < |w.calls| ==> w.calls[i] >= 0
  }

  /** The file has gained the pieces in the order of their numbers, and no other has changed. */
  ghost predicate Gained(st: Store, st': Store, name: FileName, ms: seq<Message>, n: SeqNum) {
    && Content(st'.files, name) == Content(st.files, name) + InOrder(ms, n)
    && forall other :: other != name ==> Content(st'.files, other) == Content(st.files, other)
  }

  lemma UploadOneByOne(s: Server, id: TxnId, attr: Address, start: Time, ms: seq<Message>, n: SeqNum)
    requires Upload(s, id, attr, start, ms, n)
    ensures var (end, replies, on) := Converse(Serve, s, ms + [CommitOf(id, n)]);
            && replies == Acks(ms) + [Acked(id, n)]
            && Gained(s.store, end.store, NameOf(s.store, id), ms, n)
  {
    var commit := CommitOf(id, n);
    NothingYet(s, id, attr, start, ms, n);
    hide Upload, Gained, Serve, RunOps, NewTxn, Acked, FirstWrite, IndexOk, Converse, OpsOf, Acks, Pieces;
    var s', ops := PiecesAreTaken(s, id, attr, start, [], ms, [commit]);
    assert [] + ops == ops;
    CommitAfterPieces(s, id, attr, start, ms, n, s', ops);
    ConverseOne(s', commit);
  }

  lemma NothingYet(s: Server, id: TxnId, attr: Address, start: Time, ms: seq<Message>, n: SeqNum)
    requires Upload(s, id, attr, start, ms, n)
    ensures id in s.store.live && s.store.live[id] == RunOps(NewTxn(attr, start), []) && id !in s.store.commits && Pieces(ms, id)
    ensures s.store.live[id].attr in s.store.attrs && forall i :: 0 <= i < |ms| ==> FirstWrite([], ms[i].seqNum) == None
  {
    LiveHasAttributes(s.store, id);
    NothingWritten(ms);
    hide IndexOk, Pieces;
  }

  lemma CommitAfterPieces(s: Server, id: TxnId, attr: Address, start: Time, ms: seq<Message>, n: SeqNum, s': Server, ops: seq<Op>)
    requires Upload(s, id, attr, start, ms, n) && OpsOf(ms, ops) && s'.turn == s.turn + |ms| && s'.meets == s.meets
    requires s.store.live[id].attr in s.store.attrs
    requires s'.store == s.store.(live := s.store.live[id := RunOps(NewTxn(attr, start), ops)])
    ensures var (end, reply, more) := Serve(s', CommitOf(id, n));
            reply == Acked(id, n) && more && Gained(s.store, end.store, NameOf(s.store, id), ms, n)
  {
    AllWritten(ms, ops, n);
    MetThen(s, s', |ms|);
    RunKeepsAttr(attr, start, ops);
    InOrderIsFirstWrites(ms, ops, n);
    hide IndexOk, Serve, RunOps, Acked, FirstWrite, Bounds, FirstWrites, InOrder, Met, Content, OpsOf, Pieces, Sent, NewTxn;
    CommitIsTaken(s', CommitOf(id, n), attr, start, ops);
  }

  /** Pieces 1..n of a new transaction in any order, back to back with their COMMIT: the client
      makes out an acknowledgement of each, and the file has gained them in order. */
  lemma UploadEndToEnd(s: Server, id: TxnId, attr: Address, start: Time, ms: seq<Message>, n: SeqNum)
    requires Upload(s, id, attr, start, ms, n)
    requires AllSendable(ms + [CommitOf(id, n)]) && |s.store.live| + |ms| < INT_MAX
    ensures var all := ms + [CommitOf(id, n)]; var (end, text) := Serving(Serve, s, EncodeAll(all));
            && HearReplies(text, |all|) == Some(Acks(all))
            && Gained(s.store, end.store, NameOf(s.store, id), ms, n)
  {
    assert Pieces(ms, id);
    hide *;
    UploadReadsNothing(s, id, ms, n);
    UploadOneByOne(s, id, attr, start, ms, n);
    ServerEndToEnd(s, ms + [CommitOf(id, n)]);
    AcksSnoc(ms, CommitOf(id, n));
    assert CommitOf(id, n).id == id && CommitOf(id, n).seqNum == n by { CommitIs(id, n); }
  }

  lemma CommitIs(id: TxnId, n: SeqNum)
    ensures CommitOf(id, n).id == id && CommitOf(id, n).seqNum == n && CommitOf(id, n).command == "COMMIT"
  {
  }

  lemma UploadReadsNothing(s: Server, id: TxnId, ms: seq<Message>, n: SeqNum)
    requires Pieces(ms, id)
    ensures ReadsFit(s, ms + [CommitOf(id, n)])
  {
    PiecesWrite(ms, id);
    assert "WRITE" != "READ" && "COMMIT" != "READ";
    NothingIsRead(s, ms + [CommitOf(id, n)]);
  }

  lemma {:induction false} RunKeepsAttr(attr: Address, start: Time, ops: seq<Op>)
    ensures RunOps(NewTxn(attr, start), ops).attr == attr == NewTxn(attr, start).attr
  {
    if ops != [] { RunKeepsAttr(attr, start, ops[..|ops| - 1]); }
  }

  lemma MetThen(s: Server, s': Server, k: nat)
    requires s'.turn == s.turn + k && s'.meets == s.meets
    ensures Met(s').canOpen == s.meets(s.turn + k).canOpen && Met(s').calls == s.meets(s.turn + k).calls
  {
  }

  lemma AllWritten(ms: seq<Message>, ops: seq<Op>, n: SeqNum)
    requires OpsOf(ms, ops) && (forall i :: 0 <= i < |ms| ==> ms[i].seqNum <= n) && forall k :: 1 <= k <= n ==> Sent(ms, k).Some?
    ensures Bounds(ops, n) && forall k :: 1 <= k <= n ==> FirstWrite(ops, k).Some?
  {
    forall k | 1 <= k <= n ensures FirstWrite(ops, k).Some? {
      SentIsFirstWrite(ms, ops, k);
    }
  }

  lemma NothingWritten(ms: seq<Message>)
    ensures forall i :: 0 <= i < |ms| ==> FirstWrite([], ms[i].seqNum) == None
  {
  }

  lemma ConverseOne(s: Server, m: Message)
    ensures Serve(s, m).2 ==> Converse(Serve, s, [m]) == (Serve(s, m).0, [Serve(s, m).1], true)
  {
    hide Serve;
    assert [m][1..] == [] && [Serve(s, m).1] + [] == [Serve(s, m).1];
  }

  lemma PiecesWrite(ms: seq<Message>, id: TxnId)
    requires Pieces(ms, id)
    ensures forall i :: 0 <= i < |ms| ==> ms[i].command == "WRITE"
  {
  }

  lemma NothingIsRead(s: Server, ms: seq<Message>)
    requires forall i :: 0 <= i < |ms| ==> ms[i].command != "READ"
    ensures ReadsFit(s, ms)
  {
  }

  lemma {:induction false} AcksSnoc(ms: seq<Message>, m: Message)
    ensures Acks(ms + [m]) == Acks(ms) + [Acked(m.id, m.seqNum)] && |Acks(ms)| == |ms|
  {
    if ms == [] {
      assert [m][1..] == [];
    } else {
      assert (ms + [m])[1..] == ms[1..] + [m];
      AcksSnoc(ms[1..], m);
    }
  }
}
