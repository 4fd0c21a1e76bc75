/** What every request does and what its client is told, in plain terms: the resulting state and the
    reply as it stands in the protocol, for each command and each case. */
module Answers {
  import opened Basics
  import opened Text
  import opened Transactions
  import opened Stores
  import opened LogText
  import opened Effects
  import opened Wire
  import opened Requests

  // ---------------------------------------------------------------- replies

  const NOT_ZERO: string := "New transactions must " + "start with sequence number 0"
  const STALE_COMMIT: string :=
    "Requested commit with " + "sequence number less than " + "maximum sequence number received"

  lemma AckText(id: TxnId, n: SeqNum)
    ensures ReplyOf(Ack(id, n)) == Reply("ACK", id, n, 0, "")
    ensures ReplyOf(AskResend(id, n)) == Reply("ASK_RESEND", id, n, 0, "")
  {
  }

  lemma ErrorTable(id: TxnId, n: SeqNum)
    ensures ReplyOf(Error(id, n, InvalidMessageFormat)) == Reply("ERROR", id, n, 199, "InvalidMessageFormat")
    ensures ReplyOf(Error(id, n, InvalidCommand)) == Reply("ERROR", id, n, 200, "InvalidCommand")
    ensures ReplyOf(Error(id, n, InvalidTransactionId)) == Reply("ERROR", id, n, 201, "InvalidTransactionId")
    ensures ReplyOf(Error(id, n, InvalidOperation)) == Reply("ERROR", id, n, 202, "InvalidOperation")
    ensures ReplyOf(Error(id, n, InvalidSequenceNumber))
            == Reply("ERROR", id, n, 204, NOT_ZERO)
    ensures ReplyOf(Error(id, n, RepeatedSequenceNumber)) == Reply("ERROR", id, n, 205, "RepeatedSequenceNumber")
    ensures ReplyOf(Error(id, n, ErrorOpeningFile)) == Reply("ERROR", id, n, 206, "ErrorOpeningFile")
    ensures ReplyOf(Error(id, n, ErrorReadingFile)) == Reply("ERROR", id, n, 207, "Error reading file")
    ensures ReplyOf(Error(id, n, ErrorWritingFile)) == Reply("ERROR", id, n, 208, "Error writing file")
    ensures ReplyOf(Error(id, n, CommitWithInvalidSequenceNumber))
            == Reply("ERROR", id, n, 210, STALE_COMMIT)
    ensures ReplyOf(Error(id, n, TransactionAlreadyCommitted)) == Reply("ERROR", id, n, 211, "TransactionAlreadyCommitted")
    ensures ReplyOf(Error(id, n, TransactionAborted)) == Reply("ERROR", id, n, 212, "TransactionAborted")
  {
  }

  // ---------------------------------------------------------------- commands that change nothing

  /** An unknown command is refused, and the connection ends. */
  lemma UnknownIsRefused(st: Store, m: Message, o: Outside)
    requires IndexOk(st) && o.drawn !in st.live
    requires m.command !in {"READ", "NEW_TXN", "WRITE", "COMMIT", "ABORT"}
    ensures Process(st, m, o) == (st, Reply("ERROR", m.id, m.seqNum, 200, "InvalidCommand"), false)
  {
    hide IndexOk;
  }

  /** READ gives the bytes of the file up to its first NUL, for a file that can be opened and read. */
  lemma ReadIsAnswered(st: Store, m: Message, o: Outside)
    requires IndexOk(st) && o.drawn !in st.live && m.command == "READ"
    ensures var (st', r, more) := Process(st, m, o);
            && st' == st
            && (if m.data !in st.files || !o.canOpen then
                  r == Reply("ERROR", m.id, m.seqNum, 206, "ErrorOpeningFile") && !more
                else if !o.canRead then
                  r == Reply("ERROR", m.id, m.seqNum, 207, "Error reading file") && !more
                else
                  && r == Reply("ACK", m.id, m.seqNum, 0, r.data) && more
                  && '\0' !in r.data && r.data <= st.files[m.data]
                  && (|r.data| < |st.files[m.data]| ==> st.files[m.data][|r.data|] == '\0'))
  {
    hide IndexOk, CString;
    assert "ACK" != "ERROR";
  }

  // ---------------------------------------------------------------- who is where

  function NameIn(st: Store, id: TxnId): Option<FileName> {
    if id in st.live && st.live[id].attr in st.attrs then Some(st.attrs[st.live[id].attr].name) else None
  }

  /** Every other transaction is as it was, on the file it was on. */
  ghost predicate OthersStay(st: Store, st': Store, id: TxnId) {
    forall i :: i != id ==>
      && (i in st'.live <==> i in st.live) && (i in st.live ==> st'.live[i] == st.live[i] && NameIn(st', i) == NameIn(st, i))
  }

  /** The line a log gets. */
  function Line(id: TxnId, name: FileName, size: nat): string {
    IntText(id) + " " + name + " " + IntText(size) + "\n"
  }

  // ---------------------------------------------------------------- NEW_TXN

  /** NEW_TXN 0 makes the drawn id a live, empty transaction on the file, stamped now, and logs it
      with the size of the file; any other number is refused. */
  lemma NewIsAnswered(st: Store, m: Message, o: Outside)
    requires IndexOk(st) && o.drawn !in st.live && m.command == "NEW_TXN"
    ensures var (st', r, more) := Process(st, m, o);
            if m.seqNum != 0 then (st', r, more) == (st, Reply("ERROR", m.id, m.seqNum, 204, NOT_ZERO), false)
            else
              && r == Reply("ACK", o.drawn, 0, 0, "") && more
              && o.drawn in st'.live && NameIn(st', o.drawn) == Some(m.data)
              && st'.live[o.drawn].buffers == map[] && st'.live[o.drawn].maxSeq == 1 && st'.live[o.drawn].stamp == o.now
              && OthersStay(st, st', o.drawn) && st'.files == st.files && st'.commits == st.commits
              && st'.logs == st.logs.(transactions := st.logs.transactions + Line(o.drawn, m.data, |Content(st.files, m.data)|))
              && ((forall i :: i in st.live ==> NameIn(st, i) != Some(m.data)) ==>
                    st'.attrs[st'.live[o.drawn].attr].size == |Content(st.files, m.data)|)
  {
    if m.seqNum == 0 {
      Entered(st, o.drawn, m.data, o.now);
      TornText(Record(o.drawn, m.data, FileSize(st.files, m.data)));
    }
    AckText(o.drawn, 0);
    ErrorTable(m.id, m.seqNum);
    hide IndexOk, Render, IntText, Enroll, ReplyOf, NameIn, OthersStay;
  }

  lemma Entered(st: Store, id: TxnId, name: FileName, now: Time)
    requires IndexOk(st) && id !in st.live
    ensures var st' := Enroll(st, id, name, now);
            && id in st'.live && NameIn(st', id) == Some(name) && st'.live[id].attr in st'.attrs
            && st'.live[id].buffers == map[] && st'.live[id].maxSeq == 1 && st'.live[id].stamp == now
            && OthersStay(st, st', id) && st'.files == st.files && st'.commits == st.commits && st'.logs == st.logs
            && ((forall i :: i in st.live ==> NameIn(st, i) != Some(name)) ==>
                  st'.attrs[st'.live[id].attr].size == |Content(st.files, name)|)
  {
    if name in st.index {
      IndexCountsLiveTransactions(st, name);
      var i :| i in st.live && NameOf(st, i) == name;
      assert NameIn(st, i) == Some(name);
    }
  }

  // ---------------------------------------------------------------- WRITE

  /** Whatever else changes, it changes in this one transaction only. */
  ghost predicate OnlyTxn(st: Store, st': Store, id: TxnId, txn: Txn) {
    st' == st.(live := st'.live) && id in st'.live && st'.live[id] == txn && forall i :: i != id ==>
      (i in st'.live <==> i in st.live) && (i in st.live ==> st'.live[i] == st.live[i])
  }

  /** WRITE to a live transaction buffers a number it has not seen and acknowledges it; it refuses
      a number it has, an id already committed and an id it does not know. Every look at a live
      transaction stamps it. */
  lemma WriteIsAnswered(st: Store, m: Message, o: Outside)
    requires IndexOk(st) && o.drawn !in st.live && m.command == "WRITE"
    ensures var (st', r, more) := Process(st, m, o);
            if m.id in st.commits then (st', r, more) == (st, Reply("ERROR", m.id, m.seqNum, 202, "InvalidOperation"), false)
            else if m.id !in st.live then (st', r, more) == (st, Reply("ERROR", m.id, m.seqNum, 201, "InvalidTransactionId"), false)
            else
              var txn := st.live[m.id];
              if m.seqNum in txn.buffers then
                && r == Reply("ERROR", m.id, m.seqNum, 205, "RepeatedSequenceNumber") && !more
                && OnlyTxn(st, st', m.id, Txn(txn.attr, txn.buffers, txn.maxSeq, o.now))
              else
                && r == Reply("ACK", m.id, m.seqNum, 0, "") && more
                && m.id in st'.live
                && var max := st'.live[m.id].maxSeq;
                   && txn.maxSeq <= max && m.seqNum <= max && (max == txn.maxSeq || max == m.seqNum)
                   && OnlyTxn(st, st', m.id, Txn(txn.attr, txn.buffers[m.seqNum := m.data], max, o.now))
  {
    AckText(m.id, m.seqNum);
    ErrorTable(m.id, m.seqNum);
    hide IndexOk, ReplyOf, OnlyTxn;
    if m.id !in st.commits && m.id in st.live {
      var (txn, resp) := WriteBody(st.live[m.id], m.id, m.seqNum, m.data, o.now);
      OneChanged(st, m.id, txn);
    }
  }

  lemma OneChanged(st: Store, id: TxnId, txn: Txn)
    requires id in st.live
    ensures OnlyTxn(st, st.(live := st.live[id := txn]), id, txn)
  {
  }

  // ---------------------------------------------------------------- ABORT

  /** ABORT of a live transaction removes it, touches no file, and logs the abort with the size of
      the file; the connection ends with it. */
  lemma AbortIsAnswered(st: Store, m: Message, o: Outside)
    requires IndexOk(st) && o.drawn !in st.live && m.command == "ABORT"
    ensures var (st', r, more) := Process(st, m, o);
            && !more
            && (m.id in st.commits ==> (st', r) == (st, Reply("ERROR", m.id, m.seqNum, 202, "InvalidOperation")))
            && (m.id !in st.commits && m.id !in st.live ==>
                  (st', r) == (st, Reply("ERROR", m.id, m.seqNum, 201, "InvalidTransactionId")))
            && (m.id !in st.commits && m.id in st.live ==>
                  && r == Reply("ACK", m.id, m.seqNum, 0, "")
                  && m.id !in st'.live && OthersStay(st, st', m.id) && st'.files == st.files && st'.commits == st.commits
                  && NameIn(st, m.id).Some? && var name := NameIn(st, m.id).value;
                     st'.logs == st.logs.(aborts := st.logs.aborts + Line(m.id, name, |Content(st.files, name)|)))
  {
    AckText(m.id, m.seqNum);
    ErrorTable(m.id, m.seqNum);
    hide IndexOk, ReplyOf, NameIn, OthersStay, Line;
    if m.id !in st.commits && m.id in st.live {
      Aborted(st, m.id, m.seqNum);
      hide AbortEffect;
    }
  }

  lemma Aborted(st: Store, id: TxnId, n: SeqNum)
    requires IndexOk(st) && id in st.live && id !in st.commits
    ensures var (st', resp) := AbortEffect(st, id, n);
            && resp == Ack(id, n)
            && id !in st'.live && OthersStay(st, st', id) && st'.files == st.files && st'.commits == st.commits
            && NameIn(st, id).Some? && var name := NameIn(st, id).value;
               st'.logs == st.logs.(aborts := st.logs.aborts + Line(id, name, |Content(st.files, name)|))
  {
    LiveHasAttributes(st, id);
    var name := NameOf(st, id);
    TornText(Record(id, name, FileSize(st.files, name)));
    LogKeepsIndex(st, AbortLog, id, name);
    hide Render, IntText;
    Left(st, Logged(st, AbortLog, id, name), id);
    hide IndexOk, Evict, OthersStay;
  }

  lemma Left(st: Store, st1: Store, id: TxnId)
    requires IndexOk(st) && IndexOk(st1) && id in st.live && st1 == st.(logs := st1.logs)
    ensures var st' := Evict(st1, id);
            id !in st'.live && OthersStay(st, st', id) && st'.files == st.files && st'.commits == st.commits && st'.logs == st1.logs
  {
    EvictKeepsIndex(st1, id);
  }

  // ---------------------------------------------------------------- COMMIT

  /** The data 1..n are in the file, the commit is logged with the new length, and the transaction
      has moved to the commit set. */
  ghost predicate Appended(st: Store, st': Store, id: TxnId, name: FileName, data: Data) {
    && Content(st'.files, name) == Content(st.files, name) + data
    && (forall other :: other != name ==> Content(st'.files, other) == Content(st.files, other))
    && id !in st'.live && OthersStay(st, st', id) && st'.commits == st.commits + {id}
    && st'.logs == st.logs.(commits := st.logs.commits + Line(id, name, |Content(st'.files, name)|))
    && forall a :: a in st'.attrs && st'.attrs[a].name == name ==> st'.attrs[a].size == |Content(st'.files, name)|
  }

  /** No file has lost or gained a byte, if the size remembered for this one was right; the
      transaction is still there, ready to be committed again. */
  ghost predicate CutBack(st: Store, st': Store, id: TxnId, name: FileName, txn: Txn) {
    && OnlyTxn(st, st'.(files := st.files), id, txn)
    && (txn.attr in st.attrs && st.attrs[txn.attr].size == |Content(st.files, name)| ==>
          forall other :: Content(st'.files, other) == Content(st.files, other))
    && forall other :: other != name ==> Content(st'.files, other) == Content(st.files, other)
  }

  /** A COMMIT that is ready, by what the disk does. */
  ghost predicate ReadyAnswer(st: Store, st': Store, r: Reply, more: bool, id: TxnId, n: SeqNum, o: Outside)
    requires id in st.live && forall j :: 1 <= j <= n ==> j in st.live[id].buffers
  {
    var txn := Txn(st.live[id].attr, st.live[id].buffers, n, o.now);
    && NameIn(st, id).Some?
    && var name := NameIn(st, id).value;
       if !o.canOpen then
         r == Reply("ERROR", id, n, 206, "ErrorOpeningFile") && !more && OnlyTxn(st, st', id, txn)
       else if WriteBuffers(txn.buffers, 1, n, o.calls).1 then
         r == Reply("ACK", id, n, 0, "") && more && Appended(st, st', id, name, Assemble(txn.buffers, n))
       else
         r == Reply("ERROR", id, n, 208, "Error writing file") && !more && CutBack(st, st', id, name, txn)
  }

  /** COMMIT: acknowledged if already committed, refused for an unknown id or a number some request
      has passed, answered with the least missing number, or carried out. */
  lemma CommitIsAnswered(st: Store, m: Message, o: Outside)
    requires IndexOk(st) && o.drawn !in st.live && m.command == "COMMIT"
    ensures var (st', r, more) := Process(st, m, o);
            if m.id in st.commits then (st', r, more) == (st, Reply("ACK", m.id, m.seqNum, 0, ""), true)
            else if m.id !in st.live then (st', r, more) == (st, Reply("ERROR", m.id, m.seqNum, 201, "InvalidTransactionId"), false)
            else
              var txn := st.live[m.id];
              if m.seqNum < txn.maxSeq then
                && r == Reply("ERROR", m.id, m.seqNum, 210, STALE_COMMIT) && !more
                && OnlyTxn(st, st', m.id, Txn(txn.attr, txn.buffers, txn.maxSeq, o.now))
              else if exists k :: 1 <= k <= m.seqNum && k !in txn.buffers then
                && r == Reply("ASK_RESEND", m.id, r.seqNum, 0, "") && more
                && 1 <= r.seqNum <= m.seqNum && r.seqNum !in txn.buffers && (forall j :: 1 <= j < r.seqNum ==> j in txn.buffers)
                && OnlyTxn(st, st', m.id, Txn(txn.attr, txn.buffers, m.seqNum, o.now))
              else
                ReadyAnswer(st, st', r, more, m.id, m.seqNum, o)
  {
    AckText(m.id, m.seqNum);
    ErrorTable(m.id, m.seqNum);
    hide IndexOk, ReplyOf, OnlyTxn;
    if m.id !in st.commits && m.id in st.live {
      var txn := st.live[m.id];
      var (after, refusal) := CommitBody(txn, m.id, m.seqNum, o.now);
      OneChanged(st, m.id, after);
      if refusal.Some? {
        if refusal.value.AskResend? { AckText(m.id, refusal.value.seqNum); }
        hide DiskOf, ReadyAnswer;
      } else {
        hide ReadyAnswer;
        Readied(st, m, o);
      }
    }
  }

  /** An acknowledged COMMIT is a commit: its id is in the commit set, whichever branch answered. */
  lemma AcknowledgedIsCommitted(st: Store, m: Message, o: Outside)
    requires IndexOk(st) && o.drawn !in st.live && m.command == "COMMIT"
    ensures Process(st, m, o).1.command == "ACK" <==>
              m.id in st.commits || (m.id in st.live && st.live[m.id].maxSeq <= m.seqNum
                                     && (forall k :: 1 <= k <= m.seqNum ==> k in st.live[m.id].buffers)
                                     && o.canOpen && WriteBuffers(st.live[m.id].buffers, 1, m.seqNum, o.calls).1)
    ensures Process(st, m, o).1.command == "ACK" ==> m.id in Process(st, m, o).0.commits
  {
    CommitIsAnswered(st, m, o);
    assert |"ACK"| == 3 && |"ERROR"| == 5 && |"ASK_RESEND"| == 10;
    hide IndexOk, Process, OnlyTxn, CutBack, WriteBuffers, Assemble, NameIn;
  }

  lemma Readied(st: Store, m: Message, o: Outside)
    requires IndexOk(st) && o.drawn !in st.live && m.command == "COMMIT" && m.id in st.live && m.id !in st.commits
    requires CommitBody(st.live[m.id], m.id, m.seqNum, o.now).1 == None
    ensures forall j :: 1 <= j <= m.seqNum ==> j in st.live[m.id].buffers
    ensures var (st', r, more) := Process(st, m, o); ReadyAnswer(st, st', r, more, m.id, m.seqNum, o)
  {
    var id, n := m.id, m.seqNum;
    var txn := Txn(st.live[id].attr, st.live[id].buffers, n, o.now);
    var st1 := st.(live := st.live[id := txn]);
    ReadyIs(st, id, n, o.now);
    LiveHasAttributes(st, id);
    ReadyReply(st, m, o, txn);
    OneChanged(st, id, txn);
    DiskIs(st, m, o);
    var all := Assemble(txn.buffers, n);
    assert NameIn(st, id) == Some(NameOf(st, id));
    hide *;
    if DiskFor(st, m, o).FailsAfter? { CutBackIs(st, st1, id, txn, TakeBytes(all, DiskFor(st, m, o).bytes)); }
    if DiskFor(st, m, o).Works? { AppendedIs(st, st1, id, all); }
    AnswerOf(st, Process(st, m, o).0, Process(st, m, o).1, Process(st, m, o).2, id, n, o, DiskFor(st, m, o));
  }

  lemma DiskIs(st: Store, m: Message, o: Outside)
    requires m.id in st.live && CommitBody(st.live[m.id], m.id, m.seqNum, o.now).1 == None
    requires forall j :: 1 <= j <= m.seqNum ==> j in st.live[m.id].buffers
    ensures DiskFor(st, m, o).NoOpen? <==> !o.canOpen
    ensures o.canOpen ==> (DiskFor(st, m, o).Works? <==> WriteBuffers(st.live[m.id].buffers, 1, m.seqNum, o.calls).1)
  {
    hide WriteBuffers, CommitBody;
  }

  lemma AnswerOf(st: Store, st': Store, r: Reply, more: bool, id: TxnId, n: SeqNum, o: Outside, disk: Disk)
    requires id in st.live && (forall j :: 1 <= j <= n ==> j in st.live[id].buffers) && NameIn(st, id).Some?
    requires disk.NoOpen? <==> !o.canOpen
    requires o.canOpen ==> (disk.Works? <==> WriteBuffers(st.live[id].buffers, 1, n, o.calls).1)
    requires var txn, name := Txn(st.live[id].attr, st.live[id].buffers, n, o.now), NameIn(st, id).value;
             match disk
             case NoOpen => r == Reply("ERROR", id, n, 206, "ErrorOpeningFile") && !more && OnlyTxn(st, st', id, txn)
             case FailsAfter(b) => r == Reply("ERROR", id, n, 208, "Error writing file") && !more && CutBack(st, st', id, name, txn)
             case Works => r == Reply("ACK", id, n, 0, "") && more && Appended(st, st', id, name, Assemble(txn.buffers, n))
    ensures ReadyAnswer(st, st', r, more, id, n, o)
  {
    hide WriteBuffers, Assemble, OnlyTxn, CutBack, Appended, NameIn;
  }

  lemma ReadyReply(st: Store, m: Message, o: Outside, txn: Txn)
    requires IndexOk(st) && o.drawn !in st.live && m.command == "COMMIT" && m.id in st.live && m.id !in st.commits
    requires CommitBody(st.live[m.id], m.id, m.seqNum, o.now) == (txn, None)
    requires txn == Txn(st.live[m.id].attr, st.live[m.id].buffers, m.seqNum, o.now) && txn.attr in st.attrs
    ensures var id, n, st1 := m.id, m.seqNum, st.(live := st.live[m.id := txn]);
            Process(st, m, o)
            == match DiskFor(st, m, o)
               case NoOpen => (st1, Reply("ERROR", id, n, 206, "ErrorOpeningFile"), false)
               case FailsAfter(b) => (RolledBack(st1, id, TakeBytes(Assemble(txn.buffers, n), b)),
                   Reply("ERROR", id, n, 208, "Error writing file"), false)
               case Works => (Committed(st1, id, Assemble(txn.buffers, n)), Reply("ACK", id, n, 0, ""), true)
  {
    AckText(m.id, m.seqNum);
    ErrorTable(m.id, m.seqNum);
    hide IndexOk, CommitBody, ReplyOf, Assemble, DiskFor, RolledBack, Committed, TakeBytes;
  }

  lemma ReadyIs(st: Store, id: TxnId, n: SeqNum, now: Time)
    requires id in st.live && CommitBody(st.live[id], id, n, now).1 == None
    ensures forall j :: 1 <= j <= n ==> j in st.live[id].buffers
    ensures CommitBody(st.live[id], id, n, now).0 == Txn(st.live[id].attr, st.live[id].buffers, n, now)
  {
  }

  lemma CutBackIs(st: Store, st1: Store, id: TxnId, txn: Txn, bytes: Data)
    requires id in st.live && txn.attr == st.live[id].attr && txn.attr in st.attrs && st1 == st.(live := st.live[id := txn])
    ensures CutBack(st, RolledBack(st1, id, bytes), id, NameOf(st, id), txn)
  {
    var name := NameOf(st, id);
    var before := Content(st.files, name);
    CutRestoresIff(before, bytes, st.attrs[txn.attr].size);
    OneChanged(st, id, txn);
    hide Resized;
    assert RolledBack(st1, id, bytes).(files := st.files) == st1;
  }

  lemma AppendedIs(st: Store, st1: Store, id: TxnId, data: Data)
    requires IndexOk(st) && id in st.live && st1 == st.(live := st1.live) && id in st1.live && st1.live[id].attr == st.live[id].attr
    requires st1.live == st.live[id := st1.live[id]] && st.live[id].attr in st.attrs
    ensures Appended(st, Committed(st1, id, data), id, NameOf(st, id), data)
  {
    var a, name := st.live[id].attr, NameOf(st, id);
    var files := AppendTo(st.files, name, data);
    var r := Record(id, name, FileSize(files, name));
    var st2 := st1.(files := files, commits := st.commits + {id}, logs := st.logs.(commits := st.logs.commits + Render(r)),
                    attrs := st.attrs[a := st.attrs[a].(size := FileSize(files, name))]);
    CommittedIsEvict(st, st1, st2, id, data);
    SizedIndex(st, st1, st2, id, a);
    hide *;
    Leaves(st, st2, id);
    SameNameSameSize(st2, a, name);
    AppendedFrom(st, st2, Evict(st2, id), id, a, name, data);
  }

  lemma SizedIndex(st: Store, st1: Store, st2: Store, id: TxnId, a: Address)
    requires IndexOk(st) && id in st.live && id in st1.live && st1 == st.(live := st.live[id := st1.live[id]])
    requires st1.live[id].attr == st.live[id].attr && a in st.attrs && a in st2.attrs
    requires st2.live == st1.live && st2.index == st.index && st2.nextAddress == st.nextAddress
    requires st2.attrs == st.attrs[a := st.attrs[a].(size := st2.attrs[a].size)]
    ensures IndexOk(st2)
    ensures forall i :: i in st.live && i != id ==> st2.live[i] == st.live[i] && NameIn(st2, i) == NameIn(st, i)
  {
    hide IndexOk;
    SameUsers(st, st1, id);
    SameIndex(st1, st2);
    OthersNamed(st, st2, id, a);
  }

  lemma OthersNamed(st: Store, st2: Store, id: TxnId, a: Address)
    requires a in st.attrs && a in st2.attrs && id in st.live && st2.live.Keys == st.live.Keys
    requires forall i :: i in st.live && i != id ==> st2.live[i] == st.live[i]
    requires st2.attrs == st.attrs[a := st.attrs[a].(size := st2.attrs[a].size)]
    ensures forall i :: i in st.live && i != id ==> NameIn(st2, i) == NameIn(st, i)
  {
  }

  lemma AppendedFrom(st: Store, st2: Store, st': Store, id: TxnId, a: Address, name: FileName, data: Data)
    requires st2.files == AppendTo(st.files, name, data) && st2.commits == st.commits + {id} && a in st2.attrs
    requires st2.attrs[a].size == FileSize(st2.files, name) && forall b :: b in st2.attrs && st2.attrs[b].name == name ==> b == a
    requires st2.logs == st.logs.(commits := st.logs.commits + Render(Record(id, name, FileSize(st2.files, name))))
    requires id !in st'.live && OthersStay(st, st', id) && st'.files == st2.files && st'.commits == st2.commits && st'.logs == st2.logs
    requires forall b :: b in st'.attrs ==>
               b in st2.attrs && st'.attrs[b].name == st2.attrs[b].name && st'.attrs[b].size == st2.attrs[b].size
    ensures Appended(st, st', id, name, data)
  {
    TornText(Record(id, name, FileSize(st2.files, name)));
    hide Render, IntText, OthersStay;
  }

  lemma CommittedIsEvict(st: Store, st1: Store, st2: Store, id: TxnId, data: Data)
    requires id in st.live && st.live[id].attr in st.attrs && st1 == st.(live := st1.live)
    requires id in st1.live && st1.live[id].attr == st.live[id].attr
    requires var a, name := st.live[id].attr, NameOf(st, id); var files := AppendTo(st.files, name, data);
             st2 == st1.(files := files, commits := st.commits + {id},
                         logs := st.logs.(commits := st.logs.commits + Render(Record(id, name, FileSize(files, name)))),
                         attrs := st.attrs[a := st.attrs[a].(size := FileSize(files, name))])
    ensures Committed(st1, id, data) == Evict(st2, id)
  {
    hide Evict, Render;
  }

  lemma SameUsers(st: Store, st1: Store, id: TxnId)
    requires IndexOk(st) && id in st.live && id in st1.live && st1 == st.(live := st.live[id := st1.live[id]])
    requires st1.live[id].attr == st.live[id].attr
    ensures IndexOk(st1)
  {
    BodyKeepsIndex(st, id, st1.live[id]);
  }

  lemma SameIndex(st: Store, st': Store)
    requires IndexOk(st) && st'.live == st.live && st'.index == st.index && st'.nextAddress == st.nextAddress
    requires st'.attrs.Keys == st.attrs.Keys
    requires forall a :: a in st.attrs ==> st'.attrs[a].name == st.attrs[a].name && st'.attrs[a].refs == st.attrs[a].refs
    ensures IndexOk(st')
  {
    FilesKeepIndex(st, st');
  }

  /** What leaving leaves. */
  lemma Leaves(st: Store, st2: Store, id: TxnId)
    requires IndexOk(st) && IndexOk(st2) && id in st2.live && st2.live.Keys == st.live.Keys
    requires forall i :: i in st.live && i != id ==> st2.live[i] == st.live[i] && NameIn(st2, i) == NameIn(st, i)
    ensures var st' := Evict(st2, id);
            id !in st'.live && OthersStay(st, st', id) && st'.files == st2.files && st'.commits == st2.commits && st'.logs == st2.logs
    ensures var st' := Evict(st2, id);
            forall a :: a in st'.attrs ==>
              a in st2.attrs && st'.attrs[a].name == st2.attrs[a].name && st'.attrs[a].size == st2.attrs[a].size
  {
    hide IndexOk;
    EvictKeepsNames(st2, id);
    hide NameIn;
    EvictParts(st2, id);
    hide Evict;
  }

  lemma EvictKeepsNames(st: Store, id: TxnId)
    requires IndexOk(st) && id in st.live
    ensures forall i :: i != id ==> NameIn(Evict(st, id), i) == NameIn(st, i)
  {
    EvictKeepsIndex(st, id);
    EvictParts(st, id);
    hide Evict;
    var st' := Evict(st, id);
    forall i | i != id ensures NameIn(st', i) == NameIn(st, i) {
      if i in st.live { assert NameOf(st', i) == NameOf(st, i) && st.live[i].attr in st.attrs && st'.live[i].attr in st'.attrs; }
    }
  }

  lemma EvictParts(st: Store, id: TxnId)
    requires id in st.live
    ensures var st' := Evict(st, id);
            && st'.live == st.live - {id} && st'.files == st.files && st'.commits == st.commits && st'.logs == st.logs
            && forall a :: a in st'.attrs ==>
                 a in st.attrs && st'.attrs[a].name == st.attrs[a].name && st'.attrs[a].size == st.attrs[a].size
  {
  }

  lemma SameNameSameSize(st: Store, a: Address, name: FileName)
    requires IndexOk(st) && a in st.attrs && st.attrs[a].name == name
    ensures forall b :: b in st.attrs && st.attrs[b].name == name ==> b == a
  {
  }
}
