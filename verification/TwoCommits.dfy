/** Two COMMITs on different files, no failed write and no timeout: both are acknowledged, and
    one of them is gone at the next recovery. */
module TwoCommits {
  import opened Basics
  import opened Text
  import opened Transactions
  import opened Stores
  import opened LogText
  import opened Machine
  import opened Effects
  import opened MachineSizes
  import opened Solo
  import opened Recovery
  import Interleaving
  import Rollbacks
  import Witnesses

  /** Thread 4 has committed i but for five pieces of its record. */
  ghost predicate MidRecord(s: State, i: TxnId, f: FileName, d: Data, j: TxnId, g: FileName, e: Data) {
    && 4 in s.threads && 5 !in s.threads && !s.fault && s.member == None && s.global == None
    && s.threads[4] == Thread(CommitReq(i, 1), Log(3), i, 0, f)
    && s.txnOwner == map[i := 4] && s.fileOwner == map[0 := 4]
    && s.store == Opened(i, f, d, j, g, e)
  }

  /** Its store: the id is all there is in the commit log. */
  function Opened(i: TxnId, f: FileName, d: Data, j: TxnId, g: FileName, e: Data): Store {
    var st := Witnesses.Store2(i, f, d, j, g, e);
    st.(files := map[f := d], commits := {i}, logs := st.logs.(commits := IntText(i)))
  }

  /** The commit log in the end. */
  function Mixed(i: TxnId, f: FileName, d: Data, j: TxnId, g: FileName, e: Data): string {
    var r := Record(i, f, |d|);
    Torn(r, 1) + (Render(Record(j, g, |e|)) + Pieces(r, 1, PIECES))
  }

  lemma OneIdWritten(s: State, i: TxnId, f: FileName, d: Data, j: TxnId, g: FileName, e: Data) returns (s': State)
    requires Witnesses.Calm(s, Witnesses.Store2(i, f, d, j, g, e), 4) && i != j && f != g
    ensures Reaches(false, s, s') && MidRecord(s', i, f, d, j, g, e)
  {
    hide Reaches;
    Witnesses.CalmAlone(s, s.store, 4, i, f, 0);
    Witnesses.CommitReady(i, j, f, d, e);
    Witnesses.Store2Index(i, f, d, j, g, e);
    var txn, s1 := OpenReady(false, s, 4, i, 1, 0);
    Witnesses.One(d);
    hide Assemble, CommitBody;
    var s2 := WriteAllAlone(false, s, 4, i, 1, txn, s1);
    hide HoldsBoth, Alone, IndexOk, Opened, Solo.Opened;
    Overwrite(s.threads, 4);
    assert s.store.live[i := txn] == s.store.live && "" + d == d && map[][f := d] == map[f := d];
    assert s2.store == s.store.(files := map[f := d]);
    s' := BeginsWriting(s2, i, f, d);
    ReachesThen(false, s, s1, s2);
    ReachesThen(false, s, s2, s');
    hide Writer;
    ThatIsMid(s', s, i, f, d, j, g, e);
  }

  lemma ThatIsMid(s': State, s: State, i: TxnId, f: FileName, d: Data, j: TxnId, g: FileName, e: Data)
    requires Witnesses.Calm(s, Witnesses.Store2(i, f, d, j, g, e), 4)
    requires s' == s.Put(4, Thread(CommitReq(i, 1), Log(3), i, 0, f))
                    .(store := s.store.(files := map[f := d], commits := {i}, logs := s.store.logs.(commits := IntText(i))),
                      txnOwner := s.txnOwner[i := 4], fileOwner := s.fileOwner[0 := 4], hist := s'.hist)
    ensures MidRecord(s', i, f, d, j, g, e)
  {
    hide Witnesses.Store2, IntText;
  }

  lemma BeginsWriting(s: State, i: TxnId, f: FileName, d: Data) returns (s': State)
    requires 4 in s.threads && s.threads[4] == Thread(CommitReq(i, 1), Writing(2, 0), i, 0, f) && s.global == None
    requires i in s.store.live && s.store.live[i].maxSeq == 1 && 0 in s.store.attrs
    requires s.store.logs.commits == "" && s.store.commits == {}
    ensures Reaches(false, s, s')
    ensures s' == s.Put(4, Thread(CommitReq(i, 1), Log(3), i, 0, f))
                   .(store := s.store.(commits := {i}, logs := s.store.logs.(commits := IntText(i))), hist := s'.hist)
  {
    hide Reaches;
    var s1 := BeginsRecord(false, s, 4);
    assert {} + {i} == {i};
    var s2 := LogOpens(false, s1, 4);
    s' := PiecesAlone(false, s2, 4, 0, 1);
    var r := RecordOf(s2.threads[4], s2.store);
    TornText(r);
    AllPieces(r, 1);
    assert "" + IntText(i) == IntText(i);
    ReachesThen(false, s, s1, s2);
    ReachesThen(false, s, s2, s');
    Overwrite(s.threads, 4);
    hide Pieces, FileSize, IntText;
  }

  /** The other commit runs from arrival to answer. */
  lemma OtherCommits(s: State, i: TxnId, f: FileName, d: Data, j: TxnId, g: FileName, e: Data) returns (s': State)
    requires MidRecord(s, i, f, d, j, g, e) && i != j && f != g
    ensures Reaches(false, s, s') && 5 in s'.threads && s'.threads[5].pc == Done(Ack(j, 1))
    ensures s' == s.(threads := s.threads[5 := s'.threads[5]], store := s'.store, hist := s'.hist)
    ensures 0 in s'.store.attrs && s'.store.files == map[f := d, g := e] && s'.store.commits == {i, j}
    ensures s'.store.logs == s.store.logs.(commits := IntText(i) + Render(Record(j, g, |e|)))
  {
    hide Reaches, IntText;
    OpenedIndex(i, f, d, j, g, e);
    Witnesses.One(e);
    hide IndexOk, Assemble, CommitBody;
    s' := CommitAlone(false, s, 5, j, 1, 0, Works);
    OtherCommitted(i, f, d, j, g, e);
  }

  lemma OpenedIndex(i: TxnId, f: FileName, d: Data, j: TxnId, g: FileName, e: Data)
    requires i != j
    ensures IndexOk(Opened(i, f, d, j, g, e))
  {
    Witnesses.Store2Index(i, f, d, j, g, e);
    hide Witnesses.Store2;
  }

  lemma OtherCommitted(i: TxnId, f: FileName, d: Data, j: TxnId, g: FileName, e: Data)
    requires i != j && f != g && IndexOk(Opened(i, f, d, j, g, e)) && Assemble(map[1 := e], 1) == e
    ensures var (st', resp) := CommitEffect(Opened(i, f, d, j, g, e), j, 1, 0, Works);
            && resp == Ack(j, 1) && 0 in st'.attrs && st'.files == map[f := d, g := e] && st'.commits == {i, j}
            && st'.logs == Opened(i, f, d, j, g, e).logs.(commits := IntText(i) + Render(Record(j, g, |e|)))
  {
    hide IntText, Render, Assemble, IndexOk;
    var st := Opened(i, f, d, j, g, e);
    assert "" + e == e;
    var all := map[f := d, g := e];
    assert AppendTo(st.files, g, e) == all;
  }

  /** The rest of the first record, the size, and the acknowledgement. */
  lemma FirstFinishes(s: State, i: TxnId, f: FileName, d: Data, j: TxnId, g: FileName, e: Data) returns (s': State)
    requires MidFinish(s, i, f, d, j, g, e)
    ensures Reaches(false, s, s')
    ensures 4 in s'.threads && s'.threads[4].pc == Done(Ack(i, 1)) && 5 in s'.threads && s'.threads[5] == s.threads[5]
    ensures s'.store.files == s.store.files && s'.store.logs == s.store.logs.(commits := Mixed(i, f, d, j, g, e))
  {
    hide Reaches, Render, IntText, Pieces;
    var r := Record(i, f, |d|);
    assert RecordOf(s.threads[4], s.store) == r;
    TornText(r);
    var s1 := PiecesAlone(false, s, 4, 1, PIECES);
    Assoc(IntText(i), Render(Record(j, g, |e|)), Pieces(r, 1, PIECES));
    hide Torn, Mixed;
    s' := LeavesAfterRecord(s1);
    ReachesThen(false, s, s1, s');
  }

  lemma LeavesAfterRecord(s: State) returns (s': State)
    requires 4 in s.threads && s.threads[4].pc == Log(8) && s.threads[4].req.CommitReq? && s.member == None && s.global == None
    requires s.txnOwner == map[s.threads[4].id := 4] && s.fileOwner == map[s.threads[4].attr := 4] && s.threads[4].attr in s.store.attrs
    ensures Reaches(false, s, s')
    ensures 4 in s'.threads && s'.threads[4].pc == Done(Ack(s.threads[4].id, s.threads[4].req.seqNum))
    ensures s'.store.files == s.store.files && s'.store.logs == s.store.logs
    ensures forall u :: u in s.threads && u != 4 ==> u in s'.threads && s'.threads[u] == s.threads[u]
  {
    hide Reaches, FileSize;
    var s1 := LogCloses(false, s, 4);
    var s2 := Rollbacks.Closes(s1, 4);
    s' := Rollbacks.Leaves(s2, 4);
    ReachesThen(false, s, s1, s2);
    ReachesThen(false, s, s2, s');
  }

  ghost predicate MidFinish(s: State, i: TxnId, f: FileName, d: Data, j: TxnId, g: FileName, e: Data) {
    && 4 in s.threads && 5 in s.threads && s.member == None && s.global == None
    && s.threads[4] == Thread(CommitReq(i, 1), Log(3), i, 0, f)
    && s.txnOwner == map[i := 4] && s.fileOwner == map[0 := 4]
    && 0 in s.store.attrs && f != g && s.store.files == map[f := d, g := e]
    && s.store.logs.commits == IntText(i) + Render(Record(j, g, |e|))
  }

  /** What recovery makes of the mixed log: one record, and that for the other file. */
  lemma MixedRecords(i: TxnId, f: FileName, d: Data, j: TxnId, g: FileName, e: Data) returns (merged: TxnId)
    requires IsWord(f) && IsWord(g) && 0 <= i && 0 <= j && i != j && f != g && NoNumber(f)
    ensures Parse(Mixed(i, f, d, j, g, e)) == [Record(merged, g, |e|)]
  {
    var r, r2 := Record(i, f, |d|), Record(j, g, |e|);
    hide Torn, Render, Pieces, Digits, Parse;
    merged := Value(Digits(i) + Digits(j));
    Interleaving.BothIdsFirst(r, r2);
    NothingFollows(r);
  }

  /** The name does not begin like a number. */
  predicate NoNumber(name: FileName) {
    name != "" && !IsDigit(name[0]) && name[0] != '+' && name[0] != '-'
  }

  lemma NothingFollows(r: Record)
    requires Readable(r) && NoNumber(r.name)
    ensures Parse(Interleaving.Headless(r, "\n")) == []
  {
    hide IntText;
    var text := Interleaving.Headless(r, "\n");
    var after := " " + (IntText(r.size) + "\n");
    assert text == " " + (r.name + after) && text[1..] == r.name + after && (r.name + after)[0] == r.name[0];
    assert SkipSpace(text) == SkipSpace(r.name + after) == r.name + after;
  }

  /** The size recovery gives to f is 0: f is deleted. */
  lemma NothingLeft(logs: PerLog<string>, i: TxnId, f: FileName, j: TxnId, g: FileName, merged: TxnId, size: nat)
    requires IsWord(f) && IsWord(g) && f != g
    requires logs.transactions == Render(Record(i, f, 0)) + Render(Record(j, g, 0)) && logs.timeouts == "" && logs.aborts == ""
    requires Parse(logs.commits) == [Record(merged, g, size)]
    ensures f in ReplayAll(AllRecords(logs)).sizes && ReplayAll(AllRecords(logs)).sizes[f] == 0
  {
    hide Render, Parse, ReplayAll;
    ParseNothing();
    Witnesses.TwoCreations(i, f, j, g);
    var rs := [Record(i, f, 0), Record(j, g, 0), Record(merged, g, size)];
    assert AllRecords(logs) == rs;
    assert rs[0].name == f;
    SizesAreMaxima(rs, f);
  }

  /** Durability fails in ordinary use: two clients commit to two files at the same time, every
      system call succeeds, both are acknowledged and both files are complete. If the process is
      then restarted, one of the files is empty. */
  lemma AcknowledgedCommitIsForgotten(i: TxnId, f: FileName, d: Data, j: TxnId, g: FileName, e: Data) returns (s: State)
    requires IsWord(f) && IsWord(g) && f != g && 0 <= i && 0 <= j && i != j && NoNumber(f)
    ensures Reaches(false, Witnesses.Empty(), s)
    ensures 4 in s.threads && s.threads[4].pc == Done(Ack(i, 1)) && 5 in s.threads && s.threads[5].pc == Done(Ack(j, 1))
    ensures Content(s.store.files, f) == d && Content(s.store.files, g) == e
    ensures forall st' :: Recovered(s.store, st') ==> Content(st'.files, f) == ""
  {
    hide Reaches, Good, Witnesses.Empty, Recovered, ReplayAll, AllRecords, Parse, Render, Mixed;
    var s0 := Witnesses.TwoTransactions(i, f, d, j, g, e);
    Witnesses.Unpolite(Witnesses.Empty(), s0);
    var s1 := OneIdWritten(s0, i, f, d, j, g, e);
    var s2 := OtherCommits(s1, i, f, d, j, g, e);
    s := FirstFinishes(s2, i, f, d, j, g, e);
    ReachesThen(false, Witnesses.Empty(), s0, s1);
    ReachesThen(false, Witnesses.Empty(), s1, s2);
    ReachesThen(false, Witnesses.Empty(), s2, s);
    var merged := MixedRecords(i, f, d, j, g, e);
    NothingLeft(s.store.logs, i, f, j, g, merged, |e|);
    forall st' | Recovered(s.store, st') ensures Content(st'.files, f) == "" {
      Witnesses.Deleted(s.store, st', f);
    }
  }
}
