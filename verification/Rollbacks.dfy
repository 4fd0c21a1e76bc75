/** COMMIT truncates after a failed write when it has already given up the file mutex. What
    happens to another commit on that file, wherever the truncation falls. */
module Rollbacks {
  import opened Basics
  import opened Text
  import opened Transactions
  import opened Stores
  import opened LogText
  import opened Machine
  import opened MachineLocks
  import opened MachineSafety
  import opened MachineFrames
  import opened MachineFiles
  import opened MachineSizes
  import opened Solo
  import Effects

  /** Taking the mutex of a file keeps its contents accounted for iff no thread is about to
      truncate it. */
  lemma TakingTheFileIsSafeIff(s: State, u: Tid, c: Choice)
    requires Good(s) && u in s.threads && s.threads[u].pc == LockFile && Step(s, u, c).Some?
    ensures FilesOk(Step(s, u, c).value)
            <==> forall t :: t in s.threads && s.threads[t].pc.Rollback? ==> s.threads[t].attr != s.threads[u].attr
  {
    assert Safe(s) && FilesOk(s);
    hide Good, Safe, FilesOk, Step;
    if forall t :: t in s.threads && s.threads[t].pc.Rollback? ==> s.threads[t].attr != s.threads[u].attr {
      LockFileKeepsFiles(s, u, c);
    } else {
      var t :| t in s.threads && s.threads[t].pc.Rollback? && s.threads[t].attr == s.threads[u].attr;
      TakesOver(s, t, u, c);
    }
  }

  lemma TakesOver(s: State, t: Tid, u: Tid, c: Choice)
    requires Safe(s) && t in s.threads && u in s.threads && s.threads[t].pc == Rollback && s.threads[u].pc == LockFile
    requires s.threads[t].attr == s.threads[u].attr && Step(s, u, c).Some?
    ensures !FilesOk(Step(s, u, c).value)
  {
    TakesTheFile(s, u, c);
    hide *;
    TwoInOneFile(Step(s, u, c).value, t, u);
  }

  lemma TakesTheFile(s: State, u: Tid, c: Choice)
    requires Safe(s) && u in s.threads && s.threads[u].pc == LockFile && Step(s, u, c).Some?
    ensures Step(s, u, c).value == s.(fileOwner := s.fileOwner[s.threads[u].attr := u]).Goto(u, OpenWant)
  {
    OwnRefs(s, u);
    hide Safe, StepCheck1, StepCheck2, StepBody, StepOpen, StepWriting, StepLog, StepResize, StepRollback, StepRemove, StepPick, StepExpire;
  }

  lemma TwoInOneFile(s: State, t: Tid, u: Tid)
    requires t in s.threads && u in s.threads && s.threads[t].pc == Rollback && s.threads[u].pc == OpenWant
    requires s.threads[t].attr == s.threads[u].attr
    ensures !FilesOk(s)
  {
    hide WritersOk, ContentsOk, AllProgressOk, SizesOk, WholeOk;
    assert InFile(s.threads[t]) && InFile(s.threads[u]) && t != u;
  }

  /** Thread t is about to truncate after a failed commit that left `torn` in the file; thread u
      is a ready commit of another transaction on that file, and the file mutex is free. */
  ghost predicate SlippingIn(s: State, t: Tid, u: Tid, before: Data, torn: Data) {
    && t in s.threads && u in s.threads && t != u
    && var tt, uu := s.threads[t], s.threads[u];
    && tt.pc == Rollback && uu.pc == LockFile && tt.req.CommitReq? && uu.req.CommitReq? && tt.id != uu.id
    && tt.attr == uu.attr && tt.name == uu.name && uu.attr in s.store.attrs && s.store.attrs[uu.attr].name == uu.name
    && uu.attr !in s.fileOwner && s.member == None && s.global == None
    && uu.id in s.txnOwner && s.txnOwner[uu.id] == u
    && uu.id in s.store.live && s.store.live[uu.id].attr == uu.attr && Complete(s.store.live[uu.id])
    && uu.name in s.store.files && s.store.files[uu.name] == before + torn
    && s.store.attrs[uu.attr].size == |before|
  }

  /** The data u is going to append. */
  function DataOf(s: State, u: Tid): Data
    requires u in s.threads && s.threads[u].id in s.store.live
  {
    Assemble(s.store.live[s.threads[u].id].buffers, s.store.live[s.threads[u].id].maxSeq)
  }

  /** When t truncates: with `bytes` of u's data in the file (none: before u's first), after
      u's record but before it stores the new size, or after that. */
  datatype Moment = During(bytes: nat) | BeforeResize | AfterResize

  /** What the file holds once both are done. */
  function FinalContent(before: Data, torn: Data, data: Data, m: Moment): Data
    requires m.During? ==> m.bytes <= |data|
  {
    match m
    case During(b) => before + data[b..]
    case BeforeResize => before
    case AfterResize => before + torn + data
  }

  /** The size in u's commit record. */
  function LoggedSize(before: Data, torn: Data, data: Data, m: Moment): nat
    requires m.During? ==> m.bytes <= |data|
  {
    match m
    case During(b) => |before + data[b..]|
    case _ => |before + torn + data|
  }

  /** The file ends as a whole commit after what was there before iff the truncation comes
      before u's first byte, or changes nothing anyway. */
  lemma HarmlessIff(before: Data, torn: Data, data: Data, m: Moment)
    requires m.During? ==> m.bytes <= |data|
    ensures FinalContent(before, torn, data, m) == before + data
            <==> match m
                 case During(b) => b == 0
                 case BeforeResize => data == ""
                 case AfterResize => torn == ""
  {
    var final := FinalContent(before, torn, data, m);
    match m
    case During(b) => assert |final| == |before| + |data| - b && (b == 0 ==> data[b..] == data);
    case BeforeResize => assert |before + data| == |before| + |data| && (data == "" ==> before + data == before);
    case AfterResize => assert |final| == |before| + |torn| + |data| && (torn == "" ==> before + torn == before);
  }

  // ---------------------------------------------------------------- the runs

  /** From the file mutex until b bytes are written. */
  lemma WritesUpTo(s: State, t: Tid, u: Tid, before: Data, torn: Data, b: nat) returns (k: SeqNum, off: nat, s': State)
    requires SlippingIn(s, t, u, before, torn) && b <= |DataOf(s, u)|
    ensures var txn := s.store.live[s.threads[u].id];
            && 1 <= k && (k == 1 || k <= txn.maxSeq + 1)
            && (if k <= txn.maxSeq then off <= |txn.buffers[k]| else off == 0)
            && WrittenSoFar(txn, k, off) == DataOf(s, u)[..b]
            && (b == |DataOf(s, u)| ==> k > txn.maxSeq && off == 0)
    ensures Reaches(false, s, s')
    ensures s' == s.Put(u, s.threads[u].(pc := Writing(k, off)))
                   .(fileOwner := s.fileOwner[s.threads[u].attr := u], hist := s'.hist,
                     store := WithFile(s.store, s.threads[u].name, DataOf(s, u)[..b]))
  {
    var txn := s.store.live[s.threads[u].id];
    var s1 := Opens(s, t, u, before, torn);
    hide SlippingIn, Reaches, WrittenSoFar, Assemble;
    k, off, s' := WritesPart(s1, u, txn, b);
    ReachesThen(false, s, s1, s');
    var part := DataOf(s, u)[..b];
    AppendTwice(s.store, s.threads[u].name, "", part);
    assert "" + part == part;
    Overwrite(s.threads, u);
    hide Writer, Effects.AppendTo, WithFile;
  }

  /** The writing loop until b bytes are written. */
  lemma WritesPart(s: State, u: Tid, txn: Txn, b: nat) returns (k: SeqNum, off: nat, s': State)
    requires Writer(s, u, txn) && s.threads[u].pc == Writing(1, 0) && b <= |Assemble(txn.buffers, txn.maxSeq)|
    ensures 1 <= k && (k == 1 || k <= txn.maxSeq + 1)
    ensures if k <= txn.maxSeq then off <= |txn.buffers[k]| else off == 0
    ensures b == |Assemble(txn.buffers, txn.maxSeq)| ==> k > txn.maxSeq && off == 0
    ensures var part := Assemble(txn.buffers, txn.maxSeq)[..b];
            && WrittenSoFar(txn, k, off) == part && Reaches(false, s, s')
            && s' == s.Put(u, s.threads[u].(pc := Writing(k, off))).(store := WithFile(s.store, s.threads[u].name, part), hist := s'.hist)
  {
    var data := Assemble(txn.buffers, txn.maxSeq);
    if b < |data| {
      k, off := FindByte(txn.buffers, txn.maxSeq, b);
      s' := WritesInto(s, u, txn, k, off);
    } else {
      k, off := if txn.maxSeq >= 0 then txn.maxSeq + 1 else 1, 0;
      assert Assemble(txn.buffers, k - 1) == data == data[..b] && data + "" == data;
      hide Reaches, Assemble;
      s' := BuffersAlone(false, s, u, txn, k);
    }
  }

  lemma WritesInto(s: State, u: Tid, txn: Txn, k: SeqNum, off: nat) returns (s': State)
    requires Writer(s, u, txn) && s.threads[u].pc == Writing(1, 0) && 1 <= k <= txn.maxSeq && off < |txn.buffers[k]|
    ensures Reaches(false, s, s')
    ensures s' == s.Put(u, s.threads[u].(pc := Writing(k, off)))
                   .(store := WithFile(s.store, s.threads[u].name, Assemble(txn.buffers, k - 1) + txn.buffers[k][..off]), hist := s'.hist)
  {
    hide Reaches, Assemble;
    var s2 := BuffersAlone(false, s, u, txn, k);
    s' := ChunkAlone(false, s2, u, txn, k, 0, off);
    assert txn.buffers[k][0..0 + off] == txn.buffers[k][..off];
    ReachesThen(false, s, s2, s');
    hide Writer;
    AppendTwice(s.store, s.threads[u].name, Assemble(txn.buffers, k - 1), txn.buffers[k][..off]);
    Overwrite(s.threads, u);
  }

  lemma Opens(s: State, t: Tid, u: Tid, before: Data, torn: Data) returns (s': State)
    requires SlippingIn(s, t, u, before, torn)
    ensures Reaches(false, s, s') && Writer(s', u, s.store.live[s.threads[u].id])
    ensures var uu := s.threads[u];
            s' == s.Put(u, uu.(pc := Writing(1, 0)))
                   .(fileOwner := s.fileOwner[uu.attr := u], store := WithFile(s.store, uu.name, ""), hist := s'.hist)
  {
    hide Reaches;
    var s1 := LocksForOpen(false, s, u);
    s' := OpenSucceeds(false, s1, u);
    ReachesThen(false, s, s1, s');
    Overwrite(s.threads, u);
  }

  /** From the last byte to the end of the record. */
  lemma RecordsItself(s: State, u: Tid) returns (s': State)
    requires u in s.threads && s.threads[u].pc.Writing? && s.threads[u].pc.off == 0 && s.threads[u].req.CommitReq?
    requires s.threads[u].attr in s.store.attrs && s.global == None
    requires s.threads[u].id in s.store.live && s.threads[u].pc.k > s.store.live[s.threads[u].id].maxSeq
    ensures Reaches(false, s, s')
    ensures var uu := s.threads[u];
            s' == s.Put(u, uu.(pc := Resize)).(hist := s'.hist, store := WithRecord(s.store, uu.id, uu.name))
  {
    hide Reaches, FileSize, Render;
    hide Step;
    Overwrite(s.threads, u);
    var s1 := BeginsRecord(false, s, u);
    s' := LogAlone(false, s1, u);
    ReachesThen(false, s, s1, s');
  }

  function WithRecord(st: Store, id: TxnId, name: FileName): Store {
    Effects.Logged(st.(commits := st.commits + {id}), CommitLog, id, name)
  }

  /** The truncation puts back `kept` when that is the front of the remembered size. */
  lemma Truncates(s: State, t: Tid, name: FileName, kept: Data, extra: Data) returns (s': State)
    requires t in s.threads && s.threads[t].pc == Rollback && s.threads[t].name == name && s.threads[t].attr in s.store.attrs
    requires name in s.store.files && s.store.files[name] == kept + extra && s.store.attrs[s.threads[t].attr].size == |kept|
    ensures Reaches(false, s, s')
    ensures var tt := s.threads[t];
            s' == s.Put(t, tt.(pc := Done(Error(tt.id, SeqNumOf(tt.req), ErrorWritingFile))))
                   .(store := s.store.(files := s.store.files[name := kept]), txnOwner := s.txnOwner - {tt.id}, hist := s'.hist)
  {
    Effects.CutRestoresIff(kept, extra, |kept|);
    hide Reaches, Resized;
    s' := TruncateAlone(false, s, t);
  }

  /** From the stored size to the acknowledgement. */
  lemma Leaves(s: State, u: Tid) returns (s': State)
    requires u in s.threads && s.threads[u].pc == Lock3 && s.threads[u].req.CommitReq? && s.member == None
    requires s.threads[u].id in s.txnOwner && s.txnOwner[s.threads[u].id] == u
    ensures Reaches(false, s, s') && u in s'.threads && s'.threads[u].pc == Done(Ack(s.threads[u].id, s.threads[u].req.seqNum))
    ensures s'.store.files == s.store.files && s'.store.logs == s.store.logs
    ensures forall v :: v in s.threads && v != u ==> v in s'.threads && s'.threads[v] == s.threads[v]
  {
    hide Reaches;
    var id := s.threads[u].id;
    var s0 := s.(txnOwner := s.txnOwner - {id});
    assert s.txnOwner == s0.txnOwner[id := u];
    s' := LeaveAlone(false, s, s0, u);
    EvictTouches(s.store, id);
    hide Evict;
  }

  lemma Closes(s: State, u: Tid) returns (s': State)
    requires u in s.threads && s.threads[u].pc == Resize && s.threads[u].attr in s.store.attrs && s.global == None
    requires s.threads[u].attr in s.fileOwner && s.fileOwner[s.threads[u].attr] == u
    requires s.threads[u].id in s.txnOwner && s.txnOwner[s.threads[u].id] == u
    ensures Reaches(false, s, s')
    ensures var uu := s.threads[u]; var a := s.store.attrs[uu.attr].(size := FileSize(s.store.files, uu.name));
            s' == s.Put(u, uu.(pc := Lock3)).(store := s.store.(attrs := s.store.attrs[uu.attr := a]),
                                              fileOwner := s.fileOwner - {uu.attr}, hist := s'.hist)
  {
    hide Reaches, FileSize;
    var uu := s.threads[u];
    var s0 := s.(txnOwner := s.txnOwner - {uu.id}, fileOwner := s.fileOwner - {uu.attr});
    assert s.txnOwner == s0.txnOwner[uu.id := u] && s.fileOwner == s0.fileOwner[uu.attr := u];
    s' := CloseAlone(false, s, s0, u);
  }

  /** What both are left with. */
  ghost predicate BothAnswered(s: State, t: Tid, u: Tid, size: nat, content: Data, s': State)
    requires t in s.threads && u in s.threads && s.threads[u].req.CommitReq?
  {
    var tt, uu := s.threads[t], s.threads[u];
    && Reaches(false, s, s') && t in s'.threads && u in s'.threads
    && s'.threads[t].pc == Done(Error(tt.id, SeqNumOf(tt.req), ErrorWritingFile))
    && s'.threads[u].pc == Done(Ack(uu.id, uu.req.seqNum))
    && s'.store.logs.commits == s.store.logs.commits + Render(Record(uu.id, uu.name, size))
    && Content(s'.store.files, uu.name) == content
  }

  /** The rest of a commit, from anywhere in its writing loop to the acknowledgement. */
  lemma FinishesFrom(s: State, u: Tid, txn: Txn, k: SeqNum, off: nat) returns (s': State)
    requires Writer(s, u, txn) && s.threads[u].pc == Writing(k, off) && 1 <= k
    requires if k <= txn.maxSeq then off <= |txn.buffers[k]| else off == 0
    requires s.member == None && s.global == None && s.threads[u].attr in s.store.attrs && OwnsBoth(s, u)
    ensures Reaches(false, s, s') && u in s'.threads && s'.threads[u].pc == Done(Ack(s.threads[u].id, s.threads[u].req.seqNum))
    ensures forall v :: v in s.threads && v != u ==> v in s'.threads && s'.threads[v] == s.threads[v]
    ensures var name := s.threads[u].name; var content := Content(s.store.files, name) + Remaining(txn, k, off);
            && s'.store.files == s.store.files[name := content]
            && s'.store.logs.commits == s.store.logs.commits + Render(Record(s.threads[u].id, name, |content|))
  {
    var s2 := RestRecorded(s, u, txn, k, off);
    hide Reaches, Remaining, Render, Writer, WithRecord, WithFile, FileSize;
    var s3 := Closes(s2, u);
    s' := Leaves(s3, u);
    ReachesThen(false, s, s2, s3);
    ReachesThen(false, s, s3, s');
  }

  lemma RestRecorded(s: State, u: Tid, txn: Txn, k: SeqNum, off: nat) returns (s': State)
    requires Writer(s, u, txn) && s.threads[u].pc == Writing(k, off) && 1 <= k
    requires if k <= txn.maxSeq then off <= |txn.buffers[k]| else off == 0
    requires s.global == None && s.threads[u].attr in s.store.attrs
    ensures var uu := s.threads[u]; var content := Content(s.store.files, uu.name) + Remaining(txn, k, off);
            && Reaches(false, s, s') && s' == s.Put(u, uu.(pc := Resize)).(store := s'.store, hist := s'.hist)
            && s'.store.attrs == s.store.attrs && s'.store.files == s.store.files[uu.name := content]
            && s'.store.logs.commits == s.store.logs.commits + Render(Record(uu.id, uu.name, |content|))
  {
    hide Reaches, Remaining, Render;
    var s1 := RestAlone(false, s, u, txn, k, off);
    s' := RecordsItself(s1, u);
    hide Writer;
    ReachesThen(false, s, s1, s');
    Overwrite(s.threads, u);
  }

  ghost predicate OwnsBoth(s: State, u: Tid)
    requires u in s.threads
  {
    var uu := s.threads[u];
    && uu.attr in s.fileOwner && s.fileOwner[uu.attr] == u && uu.id in s.txnOwner && s.txnOwner[uu.id] == u
  }

  lemma CutDuring(s: State, t: Tid, u: Tid, before: Data, torn: Data, b: nat) returns (s': State)
    requires SlippingIn(s, t, u, before, torn) && b <= |DataOf(s, u)|
    ensures BothAnswered(s, t, u, |before + DataOf(s, u)[b..]|, before + DataOf(s, u)[b..], s')
  {
    var uu := s.threads[u];
    var txn := s.store.live[uu.id];
    var k, off, s1 := WritesUpTo(s, t, u, before, torn, b);
    if k <= txn.maxSeq + 1 { WrittenAndRemaining(txn, k, off); }
    RemainingIs(DataOf(s, u), b, WrittenSoFar(txn, k, off), Remaining(txn, k, off), txn, k);
    hide Reaches, Assemble, WrittenSoFar, Remaining, Render;
    var s2 := CutMidway(s, t, u, before, torn, b, k, off, s1);
    hide SlippingIn, Complete, Writer, OwnsBoth;
    s' := FinishesFrom(s2, u, txn, k, off);
    ReachesThen(false, s, s2, s');
  }

  lemma CutMidway(s: State, t: Tid, u: Tid, before: Data, torn: Data, b: nat, k: SeqNum, off: nat, s1: State) returns (s2: State)
    requires SlippingIn(s, t, u, before, torn) && b <= |DataOf(s, u)| && Reaches(false, s, s1)
    requires s1 == s.Put(u, s.threads[u].(pc := Writing(k, off)))
                    .(fileOwner := s.fileOwner[s.threads[u].attr := u], hist := s1.hist,
                      store := WithFile(s.store, s.threads[u].name, DataOf(s, u)[..b]))
    ensures Reaches(false, s, s2) && t in s2.threads && u in s2.threads && s2.member == None && s2.global == None
    ensures s2.threads[u] == s.threads[u].(pc := Writing(k, off)) && s.threads[u].attr in s2.store.attrs
    ensures s2.threads[t].pc == Done(Error(s.threads[t].id, SeqNumOf(s.threads[t].req), ErrorWritingFile))
    ensures Writer(s2, u, s.store.live[s.threads[u].id]) && OwnsBoth(s2, u)
    ensures Content(s2.store.files, s.threads[u].name) == before && s2.store.logs == s.store.logs
  {
    var part := DataOf(s, u)[..b];
    assert before + (torn + part) == before + torn + part;
    hide Reaches, DataOf;
    s2 := Truncates(s1, t, s.threads[u].name, before, torn + part);
    ReachesThen(false, s, s1, s2);
  }

  /** u has recorded its commit, t has not truncated yet. */
  ghost predicate BothIn(s: State, u: Tid, all: Data, s': State)
    requires u in s.threads
  {
    var uu := s.threads[u];
    && Reaches(false, s, s')
    && s'.store.files == s.store.files[uu.name := all]
    && s'.store.logs.commits == s.store.logs.commits + Render(Record(uu.id, uu.name, |all|))
    && s' == s.Put(u, uu.(pc := Resize)).(fileOwner := s.fileOwner[uu.attr := u], hist := s'.hist,
               store := s.store.(files := s'.store.files, logs := s'.store.logs, commits := s'.store.commits))
  }

  /** t has answered, and u has only to leave. */
  ghost predicate OneOut(s: State, t: Tid, u: Tid, all: Data, content: Data, s': State)
    requires t in s.threads && u in s.threads
  {
    var tt, uu := s.threads[t], s.threads[u];
    && Reaches(false, s, s') && t in s'.threads && u in s'.threads && s'.member == None
    && s'.threads[t].pc == Done(Error(tt.id, SeqNumOf(tt.req), ErrorWritingFile)) && s'.threads[u] == uu.(pc := Lock3)
    && uu.id in s'.txnOwner && s'.txnOwner[uu.id] == u
    && s'.store.logs.commits == s.store.logs.commits + Render(Record(uu.id, uu.name, |all|))
    && Content(s'.store.files, uu.name) == content
  }

  /** The truncation after u's record: before or after u stores the new size. */
  lemma CutAfterRecord(s: State, t: Tid, u: Tid, before: Data, torn: Data, resized: bool) returns (s': State)
    requires SlippingIn(s, t, u, before, torn)
    ensures var all := before + torn + DataOf(s, u);
            BothAnswered(s, t, u, |all|, if resized then all else before, s')
  {
    var all := before + torn + DataOf(s, u);
    var s2 := WritesAndRecords(s, t, u, before, torn);
    var s4;
    if resized {
      s4 := CutsSecond(s, t, u, before, torn, s2);
    } else {
      s4 := CutsFirst(s, t, u, before, torn, s2);
    }
    hide Reaches, Render, DataOf, BothIn;
    s' := Leaves(s4, u);
    hide SlippingIn;
    ReachesThen(false, s, s4, s');
  }

  lemma CutsFirst(s: State, t: Tid, u: Tid, before: Data, torn: Data, s2: State) returns (s4: State)
    requires SlippingIn(s, t, u, before, torn) && BothIn(s, u, before + torn + DataOf(s, u), s2)
    ensures OneOut(s, t, u, before + torn + DataOf(s, u), before, s4)
  {
    var data := DataOf(s, u);
    assert before + (torn + data) == before + torn + data;
    hide Reaches, Render, DataOf;
    var s3 := Truncates(s2, t, s.threads[u].name, before, torn + data);
    s4 := Closes(s3, u);
    ReachesThen(false, s, s2, s3);
    ReachesThen(false, s, s3, s4);
  }

  lemma CutsSecond(s: State, t: Tid, u: Tid, before: Data, torn: Data, s2: State) returns (s4: State)
    requires SlippingIn(s, t, u, before, torn) && BothIn(s, u, before + torn + DataOf(s, u), s2)
    ensures OneOut(s, t, u, before + torn + DataOf(s, u), before + torn + DataOf(s, u), s4)
  {
    var all := before + torn + DataOf(s, u);
    assert all + "" == all;
    hide Reaches, Render, DataOf;
    var s3 := Closes(s2, u);
    s4 := Truncates(s3, t, s.threads[u].name, all, "");
    ReachesThen(false, s, s2, s3);
    ReachesThen(false, s, s3, s4);
  }

  lemma WritesAndRecords(s: State, t: Tid, u: Tid, before: Data, torn: Data) returns (s': State)
    requires SlippingIn(s, t, u, before, torn)
    ensures BothIn(s, u, before + torn + DataOf(s, u), s')
  {
    var uu := s.threads[u];
    var data := DataOf(s, u);
    var k, off, s1 := WritesUpTo(s, t, u, before, torn, |data|);
    assert data[..|data|] == data;
    hide Reaches, Assemble, WrittenSoFar, Render, DataOf;
    s' := RecordsItself(s1, u);
    ReachesThen(false, s, s1, s');
    Overwrite(s.threads, u);
  }

  lemma RemainingIs(data: Data, b: nat, written: Data, remaining: Data, txn: Txn, k: SeqNum)
    requires b <= |data| && written == data[..b] && data == Assemble(txn.buffers, txn.maxSeq)
    requires k <= txn.maxSeq + 1 ==> written + remaining == data
    requires k > txn.maxSeq + 1 ==> k == 1 && remaining == ""
    ensures remaining == data[b..]
  {
    if k <= txn.maxSeq + 1 { assert (written + remaining)[b..] == remaining; }
  }

  /** Isolation, exactly: from every state in which a ready commit slips in before a rollback, and
      wherever the truncation then falls, there is a run in which both are answered as usual and
      the file and the commit record are as said. */
  lemma WhereverTheTruncationFalls(s: State, t: Tid, u: Tid, before: Data, torn: Data, m: Moment) returns (s': State)
    requires SlippingIn(s, t, u, before, torn) && (m.During? ==> m.bytes <= |DataOf(s, u)|)
    ensures BothAnswered(s, t, u, LoggedSize(before, torn, DataOf(s, u), m), FinalContent(before, torn, DataOf(s, u), m), s')
  {
    hide SlippingIn, BothAnswered, DataOf;
    match m
    case During(b) => s' := CutDuring(s, t, u, before, torn, b);
    case BeforeResize => s' := CutAfterRecord(s, t, u, before, torn, false);
    case AfterResize => s' := CutAfterRecord(s, t, u, before, torn, true);
  }
}
