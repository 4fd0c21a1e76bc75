/** Crash atomicity: whatever the handlers were doing when the process died, recovery leaves
    every file with the data of exactly the transactions whose commit record is complete, and
    reopens exactly the transactions that were created and never ended. */
module Crash {
  import opened Basics
  import opened Text
  import opened Transactions
  import opened Stores
  import opened LogText
  import opened Machine
  import opened MachineLocks
  import opened MachineSafety
  import opened MachineFrames
  import opened MachineEnds
  import opened MachineFiles
  import opened MachineLogs
  import opened MachineRecords
  import opened MachineSizes
  import opened MachineSerials
  import opened Recovery

  // ---------------------------------------------------------------- the logs read back

  /** A record cut short by the crash is read only if its size was written. */
  lemma LogReadsBack(s: State, kind: LogKind)
    requires TextsOk(s) && RecordsOk(s) && LocksOk(s)
    ensures Parse(s.store.logs.Get(kind)) == Records(s.hist, kind)
  {
    var v := s.hist.views.Get(kind);
    assert TextOk(s.store.logs.Get(kind), v);
    var r := if v.torn == 0 then Record(0, "x", 0) else v.next;
    assert AllReadable(Records(s.hist, kind));
    assert AllReadable(v.records) by { assert forall i :: 0 <= i < |v.records| ==> Records(s.hist, kind)[i] == v.records[i]; }
    if v.torn > 0 { NextIsReadable(s, kind); }
    assert Torn(r, v.torn) == Torn(v.next, v.torn) by { if v.torn == 0 { assert Torn(r, 0) == "" == Torn(v.next, 0); } }
    hide TextsOk, RecordsOk;
    ParsePrinted(v.records, r, v.torn);
  }

  lemma WriterName(s: State, t: Tid)
    requires RecordsOk(s) && t in s.threads && Mid(s.threads[t]) && Shape(s.threads[t])
    requires s.threads[t].pc.p <= 6
    ensures IsWord(s.threads[t].name)
  {
    var th := s.threads[t];
    assert ThreadKnown(s.hist, th) && ThreadNew(s.store, s.hist, th);
    assert AllReadable(Records(s.hist, TransactionLog));
    if !th.req.NewReq? {
      assert Named(th) && CreatedAs(s.hist, th.id, th.name);
    }
  }

  lemma NextIsReadable(s: State, kind: LogKind)
    requires TextsOk(s) && RecordsOk(s) && LocksOk(s) && s.hist.views.Get(kind).torn > 0
    ensures Readable(s.hist.views.Get(kind).next)
  {
    var v := s.hist.views.Get(kind);
    if v.torn > 4 {
      assert AllReadable(Records(s.hist, kind));
      assert Records(s.hist, kind)[|v.records|] == v.next;
    } else {
      assert TornHasWriter(s) && MidsMatch(s);
      var t :| t in s.threads && Mid(s.threads[t]) && KindOf(s.threads[t].req) == kind;
      assert MidMatches(v, s.threads[t]) && Shape(s.threads[t]);
      hide TextsOk, RecordsOk, LocksOk;
      WriterName(s, t);
    }
  }

  function Created(h: History): seq<Record> {
    Records(h, TransactionLog)
  }

  function EndRecords(h: History): seq<Record> {
    Records(h, TimeoutLog) + Records(h, CommitLog) + Records(h, AbortLog)
  }

  lemma LogsReadBack(s: State)
    requires TextsOk(s) && RecordsOk(s) && LocksOk(s)
    ensures AllRecords(s.store.logs) == Created(s.hist) + EndRecords(s.hist)
  {
    hide Records, TextsOk, RecordsOk, LocksOk, Parse;
    LogReadsBack(s, TransactionLog);
    LogReadsBack(s, TimeoutLog);
    LogReadsBack(s, CommitLog);
    LogReadsBack(s, AbortLog);
    Regroup(Records(s.hist, TransactionLog), Records(s.hist, TimeoutLog), Records(s.hist, CommitLog), Records(s.hist, AbortLog));
  }

  lemma Regroup(a: seq<Record>, b: seq<Record>, c: seq<Record>, d: seq<Record>)
    ensures a + b + c + d == a + (b + c + d)
  {
  }

  // ---------------------------------------------------------------- end records are duplicate-free

  lemma {:induction false} EndsOfKindAre(ends: seq<End>, kind: LogKind)
    ensures forall id :: id in EndsOfKind(ends, kind) <==> exists j :: 0 <= j < |ends| && ends[j] == End(id, kind)
  {
    if ends != [] {
      var front, last := ends[..|ends| - 1], ends[|ends| - 1];
      EndsOfKindAre(front, kind);
      assert forall j :: 0 <= j < |front| ==> ends[j] == front[j];
      forall id ensures id in EndsOfKind(ends, kind) <==> exists j :: 0 <= j < |ends| && ends[j] == End(id, kind) {
        if j :| 0 <= j < |front| && front[j] == End(id, kind) { assert ends[j] == End(id, kind); }
        assert ends[|ends| - 1] == last;
      }
    }
  }

  ghost predicate DistinctIds(ids: seq<TxnId>) {
    forall i, j :: 0 <= i < j < |ids| ==> ids[i] != ids[j]
  }

  ghost predicate EndsDistinct(ends: seq<End>) {
    forall i, j :: 0 <= i < j < |ends| ==> ends[i].id != ends[j].id
  }

  lemma {:induction false} EndsOfKindDistinct(ends: seq<End>, kind: LogKind)
    requires EndsDistinct(ends)
    ensures DistinctIds(EndsOfKind(ends, kind))
  {
    if ends != [] {
      var front, last := ends[..|ends| - 1], ends[|ends| - 1];
      assert forall j :: 0 <= j < |front| ==> ends[j] == front[j];
      assert EndsDistinct(front);
      EndsOfKindDistinct(front, kind);
      EndsOfKindAre(front, kind);
      assert last.id !in EndsOfKind(front, kind);
    }
  }

  lemma MentionsIffId(rs: seq<Record>, id: TxnId)
    ensures Mentions(rs, id) <==> id in Ids(rs)
  {
    if Mentions(rs, id) {
      var j :| 0 <= j < |rs| && rs[j].id == id;
      assert Ids(rs)[j] == id;
    }
    if id in Ids(rs) {
      var j :| 0 <= j < |Ids(rs)| && Ids(rs)[j] == id;
      assert rs[j].id == id;
    }
  }

  lemma EndsOfKindFacts(h: History, kind: LogKind)
    requires HistoryOk(h) && EndsOnce(h) && kind != TransactionLog
    ensures Distinct(Records(h, kind))
    ensures forall id :: Mentions(Records(h, kind), id) <==> exists j :: 0 <= j < |h.ends| && h.ends[j] == End(id, kind)
  {
    var rs := Records(h, kind);
    assert Ids(rs) == EndsOfKind(h.ends, kind);
    hide HistoryOk, Records;
    assert EndsDistinct(h.ends);
    EndsOfKindDistinct(h.ends, kind);
    EndsOfKindAre(h.ends, kind);
    forall i, j | 0 <= i < j < |rs| ensures rs[i].id != rs[j].id {
      assert Ids(rs)[i] == rs[i].id && Ids(rs)[j] == rs[j].id;
    }
    forall id ensures Mentions(rs, id) <==> exists j :: 0 <= j < |h.ends| && h.ends[j] == End(id, kind) {
      MentionsIffId(rs, id);
    }
  }

  lemma DistinctConcat(a: seq<Record>, b: seq<Record>)
    requires Distinct(a) && Distinct(b) && forall id :: !(Mentions(a, id) && Mentions(b, id))
    ensures Distinct(a + b)
    ensures forall id :: Mentions(a + b, id) <==> Mentions(a, id) || Mentions(b, id)
  {
    forall i, j | 0 <= i < j < |a + b| ensures (a + b)[i].id != (a + b)[j].id {
      if i < |a| <= j {
        assert Mentions(a, a[i].id) && Mentions(b, b[j - |a|].id);
      }
    }
    forall id ensures Mentions(a + b, id) <==> Mentions(a, id) || Mentions(b, id) {
      if Mentions(a, id) {
        var j :| 0 <= j < |a| && a[j].id == id;
        assert (a + b)[j].id == id;
      }
      if Mentions(b, id) {
        var j :| 0 <= j < |b| && b[j].id == id;
        assert (a + b)[|a| + j].id == id;
      }
    }
  }

  lemma EndRecordFacts(h: History)
    requires HistoryOk(h) && EndsOnce(h)
    ensures Distinct(EndRecords(h))
    ensures forall id :: Mentions(EndRecords(h), id) <==> HasEnded(h, id)
  {
    EndsOfKindFacts(h, TimeoutLog);
    EndsOfKindFacts(h, CommitLog);
    EndsOfKindFacts(h, AbortLog);
    var a, b, c := Records(h, TimeoutLog), Records(h, CommitLog), Records(h, AbortLog);
    assert forall j :: 0 <= j < |h.ends| ==> h.ends[j].kind != TransactionLog;
    assert EndsDistinct(h.ends);
    hide HistoryOk, Records;
    forall id ensures !(Mentions(a, id) && Mentions(b, id)) && !(Mentions(a, id) && Mentions(c, id))
        && !(Mentions(b, id) && Mentions(c, id)) {
      hide Mentions;
      KindsDisjoint(h.ends, id);
    }
    DistinctConcat(a, b);
    DistinctConcat(a + b, c);
    forall id ensures Mentions(EndRecords(h), id) <==> HasEnded(h, id) {
      hide Mentions;
      if HasEnded(h, id) {
        var j :| 0 <= j < |h.ends| && h.ends[j].id == id;
        assert h.ends[j] == End(id, h.ends[j].kind);
      }
    }
  }

  lemma KindsDisjoint(ends: seq<End>, id: TxnId)
    requires EndsDistinct(ends)
    ensures forall i, j, k, k' :: 0 <= i < |ends| && 0 <= j < |ends| && ends[i] == End(id, k) && ends[j] == End(id, k') ==> k == k'
  {
  }

  // ---------------------------------------------------------------- what recovery restores

  lemma CreatedMentions(h: History, id: TxnId)
    ensures Mentions(Created(h), id) <==> IsCreated(h, id)
  {
  }

  /** The transactions recovery reopens: created, never ended, under the name they were created for. */
  lemma ReopensUnended(s: State)
    requires Good(s)
    ensures var open := ReplayAll(AllRecords(s.store.logs)).open;
            && (forall id :: id in open <==> IsCreated(s.hist, id) && !HasEnded(s.hist, id))
            && (forall id, name :: id in open && CreatedAs(s.hist, id, name) ==> open[id] == name)
  {
    var h := s.hist;
    assert HistoryOk(h) && EndsOnce(h) && LocksOk(s);
    LogsReadBack(s);
    EndRecordFacts(h);
    assert Distinct(Created(h));
    forall j | 0 <= j < |EndRecords(h)| ensures Mentions(Created(h), EndRecords(h)[j].id) {
      assert Mentions(EndRecords(h), EndRecords(h)[j].id);
      CreatedMentions(h, EndRecords(h)[j].id);
    }
    hide Good, HistoryOk, Records, EndRecords, AllRecords, ReplayAll;
    ReplayIsSetDifference(Created(h), EndRecords(h));
  }

  lemma InAllRecords(h: History, r: Record)
    ensures r in Created(h) + EndRecords(h) <==> exists kind :: r in Records(h, kind)
  {
    hide Records;
    var a, b, c, d := Records(h, TransactionLog), Records(h, TimeoutLog), Records(h, CommitLog), Records(h, AbortLog);
    assert r in Created(h) + EndRecords(h) <==> r in a || r in b || r in c || r in d;
    if kind :| r in Records(h, kind) {
      match kind
      case TransactionLog => case TimeoutLog => case CommitLog => case AbortLog =>
    }
  }

  /** A file with uncommitted bytes was mentioned when its transaction was created. */
  lemma PendingIsMentioned(s: State, name: FileName)
    requires WritersOk(s) && ThreadsOk(s) && name in s.hist.pending
    ensures exists r :: r in Created(s.hist) && r.name == name
  {
    var t := s.hist.pending[name].writer;
    assert Dirty(s.threads[t]) && Named(s.threads[t]);
    assert ThreadKnown(s.hist, s.threads[t]);
    hide Records, WritersOk, ThreadsOk, Dirty, Named;
    var j :| 0 <= j < |Records(s.hist, TransactionLog)|
             && Records(s.hist, TransactionLog)[j].id == s.threads[t].id && Records(s.hist, TransactionLog)[j].name == name;
    assert Records(s.hist, TransactionLog)[j] in Created(s.hist);
  }

  lemma LoggedSizes(h: History, r: Record)
    requires SizesLogged(h) && r in Created(h) + EndRecords(h)
    ensures r.size <= |Base(h, r.name)|
    ensures exists q :: q in Created(h) + EndRecords(h) && q.name == r.name && q.size == |Base(h, r.name)|
  {
    InAllRecords(h, r);
    hide Records, Base, EndRecords, Created;
    var kind :| r in Records(h, kind);
    var j :| 0 <= j < |Records(h, kind)| && Records(h, kind)[j] == r;
    assert SizeReached(h, Records(h, kind)[j].name);
    var k1, j1 :| 0 <= j1 < |Records(h, k1)| && Records(h, k1)[j1].name == r.name && Records(h, k1)[j1].size == |Base(h, r.name)|;
    var q := Records(h, k1)[j1];
    assert q in Records(h, k1);
    InAllRecords(h, q);
  }

  /** The largest size logged for a file is its committed length. */
  lemma LargestIsCommitted(h: History, name: FileName)
    requires SizesLogged(h) && name in ReplayAll(Created(h) + EndRecords(h)).sizes
    ensures ReplayAll(Created(h) + EndRecords(h)).sizes[name] == |Base(h, name)|
  {
    var rs := Created(h) + EndRecords(h);
    hide Base, ReplayAll, Records, EndRecords, Created, SizesLogged;
    SizesAreMaxima(rs, name);
    var i :| 0 <= i < |rs| && rs[i].name == name && rs[i].size == ReplayAll(rs).sizes[name];
    LoggedSizes(h, rs[i]);
    var q :| q in rs && q.name == name && q.size == |Base(h, name)|;
    var j :| 0 <= j < |rs| && rs[j] == q;
  }

  lemma PendingHasSize(s: State, name: FileName)
    requires WritersOk(s) && ThreadsOk(s) && name in s.hist.pending
    ensures name in ReplayAll(Created(s.hist) + EndRecords(s.hist)).sizes
  {
    PendingIsMentioned(s, name);
    var created, rs := Created(s.hist), Created(s.hist) + EndRecords(s.hist);
    hide ReplayAll, Records, EndRecords, Created, WritersOk, ThreadsOk;
    var r :| r in created && r.name == name;
    var j :| 0 <= j < |created| && created[j] == r;
    assert rs[j].name == name;
    SizesAreMaxima(rs, name);
  }

  /** The sizes recovery truncates to are the committed lengths. */
  lemma SizesAreCommitted(s: State, name: FileName)
    requires Good(s)
    ensures var sizes := ReplayAll(AllRecords(s.store.logs)).sizes;
            && (name in sizes ==> sizes[name] == |Base(s.hist, name)|)
            && (name !in sizes ==> name !in s.hist.pending)
  {
    assert LocksOk(s) && WritersOk(s) && ThreadsOk(s) && SizesLogged(s.hist) && TextsOk(s) && RecordsOk(s);
    hide *;
    LogsReadBack(s);
    if name in ReplayAll(Created(s.hist) + EndRecords(s.hist)).sizes { LargestIsCommitted(s.hist, name); }
    if name in s.hist.pending { PendingHasSize(s, name); }
  }

  /** Crash atomicity, files: at whatever point the process dies, recovery leaves each file as
      its first contents followed by the data of the transactions with a complete commit
      record, in commit order. */
  lemma CrashAtomicity(s: State, st': Store, name: FileName)
    requires Good(s) && Recovered(s.store, st')
    ensures Content(st'.files, name) == Base(s.hist, name)
  {
    SizesAreCommitted(s, name);
    var base, extra := Base(s.hist, name), PendingBytes(s.hist, name);
    assert Content(s.store.files, name) == base + extra by { assert ContentsOk(s.store.files, s.hist); }
    assert (base + extra)[..|base|] == base;
    hide Good, Base, AllRecords, ReplayAll, IndexOk;
    var sizes := ReplayAll(AllRecords(s.store.logs)).sizes;
    assert st'.files == TruncateFiles(s.store.files, sizes);
    hide Recovered;
    if name !in sizes {
      assert extra == "" && base + "" == base;
    }
  }

  // ---------------------------------------------------------------- runs with crashes

  function ViewOf(text: string): LogView {
    LogView(Parse(text), Record(0, "", 0), 0)
  }

  /** The machine right after initializeTransactions. */
  function Restart(h: History, st: Store): State {
    State(map[], None, None, map[], map[], st, false,
          h.(used := st.live.Keys, ends := [], pending := map[],
             views := PerLog(ViewOf(st.logs.transactions), ViewOf(st.logs.timeouts), ViewOf(st.logs.commits), ViewOf(st.logs.aborts))))
  }

  lemma RestartIsSafe(h: History, st: Store)
    requires IndexOk(st) && st.commits == {}
    ensures Safe(Restart(h, st)) && EndsOk(Restart(h, st))
  {
    hide IndexOk, Parse;
  }

  lemma RestartContents(s: State, st': Store)
    requires Good(s) && Recovered(s.store, st')
    ensures ContentsOk(st'.files, Restart(s.hist, st').hist) && SizesOk(Restart(s.hist, st'))
    ensures forall name :: FileSize(st'.files, name) == |Base(Restart(s.hist, st').hist, name)|
  {
    hide Good, Recovered, Base, Restart, IndexOk, ContentsOk;
    var s' := Restart(s.hist, st');
    RestartParts(s.hist, st');
    SameBase(s.hist, s'.hist);
    RecoveredSizes(s.store, st');
    forall name ensures Content(st'.files, name) == Base(s'.hist, name) {
      CrashAtomicity(s, st', name);
    }
    NothingPending(st'.files, s'.hist);
    hide Content;
  }

  lemma NothingPending(files: map<FileName, Data>, h: History)
    requires h.pending == map[] && forall name :: Content(files, name) == Base(h, name)
    ensures ContentsOk(files, h) && forall name :: FileSize(files, name) == |Base(h, name)|
  {
    hide Base, Content;
    forall name ensures Content(files, name) == Base(h, name) + PendingBytes(h, name) {
      assert Base(h, name) + "" == Base(h, name);
    }
  }

  lemma RestartFiles(s: State, st': Store)
    requires Good(s) && Recovered(s.store, st')
    ensures FilesOk(Restart(s.hist, st'))
  {
    RestartContents(s, st');
    assert WholeOk(s.hist) by { assert FilesOk(s); }
    RestartParts(s.hist, st');
    hide *;
    NobodyInFiles(Restart(s.hist, st'), s.hist);
  }

  lemma NobodyInFiles(s: State, h: History)
    requires s.threads == map[] && s.hist.pending == map[] && ContentsOk(s.store.files, s.hist) && SizesOk(s)
    requires WholeOk(h) && s.hist.done == h.done
    ensures FilesOk(s)
  {
    hide ContentsOk, SizesOk;
  }

  lemma RelogWitness(st: Store, st': Store) returns (rs: seq<Record>)
    requires Recovered(st, st')
    ensures Relogs(rs, ReplayAll(AllRecords(st.logs)).open, st'.files) && AllReadable(rs)
    ensures st'.logs == PerLog(RenderAll(rs), "", "", "")
  {
    var open := ReplayAll(AllRecords(st.logs)).open;
    rs :| Relogs(rs, open, st'.files) && st'.logs.transactions == RenderAll(rs);
    RecordsAreReadable(st.logs);
    OpenNamesReadable(AllRecords(st.logs));
    assert AllReadable(rs) by { hide ReplayAll, AllRecords; }
  }

  lemma RestartViews(h: History, st': Store, rs: seq<Record>)
    requires AllReadable(rs) && st'.logs == PerLog(RenderAll(rs), "", "", "")
    ensures var h' := Restart(h, st').hist;
            Records(h', TransactionLog) == rs && Records(h', TimeoutLog) == [] && Records(h', CommitLog) == []
                && Records(h', AbortLog) == []
    ensures TextsOk(Restart(h, st'))
  {
    hide RenderAll, ViewOf, AllReadable, TextsOk, Records;
    var s' := Restart(h, st');
    assert s'.threads == map[] && s'.store == st';
    assert s'.hist.views == PerLog(ViewOf(RenderAll(rs)), ViewOf(""), ViewOf(""), ViewOf(""));
    hide Restart;
    ViewsAreRecords(s', rs);
  }

  lemma ViewsAreRecords(s: State, rs: seq<Record>)
    requires AllReadable(rs) && s.threads == map[] && s.store.logs == PerLog(RenderAll(rs), "", "", "")
    requires s.hist.views == PerLog(ViewOf(RenderAll(rs)), ViewOf(""), ViewOf(""), ViewOf(""))
    ensures Records(s.hist, TransactionLog) == rs
    ensures Records(s.hist, TimeoutLog) == [] && Records(s.hist, CommitLog) == [] && Records(s.hist, AbortLog) == []
    ensures TextsOk(s)
  {
    hide RenderAll, ViewOf, TextOk, TextsOk, AllReadable;
    ViewReads(rs);
    NothingRendered();
    ViewReads([]);
    forall kind
      ensures TextOk(s.store.logs.Get(kind), s.hist.views.Get(kind)) && s.hist.views.Get(kind).torn == 0
    {
      match kind
      case TransactionLog => case TimeoutLog => case CommitLog => case AbortLog =>
    }
    NobodyWrites(s);
  }

  lemma NothingRendered()
    ensures RenderAll([]) == "" && AllReadable([])
  {
  }

  lemma NobodyWrites(s: State)
    requires s.threads == map[]
    requires forall kind :: TextOk(s.store.logs.Get(kind), s.hist.views.Get(kind)) && s.hist.views.Get(kind).torn == 0
    ensures TextsOk(s)
  {
    hide TextOk;
  }

  lemma ViewReads(rs: seq<Record>)
    requires AllReadable(rs)
    ensures var text := RenderAll(rs);
            TextOk(text, ViewOf(text)) && ViewOf(text).torn == 0 && ViewOf(text).CompleteRecords() == rs
  {
    ParseRelogged(rs);
    hide Parse, RenderAll;
    assert Torn(Record(0, "", 0), 0) == "";
    assert RenderAll(rs) + "" == RenderAll(rs);
  }

  lemma RestartRecords(s: State, st': Store)
    requires Good(s) && Recovered(s.store, st')
    ensures RecordsOk(Restart(s.hist, st')) && SizesLogged(Restart(s.hist, st').hist) && TextsOk(Restart(s.hist, st'))
  {
    var s' := Restart(s.hist, st');
    var h' := s'.hist;
    var open := ReplayAll(AllRecords(s.store.logs)).open;
    var rs := RelogWitness(s.store, st');
    hide Good, IndexOk, Base, FileSize, ReplayAll, AllRecords, Restart, Records, Recovered, TextsOk, RecordsOk, SizesOk,
         ContentsOk, SizesLogged;
    RestartViews(s.hist, st', rs);
    RestartContents(s, st');
    RestartParts(s.hist, st');
    RecoveredNames(s.store, st');
    RelogIsHistory(h', rs, open, st'.files);
    RelogIsSized(h', rs, open, st'.files);
    RelogKnowsLive(s', rs, open);
  }

  /** Without threads, records for exactly the live transactions are all there is to say. */
  lemma RelogKnowsLive(s: State, rs: seq<Record>, open: map<TxnId, FileName>)
    requires s.threads == map[] && Relogs(rs, open, s.store.files) && Records(s.hist, TransactionLog) == rs
    requires IndexOk(s.store) && s.store.live.Keys == open.Keys && HistoryOk(s.hist)
    requires forall i :: i in s.store.live ==> NameOf(s.store, i) == open[i]
    ensures RecordsOk(s)
  {
    hide Records, FileSize, HistoryOk;
    LiveAttrs(s.store);
    hide IndexOk;
    forall i | i in s.store.live ensures CreatedAs(s.hist, i, open[i]) {
      assert Mentions(rs, i);
    }
  }

  lemma RestartParts(h: History, st: Store)
    ensures var s' := Restart(h, st);
            && s'.hist.ends == [] && s'.hist.used == st.live.Keys && s'.hist.pending == map[]
            && s'.hist.initial == h.initial && s'.hist.done == h.done
            && s'.threads == map[] && s'.store == st
  {
    hide ViewOf;
  }

  lemma RecoveredSizes(st: Store, st': Store)
    requires Recovered(st, st')
    ensures forall a :: a in st'.attrs ==> st'.attrs[a].size == FileSize(st'.files, st'.attrs[a].name)
  {
    hide ReplayAll, AllRecords, TruncateFiles;
  }

  lemma RecoveredNames(st: Store, st': Store)
    requires Recovered(st, st')
    ensures var open := ReplayAll(AllRecords(st.logs)).open;
            IndexOk(st') && st'.live.Keys == open.Keys && forall id :: id in st'.live ==> NameOf(st', id) == open[id]
  {
    hide ReplayAll, AllRecords, TruncateFiles;
  }

  lemma RelogIsHistory(h: History, rs: seq<Record>, open: map<TxnId, FileName>, files: map<FileName, Data>)
    requires Relogs(rs, open, files) && AllReadable(rs) && h.ends == [] && h.used == open.Keys
    requires Records(h, TransactionLog) == rs && Records(h, TimeoutLog) == [] && Records(h, CommitLog) == [] && Records(h, AbortLog) == []
    ensures HistoryOk(h)
  {
    hide Records, FileSize;
    forall kind ensures AllReadable(Records(h, kind)) {
      match kind
      case TransactionLog => case TimeoutLog => case CommitLog => case AbortLog =>
    }
    forall kind | kind != TransactionLog ensures Ids(Records(h, kind)) == EndsOfKind(h.ends, kind) {
      match kind
      case TimeoutLog => case CommitLog => case AbortLog =>
    }
  }

  lemma RelogIsSized(h: History, rs: seq<Record>, open: map<TxnId, FileName>, files: map<FileName, Data>)
    requires Relogs(rs, open, files)
    requires Records(h, TransactionLog) == rs && Records(h, TimeoutLog) == [] && Records(h, CommitLog) == [] && Records(h, AbortLog) == []
    requires forall name :: FileSize(files, name) == |Base(h, name)|
    ensures SizesLogged(h)
  {
    hide Records, FileSize, Base;
    forall kind, j | 0 <= j < |Records(h, kind)|
      ensures Records(h, kind)[j].size <= |Base(h, Records(h, kind)[j].name)| && SizeReached(h, Records(h, kind)[j].name)
    {
      assert kind == TransactionLog;
      assert Records(h, kind)[j].size == FileSize(files, Records(h, kind)[j].name);
    }
  }

  lemma RestartIsGood(s: State, st': Store)
    requires Good(s) && Recovered(s.store, st')
    ensures Good(Restart(s.hist, st'))
  {
    RestartIsSafe(s.hist, st') by { hide Good, ReplayAll, AllRecords; }
    RestartFiles(s, st');
    RestartRecords(s, st');
    hide Safe, EndsOk, FilesOk, TextsOk, RecordsOk, SizesLogged;
  }

  /** First start: data files but no logs. */
  function Boot(files: map<FileName, Data>): State {
    Restart(History({}, map[], 0, files, [], [], map[], PerLog(ViewOf(""), ViewOf(""), ViewOf(""), ViewOf(""))),
            Store(map[], {}, map[], map[], 0, files, NO_LOGS))
  }

  lemma BootIsGood(files: map<FileName, Data>)
    ensures Good(Boot(files)) && SerialsOk(Boot(files).hist) && AtMostOnce(Boot(files).hist)
    ensures Boot(files).hist.initial == files && Boot(files).hist.done == []
  {
    var s := Boot(files);
    ParseNothing();
    hide Parse;
    RestartIsSafe(s.hist, s.store);
    assert s == Restart(s.hist, s.store);
    assert RenderAll([]) == "" && Torn(Record(0, "", 0), 0) == "" && "" + "" == "";
    forall kind ensures TextOk(s.store.logs.Get(kind), s.hist.views.Get(kind)) && Records(s.hist, kind) == [] {
      match kind
      case TransactionLog => case TimeoutLog => case CommitLog => case AbortLog =>
    }
    hide Safe, EndsOk, TextOk, Records;
    assert FilesOk(s) && TextsOk(s) && RecordsOk(s) && SizesLogged(s.hist) by { BootParts(s, files); }
  }

  lemma BootParts(s: State, files: map<FileName, Data>)
    requires s.threads == map[] && s.store.files == files && s.store.live == map[] && s.store.attrs == map[]
    requires s.hist.initial == files && s.hist.done == [] && s.hist.pending == map[] && s.hist.ends == []
    requires forall kind :: TextOk(s.store.logs.Get(kind), s.hist.views.Get(kind)) && s.hist.views.Get(kind).torn == 0
    requires forall kind :: Records(s.hist, kind) == []
    ensures FilesOk(s) && TextsOk(s) && RecordsOk(s) && SizesLogged(s.hist)
  {
    hide TextOk, Records;
    forall name ensures Content(files, name) == Base(s.hist, name) + PendingBytes(s.hist, name) {
      assert CommittedTo([], name) == "" && Content(files, name) + "" + "" == Content(files, name);
    }
  }

  /** What happens to a server: a thread arrives or steps, or the process dies and restarts some
      time later. */
  datatype Event = Does(l: Label) | Dies(recovered: Store, now: Time)

  ghost function After(s: State, e: Event): Option<State> {
    match e
    case Does(l) => Next(s, l)
    case Dies(st', now) => if RecoveredAt(s.store, now, st') then Some(Restart(s.hist, st')) else None
  }

  ghost function Life(s: State, es: seq<Event>): Option<State>
    decreases |es|
  {
    if es == [] then Some(s)
    else match After(s, es[0])
         case None => None
         case Some(s') => Life(s', es[1..])
  }

  ghost predicate PoliteLife(s: State, es: seq<Event>)
    decreases |es|
  {
    es == [] || ((es[0].Does? ==> Polite(s, es[0].l))
                 && (After(s, es[0]).Some? ==> PoliteLife(After(s, es[0]).value, es[1..])))
  }

  lemma RestartSerials(s: State, st': Store)
    requires Good(s) && SerialsOk(s.hist) && AtMostOnce(s.hist) && Recovered(s.store, st')
    ensures SerialsOk(Restart(s.hist, st').hist) && AtMostOnce(Restart(s.hist, st').hist)
  {
    var h, h' := s.hist, Restart(s.hist, st').hist;
    ReopensUnended(s);
    RecoveredNames(s.store, st');
    assert HistoryOk(h);
    RestartParts(h, st');
    assert h'.serial == h.serial && h'.nextSerial == h.nextSerial by { hide ViewOf; }
    hide Good, Recovered, ReplayAll, AllRecords, Restart, IndexOk, SerialsOk, AtMostOnce;
    CreatedAreUsed(h);
    hide HistoryOk, IsCreated;
    UnendedKeepSerials(h, h');
  }

  lemma CreatedAreUsed(h: History)
    requires HistoryOk(h)
    ensures forall id :: IsCreated(h, id) ==> id in h.used
  {
    hide Records;
  }

  /** Forgetting the ended ids leaves the creation numbers of the others uncommitted. */
  lemma UnendedKeepSerials(h: History, h': History)
    requires SerialsOk(h) && AtMostOnce(h)
    requires h'.done == h.done && h'.serial == h.serial && h'.nextSerial == h.nextSerial
    requires forall id :: id in h'.used ==> id in h.used && !HasEnded(h, id)
    ensures SerialsOk(h') && AtMostOnce(h')
  {
    assert forall n :: CommittedSerial(h', n) <==> CommittedSerial(h, n);
    hide HasEnded, CommittedSerial;
  }

  lemma EventIsGood(s: State, e: Event)
    requires Good(s) && SerialsOk(s.hist) && AtMostOnce(s.hist) && After(s, e).Some?
    requires e.Does? ==> Polite(s, e.l)
    ensures var s' := After(s, e).value;
            Good(s') && SerialsOk(s'.hist) && AtMostOnce(s'.hist) && s'.hist.initial == s.hist.initial
  {
    hide Good, SerialsOk, AtMostOnce, Next, Recovered, Polite, Restart;
    match e
    case Does(l) =>
      NextIsGood(s, l);
      LabelKeepsSerials(s, l);
    case Dies(st', now) =>
      RestartIsGood(s, st');
      RestartSerials(s, st');
      RestartParts(s.hist, st');
  }

  lemma {:induction false} LifeIsGood(s: State, es: seq<Event>)
    requires Good(s) && SerialsOk(s.hist) && AtMostOnce(s.hist) && PoliteLife(s, es) && Life(s, es).Some?
    ensures var s' := Life(s, es).value;
            Good(s') && SerialsOk(s'.hist) && AtMostOnce(s'.hist) && s'.hist.initial == s.hist.initial
    decreases |es|
  {
    hide Good, SerialsOk, AtMostOnce, After, Polite;
    if es != [] {
      EventIsGood(s, es[0]);
      LifeIsGood(After(s, es[0]).value, es[1..]);
    }
  }

  lemma LabelKeepsSerials(s: State, l: Label)
    requires Good(s) && SerialsOk(s.hist) && AtMostOnce(s.hist) && Polite(s, l) && Next(s, l).Some?
    ensures var h' := Next(s, l).value.hist; SerialsOk(h') && AtMostOnce(h') && h'.initial == s.hist.initial
  {
    assert Safe(s) && EndsOk(s) && FreshId(s, l) && TimeoutQuiet(s, l);
    hide Good, Polite, SerialsOk, AtMostOnce, EndsOk, FreshId, TimeoutQuiet;
    NextIsSafe(s, l);
    SafeMeansNoFault(Next(s, l).value) by { hide Next; }
    NextKeepsSerials(s, l);
    match l
    case Arrive(t, req) =>
    case Act(t, c) =>
      OwnRefs(s, t);
      hide Step, Safe;
      DoneEffect(s, t, c);
  }

  // ---------------------------------------------------------------- commitments and the commit log

  /** The complete records of the commit log are those of the last commitments, in order. */
  ghost predicate CommitsLogged(h: History) {
    var rs := Records(h, CommitLog);
    && |rs| <= |h.done|
    && forall i :: 0 <= i < |rs| ==> h.done[|h.done| - |rs| + i].id == rs[i].id && h.done[|h.done| - |rs| + i].name == rs[i].name
  }

  lemma OneMoreCommit(h: History, h': History, r: Record, c: Commitment)
    requires CommitsLogged(h) && Records(h', CommitLog) == Records(h, CommitLog) + [r] && h'.done == h.done + [c]
    requires c.id == r.id && c.name == r.name
    ensures CommitsLogged(h')
  {
    hide Records;
  }

  lemma NoOtherCommit(h: History, h': History)
    requires CommitsLogged(h) && Records(h', CommitLog) == Records(h, CommitLog) && h'.done == h.done
    ensures CommitsLogged(h')
  {
    hide Records;
  }

  lemma StepLogsCommits(s: State, t: Tid, c: Choice)
    requires Safe(s) && TextsOk(s) && CommitsLogged(s.hist) && t in s.threads && Step(s, t, c).Some? && !Step(s, t, c).value.fault
    requires CommitLogQuiet(s, Act(t, c))
    ensures CommitsLogged(Step(s, t, c).value.hist)
  {
    var th := s.threads[t];
    var s' := Step(s, t, c).value;
    OwnRefs(s, t);
    if th.pc == Log(6) {
      RecordEffect(s, t, c);
      if th.req.CommitReq? {
        StepOfLog(s, t, c);
        CommitRecordEffect(s, t);
        hide Safe, TextsOk, CommitsLogged, Step, StepLog, Records, FileSize;
        OneMoreCommit(s.hist, s'.hist, Record(th.id, th.name, FileSize(s.store.files, th.name)), s'.hist.done[|s.hist.done|]);
      } else {
        DoneEffect(s, t, c);
        hide Safe, TextsOk, CommitsLogged, Step, Records;
        NoOtherCommit(s.hist, s'.hist);
      }
    } else {
      StepSameRecords(s, t, c);
      DoneEffect(s, t, c);
      hide Safe, TextsOk, CommitsLogged, Step, Records;
      NoOtherCommit(s.hist, s'.hist);
    }
  }

  lemma EventLogsCommits(s: State, e: Event)
    requires Good(s) && CommitsLogged(s.hist) && After(s, e).Some? && (e.Does? ==> Polite(s, e.l))
    ensures CommitsLogged(After(s, e).value.hist)
  {
    hide CommitsLogged;
    match e
    case Does(Arrive(t, req)) =>
    case Does(Act(t, c)) =>
      assert Safe(s) && TextsOk(s) && FreshId(s, e.l) && TimeoutQuiet(s, e.l) && CommitLogQuiet(s, e.l);
      hide Good, Safe, TextsOk, CommitsLogged, Polite, FreshId, TimeoutQuiet, CommitLogQuiet, Step;
      NextIsSafe(s, e.l);
      SafeMeansNoFault(Next(s, e.l).value);
      StepLogsCommits(s, t, c);
    case Dies(st', now) =>
      hide Good, Polite, Recovered, Restart, Records;
      var rs := RelogWitness(s.store, st');
      RestartViews(s.hist, st', rs);
      NothingLogged(Restart(s.hist, st').hist);
  }

  lemma NothingLogged(h: History)
    requires Records(h, CommitLog) == []
    ensures CommitsLogged(h)
  {
    hide Records;
  }

  lemma {:induction false} LifeLogsCommits(s: State, es: seq<Event>)
    requires Good(s) && SerialsOk(s.hist) && AtMostOnce(s.hist) && PoliteLife(s, es) && Life(s, es).Some? && CommitsLogged(s.hist)
    ensures CommitsLogged(Life(s, es).value.hist)
    decreases |es|
  {
    hide Good, SerialsOk, AtMostOnce, After, Polite, CommitsLogged;
    if es != [] {
      EventIsGood(s, es[0]);
      EventLogsCommits(s, es[0]);
      LifeLogsCommits(After(s, es[0]).value, es[1..]);
    }
  }

  lemma BootLogsCommits(files: map<FileName, Data>)
    ensures CommitsLogged(Boot(files).hist)
  {
    ParseNothing();
    hide Parse;
  }

  lemma CommitLogReadsBack(s: State)
    requires Good(s)
    ensures Parse(s.store.logs.commits) == Records(s.hist, CommitLog)
  {
    assert TextsOk(s) && RecordsOk(s) && Safe(s);
    SafeParts(s);
    hide Good, Safe, TextsOk, RecordsOk, Records, Parse;
    LogReadsBack(s, CommitLog);
  }

  /** The durability promise, over every life of the server: any number of interleaved
      requests, crashes at any point and restarts. After one more crash and recovery each file
      is what it was before the first request, followed by the data 1..n of exactly the
      transactions whose commit record was complete, in commit order, no transaction twice (the
      commit log names the last of them, those since the last recovery, one by one);
      the transactions that were created and never ended are live again, on their files. */
  lemma DurableAndAtomic(files: map<FileName, Data>, es: seq<Event>, recovered: Store)
    requires PoliteLife(Boot(files), es) && Life(Boot(files), es).Some?
    requires Recovered(Life(Boot(files), es).value.store, recovered)
    ensures var h := Life(Boot(files), es).value.hist;
            && (forall name :: Content(recovered.files, name) == Content(files, name) + CommittedTo(h.done, name))
            && AtMostOnce(h) && WholeOk(h)
            && CommitsLogged(h) && Parse(Life(Boot(files), es).value.store.logs.commits) == Records(h, CommitLog)
            && IndexOk(recovered)
            && (forall id :: id in recovered.live <==> IsCreated(h, id) && !HasEnded(h, id))
            && (forall id, name :: id in recovered.live && CreatedAs(h, id, name) ==> NameOf(recovered, id) == name)
  {
    BootIsGood(files);
    BootLogsCommits(files);
    LifeIsGood(Boot(files), es);
    LifeLogsCommits(Boot(files), es);
    var s := Life(Boot(files), es).value;
    hide Life, PoliteLife, Boot;
    CommitLogReadsBack(s);
    assert WholeOk(s.hist) by { assert FilesOk(s); }
    forall name ensures Content(recovered.files, name) == Content(files, name) + CommittedTo(s.hist.done, name) {
      CrashAtomicity(s, recovered, name);
      hide Good, Recovered;
    }
    ReopensUnended(s);
    RecoveredNames(s.store, recovered);
    hide *;
  }
}
