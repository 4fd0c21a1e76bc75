/** How far the promises reach: for each premise of the main theorems, exactly when the step it
    restricts does no harm, and what the harm is. */
module Limits {
  import opened Basics
  import opened Text
  import opened Transactions
  import opened Stores
  import opened LogText
  import opened Machine
  import opened MachineLocks
  import opened MachineSafety
  import opened MachineFrames
  import opened MachineEnds
  import opened MachineFiles
  import opened MachineLogs
  import opened MachineRecords
  import opened MachineSizes
  import opened Recovery
  import opened Crash

  // ---------------------------------------------------------------- one request at a time

  /** At most one handler is unfinished. */
  ghost predicate OneAtATime(s: State) {
    forall t, u :: t in s.threads && u in s.threads && !s.threads[t].pc.Done? && !s.threads[u].pc.Done? ==> t == u
  }

  /** A server used one request at a time meets every premise iff its ids are fresh and its file
      names readable: the others only restrict overlaps. */
  lemma SequentialUseIsPolite(s: State, l: Label)
    requires Good(s) && OneAtATime(s)
    ensures Polite(s, l) <==> FreshId(s, l) && NameReadable(l)
  {
    assert WritersOk(s) by { assert FilesOk(s); }
    hide Good, FreshId, NameReadable, TimeoutQuiet, RollbackQuiet, CommitLogQuiet, RecordQuiet, OneAtATime, WritersOk;
    OverlapsAreQuiet(s, l);
    NothingHalfWritten(s, l);
  }

  lemma OverlapsAreQuiet(s: State, l: Label)
    requires OneAtATime(s)
    ensures TimeoutQuiet(s, l) && RollbackQuiet(s, l) && CommitLogQuiet(s, l)
  {
    hide Expired;
  }

  lemma NothingHalfWritten(s: State, l: Label)
    requires OneAtATime(s) && WritersOk(s)
    ensures RecordQuiet(s, l)
  {
    if l.Act? && l.t in s.threads && s.threads[l.t].pc == Log(6) && s.threads[l.t].name in s.hist.pending {
      var u := s.hist.pending[s.threads[l.t].name].writer;
      assert u in s.threads && Dirty(s.threads[u]);
      assert u == l.t;
    }
  }

  /** Unless a request arrives while another is unfinished, it stays one at a time. */
  lemma OneAtATimeStays(s: State, l: Label)
    requires OneAtATime(s) && LocksOk(s) && Next(s, l).Some?
    requires l.Arrive? ==> forall t :: t in s.threads ==> s.threads[t].pc.Done?
    ensures OneAtATime(Next(s, l).value)
  {
    match l
    case Arrive(t, req) =>
    case Act(t, c) =>
      assert Shape(s.threads[t]);
      hide Step, LocksOk, LockMove;
      StepMovesLocks(s, t, c);
      StepMovesOne(s, t, Next(s, l).value);
      assert !s.threads[t].pc.Done? by { if s.threads[t].pc.Done? { StepOfDone(s, t, c); } }
  }

  lemma StepMovesOne(s: State, t: Tid, s': State)
    requires t in s.threads && LockMove(s, t, s')
    ensures t in s'.threads && s'.threads == s.threads[t := s'.threads[t]]
  {
  }

  /** A whole run in which no request arrives before the last one is answered. */
  ghost predicate SequentialRun(s: State, ls: seq<Label>)
    decreases |ls|
  {
    ls == [] || (FreshId(s, ls[0]) && NameReadable(ls[0])
                 && (ls[0].Arrive? ==> forall t :: t in s.threads ==> s.threads[t].pc.Done?)
                 && (Next(s, ls[0]).Some? ==> SequentialRun(Next(s, ls[0]).value, ls[1..])))
  }

  lemma {:induction false} SequentialRunIsGood(s: State, ls: seq<Label>)
    requires Good(s) && OneAtATime(s) && SequentialRun(s, ls) && Run(s, ls).Some?
    ensures PoliteRun(s, ls) && Good(Run(s, ls).value) && OneAtATime(Run(s, ls).value)
    decreases |ls|
  {
    hide Good, Polite, OneAtATime, Next, FreshId, NameReadable;
    if ls != [] {
      SequentialUseIsPolite(s, ls[0]);
      NextIsGood(s, ls[0]);
      assert LocksOk(s) by { GoodHasLocks(s); }
      OneAtATimeStays(s, ls[0]);
      SequentialRunIsGood(Next(s, ls[0]).value, ls[1..]);
    }
  }

  lemma GoodHasLocks(s: State)
    requires Good(s)
    ensures LocksOk(s)
  {
    hide LocksOk;
  }

  // ---------------------------------------------------------------- reused ids

  lemma {:induction false} OccurrencesConcat(a: seq<Record>, b: seq<Record>, id: TxnId)
    ensures Occurrences(a + b, id) == Occurrences(a, id) + Occurrences(b, id)
  {
    if b == [] {
      assert a + b == a;
    } else {
      assert (a + b)[..|a + b| - 1] == a + b[..|b| - 1];
      OccurrencesConcat(a, b[..|b| - 1], id);
    }
  }

  /** Toggling finds the right ids even when ids are used again: an id that was ended each time
      before it was created anew is left open iff its last life was not ended. */
  lemma ReuseKeepsTheOpenIds(created: seq<Record>, ended: seq<Record>, id: TxnId)
    requires Occurrences(ended, id) <= Occurrences(created, id) <= Occurrences(ended, id) + 1
    ensures id in ReplayAll(created + ended).open <==> Occurrences(created, id) > Occurrences(ended, id)
  {
    OpenIffOdd(created + ended, id);
    OccurrencesConcat(created, ended, id);
    hide ReplayAll, Occurrences;
  }

  /** The file name of the last record of an id. */
  function LastName(rs: seq<Record>, id: TxnId): Option<FileName> {
    if rs == [] then None
    else if rs[|rs| - 1].id == id then Some(rs[|rs| - 1].name)
    else LastName(rs[..|rs| - 1], id)
  }

  lemma {:induction false} OpenUnderLastName(rs: seq<Record>, id: TxnId)
    ensures id in ReplayAll(rs).open ==> LastName(rs, id) == Some(ReplayAll(rs).open[id])
  {
    if rs != [] { OpenUnderLastName(rs[..|rs| - 1], id); }
  }

  lemma {:induction false} LastNameConcat(a: seq<Record>, b: seq<Record>, id: TxnId)
    ensures LastName(a + b, id) == if LastName(b, id).Some? then LastName(b, id) else LastName(a, id)
  {
    if b == [] {
      assert a + b == a;
    } else {
      assert (a + b)[..|a + b| - 1] == a + b[..|b| - 1];
      LastNameConcat(a, b[..|b| - 1], id);
    }
  }

  /** But it may not find the right file: since all creations are read before all ends, a
      reopened transaction comes back on its file iff no earlier life of its id ended, or the
      end read last was on that same file. */
  lemma ReuseKeepsTheFileIff(created: seq<Record>, ended: seq<Record>, id: TxnId)
    requires id in ReplayAll(created + ended).open
    ensures LastName(created, id) == Some(ReplayAll(created + ended).open[id])
            <==> LastName(ended, id) == None || LastName(ended, id) == LastName(created, id)
  {
    OpenUnderLastName(created + ended, id);
    LastNameConcat(created, ended, id);
  }

  // ---------------------------------------------------------------- timeouts and handlers

  /** Expiring a transaction keeps every reference sound iff no handler is past its re-check. */
  lemma ExpiryIsSafeIff(s: State, t: Tid, c: Choice)
    requires Safe(s) && t in s.threads && s.threads[t].pc == Expire && Expired(s, s.threads[t].id, c.now)
    ensures Step(s, t, c).Some? && (Safe(Step(s, t, c).value) <==> Quiet(s, s.threads[t].id))
  {
    var id := s.threads[t].id;
    assert Step(s, t, c) == Some(StepExpire(s, t, c)) by { hide StepExpire; }
    if Quiet(s, id) {
      hide Safe, Step, StepExpire, Quiet;
      NextIsSafe(s, Act(t, c)) by { NextIs(s, t, c); }
      NextIs(s, t, c);
    } else {
      var u :| u in s.threads && PastCheck(s.threads[u]) && s.threads[u].id == id;
      LiveAttrs(s.store);
      ExpiryLeavesOthers(s, t, u, c);
      hide Step, StepExpire, IndexOk, LocksOk, PastCheck;
      var s' := Step(s, t, c).value;
      assert !RefsOk(s'.store, s'.threads[u]);
    }
  }

  lemma NextIs(s: State, t: Tid, c: Choice)
    requires t in s.threads
    ensures Next(s, Act(t, c)) == Step(s, t, c)
    ensures s.threads[t].pc.Expire? && Quiet(s, s.threads[t].id) ==> TimeoutQuiet(s, Act(t, c)) && FreshId(s, Act(t, c))
  {
    hide Step;
  }

  lemma ExpiryLeavesOthers(s: State, t: Tid, u: Tid, c: Choice)
    requires t in s.threads && u in s.threads && s.threads[t].pc == Expire && Expired(s, s.threads[t].id, c.now)
    requires PastCheck(s.threads[u]) && s.store.live[s.threads[t].id].attr in s.store.attrs
    ensures var s' := StepExpire(s, t, c);
            u in s'.threads && s'.threads[u] == s.threads[u] && s.threads[t].id !in s'.store.live
  {
    EvictTouches(s.store, s.threads[t].id);
    hide Evict;
  }

  // ---------------------------------------------------------------- sizes logged in the middle of a commit

  lemma ContentAtSize(files: map<FileName, Data>, sizes: map<FileName, int>, name: FileName)
    requires name in sizes && sizes[name] == FileSize(files, name)
    ensures Content(TruncateFiles(files, sizes), name) == Content(files, name)
  {
    if name in files { assert files[name][..|files[name]|] == files[name]; }
  }

  lemma LoggedOver(h: History, h': History, kind: LogKind, r: Record)
    requires SizesLogged(h) && r.size >= |Base(h, r.name)| && kind in {TransactionLog, TimeoutLog, CommitLog, AbortLog}
    requires forall k :: Records(h', k) == Records(h, k) + if k == kind then [r] else []
    ensures r in Created(h') + EndRecords(h')
    ensures forall q :: q in Created(h') + EndRecords(h') && q.name == r.name ==> q.size <= r.size
  {
    hide Base;
    assert r in Records(h', kind);
    InAllRecords(h', r);
    forall q | q in Created(h') + EndRecords(h') && q.name == r.name ensures q.size <= r.size {
      InAllRecords(h', q);
      hide Records, Created, EndRecords;
      var k :| q in Records(h', k);
      if q != r {
        assert q in Records(h, k);
        var j :| 0 <= j < |Records(h, k)| && Records(h, k)[j] == q;
      }
    }
  }

  lemma LargestIsRecovered(s: State, r: Record)
    requires TextsOk(s) && RecordsOk(s) && LocksOk(s)
    requires r in Created(s.hist) + EndRecords(s.hist)
    requires forall q :: q in Created(s.hist) + EndRecords(s.hist) && q.name == r.name ==> q.size <= r.size
    ensures var sizes := ReplayAll(AllRecords(s.store.logs)).sizes; r.name in sizes && sizes[r.name] == r.size
  {
    hide TextsOk, RecordsOk, LocksOk, AllRecords, ReplayAll, Records, Created, EndRecords;
    LogsReadBack(s);
    var rs := Created(s.hist) + EndRecords(s.hist);
    SizesAreMaxima(rs, r.name);
    var j :| 0 <= j < |rs| && rs[j] == r;
    assert rs[j].name == r.name;
  }

  /** A creation, abort or timeout record of a file, followed by a crash: the file recovers to
      its committed contents iff no commit had put bytes into it. */
  lemma RecordDuringCommitIff(s: State, t: Tid, c: Choice, st': Store)
    requires Good(s) && t in s.threads && s.threads[t].pc == Log(6) && !s.threads[t].req.CommitReq?
    requires Step(s, t, c).Some? && Recovered(Step(s, t, c).value.store, st')
    ensures var name := s.threads[t].name;
            && Content(st'.files, name) == Content(s.store.files, name)
            && (Content(st'.files, name) == Base(s.hist, name) <==> PendingBytes(s.hist, name) == "")
  {
    var s' := Step(s, t, c).value;
    var th := s.threads[t];
    var name := th.name;
    var r := Record(th.id, name, FileSize(s.store.files, name));
    RecordStepFacts(s, t, c);
    assert Safe(s) && FilesOk(s) && SizesLogged(s.hist);
    hide Good, Safe, FilesOk, SizesLogged, Step, Base, TextsOk, RecordsOk, LocksOk, AddsRecord, Recovered;
    ContentsAt(s, name);
    LoggedOver(s.hist, s'.hist, KindOf(th.req), r);
    LargestIsRecovered(s', r);
    assert st'.files == TruncateFiles(s'.store.files, ReplayAll(AllRecords(s'.store.logs)).sizes) by {
      hide AllRecords, ReplayAll, IndexOk;
      RecoveredFiles(s'.store, st');
    }
    ContentAtSize(s'.store.files, ReplayAll(AllRecords(s'.store.logs)).sizes, name);
    Longer(Base(s.hist, name), PendingBytes(s.hist, name));
  }

  lemma Longer(a: Data, b: Data)
    ensures a + b == a <==> b == ""
  {
    assert |a + b| == |a| + |b|;
  }

  lemma RecoveredFiles(st: Store, st': Store)
    requires Recovered(st, st')
    ensures st'.files == TruncateFiles(st.files, ReplayAll(AllRecords(st.logs)).sizes)
  {
    hide AllRecords, ReplayAll, IndexOk;
  }

  lemma RecordStepFacts(s: State, t: Tid, c: Choice)
    requires Good(s) && t in s.threads && s.threads[t].pc == Log(6) && !s.threads[t].req.CommitReq? && Step(s, t, c).Some?
    ensures var s' := Step(s, t, c).value; var th := s.threads[t];
            && TextsOk(s') && RecordsOk(s') && LocksOk(s') && s'.store.files == s.store.files
            && forall k :: Records(s'.hist, k) == Records(s.hist, k)
                           + if k == KindOf(th.req) then [Record(th.id, th.name, FileSize(s.store.files, th.name))] else []
  {
    assert Safe(s) && TextsOk(s) && RecordsOk(s);
    hide Good, Safe, TextsOk, RecordsOk, Step, LocksOk;
    var l := Act(t, c);
    assert FreshId(s, l) && TimeoutQuiet(s, l) && CommitLogQuiet(s, l) && NameReadable(l);
    assert Next(s, l) == Step(s, t, c);
    NextIsSafe(s, l);
    var s' := Step(s, t, c).value;
    SafeParts(s');
    NextKeepsTexts(s, l);
    NextKeepsRecords(s, l);
    RecordEffect(s, t, c);
    hide Records;
  }

  // ---------------------------------------------------------------- two commit records at once

  /** Beginning a commit record keeps the log whole iff no other commit record is unfinished. */
  lemma BeginningARecordIsSafeIff(s: State, t: Tid, c: Choice)
    requires Good(s) && t in s.threads && s.threads[t].pc == Log(2) && s.threads[t].req.CommitReq?
    ensures Step(s, t, c).Some? && !Step(s, t, c).value.fault
    ensures TextsOk(Step(s, t, c).value)
            <==> forall u :: u in s.threads && Mid(s.threads[u]) ==> !s.threads[u].req.CommitReq?
  {
    assert Safe(s) && TextsOk(s);
    CommitWrites(s, t, c);
    hide Good, Safe, TextsOk, Step, Mid;
    if forall u :: u in s.threads && Mid(s.threads[u]) ==> !s.threads[u].req.CommitReq? {
      assert LocksOk(s) by { SafeParts(s); }
      assert CommitLogQuiet(s, Act(t, c));
      StepKeepsTexts(s, t, c);
    } else {
      var u :| u in s.threads && Mid(s.threads[u]) && s.threads[u].req.CommitReq?;
      FirstPiece(s, t, c);
      BreaksTheLog(s, t, u, Step(s, t, c).value);
    }
  }

  lemma CommitWrites(s: State, t: Tid, c: Choice)
    requires Safe(s) && t in s.threads && s.threads[t].pc == Log(2) && s.threads[t].req.CommitReq?
    ensures Step(s, t, c).Some? && !Step(s, t, c).value.fault
  {
    OwnRefs(s, t);
    SafeParts(s);
    hide Safe, LocksOk, IndexOk, AllRefsOk, Exclusive, CommitsOk, Recorded, ViewAfter, Piece, KindOf, FileSize;
  }

  lemma FirstPiece(s: State, t: Tid, c: Choice)
    requires t in s.threads && s.threads[t].pc == Log(2) && Step(s, t, c).Some? && !Step(s, t, c).value.fault
    ensures WritesPiece(s, t, 2, Step(s, t, c).value)
  {
    assert Step(s, t, c) == StepLog(s, t, 2) by { hide StepLog; }
    hide Step;
    PieceEffect(s, t, 2);
  }

  lemma BreaksTheLog(s: State, t: Tid, u: Tid, s': State)
    requires TextsOk(s) && t in s.threads && u in s.threads && s.threads[t].pc == Log(2)
    requires s.threads[t].req.CommitReq? && s.threads[u].req.CommitReq? && Mid(s.threads[u]) && WritesPiece(s, t, 2, s')
    ensures !TextsOk(s')
  {
    var v, v' := s.hist.views.commits, s'.hist.views.commits;
    var r := Record(s.threads[t].id, s.threads[t].name, FileSize(s.store.files, s.threads[t].name));
    assert MidMatches(s.hist.views.Get(CommitLog), s.threads[u]);
    assert TextOk(s.store.logs.Get(CommitLog), s.hist.views.Get(CommitLog));
    assert v'.records == v.records && v'.next == r && v'.torn == 1;
    hide TextsOk, WritesPiece, FileSize, IntText;
    assert Torn(r, 1) == IntText(r.id) by { TornText(r); }
    TornIsSomething(v.next, v.torn);
    assert |s'.store.logs.commits| == |RenderAll(v.records)| + |Torn(v.next, v.torn)| + |IntText(r.id)|;
    if TextsOk(s') {
      NotTorn(s', RenderAll(v.records), IntText(r.id));
    }
  }

  lemma NotTorn(s: State, front: string, id: string)
    requires TextsOk(s) && RenderAll(s.hist.views.commits.records) == front && s.hist.views.commits.torn == 1
    requires Torn(s.hist.views.commits.next, 1) == id
    ensures |s.store.logs.commits| == |front| + |id|
  {
    assert TextOk(s.store.logs.Get(CommitLog), s.hist.views.Get(CommitLog));
  }

  lemma TornIsSomething(r: Record, p: nat)
    requires p > 0
    ensures |Torn(r, p)| > 0
  {
    if p > 1 { TornIsSomething(r, p - 1); } else { assert Torn(r, 1) == Torn(r, 0) + Piece(r, 0); }
  }
}
