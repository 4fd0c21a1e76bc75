/** What the complete log records say: every live transaction was created under its file name,
    every ended one was created, no id is created twice, and the end records are exactly the
    recorded ends. */
module MachineRecords {
  import opened Basics
  import opened Text
  import opened Transactions
  import opened Stores
  import opened LogText
  import opened Machine
  import opened MachineLocks
  import opened MachineSafety
  import opened MachineFrames
  import opened MachineEnds
  import opened MachineFiles
  import opened MachineLogs

  function Records(h: History, kind: LogKind): seq<Record> {
    h.views.Get(kind).CompleteRecords()
  }

  ghost predicate CreatedAs(h: History, i: TxnId, name: FileName) {
    exists j :: 0 <= j < |Records(h, TransactionLog)|
                && Records(h, TransactionLog)[j].id == i && Records(h, TransactionLog)[j].name == name
  }

  ghost predicate IsCreated(h: History, i: TxnId) {
    exists j :: 0 <= j < |Records(h, TransactionLog)| && Records(h, TransactionLog)[j].id == i
  }

  function Ids(rs: seq<Record>): seq<TxnId> {
    seq(|rs|, i requires 0 <= i < |rs| => rs[i].id)
  }

  function EndsOfKind(ends: seq<End>, kind: LogKind): seq<TxnId> {
    if ends == [] then []
    else
      var last := ends[|ends| - 1];
      EndsOfKind(ends[..|ends| - 1], kind) + if last.kind == kind then [last.id] else []
  }

  // ---------------------------------------------------------------- the invariant

  /** The id was seen live at the handler's first look, or removed by this timer. */
  predicate Known(th: Thread) {
    match th.pc
    case LockTxn | Lock2 | Check2 => true
    case _ => PastCheck(th) || TimerLogging(th)
  }

  predicate Named(th: Thread) {
    (PastCheck(th) && th.pc != Body) || TimerLogging(th)
  }

  /** NEW_TXN has entered its transaction and not finished the record of it. */
  predicate NewLogging(th: Thread) {
    th.req.NewReq? && th.pc.Log? && th.pc.p <= 6
  }

  ghost predicate ThreadKnown(h: History, th: Thread) {
    && (Known(th) ==> IsCreated(h, th.id))
    && (Named(th) ==> CreatedAs(h, th.id, th.name))
  }

  ghost predicate ThreadNew(st: Store, h: History, th: Thread) {
    && (th.req.NewReq? ==> IsWord(th.req.name))
    && (NewLogging(th) ==>
          && th.id in h.used && !IsCreated(h, th.id) && IsWord(th.name)
          && th.id in st.live && st.live[th.id].attr in st.attrs && NameOf(st, th.id) == th.name)
  }

  ghost predicate ThreadsOk(s: State) {
    forall t :: t in s.threads ==> ThreadKnown(s.hist, s.threads[t]) && ThreadNew(s.store, s.hist, s.threads[t])
  }

  predicate BeingLogged(s: State, i: TxnId) {
    s.member.Some? && s.member.value in s.threads && NewLogging(s.threads[s.member.value]) && s.threads[s.member.value].id == i
  }

  ghost predicate LiveOk(s: State) {
    forall i :: i in s.store.live && s.store.live[i].attr in s.store.attrs ==>
      CreatedAs(s.hist, i, NameOf(s.store, i)) || BeingLogged(s, i)
  }

  ghost predicate HistoryOk(h: History) {
    && (forall i, j :: 0 <= i < j < |Records(h, TransactionLog)| ==>
          Records(h, TransactionLog)[i].id != Records(h, TransactionLog)[j].id)
    && (forall j :: 0 <= j < |Records(h, TransactionLog)| ==> Records(h, TransactionLog)[j].id in h.used)
    && (forall kind :: AllReadable(Records(h, kind)))
    && (forall kind :: kind != TransactionLog ==> Ids(Records(h, kind)) == EndsOfKind(h.ends, kind))
    && (forall j :: 0 <= j < |h.ends| ==> IsCreated(h, h.ends[j].id) && h.ends[j].kind != TransactionLog)
  }

  ghost predicate RecordsOk(s: State) {
    ThreadsOk(s) && LiveOk(s) && HistoryOk(s.hist)
  }

  // ---------------------------------------------------------------- records over one piece

  lemma CompleteAfter(v: LogView, r: Record, q: nat)
    requires v.torn == q <= 5
    ensures ViewAfter(v, r, q).CompleteRecords() == v.CompleteRecords() + if q == 4 then [r] else []
  {
  }

  lemma PieceRecords(s: State, t: Tid, p: nat, s': State)
    requires t in s.threads && s.threads[t].pc == Log(p) && 2 <= p <= 7 && WritesPiece(s, t, p, s')
    requires s.hist.views.Get(KindOf(s.threads[t].req)).torn == p - 2
    ensures var th := s.threads[t]; var r := Record(th.id, th.name, FileSize(s.store.files, th.name));
            forall k :: Records(s'.hist, k) == Records(s.hist, k) + if k == KindOf(th.req) && p == 6 then [r] else []
  {
    var th := s.threads[t];
    var kind := KindOf(th.req);
    var v := s.hist.views.Get(kind);
    var r := Record(th.id, th.name, FileSize(s.store.files, th.name));
    hide KindOf, FileSize;
    CompleteAfter(v, r, p - 2);
    PutGet(s.hist.views, kind, ViewAfter(v, r, p - 2));
    hide ViewAfter;
  }

  ghost predicate SameRecords(h: History, h': History) {
    (forall kind :: Records(h', kind) == Records(h, kind)) && h'.ends == h.ends
  }

  lemma SameRecordsHistory(h: History, h': History)
    requires SameRecords(h, h')
    ensures forall i, name :: CreatedAs(h', i, name) == CreatedAs(h, i, name)
    ensures forall i :: IsCreated(h', i) == IsCreated(h, i)
    ensures HistoryOk(h) && h.used <= h'.used ==> HistoryOk(h')
  {
    hide Records;
  }

  /** Every thread's step that completes no record and changes no transaction's existence. */
  lemma StillStepKeepsRecords(s: State, t: Tid, th': Thread, s': State)
    requires RecordsOk(s) && Moves(s, t, th', s') && SameRecords(s.hist, s'.hist) && s.hist.used <= s'.hist.used
    requires s'.store.live.Keys == s.store.live.Keys
    requires forall i :: i in s.store.live ==>
               s'.store.live[i].attr == s.store.live[i].attr
               && (s.store.live[i].attr in s.store.attrs <==> s.store.live[i].attr in s'.store.attrs)
               && (s.store.live[i].attr in s.store.attrs ==>
                     s'.store.attrs[s.store.live[i].attr].name == s.store.attrs[s.store.live[i].attr].name)
    requires forall i :: BeingLogged(s, i) ==> BeingLogged(s', i)
    requires ThreadKnown(s.hist, th') && ThreadNew(s.store, s.hist, th')
    ensures RecordsOk(s')
  {
    SameRecordsHistory(s.hist, s'.hist);
    hide CreatedAs, IsCreated, HistoryOk, SameRecords, BeingLogged, NewLogging, Known, Named;
    forall u | u in s'.threads
      ensures ThreadKnown(s'.hist, s'.threads[u]) && ThreadNew(s'.store, s'.hist, s'.threads[u])
    {
      if u != t {
        assert ThreadKnown(s.hist, s.threads[u]) && ThreadNew(s.store, s.hist, s.threads[u]);
      }
    }
  }

  // ---------------------------------------------------------------- learning that an id was created

  /** Under the member mutex no transaction is half logged, so every live one was created. */
  lemma LiveIsCreated(s: State, t: Tid, i: TxnId)
    requires RecordsOk(s) && LocksOk(s) && IndexOk(s.store) && t in s.threads && i in s.store.live
    requires (HoldsMember(s.threads[t]) && !NewLogging(s.threads[t])) || IsCreated(s.hist, i)
    ensures s.store.live[i].attr in s.store.attrs
    ensures IsCreated(s.hist, i) && CreatedAs(s.hist, i, NameOf(s.store, i))
  {
    assert MemberOk(s);
    assert s.store.live[i].attr in s.store.attrs;
    assert s.member.Some? ==> s.member.value in s.threads && ThreadNew(s.store, s.hist, s.threads[s.member.value]);
    assert !BeingLogged(s, i);
  }

  lemma BeingLoggedStays(s: State, t: Tid, s': State)
    requires LocksOk(s) && t in s.threads && LockMove(s, t, s') && t in s'.threads && Frame(s, t, s')
    requires !(NewLogging(s.threads[t]) && s.threads[t].pc == Log(6))
    ensures forall i :: BeingLogged(s, i) ==> BeingLogged(s', i)
  {
    assert MemberOk(s);
  }

  lemma FirstLookLearns(s: State, t: Tid)
    requires t in s.threads && s.threads[t].pc == Check1 && Shape(s.threads[t])
    requires s.threads[t].id in s.store.live ==> IsCreated(s.hist, s.threads[t].id)
    ensures t in StepCheck1(s, t).threads
    ensures ThreadKnown(s.hist, StepCheck1(s, t).threads[t]) && ThreadNew(s.store, s.hist, StepCheck1(s, t).threads[t])
  {
    hide IsCreated, CreatedAs;
  }

  lemma RecheckLearns(s: State, t: Tid)
    requires t in s.threads && s.threads[t].pc == Check2 && Shape(s.threads[t]) && !StepCheck2(s, t).fault
    requires IsCreated(s.hist, s.threads[t].id)
    requires s.threads[t].id in s.store.live ==>
               s.store.live[s.threads[t].id].attr in s.store.attrs && CreatedAs(s.hist, s.threads[t].id, NameOf(s.store, s.threads[t].id))
    ensures t in StepCheck2(s, t).threads
    ensures ThreadKnown(s.hist, StepCheck2(s, t).threads[t]) && ThreadNew(s.store, s.hist, StepCheck2(s, t).threads[t])
  {
    hide IsCreated, CreatedAs;
  }

  lemma BodyLearns(s: State, t: Tid, c: Choice)
    requires t in s.threads && s.threads[t].pc == Body && Shape(s.threads[t]) && !StepBody(s, t, c).fault
    requires IsCreated(s.hist, s.threads[t].id)
    requires s.threads[t].id in s.store.live ==>
               s.store.live[s.threads[t].id].attr in s.store.attrs && CreatedAs(s.hist, s.threads[t].id, NameOf(s.store, s.threads[t].id))
    ensures t in StepBody(s, t, c).threads
    ensures ThreadKnown(s.hist, StepBody(s, t, c).threads[t]) && ThreadNew(s.store, s.hist, StepBody(s, t, c).threads[t])
  {
    hide IsCreated, CreatedAs, WriteBody, CommitBody;
  }

  lemma LearnsCreated(s: State, t: Tid, c: Choice)
    requires Safe(s) && RecordsOk(s) && t in s.threads && Step(s, t, c).Some? && !Step(s, t, c).value.fault
    requires s.threads[t].pc.Check1? || s.threads[t].pc.Check2? || s.threads[t].pc.Body?
    ensures t in Step(s, t, c).value.threads
    ensures ThreadKnown(s.hist, Step(s, t, c).value.threads[t]) && ThreadNew(s.store, s.hist, Step(s, t, c).value.threads[t])
  {
    var th := s.threads[t];
    OwnRefs(s, t);
    assert ThreadKnown(s.hist, th);
    assert LocksOk(s) && IndexOk(s.store);
    if th.id in s.store.live { LiveIsCreated(s, t, th.id); }
    hide Safe, RecordsOk, LocksOk, IndexOk, CreatedAs, IsCreated, RefsOk, StepCheck1, StepCheck2, StepBody;
    match th.pc
    case Check1 => FirstLookLearns(s, t);
    case Check2 => RecheckLearns(s, t);
    case Body => BodyLearns(s, t, c);
  }

  lemma StillThread(s: State, t: Tid, s': State)
    requires t in s.threads && t in s'.threads && Frame(s, t, s') && Shape(s.threads[t])
    requires ThreadKnown(s.hist, s.threads[t]) && ThreadNew(s.store, s.hist, s.threads[t])
    requires match s.threads[t].pc
             case Check1 | Check2 | Body | Pick | Remove | Expire => false
             case Log(p) => p != 6
             case _ => true
    ensures ThreadKnown(s.hist, s'.threads[t]) && ThreadNew(s.store, s.hist, s'.threads[t])
  {
    hide CreatedAs, IsCreated;
  }

  lemma ViewsSame(s: State, t: Tid, c: Choice)
    requires t in s.threads && Shape(s.threads[t]) && Step(s, t, c).Some? && !Step(s, t, c).value.fault
    requires !WritesLog(s.threads[t].pc)
    ensures Step(s, t, c).value.hist.views == s.hist.views
  {
    StepFrame(s, t, c);
    match s.threads[t].pc
    case OpenHeld | Rollback | Writing(_, _) | Pick =>
      hide StepCheck1, StepCheck2, StepBody, StepLog, StepResize, StepRemove, StepExpire, Frame;
    case _ => hide Step;
  }

  lemma StepSameRecords(s: State, t: Tid, c: Choice)
    requires Safe(s) && TextsOk(s) && t in s.threads && Step(s, t, c).Some? && !Step(s, t, c).value.fault
    requires CommitLogQuiet(s, Act(t, c)) && s.threads[t].pc != Log(6)
    ensures SameRecords(s.hist, Step(s, t, c).value.hist)
  {
    OwnRefs(s, t);
    HistEffect(s, t, c);
    if WritesLog(s.threads[t].pc) {
      var p := s.threads[t].pc.p;
      assert Step(s, t, c) == StepLog(s, t, p) by { hide StepLog; }
      PieceEffect(s, t, p);
      assert LocksOk(s);
      PieceInTurn(s, t, p, c);
      hide Step, StepLog, Safe, WritesPiece;
      PieceRecords(s, t, p, Step(s, t, c).value);
    } else {
      ViewsSame(s, t, c);
      hide Step;
    }
  }

  lemma AttrsStill(s: State, t: Tid, c: Choice)
    requires Safe(s) && t in s.threads && Step(s, t, c).Some? && !Step(s, t, c).value.fault
    requires !s.threads[t].pc.Pick? && !s.threads[t].pc.Remove? && !(s.threads[t].pc.Expire? && Expired(s, s.threads[t].id, c.now))
    ensures var s' := Step(s, t, c).value;
            && s'.store.live.Keys == s.store.live.Keys
            && (forall i :: i in s.store.live ==>
                  s'.store.live[i].attr == s.store.live[i].attr
                  && (s.store.live[i].attr in s.store.attrs <==> s.store.live[i].attr in s'.store.attrs)
                  && (s.store.live[i].attr in s.store.attrs ==>
                        s'.store.attrs[s.store.live[i].attr].name == s.store.attrs[s.store.live[i].attr].name))
  {
    hide Safe, LocksOk, IndexOk, Step;
    SafeParts(s);
    OwnRefs(s, t);
    LiveAttrs(s.store);
    match s.threads[t].pc
    case Body =>
      BodyEffect(s, t, c);
      StepOfBody(s, t, c);
      hide StepBody, RefsOk;
    case Resize =>
      hide RefsOk, FileSize;
      StepOfBody(s, t, c);
    case Expire =>
      hide RefsOk, Evict, Expired;
      StepOfMaps(s, t, c);
    case _ =>
      hide RefsOk;
      StepFrame(s, t, c);
  }

  lemma StepOfBody(s: State, t: Tid, c: Choice)
    requires t in s.threads
    ensures s.threads[t].pc.Body? ==> Step(s, t, c) == Some(StepBody(s, t, c))
    ensures s.threads[t].pc.Resize? ==> Step(s, t, c) == Some(StepResize(s, t))
  {
    hide StepBody, StepResize;
  }

  lemma StillStep(s: State, t: Tid, c: Choice)
    requires Safe(s) && TextsOk(s) && RecordsOk(s) && t in s.threads && Step(s, t, c).Some? && !Step(s, t, c).value.fault
    requires CommitLogQuiet(s, Act(t, c)) && s.threads[t].pc != Log(6)
    requires !s.threads[t].pc.Pick? && !s.threads[t].pc.Remove? && !(s.threads[t].pc.Expire? && Expired(s, s.threads[t].id, c.now))
    ensures RecordsOk(Step(s, t, c).value)
  {
    var s' := Step(s, t, c).value;
    OwnRefs(s, t);
    StepFrame(s, t, c);
    StepMovesLocks(s, t, c);
    StepSameRecords(s, t, c);
    HistEffect(s, t, c);
    AttrsStill(s, t, c);
    assert LocksOk(s);
    assert ThreadKnown(s.hist, s.threads[t]) && ThreadNew(s.store, s.hist, s.threads[t]);
    if s.threads[t].pc.Check1? || s.threads[t].pc.Check2? || s.threads[t].pc.Body? {
      LearnsCreated(s, t, c);
    } else if s.threads[t].pc.Expire? {
      assert s'.threads[t].pc.Done? by {
        hide Frame, StepCheck1, StepCheck2, StepBody, StepLog, StepWriting, StepRemove, Evict, Expired;
      }
    } else {
      hide Step;
      StillThread(s, t, s');
    }
    hide Step, Safe, TextsOk, ThreadKnown, ThreadNew, LiveOk;
    BeingLoggedStays(s, t, s');
    LockMoveMoves(s, t, s');
    hide *;
    StillStepKeepsRecords(s, t, s'.threads[t], s');
  }

  // ---------------------------------------------------------------- a record becomes complete

  ghost predicate AddsRecord(s: State, t: Tid, s': State)
    requires t in s.threads
  {
    var th := s.threads[t];
    var r := Record(th.id, th.name, FileSize(s.store.files, th.name));
    && Moves(s, t, th.(pc := Log(7)), s') && s'.member == s.member
    && s'.store == s.store.(logs := s'.store.logs)
    && s'.hist.used == s.hist.used
    && s'.hist.ends == (if th.req.NewReq? then s.hist.ends else s.hist.ends + [End(th.id, KindOf(th.req))])
    && (forall k :: Records(s'.hist, k) == Records(s.hist, k) + if k == KindOf(th.req) then [r] else [])
  }

  lemma CreatedGrows(h: History, h': History, extra: seq<Record>)
    requires Records(h', TransactionLog) == Records(h, TransactionLog) + extra
    ensures forall i, name :: CreatedAs(h, i, name) ==> CreatedAs(h', i, name)
    ensures forall i :: IsCreated(h, i) ==> IsCreated(h', i)
    ensures extra == [] ==> forall i :: IsCreated(h', i) ==> IsCreated(h, i)
    ensures |extra| == 1 ==> CreatedAs(h', extra[0].id, extra[0].name) && IsCreated(h', extra[0].id)
    ensures |extra| == 1 ==> forall i :: IsCreated(h', i) ==> IsCreated(h, i) || i == extra[0].id
  {
    var rs, rs' := Records(h, TransactionLog), Records(h', TransactionLog);
    assert forall j :: 0 <= j < |rs| ==> rs'[j] == rs[j];
    if |extra| == 1 {
      assert rs'[|rs|] == extra[0];
    }
    hide Records;
    forall i, name | CreatedAs(h, i, name) ensures CreatedAs(h', i, name) {
      var j :| 0 <= j < |rs| && rs[j].id == i && rs[j].name == name;
      assert rs'[j].id == i && rs'[j].name == name;
    }
    forall i | IsCreated(h, i) ensures IsCreated(h', i) {
      var j :| 0 <= j < |rs| && rs[j].id == i;
      assert rs'[j].id == i;
    }
  }

  lemma RecordReadable(s: State, t: Tid, s': State)
    requires t in s.threads && HistoryOk(s.hist) && AddsRecord(s, t, s') && s.threads[t].pc == Log(6)
    requires Shape(s.threads[t]) && ThreadKnown(s.hist, s.threads[t]) && ThreadNew(s.store, s.hist, s.threads[t])
    ensures IsWord(s.threads[t].name)
    ensures forall k :: AllReadable(Records(s'.hist, k))
  {
    var th := s.threads[t];
    if !th.req.NewReq? {
      assert CreatedAs(s.hist, th.id, th.name);
      assert AllReadable(Records(s.hist, TransactionLog));
    }
    assert forall k :: AllReadable(Records(s.hist, k));
    assert IsWord(th.name);
    hide Records, HistoryOk, ThreadKnown, ThreadNew, IsWord, FileSize, KindOf;
  }

  lemma RecordEnds(s: State, t: Tid, s': State)
    requires t in s.threads && HistoryOk(s.hist) && AddsRecord(s, t, s') && Shape(s.threads[t]) && s.threads[t].pc == Log(6)
    requires ThreadKnown(s.hist, s.threads[t])
    ensures forall k :: k != TransactionLog ==> Ids(Records(s'.hist, k)) == EndsOfKind(s'.hist.ends, k)
    ensures forall j :: 0 <= j < |s'.hist.ends| ==> IsCreated(s'.hist, s'.hist.ends[j].id) && s'.hist.ends[j].kind != TransactionLog
  {
    var th := s.threads[t];
    var r := Record(th.id, th.name, FileSize(s.store.files, th.name));
    var kind := KindOf(th.req);
    CreatedGrows(s.hist, s'.hist, if kind == TransactionLog then [r] else []);
    hide FileSize, Records, Readable, CreatedAs, IsCreated;
    forall k | k != TransactionLog ensures Ids(Records(s'.hist, k)) == EndsOfKind(s'.hist.ends, k) {
      hide HistoryOk;
      RecordEndsOfKind(s, t, s', k);
    }
  }

  lemma RecordEndsOfKind(s: State, t: Tid, s': State, k: LogKind)
    requires t in s.threads && HistoryOk(s.hist) && AddsRecord(s, t, s') && Shape(s.threads[t]) && s.threads[t].pc == Log(6)
    requires k != TransactionLog
    ensures Ids(Records(s'.hist, k)) == EndsOfKind(s'.hist.ends, k)
  {
    var th := s.threads[t];
    var r := Record(th.id, th.name, FileSize(s.store.files, th.name));
    assert Ids(Records(s.hist, k)) == EndsOfKind(s.hist.ends, k);
    hide FileSize, Records, HistoryOk;
    EndsSnoc(s.hist.ends, End(th.id, KindOf(th.req)), k);
    assert Ids(Records(s.hist, k) + [r]) == Ids(Records(s.hist, k)) + [r.id];
    assert Records(s.hist, k) + [] == Records(s.hist, k);
  }

  lemma RecordCreations(s: State, t: Tid, s': State)
    requires t in s.threads && HistoryOk(s.hist) && AddsRecord(s, t, s') && s.threads[t].pc == Log(6)
    requires ThreadNew(s.store, s.hist, s.threads[t])
    ensures forall i, j :: 0 <= i < j < |Records(s'.hist, TransactionLog)| ==>
              Records(s'.hist, TransactionLog)[i].id != Records(s'.hist, TransactionLog)[j].id
    ensures forall j :: 0 <= j < |Records(s'.hist, TransactionLog)| ==> Records(s'.hist, TransactionLog)[j].id in s'.hist.used
  {
    var th := s.threads[t];
    var rs, rs' := Records(s.hist, TransactionLog), Records(s'.hist, TransactionLog);
    if th.req.NewReq? {
      assert forall j :: 0 <= j < |rs| ==> rs[j].id != th.id;
    } else {
      assert rs' == rs + [] == rs;
    }
    hide FileSize, Records;
  }

  lemma RecordHistory(s: State, t: Tid, s': State)
    requires t in s.threads && HistoryOk(s.hist) && AddsRecord(s, t, s') && s.threads[t].pc == Log(6)
    requires Shape(s.threads[t]) && ThreadKnown(s.hist, s.threads[t]) && ThreadNew(s.store, s.hist, s.threads[t])
    ensures HistoryOk(s'.hist)
  {
    RecordReadable(s, t, s');
    RecordEnds(s, t, s');
    RecordCreations(s, t, s');
    hide Records, AddsRecord, IsCreated;
  }

  lemma EndsSnoc(ends: seq<End>, e: End, kind: LogKind)
    ensures EndsOfKind(ends + [e], kind) == EndsOfKind(ends, kind) + if e.kind == kind then [e.id] else []
  {
    assert (ends + [e])[..|ends|] == ends;
  }

  lemma RecordStep(s: State, t: Tid, s': State)
    requires Safe(s) && RecordsOk(s) && t in s.threads && s.threads[t].pc == Log(6) && AddsRecord(s, t, s')
    ensures RecordsOk(s')
  {
    var th := s.threads[t];
    var r := Record(th.id, th.name, FileSize(s.store.files, th.name));
    OwnRefs(s, t);
    assert ThreadKnown(s.hist, th) && ThreadNew(s.store, s.hist, th);
    RecordHistory(s, t, s');
    CreatedGrows(s.hist, s'.hist, if KindOf(th.req) == TransactionLog then [r] else []);
    RecordThreads(s, t, s');
    assert MemberOk(s) && IndexOk(s.store) by { assert LocksOk(s); }
    hide Safe, ThreadKnown, ThreadsOk, HistoryOk, FileSize, CreatedAs, IsCreated;
    forall i | i in s'.store.live && s'.store.live[i].attr in s'.store.attrs
      ensures CreatedAs(s'.hist, i, NameOf(s'.store, i)) || BeingLogged(s', i)
    {
      assert NameOf(s'.store, i) == NameOf(s.store, i);
      if BeingLogged(s, i) && !CreatedAs(s.hist, i, NameOf(s.store, i)) {
        if s.member.value == t {
          assert th.id == i && th.req.NewReq?;
        } else {
          assert s'.threads[s.member.value] == s.threads[s.member.value];
        }
      }
    }
  }

  lemma RecordThreads(s: State, t: Tid, s': State)
    requires Safe(s) && RecordsOk(s) && t in s.threads && s.threads[t].pc == Log(6) && AddsRecord(s, t, s')
    ensures ThreadsOk(s')
  {
    var th := s.threads[t];
    var r := Record(th.id, th.name, FileSize(s.store.files, th.name));
    assert MemberOk(s) by { assert LocksOk(s); }
    assert ThreadKnown(s.hist, th) && ThreadNew(s.store, s.hist, th);
    CreatedGrows(s.hist, s'.hist, if KindOf(th.req) == TransactionLog then [r] else []);
    if th.req.NewReq? { NobodyElseLogsNew(s, t) by { assert LocksOk(s); } }
    hide Safe, FileSize, CreatedAs, IsCreated, HistoryOk;
    forall u | u in s'.threads
      ensures ThreadKnown(s'.hist, s'.threads[u]) && ThreadNew(s'.store, s'.hist, s'.threads[u])
    {
      if u != t {
        assert ThreadKnown(s.hist, s.threads[u]) && ThreadNew(s.store, s.hist, s.threads[u]);
      }
    }
  }

  lemma RecordEffect(s: State, t: Tid, c: Choice)
    requires Safe(s) && TextsOk(s) && t in s.threads && s.threads[t].pc == Log(6)
    requires CommitLogQuiet(s, Act(t, c)) && Step(s, t, c).Some? && !Step(s, t, c).value.fault
    ensures AddsRecord(s, t, Step(s, t, c).value)
  {
    var s' := Step(s, t, c).value;
    OwnRefs(s, t);
    HistEffect(s, t, c);
    assert Step(s, t, c) == StepLog(s, t, 6) by { hide StepLog; }
    PieceEffect(s, t, 6);
    assert LocksOk(s);
    PieceInTurn(s, t, 6, c);
    StepMovesLocks(s, t, c);
    assert HoldsMember(s.threads[t]) == HoldsMember(s.threads[t].(pc := Log(7)));
    hide Step, StepLog, Safe, LocksOk, CommitLogQuiet, FileSize, ViewAfter;
    PieceRecords(s, t, 6, s');
  }

  // ---------------------------------------------------------------- entering and leaving the live map

  lemma NobodyElseLogsNew(s: State, t: Tid)
    requires LocksOk(s) && t in s.threads && HoldsMember(s.threads[t])
    ensures forall u :: u in s.threads && u != t ==> !NewLogging(s.threads[u])
    ensures !NewLogging(s.threads[t]) ==> forall i :: !BeingLogged(s, i)
  {
    assert MemberOk(s);
    assert forall u :: u in s.threads && NewLogging(s.threads[u]) ==> HoldsMember(s.threads[u]);
  }

  ghost predicate Picks(s: State, t: Tid, id: TxnId, now: Time, s': State)
    requires t in s.threads
  {
    var th := s.threads[t];
    && th.req.NewReq?
    && Moves(s, t, th.(pc := Log(0), id := id, name := th.req.name), s') && s'.member == s.member
    && s'.store == Enroll(s.store, id, th.req.name, now)
    && SameRecords(s.hist, s'.hist) && s'.hist.used == s.hist.used + {id}
  }

  lemma PickEffect(s: State, t: Tid, c: Choice)
    requires t in s.threads && StepPick(s, t, c).Some?
    ensures c.n !in s.store.live && Picks(s, t, c.n, c.now, StepPick(s, t, c).value)
  {
    hide Enroll;
  }

  lemma EnrolledNames(st: Store, id: TxnId, name: FileName, now: Time)
    requires IndexOk(st) && id !in st.live
    ensures var st' := Enroll(st, id, name, now);
            && st'.live.Keys == st.live.Keys + {id}
            && st'.live[id].attr in st'.attrs && NameOf(st', id) == name
            && (forall i :: i in st.live ==>
                  st.live[i].attr in st.attrs && st'.live[i].attr in st'.attrs && NameOf(st', i) == NameOf(st, i))
  {
    EnrollKeepsIndex(st, id, name, now);
    EnrollTouches(st, id, name, now);
    LiveAttrs(st);
    LiveAttrs(Enroll(st, id, name, now));
    forall i | i in st.live ensures NameOf(Enroll(st, id, name, now), i) == NameOf(st, i) {
      EnrollReach(st, id, name, now, i);
    }
  }

  lemma PickRecords(s: State, t: Tid, c: Choice)
    requires Safe(s) && RecordsOk(s) && t in s.threads && s.threads[t].pc == Pick && FreshId(s, Act(t, c))
    requires StepPick(s, t, c).Some?
    ensures RecordsOk(StepPick(s, t, c).value)
  {
    var s' := StepPick(s, t, c).value;
    var th := s.threads[t];
    PickEffect(s, t, c);
    SafeParts(s);
    assert s.member == Some(t) by { assert MemberOk(s); }
    assert !IsCreated(s.hist, c.n) by { assert HistoryOk(s.hist); }
    assert ThreadNew(s.store, s.hist, th);
    hide StepPick, Safe, LocksOk;
    NobodyElseLogsNew(s, t);
    EnrolledNames(s.store, c.n, th.req.name, c.now);
    SameRecordsHistory(s.hist, s'.hist);
    hide Enroll, CreatedAs, IsCreated, HistoryOk, IndexOk, SameRecords;
    PickThreads(s, t, c, s');
    forall i | i in s'.store.live && s'.store.live[i].attr in s'.store.attrs
      ensures CreatedAs(s'.hist, i, NameOf(s'.store, i)) || BeingLogged(s', i)
    {
      if i == c.n {
        assert BeingLogged(s', i);
      }
    }
  }

  lemma PickThreads(s: State, t: Tid, c: Choice, s': State)
    requires RecordsOk(s) && t in s.threads && s.threads[t].pc == Pick && Picks(s, t, c.n, c.now, s') && SameRecords(s.hist, s'.hist)
    requires forall u :: u in s.threads && u != t ==> !NewLogging(s.threads[u])
    requires !IsCreated(s.hist, c.n) && IndexOk(s.store) && c.n !in s.store.live
    ensures ThreadsOk(s')
  {
    assert ThreadKnown(s.hist, s.threads[t]) && ThreadNew(s.store, s.hist, s.threads[t]);
    EnrolledNames(s.store, c.n, s.threads[t].req.name, c.now);
    SameRecordsHistory(s.hist, s'.hist);
    hide CreatedAs, IsCreated, HistoryOk, SameRecords, Enroll, IndexOk;
    forall u | u in s'.threads
      ensures ThreadKnown(s'.hist, s'.threads[u]) && ThreadNew(s'.store, s'.hist, s'.threads[u])
    {
      if u != t {
        assert ThreadKnown(s.hist, s.threads[u]) && ThreadNew(s.store, s.hist, s.threads[u]);
      }
    }
  }

  lemma EvictionRecords(s: State, t: Tid, th': Thread, s': State)
    requires Safe(s) && RecordsOk(s) && Moves(s, t, th', s') && HoldsMember(s.threads[t]) && !NewLogging(s.threads[t])
    requires s'.store == Evict(s.store, s.threads[t].id) && s'.hist == s.hist
    requires th'.req == s.threads[t].req && !NewLogging(th')
    requires th'.id == s.threads[t].id && ThreadKnown(s.hist, th')
    ensures RecordsOk(s')
  {
    var id := s.threads[t].id;
    assert LocksOk(s) && IndexOk(s.store);
    NobodyElseLogsNew(s, t);
    EvictKeepsIndex(s.store, id);
    EvictTouches(s.store, id);
    assert ThreadNew(s.store, s.hist, s.threads[t]);
    LiveAttrs(s.store);
    hide Safe, LocksOk, Evict, CreatedAs, IsCreated, HistoryOk, BeingLogged, IndexOk;
    forall u | u in s'.threads
      ensures ThreadKnown(s'.hist, s'.threads[u]) && ThreadNew(s'.store, s'.hist, s'.threads[u])
    {
      if u != t {
        assert ThreadKnown(s.hist, s.threads[u]) && ThreadNew(s.store, s.hist, s.threads[u]);
      }
    }
  }

  lemma RemoveRecords(s: State, t: Tid)
    requires Safe(s) && RecordsOk(s) && t in s.threads && s.threads[t].pc == Remove
    ensures RecordsOk(StepRemove(s, t))
  {
    var s' := StepRemove(s, t);
    var th := s.threads[t];
    var th' := th.(pc := Done(Ack(th.id, SeqNumOf(th.req))));
    assert Moves(s, t, th', s');
    hide Evict, RecordsOk, Safe;
    EvictionRecords(s, t, th', s');
  }

  lemma ExpireRecords(s: State, t: Tid, c: Choice)
    requires Safe(s) && RecordsOk(s) && t in s.threads && s.threads[t].pc == Expire && Expired(s, s.threads[t].id, c.now)
    ensures RecordsOk(StepExpire(s, t, c))
  {
    var s' := StepExpire(s, t, c);
    var th := s.threads[t];
    assert LocksOk(s) && IndexOk(s.store);
    OwnRefs(s, t);
    LiveIsCreated(s, t, th.id);
    LiveAttrs(s.store);
    var th' := th.(pc := Log(0), name := NameOf(s.store, th.id));
    assert Moves(s, t, th', s') && s'.store == Evict(s.store, th.id) && s'.hist == s.hist;
    assert ThreadKnown(s.hist, th') by { hide IsCreated, CreatedAs; }
    hide Evict, RecordsOk, Safe, StepExpire, ThreadKnown, LocksOk, IndexOk;
    EvictionRecords(s, t, th', s');
  }

  // ---------------------------------------------------------------- all steps

  lemma ArrivalKeepsRecords(s: State, t: Tid, req: Request)
    requires RecordsOk(s) && LocksOk(s) && t !in s.threads && NameReadable(Arrive(t, req))
    ensures RecordsOk(s.Put(t, Arrived(req)))
  {
    var s' := s.Put(t, Arrived(req));
    assert MemberOk(s);
    assert forall u :: u in s.threads ==> s'.threads[u] == s.threads[u];
    hide CreatedAs, IsCreated, HistoryOk, LocksOk;
    forall u | u in s'.threads
      ensures ThreadKnown(s'.hist, s'.threads[u]) && ThreadNew(s'.store, s'.hist, s'.threads[u])
    {
      if u != t {
        assert ThreadKnown(s.hist, s.threads[u]) && ThreadNew(s.store, s.hist, s.threads[u]);
      }
    }
    assert forall i :: BeingLogged(s, i) ==> BeingLogged(s', i);
  }

  lemma StepOfMaps(s: State, t: Tid, c: Choice)
    requires t in s.threads
    ensures s.threads[t].pc.Pick? ==> Step(s, t, c) == StepPick(s, t, c)
    ensures s.threads[t].pc.Remove? ==> Step(s, t, c) == Some(StepRemove(s, t))
    ensures s.threads[t].pc.Expire? ==> Step(s, t, c) == Some(StepExpire(s, t, c))
  {
    hide StepPick, StepRemove, StepExpire;
  }

  lemma StepKeepsRecords(s: State, t: Tid, c: Choice)
    requires Safe(s) && TextsOk(s) && RecordsOk(s) && t in s.threads && Step(s, t, c).Some? && !Step(s, t, c).value.fault
    requires FreshId(s, Act(t, c)) && CommitLogQuiet(s, Act(t, c))
    ensures RecordsOk(Step(s, t, c).value)
  {
    hide Safe, RecordsOk, TextsOk, Step, StepRemove, StepPick, StepExpire, Expired, CommitLogQuiet, AddsRecord;
    var pc := s.threads[t].pc;
    StepOfMaps(s, t, c);
    if pc.Pick? { PickRecords(s, t, c); }
    else if pc.Remove? { RemoveRecords(s, t); }
    else if pc.Expire? && Expired(s, s.threads[t].id, c.now) { ExpireRecords(s, t, c); }
    else if pc == Log(6) {
      RecordEffect(s, t, c);
      RecordStep(s, t, Step(s, t, c).value);
    }
    else { StillStep(s, t, c); }
  }

  lemma NextKeepsRecords(s: State, l: Label)
    requires Safe(s) && TextsOk(s) && RecordsOk(s) && Next(s, l).Some?
    requires FreshId(s, l) && TimeoutQuiet(s, l) && CommitLogQuiet(s, l) && NameReadable(l)
    ensures RecordsOk(Next(s, l).value)
  {
    NextIsSafe(s, l);
    SafeMeansNoFault(Next(s, l).value) by { hide Next; }
    assert LocksOk(s);
    hide Safe, RecordsOk, TextsOk, LocksOk, Step, CommitLogQuiet, TimeoutQuiet, FreshId;
    match l
    case Arrive(t, req) => ArrivalKeepsRecords(s, t, req);
    case Act(t, c) => StepKeepsRecords(s, t, c);
  }

  lemma StepKeepsTexts(s: State, t: Tid, c: Choice)
    requires Safe(s) && TextsOk(s) && t in s.threads && Step(s, t, c).Some? && !Step(s, t, c).value.fault
    requires CommitLogQuiet(s, Act(t, c))
    ensures TextsOk(Step(s, t, c).value)
  {
    hide Safe, TextsOk, CommitLogQuiet, LocksOk, WritesPiece;
    var s' := Step(s, t, c).value;
    SafeParts(s);
    OwnRefs(s, t);
    if WritesLog(s.threads[t].pc) {
      var p := s.threads[t].pc.p;
      assert Step(s, t, c) == StepLog(s, t, p) by { hide StepLog; }
      hide Step, StepLog;
      PieceEffect(s, t, p);
      PieceKeepsTexts(s, t, p, c, s');
    } else {
      hide Step;
      StepFrame(s, t, c);
      ViewsSame(s, t, c);
      assert Moves(s, t, s'.threads[t], s') && !Mid(s'.threads[t]);
      OtherStepsKeepTexts(s, t, s'.threads[t], s');
    }
  }

  lemma NextKeepsTexts(s: State, l: Label)
    requires Safe(s) && TextsOk(s) && Next(s, l).Some? && !Next(s, l).value.fault && CommitLogQuiet(s, l)
    ensures TextsOk(Next(s, l).value)
  {
    hide Safe, TextsOk, CommitLogQuiet, Step;
    match l
    case Arrive(t, req) => ArrivalKeepsTexts(s, t, req);
    case Act(t, c) => StepKeepsTexts(s, t, c);
  }

  lemma ArrivalKeepsTexts(s: State, t: Tid, req: Request)
    requires TextsOk(s) && t !in s.threads
    ensures TextsOk(s.Put(t, Arrived(req)))
  {
    var s' := s.Put(t, Arrived(req));
    assert forall u :: u in s.threads ==> s'.threads[u] == s.threads[u];
    forall k | s'.hist.views.Get(k).torn > 0
      ensures exists u :: u in s'.threads && Mid(s'.threads[u]) && KindOf(s'.threads[u].req) == k
    {
      var u :| u in s.threads && Mid(s.threads[u]) && KindOf(s.threads[u].req) == k;
      assert u in s'.threads && Mid(s'.threads[u]) && KindOf(s'.threads[u].req) == k;
    }
  }
}
