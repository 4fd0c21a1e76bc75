/** One state for both forms: a handler that runs alone in the machine, from arrival to answer,
    leaves exactly the store and the answer of its sequential meaning, and every lock free. */
module Solo {
  import opened Basics
  import opened Text
  import opened Transactions
  import opened Stores
  import opened LogText
  import opened Machine
  import opened Effects
  import opened MachineSizes
  import opened MachineLogs
  import opened MachineFiles
  import opened MachineRecords
  import opened MachineSafety

  /** There is a run from s to s'; for a polite one, each of its steps meets the premises. */
  ghost predicate Reaches(polite: bool, s: State, s': State) {
    exists ls :: Run(s, ls) == Some(s') && (polite ==> PoliteRun(s, ls))
  }

  lemma ReachesSelf(polite: bool, s: State)
    ensures Reaches(polite, s, s)
  {
    assert Run(s, []) == Some(s) && PoliteRun(s, []);
  }

  lemma {:induction false} RunConcat(s: State, a: seq<Label>, b: seq<Label>)
    requires Run(s, a).Some?
    ensures Run(s, a + b) == Run(Run(s, a).value, b)
    ensures PoliteRun(s, a) && PoliteRun(Run(s, a).value, b) ==> PoliteRun(s, a + b)
    decreases |a|
  {
    hide Next, Polite;
    if a == [] {
      assert a + b == b;
    } else {
      assert (a + b)[1..] == a[1..] + b && (a + b)[0] == a[0];
      RunConcat(Next(s, a[0]).value, a[1..], b);
    }
  }

  lemma ReachesThen(polite: bool, s: State, s1: State, s2: State)
    requires Reaches(polite, s, s1) && Reaches(polite, s1, s2)
    ensures Reaches(polite, s, s2)
  {
    hide Run, PoliteRun;
    var a :| Run(s, a) == Some(s1) && (polite ==> PoliteRun(s, a));
    var b :| Run(s1, b) == Some(s2) && (polite ==> PoliteRun(s1, b));
    RunConcat(s, a, b);
  }

  lemma ReachesNext(polite: bool, s: State, s1: State, l: Label)
    requires Reaches(polite, s, s1) && Next(s1, l).Some? && (polite ==> Polite(s1, l))
    ensures Reaches(polite, s, Next(s1, l).value)
  {
    hide Next, Polite;
    var s2 := Next(s1, l).value;
    assert Run(s1, [l]) == Some(s2) && (polite ==> PoliteRun(s1, [l])) by {
      assert [l][1..] == [];
      assert Run(s2, []) == Some(s2) && PoliteRun(s2, []);
    }
    ReachesThen(polite, s, s1, s2);
  }

  /** Polite runs keep every invariant. */
  lemma ReachesGood(s: State, s': State)
    requires Good(s) && Reaches(true, s, s')
    ensures Good(s')
  {
    hide Good, Run, PoliteRun;
    var ls :| Run(s, ls) == Some(s') && PoliteRun(s, ls);
    RunIsGood(s, ls);
  }

  /** Where a step can offend no premise, whatever the others do. */
  predicate Plain(th: Thread) {
    match th.pc
    case Pick | Expire | LockFile => false
    case Log(p) => if th.req.CommitReq? then p != 2 else p != 6
    case _ => true
  }

  lemma PlainIsPolite(s: State, t: Tid, c: Choice)
    requires t in s.threads && Plain(s.threads[t])
    ensures Polite(s, Act(t, c))
  {
  }

  /** Thread t is a step away from s2; nothing but the bookkeeping is left open. */
  lemma Take(polite: bool, s: State, s1: State, t: Tid, c: Choice, s2: State) returns (s2': State)
    requires Reaches(polite, s, s1) && t in s1.threads
    requires Step(s1, t, c).Some? && Step(s1, t, c).value == s2.(hist := Step(s1, t, c).value.hist)
    requires polite ==> Plain(s1.threads[t]) || Polite(s1, Act(t, c))
    ensures Reaches(polite, s, s2') && s2' == s2.(hist := s2'.hist) && s2' == Step(s1, t, c).value
  {
    hide Step, Reaches, Polite, Plain;
    if Plain(s1.threads[t]) { PlainIsPolite(s1, t, c); }
    s2' := Step(s1, t, c).value;
    ReachesNext(polite, s, s1, Act(t, c));
  }

  const ANY: Choice := Choice(0, true, 0)

  lemma Overwrite(threads: map<Tid, Thread>, t: Tid)
    ensures forall a: Thread, b: Thread {:trigger threads[t := a][t := b]} :: threads[t := a][t := b] == threads[t := b]
  {
  }

  /** Nobody holds the maps or the transaction. */
  ghost predicate Unlocked(s: State, t: Tid, id: TxnId) {
    && t !in s.threads && !s.fault
    && s.member == None && s.global == None && id !in s.txnOwner
  }

  /** Nor the transaction's file. */
  ghost predicate Alone(s: State, t: Tid, id: TxnId) {
    && Unlocked(s, t, id)
    && (id in s.store.live ==> s.store.live[id].attr !in s.fileOwner)
  }

  /** t has answered; the rest of the world saw only the store change. */
  ghost predicate Answered(s: State, t: Tid, st: Store, resp: Response, s': State) {
    && t in s'.threads && s'.threads[t].pc == Done(resp)
    && s' == s.(threads := s.threads[t := s'.threads[t]], store := st, hist := s'.hist)
  }

  function Fresh(req: Request, pc: Pc): Thread {
    Thread(req, pc, req.id, 0, "")
  }

  // ---------------------------------------------------------------- the common beginning

  /** In, and under the member mutex. */
  lemma Enter(polite: bool, s: State, t: Tid, req: Request) returns (s': State)
    requires t !in s.threads && s.member == None && (req.NewReq? ==> req.seqNum == INITIAL_SEQ_NUM)
    requires polite && req.NewReq? ==> IsWord(req.name)
    ensures Reaches(polite, s, s')
    ensures s' == s.Put(t, Fresh(req, FirstPc(req))).(member := Some(t))
  {
    hide Reaches, Run;
    hide StepCheck1, StepCheck2, StepBody, StepOpen, StepWriting, StepLog, StepResize, StepRollback, StepRemove, StepPick, StepExpire;
    Overwrite(s.threads, t);
    ReachesSelf(polite, s);
    var s1 := s.Put(t, Fresh(req, Lock1));
    assert Next(s, Arrive(t, req)) == Some(s1) && (polite ==> Polite(s, Arrive(t, req)));
    ReachesNext(polite, s, s, Arrive(t, req));
    hide Next;
    s' := Take(polite, s, s1, t, ANY, s.Put(t, Fresh(req, FirstPc(req))).(member := Some(t)));
  }

  lemma FirstLook(polite: bool, s: State, t: Tid, req: Request) returns (s': State)
    requires t !in s.threads && s.member == None && (req.WriteReq? || req.CommitReq? || req.AbortReq?)
    ensures Reaches(polite, s, s')
    ensures var look := Lookup(s.store, req.id, req.seqNum, req.CommitReq?);
            s' == s.Put(t, Fresh(req, if look.Some? then Done(look.value) else LockTxn)).(hist := s'.hist)
  {
    hide Reaches, Run, Next;
    hide StepCheck2, StepBody, StepOpen, StepWriting, StepLog, StepResize, StepRollback, StepRemove, StepPick, StepExpire;
    Overwrite(s.threads, t);
    var s1 := Enter(polite, s, t, req);
    var look := Lookup(s.store, req.id, req.seqNum, req.CommitReq?);
    s' := Take(polite, s, s1, t, ANY, s.Put(t, Fresh(req, if look.Some? then Done(look.value) else LockTxn)));
  }

  /** Up to the re-check, for an id that is live. */
  lemma ToRecheck(polite: bool, s: State, t: Tid, req: Request) returns (s': State)
    requires Unlocked(s, t, req.id) && (req.WriteReq? || req.CommitReq? || req.AbortReq?)
    requires req.id in s.store.live && req.id !in s.store.commits
    ensures Reaches(polite, s, s')
    ensures s' == s.Put(t, Fresh(req, Check2)).(member := Some(t), txnOwner := s.txnOwner[req.id := t], hist := s'.hist)
  {
    hide Reaches, Run, Next;
    hide StepCheck1, StepCheck2, StepBody, StepOpen, StepWriting, StepLog, StepResize, StepRollback, StepRemove, StepPick, StepExpire;
    Overwrite(s.threads, t);
    var s1 := FirstLook(polite, s, t, req);
    var s2 := Take(polite, s, s1, t, ANY, s.Put(t, Fresh(req, Lock2)).(txnOwner := s.txnOwner[req.id := t]));
    s' := Take(polite, s, s2, t, ANY, s.Put(t, Fresh(req, Check2)).(member := Some(t), txnOwner := s.txnOwner[req.id := t]));
  }

  lemma ToBody(polite: bool, s: State, t: Tid, req: Request) returns (s': State)
    requires Unlocked(s, t, req.id) && (req.WriteReq? || req.CommitReq?)
    requires req.id in s.store.live && req.id !in s.store.commits
    ensures Reaches(polite, s, s')
    ensures s' == s.Put(t, Fresh(req, Body)).(txnOwner := s.txnOwner[req.id := t], hist := s'.hist)
  {
    hide Reaches, Run, Next;
    hide StepCheck1, StepBody, StepOpen, StepWriting, StepLog, StepResize, StepRollback, StepRemove, StepPick, StepExpire;
    Overwrite(s.threads, t);
    var s1 := ToRecheck(polite, s, t, req);
    s' := Take(polite, s, s1, t, ANY, s.Put(t, Fresh(req, Body)).(txnOwner := s.txnOwner[req.id := t]));
  }

  /** WRITE alone. */
  lemma WriteAlone(polite: bool, s: State, t: Tid, id: TxnId, seqNum: SeqNum, data: Data, now: Time) returns (s': State)
    requires Unlocked(s, t, id)
    ensures Reaches(polite, s, s')
    ensures Answered(s, t, WriteEffect(s.store, id, seqNum, data, now).0, WriteEffect(s.store, id, seqNum, data, now).1, s')
  {
    hide Reaches, Run, Next;
    hide StepCheck1, StepCheck2, StepOpen, StepWriting, StepLog, StepResize, StepRollback, StepRemove, StepPick, StepExpire;
    Overwrite(s.threads, t);
    var req := WriteReq(id, seqNum, data);
    if Lookup(s.store, id, seqNum, false).Some? {
      s' := FirstLook(polite, s, t, req);
    } else {
      var s1 := ToBody(polite, s, t, req);
      var (st, resp) := WriteEffect(s.store, id, seqNum, data, now);
      assert s.txnOwner[id := t] - {id} == s.txnOwner;
      s' := Take(polite, s, s1, t, Choice(0, true, now), s.Put(t, Fresh(req, Done(resp))).(store := st)) by { hide WriteBody; }
    }
  }

  // ---------------------------------------------------------------- logging

  predicate LogsFor(th: Thread, st: Store) {
    th.req.CommitReq? || th.req.AbortReq? ==> th.attr in st.attrs
  }

  function RecordOf(th: Thread, st: Store): Record {
    Record(th.id, th.name, FileSize(st.files, th.name))
  }

  function WithLog(st: Store, kind: LogKind, text: string): Store {
    st.(logs := st.logs.Put(kind, text))
  }

  /** A polite record is begun in a whole commit log, and logs no size in mid-commit. */
  ghost predicate MayLog(polite: bool, s: State, t: Tid)
    requires t in s.threads
  {
    polite ==>
      if s.threads[t].req.CommitReq? then NoCommitRecordOpen(s, t)
      else Good(s) && NobodyWriting(s, t, s.threads[t].name)
  }

  ghost predicate NoCommitRecordOpen(s: State, t: Tid) {
    forall u :: u in s.threads && u != t && Mid(s.threads[u]) ==> !s.threads[u].req.CommitReq?
  }

  ghost predicate NobodyWriting(s: State, t: Tid, name: FileName) {
    forall u :: u in s.threads && u != t && Dirty(s.threads[u]) ==> s.threads[u].name != name
  }

  lemma FirstPieceIsPolite(s: State, t: Tid)
    requires t in s.threads && s.threads[t].pc == Log(2) && (s.threads[t].req.CommitReq? ==> NoCommitRecordOpen(s, t))
    ensures Polite(s, Act(t, ANY))
  {
  }

  lemma SizePieceIsPolite(s: State, t: Tid)
    requires t in s.threads && s.threads[t].pc == Log(6)
    requires !s.threads[t].req.CommitReq? ==> Good(s) && NobodyWriting(s, t, s.threads[t].name)
    ensures Polite(s, Act(t, ANY))
  {
    if !s.threads[t].req.CommitReq? {
      assert WritersOk(s) by { assert FilesOk(s); }
      hide Good;
    }
  }

  lemma PieceIsPolite(s: State, s1: State, t: Tid, q: nat, p: nat)
    requires t in s.threads && s.threads[t].pc == Log(2 + q) && p < PIECES && Reaches(true, s, s1)
    requires MayLog(s.threads[t].req.CommitReq? || p == SIZE_PIECE, s, t)
    requires s1 == s.Put(t, s.threads[t].(pc := Log(2 + p))).(store := s1.store, hist := s1.hist)
    ensures Plain(s1.threads[t]) || Polite(s1, Act(t, ANY))
  {
    hide Good, Reaches, Polite;
    if p == 0 {
      FirstPieceIsPolite(s1, t);
    } else if p == 4 {
      if !s.threads[t].req.CommitReq? { ReachesGood(s, s1); }
      SizePieceIsPolite(s1, t);
    }
  }

  /** From write q of a record to write p. */
  lemma {:induction false} PiecesAlone(polite: bool, s: State, t: Tid, q: nat, p: nat) returns (s': State)
    requires q <= p <= PIECES
    requires t in s.threads && s.threads[t].pc == Log(2 + q) && LogsFor(s.threads[t], s.store)
    requires MayLog(polite && (s.threads[t].req.CommitReq? || p > SIZE_PIECE), s, t)
    ensures Reaches(polite, s, s') && s'.hist.used == s.hist.used
    ensures var th := s.threads[t]; var kind := KindOf(th.req);
            s' == s.Put(t, th.(pc := Log(2 + p)))
                  .(store := WithLog(s.store, kind, s.store.logs.Get(kind) + Pieces(RecordOf(th, s.store), q, p)), hist := s'.hist)
    decreases p
  {
    hide Run, Next, KindOf, FileSize, Piece, Step;
    var th := s.threads[t];
    var kind := KindOf(th.req);
    var text := s.store.logs.Get(kind);
    var r := RecordOf(th, s.store);
    if p == q {
      ReachesSelf(polite, s);
      s' := s;
      assert text + Pieces(r, q, q) == text;
      PutSame(s.store.logs, kind);
    } else {
      hide Reaches;
      var s1 := PiecesAlone(polite, s, t, q, p - 1);
      assert Pieces(r, q, p) == Pieces(r, q, p - 1) + Piece(r, p - 1);
      hide Pieces;
      PieceStep(s1, t, p - 1);
      Assoc(text, Pieces(r, q, p - 1), Piece(r, p - 1));
      PutTwice(s.store.logs, kind, text + Pieces(r, q, p - 1), text + Pieces(r, q, p));
      Overwrite(s.threads, t);
      if polite { PieceIsPolite(s, s1, t, q, p - 1); }
      hide MayLog, Plain, Polite;
      s' := Take(polite, s, s1, t, ANY, s.Put(t, th.(pc := Log(2 + p))).(store := WithLog(s.store, kind, text + Pieces(r, q, p))));
    }
  }

  lemma PutSame(logs: PerLog<string>, kind: LogKind)
    ensures logs.Put(kind, logs.Get(kind)) == logs
  {
  }

  lemma PutTwice(logs: PerLog<string>, kind: LogKind, a: string, b: string)
    ensures logs.Put(kind, a).Put(kind, b) == logs.Put(kind, b)
    ensures logs.Put(kind, a).Get(kind) == a
  {
  }

  lemma PieceStep(s: State, t: Tid, p: nat)
    requires t in s.threads && s.threads[t].pc == Log(2 + p) && LogsFor(s.threads[t], s.store) && p < PIECES
    ensures var th := s.threads[t]; var kind := KindOf(th.req);
            && Step(s, t, ANY).Some?
            && var s' := Step(s, t, ANY).value;
               && s'.hist.used == s.hist.used
               && s' == s.Put(t, th.(pc := Log(3 + p)))
                      .(store := WithLog(s.store, kind, s.store.logs.Get(kind) + Piece(RecordOf(th, s.store), p)), hist := s'.hist)
  {
    RecordingUsesNoId(s, s.threads[t]);
    hide KindOf, FileSize, Piece, ViewAfter, Recorded;
    hide StepCheck1, StepCheck2, StepBody, StepOpen, StepWriting, StepResize, StepRollback, StepRemove, StepPick, StepExpire;
    Overwrite(s.threads, t);
  }

  lemma RecordingUsesNoId(s: State, th: Thread)
    ensures forall h :: Recorded(s, h, th).used == h.used
  {
  }

  /** logTransaction alone: the whole record, and on to what follows it. */
  lemma LogAlone(polite: bool, s: State, t: Tid) returns (s': State)
    requires t in s.threads && s.threads[t].pc == Log(0) && LogsFor(s.threads[t], s.store) && s.global == None
    requires MayLog(polite, s, t)
    ensures Reaches(polite, s, s') && s'.hist.used == s.hist.used
    ensures var th := s.threads[t];
            s' == AfterLog(s.(store := Logged(s.store, KindOf(th.req), th.id, th.name)), t).(hist := s'.hist)
  {
    hide Reaches, Run, Next, Step, StepLog, KindOf, FileSize, AfterLog, Torn, Pieces;
    Overwrite(s.threads, t);
    var th := s.threads[t];
    var s2 := LogOpens(polite, s, t);
    MayStillLog(polite, s, s2, t);
    hide MayLog;
    var s3 := PiecesAlone(polite, s2, t, 0, PIECES);
    assert Pieces(RecordOf(th, s2.store), 0, PIECES) == Render(RecordOf(th, s2.store)) by {
      AllPieces(RecordOf(th, s2.store), PIECES);
    }
    ReachesThen(polite, s, s2, s3);
    var st := Logged(s.store, KindOf(th.req), th.id, th.name);
    assert s3 == s.Put(t, th.(pc := Log(8))).(store := st, hist := s3.hist);
    s' := LogCloses(polite, s3, t);
    ReachesThen(polite, s, s3, s');
    AfterLogOf(s.(store := st), t, Log(8), s3.hist);
  }

  lemma AllPieces(r: Record, p: nat)
    ensures Pieces(r, 0, p) == Torn(r, p)
  {
    TornThenPieces(r, 0, p);
    assert "" + Pieces(r, 0, p) == Pieces(r, 0, p);
  }

  lemma MayStillLog(polite: bool, s: State, s2: State, t: Tid)
    requires t in s.threads && MayLog(polite, s, t) && Reaches(polite, s, s2) && s2 == s.Put(t, s.threads[t].(pc := Log(2)))
    ensures MayLog(polite, s2, t)
  {
    hide Reaches, Good;
    if polite && !s.threads[t].req.CommitReq? { ReachesGood(s, s2); }
  }

  lemma AfterLogOf(s: State, t: Tid, pc: Pc, h: History)
    requires t in s.threads
    ensures AfterLog(s.Put(t, s.threads[t].(pc := pc)).(hist := h), t) == AfterLog(s, t).(hist := h)
    ensures AfterLog(s, t).hist == s.hist
  {
    Overwrite(s.threads, t);
    match s.threads[t].req
    case NewReq(_, _, _) =>
    case TimerReq(_) =>
    case AbortReq(_, _) =>
    case _ =>
  }

  lemma LogOpens(polite: bool, s: State, t: Tid) returns (s': State)
    requires t in s.threads && s.threads[t].pc == Log(0) && s.global == None
    ensures Reaches(polite, s, s') && s' == s.Put(t, s.threads[t].(pc := Log(2)))
  {
    hide Reaches, Run, Next, KindOf, FileSize, Piece, ViewAfter, Recorded;
    hide StepCheck1, StepCheck2, StepBody, StepOpen, StepWriting, StepResize, StepRollback, StepRemove, StepPick, StepExpire;
    Overwrite(s.threads, t);
    var th := s.threads[t];
    ReachesSelf(polite, s);
    var s1 := Take(polite, s, s, t, ANY, s.Put(t, th.(pc := Log(1))).(global := Some(t)));
    s' := Take(polite, s, s1, t, ANY, s.Put(t, th.(pc := Log(2))));
  }

  lemma LogCloses(polite: bool, s: State, t: Tid) returns (s': State)
    requires t in s.threads && s.threads[t].pc == Log(8) && s.global == None
    ensures Reaches(polite, s, s') && s' == AfterLog(s, t) && s'.hist == s.hist
  {
    hide Reaches, Run, Next, KindOf, FileSize, Piece, ViewAfter, Recorded, AfterLog;
    hide StepCheck1, StepCheck2, StepBody, StepOpen, StepWriting, StepResize, StepRollback, StepRemove, StepPick, StepExpire;
    Overwrite(s.threads, t);
    var th := s.threads[t];
    ReachesSelf(polite, s);
    var s1 := Take(polite, s, s, t, ANY, s.Put(t, th.(pc := Log(9))).(global := Some(t)));
    NextIsStep(s1, t, ANY);
    PlainIsPolite(s1, t, ANY);
    hide Polite, Plain;
    ReachesNext(polite, s, s1, Act(t, ANY));
    s' := Step(s1, t, ANY).value;
    AfterLogOf(s, t, Log(9), s1.hist);
  }

  lemma NextIsStep(s: State, t: Tid, c: Choice)
    requires t in s.threads
    ensures Next(s, Act(t, c)) == Step(s, t, c)
  {
    hide Step;
  }

  /** NEW_TXN alone, whatever unused id it draws. */
  lemma NewAlone(polite: bool, s: State, t: Tid, id: TxnId, name: FileName, drawn: TxnId, now: Time) returns (s': State)
    requires Unlocked(s, t, id) && drawn !in s.store.live
    requires polite ==> IsWord(name) && drawn !in s.hist.used && Good(s) && NobodyWriting(s, t, name)
    ensures Reaches(polite, s, s') && s'.hist.used == s.hist.used + {drawn}
    ensures Answered(s, t, NewEffect(s.store, drawn, name, now), Ack(drawn, INITIAL_SEQ_NUM), s')
  {
    hide Reaches, Enroll, Logged, AfterLog, Polite;
    var req := NewReq(id, INITIAL_SEQ_NUM, name);
    var s1 := Enter(polite, s, t, req);
    Overwrite(s.threads, t);
    var s2 := DrawAlone(polite, s1, t, drawn, now);
    ReachesThen(polite, s, s1, s2);
    MayLogNext(polite, s, s2, t);
    s' := LogAlone(polite, s2, t);
    ReachesThen(polite, s, s2, s');
    AfterNewLog(s2, s.(store := NewEffect(s.store, drawn, name, now)), t);
    assert s'.hist.used == s2.hist.used;
  }

  /** NEW_TXN's draw. */
  lemma DrawAlone(polite: bool, s: State, t: Tid, drawn: TxnId, now: Time) returns (s': State)
    requires t in s.threads && s.threads[t].pc == Pick && s.threads[t].req.NewReq? && drawn !in s.store.live
    requires polite ==> drawn !in s.hist.used
    ensures Reaches(polite, s, s') && s'.hist.used == s.hist.used + {drawn}
    ensures var name := s.threads[t].req.name;
            s' == s.Put(t, s.threads[t].(pc := Log(0), id := drawn, name := name))
                   .(store := Enroll(s.store, drawn, name, now), hist := s'.hist)
  {
    hide Reaches, Run, Next, Enroll;
    hide StepCheck1, StepCheck2, StepBody, StepOpen, StepWriting, StepLog, StepResize, StepRollback, StepRemove, StepExpire;
    var name := s.threads[t].req.name;
    var c := Choice(drawn, true, now);
    ReachesSelf(polite, s);
    assert polite ==> Polite(s, Act(t, c));
    var th := s.threads[t].(pc := Log(0), id := drawn, name := name);
    s' := Take(polite, s, s, t, c, s.Put(t, th).(store := Enroll(s.store, drawn, name, now)));
  }

  lemma MayLogNext(polite: bool, s: State, s1: State, t: Tid)
    requires Reaches(polite, s, s1) && t in s1.threads && !s1.threads[t].req.CommitReq?
    requires forall u :: u != t && u in s1.threads ==> u in s.threads && s1.threads[u] == s.threads[u]
    requires polite ==> Good(s) && NobodyWriting(s, t, s1.threads[t].name)
    ensures MayLog(polite, s1, t)
  {
    hide Reaches, Good;
    if polite { ReachesGood(s, s1); }
  }

  /** What follows the record of a NEW_TXN or a timeout: the member mutex is released. */
  lemma AfterNewLog(s: State, s0: State, t: Tid)
    requires t in s.threads && t !in s0.threads && s0.member == None && (s.threads[t].req.NewReq? || s.threads[t].req.TimerReq?)
    requires var th := s.threads[t];
             s.(store := Logged(s.store, KindOf(th.req), th.id, th.name))
                 == s0.Put(t, th).(member := Some(t), global := None, hist := s.hist)
    ensures var th := s.threads[t];
            var s' := AfterLog(s.(store := Logged(s.store, KindOf(th.req), th.id, th.name)), t);
            s' == s0.Put(t, th.(pc := Done(if th.req.NewReq? then Ack(th.id, INITIAL_SEQ_NUM) else Silent)))
                   .(global := None, hist := s.hist)
  {
    hide Logged;
    Overwrite(s.threads, t);
  }

  /** ABORT alone. */
  lemma AbortAlone(polite: bool, s: State, t: Tid, id: TxnId, seqNum: SeqNum) returns (s': State)
    requires Unlocked(s, t, id) && IndexOk(s.store)
    requires polite && id in s.store.live ==> Good(s) && NobodyWriting(s, t, NameOf(s.store, id))
    ensures Reaches(polite, s, s')
    ensures Answered(s, t, AbortEffect(s.store, id, seqNum).0, AbortEffect(s.store, id, seqNum).1, s')
  {
    hide Reaches, Run, Next, Evict, Logged, IndexOk, Step, AfterLog;
    var req := AbortReq(id, seqNum);
    if Lookup(s.store, id, seqNum, false).Some? {
      s' := FirstLook(polite, s, t, req);
    } else {
      s' := LiveAbortAlone(polite, s, t, id, seqNum);
    }
  }

  lemma LiveAbortAlone(polite: bool, s: State, t: Tid, id: TxnId, seqNum: SeqNum) returns (s': State)
    requires Unlocked(s, t, id) && IndexOk(s.store) && id in s.store.live && id !in s.store.commits
    requires polite ==> Good(s) && NobodyWriting(s, t, NameOf(s.store, id))
    ensures Reaches(polite, s, s')
    ensures Answered(s, t, Evict(Logged(s.store, AbortLog, id, NameOf(s.store, id)), id), Ack(id, seqNum), s')
  {
    LiveHasAttributes(s.store, id);
    hide Reaches, Run, Next, Evict, Logged, IndexOk, Step, AfterLog, Good, NobodyWriting;
    var s1 := RecheckForAbort(polite, s, t, id, seqNum);
    MayLogNext(polite, s, s1, t);
    var s2 := LogAlone(polite, s1, t);
    ReachesThen(polite, s, s1, s2);
    s' := LeaveAbort(polite, s1, s2, t);
    ReachesThen(polite, s, s2, s');
    Overwrite(s.threads, t);
  }

  lemma RecheckForAbort(polite: bool, s: State, t: Tid, id: TxnId, seqNum: SeqNum) returns (s': State)
    requires Unlocked(s, t, id) && id in s.store.live && id !in s.store.commits && s.store.live[id].attr in s.store.attrs
    ensures Reaches(polite, s, s')
    ensures var a := s.store.live[id].attr;
            s' == s.Put(t, Thread(AbortReq(id, seqNum), Log(0), id, a, s.store.attrs[a].name)).(member := Some(t), hist := s'.hist)
  {
    hide Reaches, Run, Next;
    hide StepCheck1, StepBody, StepOpen, StepWriting, StepLog, StepResize, StepRollback, StepRemove, StepPick, StepExpire;
    Overwrite(s.threads, t);
    var req := AbortReq(id, seqNum);
    var a := s.store.live[id].attr;
    var s1 := ToRecheck(polite, s, t, req);
    assert s.txnOwner[id := t] - {id} == s.txnOwner;
    s' := Take(polite, s, s1, t, ANY, s.Put(t, Thread(req, Log(0), id, a, s.store.attrs[a].name)).(member := Some(t)));
  }

  /** ABORT after its record. */
  lemma LeaveAbort(polite: bool, s: State, s1: State, t: Tid) returns (s': State)
    requires t in s.threads && s.threads[t].req.AbortReq?
    requires var th := s.threads[t];
             s1 == AfterLog(s.(store := Logged(s.store, KindOf(th.req), th.id, th.name)), t).(hist := s1.hist)
    ensures Reaches(polite, s1, s')
    ensures var th := s.threads[t];
            s' == s.Put(t, th.(pc := Done(Ack(th.id, th.req.seqNum))))
                   .(member := None, store := Evict(Logged(s.store, AbortLog, th.id, th.name), th.id), hist := s'.hist)
  {
    hide Reaches, Run, Next, Evict, Logged;
    hide StepCheck1, StepCheck2, StepBody, StepOpen, StepWriting, StepLog, StepResize, StepRollback, StepPick, StepExpire;
    Overwrite(s.threads, t);
    var th := s.threads[t];
    var st := Logged(s.store, AbortLog, th.id, th.name);
    ReachesSelf(polite, s1);
    s' := Take(polite, s1, s1, t, ANY, s.Put(t, th.(pc := Done(Ack(th.id, th.req.seqNum)))).(member := None, store := Evict(st, th.id)));
  }

  /** A timer wake-up alone. */
  lemma ExpireAlone(polite: bool, s: State, t: Tid, id: TxnId, now: Time) returns (s': State)
    requires Unlocked(s, t, id) && IndexOk(s.store)
    requires polite && Expired(s, id, now) ==> Good(s) && NobodyWriting(s, t, NameOf(s.store, id)) && Quiet(s, id)
    ensures Reaches(polite, s, s')
    ensures Answered(s, t, ExpireEffect(s.store, id, now), Silent, s')
  {
    hide Reaches, Run, Next, Evict, Logged, AfterLog, IndexOk, Step, StepExpire, NobodyWriting, Quiet, Good, Polite;
    var s1 := Enter(polite, s, t, TimerReq(id));
    if Expired(s, id, now) {
      LiveHasAttributes(s.store, id);
      if polite { ExpiryIsPolite(s, s1, t, id, now); }
      var s2 := ExpiresNow(polite, s1, t, now);
      ReachesThen(polite, s, s1, s2);
      Overwrite(s.threads, t);
      MayLogNext(polite, s, s2, t);
      s' := LogAlone(polite, s2, t);
      ReachesThen(polite, s, s2, s');
      AfterNewLog(s2, s.(store := ExpireEffect(s.store, id, now)), t);
    } else {
      s' := StaysYoung(polite, s1, t, now);
      ReachesThen(polite, s, s1, s');
      Overwrite(s.threads, t);
    }
  }

  lemma ExpiryIsPolite(s: State, s1: State, t: Tid, id: TxnId, now: Time)
    requires t !in s.threads && Quiet(s, id) && s1 == s.Put(t, Fresh(TimerReq(id), Expire)).(member := Some(t))
    ensures Polite(s1, Act(t, Choice(0, true, now)))
  {
  }

  lemma ExpiresNow(polite: bool, s: State, t: Tid, now: Time) returns (s': State)
    requires t in s.threads && s.threads[t].pc == Expire && Expired(s, s.threads[t].id, now)
    requires s.store.live[s.threads[t].id].attr in s.store.attrs && (polite ==> Polite(s, Act(t, Choice(0, true, now))))
    ensures Reaches(polite, s, s')
    ensures var th := s.threads[t]; var name := s.store.attrs[s.store.live[th.id].attr].name;
            s' == s.Put(t, th.(pc := Log(0), name := name)).(store := Evict(s.store, th.id), hist := s'.hist)
  {
    hide Reaches, Run, Next, Evict, Polite;
    hide StepCheck1, StepCheck2, StepBody, StepOpen, StepWriting, StepLog, StepResize, StepRollback, StepRemove, StepPick;
    var th := s.threads[t];
    var name := s.store.attrs[s.store.live[th.id].attr].name;
    ReachesSelf(polite, s);
    s' := Take(polite, s, s, t, Choice(0, true, now), s.Put(t, th.(pc := Log(0), name := name)).(store := Evict(s.store, th.id)));
  }

  lemma StaysYoung(polite: bool, s: State, t: Tid, now: Time) returns (s': State)
    requires t in s.threads && s.threads[t].pc == Expire && !Expired(s, s.threads[t].id, now)
    ensures Reaches(polite, s, s')
    ensures s' == s.Put(t, s.threads[t].(pc := Done(Silent))).(member := None, hist := s'.hist)
  {
    hide Reaches, Run, Next, Evict;
    hide StepCheck1, StepCheck2, StepBody, StepOpen, StepWriting, StepLog, StepResize, StepRollback, StepRemove, StepPick;
    ReachesSelf(polite, s);
    var c := Choice(0, true, now);
    assert polite ==> Polite(s, Act(t, c));
    s' := Take(polite, s, s, t, c, s.Put(t, s.threads[t].(pc := Done(Silent))).(member := None));
  }

  // ---------------------------------------------------------------- commit

  /** The thread owns its transaction and its file, alone in the machine. */
  ghost predicate Writer(s: State, t: Tid, txn: Txn) {
    && t in s.threads
    && var th := s.threads[t];
    && th.req.CommitReq? && th.id in s.store.live && s.store.live[th.id] == txn
    && (forall j :: 1 <= j <= txn.maxSeq ==> j in txn.buffers)
    && th.name in s.store.files
  }

  /** A polite commit takes no file whose failed commit is still to be truncated. */
  ghost predicate MayOpen(polite: bool, s: State, t: Tid, a: Address) {
    polite ==> forall u :: u in s.threads && u != t && s.threads[u].pc.Rollback? ==> s.threads[u].attr != a
  }

  function WithFile(st: Store, name: FileName, data: Data): Store {
    st.(files := AppendTo(st.files, name, data))
  }

  /** What is left of one buffer, written by one call. */
  lemma BufferAlone(polite: bool, s: State, t: Tid, txn: Txn, k: SeqNum, off: nat) returns (s': State)
    requires Writer(s, t, txn) && s.threads[t].pc == Writing(k, off) && 1 <= k <= txn.maxSeq && off <= |txn.buffers[k]|
    ensures Reaches(polite, s, s')
    ensures var th := s.threads[t];
            s' == s.Put(t, th.(pc := Writing(k + 1, 0))).(store := WithFile(s.store, th.name, txn.buffers[k][off..]), hist := s'.hist)
  {
    hide Reaches, Run, Next;
    Overwrite(s.threads, t);
    var th := s.threads[t];
    hide StepCheck1, StepCheck2, StepBody, StepOpen, StepLog, StepResize, StepRollback, StepRemove, StepPick, StepExpire;
    var data := txn.buffers[k];
    ReachesSelf(polite, s);
    var s1;
    if off == |data| {
      s1 := s;
      assert Content(s.store.files, th.name) + "" == Content(s.store.files, th.name);
      s' := Take(polite, s, s1, t, ANY, s.Put(t, th.(pc := Writing(k + 1, 0))));
      assert data[off..] == "" && s.store.files == AppendTo(s.store.files, th.name, "");
    } else {
      s1 := ChunkAlone(polite, s, t, txn, k, off, |data| - off);
      assert data[off..|data|] == data[off..];
      var st := WithFile(s.store, th.name, data[off..]);
      s' := Take(polite, s, s1, t, ANY, s.Put(t, th.(pc := Writing(k + 1, 0))).(store := st));
    }
  }

  /** The next part of a buffer. */
  lemma ChunkAlone(polite: bool, s: State, t: Tid, txn: Txn, k: SeqNum, off: nat, n: nat) returns (s': State)
    requires Writer(s, t, txn) && s.threads[t].pc == Writing(k, off) && 1 <= k <= txn.maxSeq
    requires off + n <= |txn.buffers[k]| && off < |txn.buffers[k]|
    ensures Reaches(polite, s, s')
    ensures var th := s.threads[t];
            s' == s.Put(t, th.(pc := Writing(k, off + n)))
                   .(store := WithFile(s.store, th.name, txn.buffers[k][off..off + n]), hist := s'.hist)
  {
    hide Reaches, Run, Next;
    Overwrite(s.threads, t);
    var th := s.threads[t];
    hide StepCheck1, StepCheck2, StepBody, StepOpen, StepLog, StepResize, StepRollback, StepRemove, StepPick, StepExpire;
    var data := txn.buffers[k];
    ReachesSelf(polite, s);
    hide Appended;
    var st := WithFile(s.store, th.name, data[off..off + n]);
    s' := Take(polite, s, s, t, Choice(n, true, 0), s.Put(t, th.(pc := Writing(k, off + n))).(store := st));
  }

  lemma AppendTwice(st: Store, name: FileName, a: Data, b: Data)
    ensures WithFile(WithFile(st, name, a), name, b) == WithFile(st, name, a + b)
  {
    Assoc(Content(st.files, name), a, b);
  }

  lemma AppendNone(st: Store, name: FileName)
    requires name in st.files
    ensures WithFile(st, name, "") == st
  {
    assert Content(st.files, name) + "" == Content(st.files, name);
  }

  /** The writing loop up to buffer k. */
  lemma {:induction false} BuffersAlone(polite: bool, s: State, t: Tid, txn: Txn, k: SeqNum) returns (s': State)
    requires Writer(s, t, txn) && s.threads[t].pc == Writing(1, 0) && (k == 1 || 1 <= k <= txn.maxSeq + 1)
    ensures Reaches(polite, s, s') && Writer(s', t, txn)
    ensures var th := s.threads[t];
            s' == s.Put(t, th.(pc := Writing(k, 0))).(store := WithFile(s.store, th.name, Assemble(txn.buffers, k - 1)), hist := s'.hist)
    decreases k
  {
    hide Reaches;
    Overwrite(s.threads, t);
    var th := s.threads[t];
    if k == 1 {
      ReachesSelf(polite, s);
      s' := s;
      AppendNone(s.store, th.name);
    } else {
      var s1 := BuffersAlone(polite, s, t, txn, k - 1);
      s' := BufferAlone(polite, s1, t, txn, k - 1, 0);
      assert txn.buffers[k - 1][0..] == txn.buffers[k - 1];
      ReachesThen(polite, s, s1, s');
      AppendTwice(s.store, th.name, Assemble(txn.buffers, k - 2), txn.buffers[k - 1]);
    }
  }

  /** The writing loop from anywhere to its end. */
  lemma {:induction false} RestAlone(polite: bool, s: State, t: Tid, txn: Txn, k: SeqNum, off: nat) returns (s': State)
    requires Writer(s, t, txn) && s.threads[t].pc == Writing(k, off) && 1 <= k
    requires if k <= txn.maxSeq then off <= |txn.buffers[k]| else off == 0
    ensures Reaches(polite, s, s') && Writer(s', t, txn)
    ensures var th := s.threads[t];
            s' == s.Put(t, th.(pc := Writing(if k <= txn.maxSeq then txn.maxSeq + 1 else k, 0)))
                   .(store := WithFile(s.store, th.name, Remaining(txn, k, off)), hist := s'.hist)
    decreases txn.maxSeq - k
  {
    hide Reaches;
    var th := s.threads[t];
    if k > txn.maxSeq {
      ReachesSelf(polite, s);
      s' := s;
      AppendNone(s.store, th.name);
    } else {
      var s1 := BufferAlone(polite, s, t, txn, k, off);
      s' := RestAlone(polite, s1, t, txn, k + 1, 0);
      ReachesThen(polite, s, s1, s');
      Overwrite(s.threads, t);
      AppendTwice(s.store, th.name, txn.buffers[k][off..], Remaining(txn, k + 1, 0));
    }
  }

  /** What the loop has still to write. */
  function Remaining(txn: Txn, k: SeqNum, off: nat): Data
    decreases txn.maxSeq - k
  {
    if k > txn.maxSeq || k !in txn.buffers || off > |txn.buffers[k]| then ""
    else txn.buffers[k][off..] + Remaining(txn, k + 1, 0)
  }

  /** Written and remaining together are data 1..n. */
  lemma {:induction false} WrittenAndRemaining(txn: Txn, k: SeqNum, off: nat)
    requires 1 <= k <= txn.maxSeq + 1 && forall j :: 1 <= j <= txn.maxSeq ==> j in txn.buffers
    requires if k <= txn.maxSeq then off <= |txn.buffers[k]| else off == 0
    ensures WrittenSoFar(txn, k, off) + Remaining(txn, k, off) == Assemble(txn.buffers, txn.maxSeq)
    decreases txn.maxSeq - k
  {
    var before := Assemble(txn.buffers, k - 1);
    if k <= txn.maxSeq {
      WrittenAndRemaining(txn, k + 1, 0);
      var data := txn.buffers[k];
      assert data[..off] + data[off..] == data;
      assert Assemble(txn.buffers, k) == before + data;
      assert WrittenSoFar(txn, k + 1, 0) == before + data;
      Assoc(before, data[..off], data[off..]);
      Assoc(before + data[..off], data[off..], Remaining(txn, k + 1, 0));
    } else {
      assert before + "" + "" == before;
    }
  }

  /** Where the b-th byte of data 1..n is. */
  lemma {:induction false} FindByte(buffers: map<SeqNum, Data>, n: SeqNum, b: nat) returns (k: SeqNum, off: nat)
    requires b < |Assemble(buffers, n)|
    ensures 1 <= k <= n && k in buffers && off < |buffers[k]|
    ensures Assemble(buffers, k - 1) + buffers[k][..off] == Assemble(buffers, n)[..b]
    decreases n
  {
    var before := Assemble(buffers, n - 1);
    if b < |before| {
      k, off := FindByte(buffers, n - 1, b);
      assert Assemble(buffers, n)[..b] == before[..b];
    } else {
      k, off := n, b - |before|;
      assert n in buffers;
    }
  }

  /** COMMIT from its decision to the open file. */
  lemma OpenAlone(polite: bool, s: State, t: Tid, id: TxnId, n: SeqNum, now: Time, canOpen: bool) returns (s': State)
    requires Alone(s, t, id) && id in s.store.live && id !in s.store.commits && s.store.live[id].attr in s.store.attrs
    requires CommitBody(s.store.live[id], id, n, now).1 == None
    requires MayOpen(polite, s, t, s.store.live[id].attr)
    ensures Reaches(polite, s, s')
    ensures var txn := CommitBody(s.store.live[id], id, n, now).0;
            var st := s.store.(live := s.store.live[id := txn]);
            var name := st.attrs[txn.attr].name;
            txn.attr == s.store.live[id].attr &&
            if canOpen then
              s' == s.Put(t, Thread(CommitReq(id, n), Writing(1, 0), id, txn.attr, name))
                     .(store := WithFile(st, name, ""), txnOwner := s.txnOwner[id := t], fileOwner := s.fileOwner[txn.attr := t],
                          hist := s'.hist)
            else
              Answered(s, t, st, Error(id, n, ErrorOpeningFile), s')
  {
    assert id !in s.txnOwner && s.store.live[id].attr !in s.fileOwner && s.global == None;
    hide Reaches, Run, Next, CommitBody, Step, WithFile, Alone;
    var txn := CommitBody(s.store.live[id], id, n, now).0;
    var s4 := AboutToOpen(polite, s, t, id, n, now);
    Overwrite(s.threads, t);
    if canOpen {
      s' := OpenSucceeds(polite, s4, t);
    } else {
      s' := OpenFails(polite, s4, t);
      assert s.txnOwner[id := t] - {id} == s.txnOwner && s.fileOwner[txn.attr := t] - {txn.attr} == s.fileOwner;
    }
    ReachesThen(polite, s, s4, s');
  }

  lemma AboutToOpen(polite: bool, s: State, t: Tid, id: TxnId, n: SeqNum, now: Time) returns (s': State)
    requires Alone(s, t, id) && id in s.store.live && id !in s.store.commits && s.store.live[id].attr in s.store.attrs
    requires CommitBody(s.store.live[id], id, n, now).1 == None
    requires MayOpen(polite, s, t, s.store.live[id].attr)
    ensures Reaches(polite, s, s')
    ensures var txn := CommitBody(s.store.live[id], id, n, now).0;
            && txn.attr == s.store.live[id].attr
            && s' == s.Put(t, Thread(CommitReq(id, n), OpenHeld, id, txn.attr, s.store.attrs[txn.attr].name))
                      .(store := s.store.(live := s.store.live[id := txn]), txnOwner := s.txnOwner[id := t],
                        fileOwner := s.fileOwner[txn.attr := t], global := Some(t), hist := s'.hist)
  {
    hide Reaches, Run, Next, CommitBody, Step;
    Overwrite(s.threads, t);
    var s2 := DecideAlone(polite, s, t, id, n, now);
    s' := LocksForOpen(polite, s2, t);
    ReachesThen(polite, s, s2, s');
  }

  lemma OpenSucceeds(polite: bool, s: State, t: Tid) returns (s': State)
    requires t in s.threads && s.threads[t].pc == OpenHeld
    ensures Reaches(polite, s, s')
    ensures var th := s.threads[t];
            s' == s.Put(t, th.(pc := Writing(1, 0))).(global := None, store := WithFile(s.store, th.name, ""), hist := s'.hist)
  {
    hide Reaches, Run, Next;
    hide StepCheck1, StepCheck2, StepBody, StepWriting, StepLog, StepResize, StepRollback, StepRemove, StepPick, StepExpire;
    Overwrite(s.threads, t);
    var th := s.threads[t];
    ReachesSelf(polite, s);
    assert Content(s.store.files, th.name) + "" == Content(s.store.files, th.name);
    s' := Take(polite, s, s, t, ANY, s.Put(t, th.(pc := Writing(1, 0))).(global := None, store := WithFile(s.store, th.name, "")));
  }

  lemma OpenFails(polite: bool, s: State, t: Tid) returns (s': State)
    requires t in s.threads && s.threads[t].pc == OpenHeld
    ensures Reaches(polite, s, s')
    ensures var th := s.threads[t];
            s' == s.Put(t, th.(pc := Done(Error(th.id, SeqNumOf(th.req), ErrorOpeningFile))))
                   .(global := None, txnOwner := s.txnOwner - {th.id}, fileOwner := s.fileOwner - {th.attr}, hist := s'.hist)
  {
    hide Reaches, Run, Next;
    hide StepCheck1, StepCheck2, StepBody, StepWriting, StepLog, StepResize, StepRollback, StepRemove, StepPick, StepExpire;
    Overwrite(s.threads, t);
    var th := s.threads[t];
    ReachesSelf(polite, s);
    s' := Take(polite, s, s, t, Choice(0, false, 0), s.Put(t, th.(pc := Done(Error(th.id, SeqNumOf(th.req), ErrorOpeningFile))))
      .(global := None, txnOwner := s.txnOwner - {th.id}, fileOwner := s.fileOwner - {th.attr}));
  }

  lemma DecideAlone(polite: bool, s: State, t: Tid, id: TxnId, n: SeqNum, now: Time) returns (s': State)
    requires Alone(s, t, id) && id in s.store.live && id !in s.store.commits && s.store.live[id].attr in s.store.attrs
    requires CommitBody(s.store.live[id], id, n, now).1 == None
    ensures Reaches(polite, s, s')
    ensures var txn := CommitBody(s.store.live[id], id, n, now).0;
            && txn.attr == s.store.live[id].attr
            && s' == s.Put(t, Thread(CommitReq(id, n), LockFile, id, txn.attr, s.store.attrs[txn.attr].name))
                      .(store := s.store.(live := s.store.live[id := txn]), txnOwner := s.txnOwner[id := t], hist := s'.hist)
  {
    hide Reaches, Run, Next;
    hide StepCheck1, StepCheck2, StepOpen, StepWriting, StepLog, StepResize, StepRollback, StepRemove, StepPick, StepExpire;
    Overwrite(s.threads, t);
    var req := CommitReq(id, n);
    var txn := CommitBody(s.store.live[id], id, n, now).0;
    assert txn.attr == s.store.live[id].attr;
    hide CommitBody;
    var st := s.store.(live := s.store.live[id := txn]);
    var th := Thread(req, LockFile, id, txn.attr, st.attrs[txn.attr].name);
    var s1 := ToBody(polite, s, t, req);
    s' := Take(polite, s, s1, t, Choice(0, true, now), s.Put(t, th).(store := st, txnOwner := s.txnOwner[id := t]));
  }

  lemma LocksForOpen(polite: bool, s: State, t: Tid) returns (s': State)
    requires t in s.threads && s.threads[t].pc == LockFile && s.global == None
    requires s.threads[t].attr in s.store.attrs && s.threads[t].attr !in s.fileOwner
    requires MayOpen(polite, s, t, s.threads[t].attr)
    ensures Reaches(polite, s, s')
    ensures var th := s.threads[t];
            s' == s.Put(t, th.(pc := OpenHeld)).(fileOwner := s.fileOwner[th.attr := t], global := Some(t), hist := s'.hist)
  {
    hide Reaches, Run, Next;
    hide StepCheck1, StepCheck2, StepBody, StepOpen, StepWriting, StepLog, StepResize, StepRollback, StepRemove, StepPick, StepExpire;
    Overwrite(s.threads, t);
    var th := s.threads[t];
    ReachesSelf(polite, s);
    assert polite ==> Polite(s, Act(t, ANY));
    var s1 := Take(polite, s, s, t, ANY, s.Put(t, th.(pc := OpenWant)).(fileOwner := s.fileOwner[th.attr := t]));
    s' := Take(polite, s, s1, t, ANY, s.Put(t, th.(pc := OpenHeld)).(fileOwner := s.fileOwner[th.attr := t], global := Some(t)));
  }

  /** Compared with s0, t has taken its transaction and its file. */
  ghost predicate HoldsBoth(s: State, s0: State, t: Tid)
    requires t in s.threads
  {
    var th := s.threads[t];
    && th.id !in s0.txnOwner && s.txnOwner == s0.txnOwner[th.id := t]
    && th.attr !in s0.fileOwner && s.fileOwner == s0.fileOwner[th.attr := t]
  }

  /** After the last buffer: into the commit set. */
  lemma BeginsRecord(polite: bool, s: State, t: Tid) returns (s': State)
    requires t in s.threads && s.threads[t].pc.Writing? && s.threads[t].id in s.store.live
    requires s.threads[t].pc.k > s.store.live[s.threads[t].id].maxSeq
    ensures Reaches(polite, s, s')
    ensures var th := s.threads[t];
            s' == s.Put(t, th.(pc := Log(0))).(store := s.store.(commits := s.store.commits + {th.id}), hist := s'.hist)
  {
    hide Reaches, Run, Next;
    hide StepCheck1, StepCheck2, StepBody, StepOpen, StepLog, StepResize, StepRollback, StepRemove, StepPick, StepExpire;
    var th := s.threads[t];
    ReachesSelf(polite, s);
    s' := Take(polite, s, s, t, ANY, s.Put(t, th.(pc := Log(0))).(store := s.store.(commits := s.store.commits + {th.id})));
  }

  /** COMMIT after its last byte. */
  lemma FinishAlone(polite: bool, s: State, s0: State, t: Tid, txn: Txn) returns (s': State)
    requires Writer(s, t, txn) && s.threads[t].pc.Writing? && s.threads[t].pc.k > txn.maxSeq && txn.attr in s.store.attrs
    requires s.threads[t].attr == txn.attr && s.threads[t].name == s.store.attrs[txn.attr].name
    requires s.member == None && s.global == None && HoldsBoth(s, s0, t)
    requires polite ==> NoCommitRecordOpen(s, t)
    ensures Reaches(polite, s, s')
    ensures var th := s.threads[t];
            s' == s.Put(t, th.(pc := Done(Ack(th.id, th.req.seqNum))))
                   .(store := FinishedStore(s.store, th.id, txn.attr, th.name), txnOwner := s0.txnOwner, fileOwner := s0.fileOwner,
                        hist := s'.hist)
  {
    hide Reaches, Run, Next, Logged, Evict, Step;
    Overwrite(s.threads, t);
    var th := s.threads[t];
    var st1 := s.store.(commits := s.store.commits + {th.id});
    var s1 := BeginsRecord(polite, s, t);
    var s2 := LogAlone(polite, s1, t);
    ReachesThen(polite, s, s1, s2);
    var st2 := Logged(st1, CommitLog, th.id, th.name);
    LoggedTouches(st1, CommitLog, th.id, th.name);
    assert s2 == s.Put(t, th.(pc := Resize)).(store := st2, hist := s2.hist);
    hide FileSize, AfterLog;
    var s5 := CloseAlone(polite, s2, s0, t);
    ReachesThen(polite, s, s2, s5);
    s' := LeaveAlone(polite, s5, s0, t);
    ReachesThen(polite, s, s5, s');
  }

  lemma CloseAlone(polite: bool, s: State, s0: State, t: Tid) returns (s': State)
    requires t in s.threads && s.threads[t].pc == Resize && s.threads[t].attr in s.store.attrs
    requires s.global == None && HoldsBoth(s, s0, t)
    ensures Reaches(polite, s, s')
    ensures var th := s.threads[t];
            s' == s.Put(t, th.(pc := Lock3))
                   .(store := s.store.(attrs := s.store.attrs[th.attr :=
                       s.store.attrs[th.attr].(size := FileSize(s.store.files, th.name))]),
                     fileOwner := s0.fileOwner, hist := s'.hist)
  {
    hide Reaches, Run, Next, FileSize;
    hide StepCheck1, StepCheck2, StepBody, StepOpen, StepWriting, StepLog, StepRollback, StepRemove, StepPick, StepExpire;
    Overwrite(s.threads, t);
    var th := s.threads[t];
    ReachesSelf(polite, s);
    var st := s.store.(attrs := s.store.attrs[th.attr := s.store.attrs[th.attr].(size := FileSize(s.store.files, th.name))]);
    var s1 := Take(polite, s, s, t, ANY, s.Put(t, th.(pc := CloseWant(true))).(store := st));
    hide StepResize;
    s' := UnlockAlone(polite, s1, s0, t);
    ReachesThen(polite, s, s1, s');
  }

  lemma UnlockAlone(polite: bool, s: State, s0: State, t: Tid) returns (s': State)
    requires t in s.threads && s.threads[t].pc == CloseWant(true) && s.global == None && HoldsBoth(s, s0, t)
    ensures Reaches(polite, s, s') && s' == s.Put(t, s.threads[t].(pc := Lock3)).(fileOwner := s0.fileOwner, hist := s'.hist)
  {
    hide Reaches, Run, Next;
    hide StepCheck1, StepCheck2, StepBody, StepOpen, StepWriting, StepLog, StepResize, StepRollback, StepRemove, StepPick, StepExpire;
    Overwrite(s.threads, t);
    var th := s.threads[t];
    ReachesSelf(polite, s);
    var s1 := Take(polite, s, s, t, ANY, s.Put(t, th.(pc := CloseHeld(true))).(global := Some(t)));
    assert s.fileOwner - {th.attr} == s0.fileOwner;
    s' := Take(polite, s, s1, t, ANY, s.Put(t, th.(pc := Lock3)).(fileOwner := s0.fileOwner));
  }

  lemma LeaveAlone(polite: bool, s: State, s0: State, t: Tid) returns (s': State)
    requires t in s.threads && s.threads[t].pc == Lock3 && s.threads[t].req.CommitReq?
    requires s.member == None && s.threads[t].id !in s0.txnOwner && s.txnOwner == s0.txnOwner[s.threads[t].id := t]
    ensures Reaches(polite, s, s')
    ensures var th := s.threads[t];
            s' == s.Put(t, th.(pc := Done(Ack(th.id, th.req.seqNum))))
                   .(store := Evict(s.store, th.id), txnOwner := s0.txnOwner, hist := s'.hist)
  {
    hide Reaches, Run, Next, Evict;
    hide StepCheck1, StepCheck2, StepBody, StepOpen, StepWriting, StepLog, StepResize, StepRollback, StepPick, StepExpire;
    Overwrite(s.threads, t);
    var th := s.threads[t];
    ReachesSelf(polite, s);
    assert s.txnOwner - {th.id} == s0.txnOwner;
    var s1 := Take(polite, s, s, t, ANY, s.Put(t, th.(pc := Remove)).(member := Some(t)));
    var th' := th.(pc := Done(Ack(th.id, th.req.seqNum)));
    s' := Take(polite, s, s1, t, ANY, s.Put(t, th').(store := Evict(s.store, th.id), txnOwner := s0.txnOwner));
  }

  lemma LoggedTouches(st: Store, kind: LogKind, id: TxnId, name: FileName)
    ensures Logged(st, kind, id, name) == st.(logs := Logged(st, kind, id, name).logs)
  {
  }

  function FinishedStore(st: Store, id: TxnId, a: Address, name: FileName): Store
    requires a in st.attrs
  {
    var st2 := Logged(st.(commits := st.commits + {id}), CommitLog, id, name);
    Evict(st2.(attrs := st2.attrs[a := st2.attrs[a].(size := FileSize(st2.files, name))]), id)
  }

  /** COMMIT after a failed call. */
  lemma RollbackAlone(polite: bool, s: State, s0: State, t: Tid) returns (s': State)
    requires t in s.threads && s.threads[t].pc == CloseWant(false) && s.threads[t].req.CommitReq? && s.threads[t].attr in s.store.attrs
    requires s.global == None && HoldsBoth(s, s0, t)
    ensures Reaches(polite, s, s')
    ensures var th := s.threads[t];
            s' == s.Put(t, th.(pc := Done(Error(th.id, th.req.seqNum, ErrorWritingFile))))
                   .(store := s.store.(files := Truncate(s.store.files, th.name, s.store.attrs[th.attr].size)),
                     txnOwner := s0.txnOwner, fileOwner := s0.fileOwner, hist := s'.hist)
  {
    hide Reaches, Run, Next, Truncate;
    var th := s.threads[t];
    var s1 := ToRollback(polite, s, s0, t);
    s' := TruncateAlone(polite, s1, t);
    ReachesThen(polite, s, s1, s');
    Overwrite(s.threads, t);
    assert s.txnOwner - {th.id} == s0.txnOwner;
  }

  lemma ToRollback(polite: bool, s: State, s0: State, t: Tid) returns (s': State)
    requires t in s.threads && s.threads[t].pc == CloseWant(false) && s.global == None && HoldsBoth(s, s0, t)
    ensures Reaches(polite, s, s') && s' == s.Put(t, s.threads[t].(pc := Rollback)).(fileOwner := s0.fileOwner, hist := s'.hist)
  {
    hide Reaches, Run, Next;
    hide StepCheck1, StepCheck2, StepBody, StepOpen, StepWriting, StepLog, StepResize, StepRollback, StepRemove, StepPick, StepExpire;
    Overwrite(s.threads, t);
    var th := s.threads[t];
    ReachesSelf(polite, s);
    assert s.fileOwner - {th.attr} == s0.fileOwner;
    var s1 := Take(polite, s, s, t, ANY, s.Put(t, th.(pc := CloseHeld(false))).(global := Some(t)));
    s' := Take(polite, s, s1, t, ANY, s.Put(t, th.(pc := Rollback)).(fileOwner := s0.fileOwner));
  }

  /** The truncation itself. */
  lemma TruncateAlone(polite: bool, s: State, t: Tid) returns (s': State)
    requires t in s.threads && s.threads[t].pc == Rollback && s.threads[t].attr in s.store.attrs
    ensures Reaches(polite, s, s')
    ensures var th := s.threads[t];
            s' == s.Put(t, th.(pc := Done(Error(th.id, SeqNumOf(th.req), ErrorWritingFile))))
                   .(store := s.store.(files := Truncate(s.store.files, th.name, s.store.attrs[th.attr].size)),
                     txnOwner := s.txnOwner - {th.id}, hist := s'.hist)
  {
    hide Reaches, Run, Next, Truncate;
    hide StepCheck1, StepCheck2, StepBody, StepOpen, StepWriting, StepLog, StepResize, StepRemove, StepPick, StepExpire;
    var th := s.threads[t];
    ReachesSelf(polite, s);
    s' := Take(polite, s, s, t, ANY, s.Put(t, th.(pc := Done(Error(th.id, SeqNumOf(th.req), ErrorWritingFile))))
      .(store := s.store.(files := Truncate(s.store.files, th.name, s.store.attrs[th.attr].size)), txnOwner := s.txnOwner - {th.id}));
  }

  /** COMMIT that is refused or asks for a number. */
  lemma RefusalAlone(polite: bool, s: State, t: Tid, id: TxnId, n: SeqNum, now: Time) returns (s': State)
    requires Unlocked(s, t, id) && id in s.store.live && id !in s.store.commits
    requires CommitBody(s.store.live[id], id, n, now).1.Some?
    ensures Reaches(polite, s, s')
    ensures var (txn, refusal) := CommitBody(s.store.live[id], id, n, now);
            Answered(s, t, s.store.(live := s.store.live[id := txn]), refusal.value, s')
  {
    hide Reaches, Run, Next, CommitBody;
    hide StepCheck1, StepCheck2, StepOpen, StepWriting, StepLog, StepResize, StepRollback, StepRemove, StepPick, StepExpire;
    Overwrite(s.threads, t);
    var req := CommitReq(id, n);
    var (txn, refusal) := CommitBody(s.store.live[id], id, n, now);
    var s1 := ToBody(polite, s, t, req);
    assert s.txnOwner[id := t] - {id} == s.txnOwner;
    var st := s.store.(live := s.store.live[id := txn]);
    s' := Take(polite, s, s1, t, Choice(0, true, now), s.Put(t, Fresh(req, Done(refusal.value))).(store := st));
  }

  /** A call fails after part of buffer k: up to the release of the locks. */
  lemma FailAlone(polite: bool, s: State, t: Tid, txn: Txn, k: SeqNum, off: nat) returns (s': State)
    requires Writer(s, t, txn) && s.threads[t].pc == Writing(1, 0)
    requires 1 <= k <= txn.maxSeq && off < |txn.buffers[k]|
    ensures Reaches(polite, s, s')
    ensures var th := s.threads[t];
            s' == s.Put(t, th.(pc := CloseWant(false)))
                   .(store := WithFile(s.store, th.name, Assemble(txn.buffers, k - 1) + txn.buffers[k][..off]), hist := s'.hist)
  {
    hide Reaches, Run, Next, Step, Assemble, AppendTo;
    Overwrite(s.threads, t);
    var th := s.threads[t];
    var s1 := BuffersAlone(polite, s, t, txn, k);
    var s2 := ChunkAlone(polite, s1, t, txn, k, 0, off);
    assert txn.buffers[k][0..0 + off] == txn.buffers[k][..off];
    ReachesThen(polite, s, s1, s2);
    AppendTwice(s.store, th.name, Assemble(txn.buffers, k - 1), txn.buffers[k][..off]);
    s' := CallFails(polite, s2, t, k, off);
    ReachesThen(polite, s, s2, s');
  }

  lemma CallFails(polite: bool, s: State, t: Tid, k: SeqNum, off: nat) returns (s': State)
    requires t in s.threads && s.threads[t].pc == Writing(k, off) && s.threads[t].id in s.store.live
    requires var txn := s.store.live[s.threads[t].id]; k <= txn.maxSeq && k in txn.buffers && off < |txn.buffers[k]|
    ensures Reaches(polite, s, s') && s' == s.Put(t, s.threads[t].(pc := CloseWant(false))).(hist := s'.hist)
  {
    hide Reaches, Run, Next;
    hide StepCheck1, StepCheck2, StepBody, StepOpen, StepLog, StepResize, StepRollback, StepRemove, StepPick, StepExpire;
    Overwrite(s.threads, t);
    ReachesSelf(polite, s);
    s' := Take(polite, s, s, t, Choice(0, false, 0), s.Put(t, s.threads[t].(pc := CloseWant(false))));
  }

  /** The thread of a ready COMMIT with its file open, compared with where it started. */
  ghost predicate Opened(s: State, t: Tid, id: TxnId, n: SeqNum, txn: Txn, s1: State)
    requires txn.attr in s.store.attrs
  {
    var name := s.store.attrs[txn.attr].name;
    && s1 == s.Put(t, Thread(CommitReq(id, n), Writing(1, 0), id, txn.attr, name))
              .(store := WithFile(s.store.(live := s.store.live[id := txn]), name, ""),
                txnOwner := s.txnOwner[id := t], fileOwner := s.fileOwner[txn.attr := t], hist := s1.hist)
  }

  lemma OpenedIsWriter(s: State, t: Tid, id: TxnId, n: SeqNum, txn: Txn, s1: State)
    requires txn.attr in s.store.attrs && Opened(s, t, id, n, txn, s1)
    requires id !in s.txnOwner && txn.attr !in s.fileOwner && forall j :: 1 <= j <= txn.maxSeq ==> j in txn.buffers
    ensures Writer(s1, t, txn) && HoldsBoth(s1, s, t)
  {
  }

  lemma OpenReady(polite: bool, s: State, t: Tid, id: TxnId, n: SeqNum, now: Time) returns (txn: Txn, s1: State)
    requires Alone(s, t, id) && IndexOk(s.store) && id in s.store.live && id !in s.store.commits
    requires CommitBody(s.store.live[id], id, n, now).1 == None
    requires MayOpen(polite, s, t, s.store.live[id].attr)
    ensures txn == s.store.live[id].(stamp := now, maxSeq := n) == CommitBody(s.store.live[id], id, n, now).0
    ensures txn.attr in s.store.attrs && Reaches(polite, s, s1) && Opened(s, t, id, n, txn, s1)
    ensures Writer(s1, t, txn) && HoldsBoth(s1, s, t)
  {
    LiveHasAttributes(s.store, id);
    ReadyTxn(s.store.live[id], id, n, now);
    hide Reaches, IndexOk, CommitBody, Writer, HoldsBoth;
    txn := s.store.live[id].(stamp := now, maxSeq := n);
    s1 := OpenAlone(polite, s, t, id, n, now, true);
    OpenedIsWriter(s, t, id, n, txn, s1);
  }

  lemma ReadyCommit(st: Store, id: TxnId, n: SeqNum, now: Time, disk: Disk)
    requires IndexOk(st) && id in st.live && id !in st.commits && CommitBody(st.live[id], id, n, now).1 == None
    ensures var st1 := st.(live := st.live[id := st.live[id].(stamp := now, maxSeq := n)]);
            && st.live[id].attr in st.attrs
            && CommitEffect(st, id, n, now, disk).0
               == match disk
                  case NoOpen => st1
                  case FailsAfter(b) => RolledBack(st1, id, TakeBytes(Payload(st, id, n), b))
                  case Works => Committed(st1, id, Payload(st, id, n))
  {
    LiveHasAttributes(st, id);
    ReadyTxn(st.live[id], id, n, now);
    hide IndexOk, RolledBack, Committed, CommitBody;
  }

  /** A ready COMMIT whose call fails after b bytes. */
  lemma FailedCommitAlone(polite: bool, s: State, t: Tid, id: TxnId, n: SeqNum, now: Time, b: nat) returns (s': State)
    requires Alone(s, t, id) && IndexOk(s.store) && id in s.store.live && id !in s.store.commits
    requires CommitBody(s.store.live[id], id, n, now).1 == None && b < |Payload(s.store, id, n)|
    requires MayOpen(polite, s, t, s.store.live[id].attr)
    ensures Reaches(polite, s, s')
    ensures Answered(s, t, CommitEffect(s.store, id, n, now, FailsAfter(b)).0, Error(id, n, ErrorWritingFile), s')
  {
    assert s.member == None && s.global == None;
    ReadyCommit(s.store, id, n, now, FailsAfter(b));
    hide Reaches, IndexOk, CommitBody, Truncate, Assemble, Alone, Writer, HoldsBoth, CommitEffect;
    Overwrite(s.threads, t);
    var txn, s1 := OpenReady(polite, s, t, id, n, now);
    var s2 := FailSomewhereAlone(polite, s, t, id, n, txn, s1, b);
    ReachesThen(polite, s, s1, s2);
    s' := RollbackAlone(polite, s2, s, t);
    ReachesThen(polite, s, s2, s');
  }

  lemma FailSomewhereAlone(polite: bool, s: State, t: Tid, id: TxnId, n: SeqNum, txn: Txn, s1: State, b: nat) returns (s2: State)
    requires txn.attr in s.store.attrs && Opened(s, t, id, n, txn, s1) && Writer(s1, t, txn) && HoldsBoth(s1, s, t) && txn.maxSeq == n
    requires b < |Assemble(txn.buffers, n)|
    ensures Reaches(polite, s1, s2) && t in s2.threads && HoldsBoth(s2, s, t)
    ensures var name := s.store.attrs[txn.attr].name;
            s2 == s.Put(t, Thread(CommitReq(id, n), CloseWant(false), id, txn.attr, name))
                   .(store := WithFile(s.store.(live := s.store.live[id := txn]), name, Assemble(txn.buffers, n)[..b]),
                     txnOwner := s.txnOwner[id := t], fileOwner := s.fileOwner[txn.attr := t], hist := s2.hist)
  {
    hide Reaches, Writer, Assemble;
    Overwrite(s.threads, t);
    var bytes := Assemble(txn.buffers, n)[..b];
    var k, off := FindByte(txn.buffers, n, b);
    s2 := FailAlone(polite, s1, t, txn, k, off);
    AppendTwice(s.store.(live := s.store.live[id := txn]), s.store.attrs[txn.attr].name, "", bytes);
    assert "" + bytes == bytes;
  }

  /** A ready COMMIT whose writes succeed. */
  lemma WorkingCommitAlone(polite: bool, s: State, t: Tid, id: TxnId, n: SeqNum, now: Time) returns (s': State)
    requires Alone(s, t, id) && IndexOk(s.store) && id in s.store.live && id !in s.store.commits
    requires CommitBody(s.store.live[id], id, n, now).1 == None
    requires MayOpen(polite, s, t, s.store.live[id].attr) && (polite ==> NoCommitRecordOpen(s, t))
    ensures Reaches(polite, s, s')
    ensures Answered(s, t, CommitEffect(s.store, id, n, now, Works).0, Ack(id, n), s')
  {
    assert s.member == None && s.global == None;
    ReadyCommit(s.store, id, n, now, Works);
    hide Reaches, IndexOk, CommitBody, Assemble, Logged, Evict, FileSize, Writer, HoldsBoth, Alone, FinishedStore, CommitEffect,
         Committed, Opened, AppendTo;
    var txn, s1 := OpenReady(polite, s, t, id, n, now);
    var s2 := WriteAllAlone(polite, s, t, id, n, txn, s1);
    ReachesThen(polite, s, s1, s2);
    s' := FinishAlone(polite, s2, s, t, txn);
    ReachesThen(polite, s, s2, s');
    FinishedAnswer(s, t, id, n, txn, s2, s');
  }

  lemma FinishedAnswer(s: State, t: Tid, id: TxnId, n: SeqNum, txn: Txn, s2: State, s': State)
    requires id in s.store.live && txn.attr in s.store.attrs && txn.attr == s.store.live[id].attr && t in s2.threads
    requires var st := s.store.(live := s.store.live[id := txn]); var name := s.store.attrs[txn.attr].name;
             && s2.store == WithFile(st, name, Assemble(txn.buffers, n))
             && s2 == s.Put(t, s2.threads[t]).(store := s2.store, txnOwner := s2.txnOwner, fileOwner := s2.fileOwner, hist := s2.hist)
             && s' == s2.Put(t, s2.threads[t].(pc := Done(Ack(id, n))))
                       .(store := FinishedStore(s2.store, id, txn.attr, name), txnOwner := s.txnOwner, fileOwner := s.fileOwner,
                            hist := s'.hist)
    ensures Answered(s, t, Committed(s.store.(live := s.store.live[id := txn]), id, Assemble(txn.buffers, n)), Ack(id, n), s')
  {
    hide Assemble, FinishedStore, Committed;
    Overwrite(s.threads, t);
    FinishedIsCommitted(s.store.(live := s.store.live[id := txn]), id, txn.attr, s.store.attrs[txn.attr].name, Assemble(txn.buffers, n));
    hide WithFile;
  }

  lemma FinishedIsCommitted(st: Store, id: TxnId, a: Address, name: FileName, all: Data)
    requires id in st.live && st.live[id].attr == a && a in st.attrs && st.attrs[a].name == name
    ensures FinishedStore(WithFile(st, name, all), id, a, name) == Committed(st, id, all)
  {
    hide Evict, Render;
  }

  /** The whole writing loop. */
  lemma WriteAllAlone(polite: bool, s: State, t: Tid, id: TxnId, n: SeqNum, txn: Txn, s1: State) returns (s2: State)
    requires txn.attr in s.store.attrs && Opened(s, t, id, n, txn, s1) && Writer(s1, t, txn) && HoldsBoth(s1, s, t) && txn.maxSeq == n
    ensures Reaches(polite, s1, s2) && t in s2.threads && Writer(s2, t, txn) && HoldsBoth(s2, s, t)
    ensures var name := s.store.attrs[txn.attr].name; var k := if n >= 0 then n + 1 else 1;
            s2 == s.Put(t, Thread(CommitReq(id, n), Writing(k, 0), id, txn.attr, name))
                   .(store := WithFile(s.store.(live := s.store.live[id := txn]), name, Assemble(txn.buffers, n)),
                     txnOwner := s.txnOwner[id := t], fileOwner := s.fileOwner[txn.attr := t], hist := s2.hist)
  {
    Overwrite(s.threads, t);
    var k := if n >= 0 then n + 1 else 1;
    assert Assemble(txn.buffers, k - 1) == Assemble(txn.buffers, n);
    hide Reaches, Writer, Assemble;
    var all := Assemble(txn.buffers, n);
    s2 := BuffersAlone(polite, s1, t, txn, k);
    AppendTwice(s.store.(live := s.store.live[id := txn]), s.store.attrs[txn.attr].name, "", all);
    assert "" + all == all;
  }

  lemma ReadyTxn(txn: Txn, id: TxnId, n: SeqNum, now: Time)
    requires CommitBody(txn, id, n, now).1 == None
    ensures var t := CommitBody(txn, id, n, now).0;
            && t == txn.(stamp := now, maxSeq := n)
            && forall j :: 1 <= j <= n ==> j in t.buffers
    ensures n >= 0 || Assemble(txn.buffers, n) == ""
  {
  }

  /** COMMIT alone, whatever the disk does. A call can fail only while bytes are left. */
  lemma CommitAlone(polite: bool, s: State, t: Tid, id: TxnId, n: SeqNum, now: Time, disk: Disk) returns (s': State)
    requires Alone(s, t, id) && IndexOk(s.store)
    requires disk.FailsAfter? && id in s.store.live ==> disk.bytes < |Payload(s.store, id, n)|
    requires id in s.store.live ==> MayOpen(polite, s, t, s.store.live[id].attr) && (polite ==> NoCommitRecordOpen(s, t))
    ensures Reaches(polite, s, s')
    ensures Answered(s, t, CommitEffect(s.store, id, n, now, disk).0, CommitEffect(s.store, id, n, now, disk).1, s')
  {
    if Lookup(s.store, id, n, true).Some? {
      hide Reaches, IndexOk;
      s' := FirstLook(polite, s, t, CommitReq(id, n));
    } else if CommitBody(s.store.live[id], id, n, now).1.Some? {
      hide Reaches, IndexOk, CommitBody;
      s' := RefusalAlone(polite, s, t, id, n, now);
    } else {
      LiveHasAttributes(s.store, id);
      hide Reaches, IndexOk, CommitBody, Committed, RolledBack, Payload;
      match disk
      case NoOpen => s' := OpenAlone(polite, s, t, id, n, now, false);
      case FailsAfter(b) => s' := FailedCommitAlone(polite, s, t, id, n, now, b);
      case Works => s' := WorkingCommitAlone(polite, s, t, id, n, now);
    }
  }
}
