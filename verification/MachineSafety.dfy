/** Use-after-removal safety: despite ABORT releasing the transaction mutex before it removes
    the transaction, no thread follows a reference into a transaction or its file attributes
    once the transaction has left the live map. */
module MachineSafety {
  import opened Basics
  import opened Transactions
  import opened Stores
  import opened Machine
  import opened MachineLocks

  // ---------------------------------------------------------------- premises

  /** NEW_TXN draws an id that was not in use since the last recovery. */
  predicate FreshId(s: State, l: Label) {
    l.Act? && l.t in s.threads && s.threads[l.t].pc.Pick? ==> l.c.n !in s.hist.used
  }

  /** The timer does not expire a transaction some handler is past its re-check on. */
  ghost predicate TimeoutQuiet(s: State, l: Label) {
    l.Act? && l.t in s.threads && s.threads[l.t].pc.Expire? && Expired(s, s.threads[l.t].id, l.c.now) ==>
      Quiet(s, s.threads[l.t].id)
  }

  ghost predicate Quiet(s: State, id: TxnId) {
    forall u :: u in s.threads && PastCheck(s.threads[u]) ==> s.threads[u].id != id
  }

  // ---------------------------------------------------------------- the invariant

  /** Between a successful re-check and the end of the handler: the thread has references. */
  predicate PastCheck(th: Thread) {
    match th.pc
    case Body | LockFile | OpenWant | OpenHeld | Writing(_, _) | Resize | CloseWant(_) | CloseHeld(_)
       | Rollback | Lock3 | Remove => true
    case Log(_) => th.req.CommitReq? || th.req.AbortReq?
    case _ => false
  }

  /** COMMIT after it has put its id into the commit set. */
  predicate Inserted(th: Thread) {
    th.req.CommitReq? &&
    match th.pc
    case Log(_) | Resize | Lock3 | Remove => true
    case CloseWant(ok) => ok
    case CloseHeld(ok) => ok
    case _ => false
  }

  /** The references of a thread past its re-check are to live objects, and a committing
      thread has all the buffers it is going to write. */
  ghost predicate RefsOk(st: Store, th: Thread) {
    PastCheck(th) ==>
      && th.id in st.live
      && (th.pc != Body ==>
            && st.live[th.id].attr == th.attr
            && th.attr in st.attrs && st.attrs[th.attr].name == th.name)
      && (th.pc != Body && th.req.CommitReq? ==> Complete(st.live[th.id]))
      && (th.pc.Writing? ==> BufferOk(st.live[th.id], th.pc.k, th.pc.off))
  }

  predicate BufferOk(txn: Txn, k: SeqNum, off: nat) {
    1 <= k && (k == 1 || k <= txn.maxSeq + 1) && (k in txn.buffers && k <= txn.maxSeq ==> off <= |txn.buffers[k]|)
  }

  ghost predicate AllRefsOk(s: State) {
    forall t :: t in s.threads ==> RefsOk(s.store, s.threads[t])
  }

  /** At most one thread is past its re-check on any transaction. */
  ghost predicate Exclusive(s: State) {
    forall t, u :: t in s.threads && u in s.threads && t != u
                   && PastCheck(s.threads[t]) && PastCheck(s.threads[u])
                   ==> s.threads[t].id != s.threads[u].id
  }

  /** A live transaction in the commit set is being finished by the owner of its mutex. */
  ghost predicate CommitsOk(s: State) {
    forall i :: i in s.store.commits && i in s.store.live ==>
      i in s.txnOwner && s.txnOwner[i] in s.threads && Inserted(s.threads[s.txnOwner[i]])
  }

  ghost predicate RefsSafe(s: State) {
    && !s.fault
    && IndexOk(s.store)
    && AllRefsOk(s) && Exclusive(s) && CommitsOk(s)
    && s.store.live.Keys <= s.hist.used && s.store.commits <= s.hist.used
  }

  ghost predicate Safe(s: State) {
    LocksOk(s) && RefsSafe(s)
  }

  // ---------------------------------------------------------------- one conjunct at a time

  ghost predicate Moves(s: State, t: Tid, th': Thread, s': State) {
    t in s.threads && s'.threads == s.threads[t := th']
  }

  /** Everything a reference to `id` can reach is unchanged (attributes may change size). */
  predicate SameReach(st: Store, st': Store, id: TxnId) {
    id in st.live ==>
      && id in st'.live && st'.live[id] == st.live[id]
      && (st.live[id].attr in st.attrs ==>
            st.live[id].attr in st'.attrs && st'.attrs[st.live[id].attr].name == st.attrs[st.live[id].attr].name)
  }

  lemma KeepRefs(s: State, t: Tid, th': Thread, s': State)
    requires Moves(s, t, th', s') && AllRefsOk(s)
    requires RefsOk(s'.store, th')
    requires forall u :: u in s.threads && u != t && PastCheck(s.threads[u]) ==> SameReach(s.store, s'.store, s.threads[u].id)
    ensures AllRefsOk(s')
  {
  }

  lemma KeepExclusive(s: State, t: Tid, th': Thread, s': State)
    requires Moves(s, t, th', s') && Exclusive(s)
    requires PastCheck(th') ==>
               || (PastCheck(s.threads[t]) && th'.id == s.threads[t].id)
               || Quiet(s, th'.id)
    ensures Exclusive(s')
  {
  }

  lemma KeepCommits(s: State, t: Tid, th': Thread, s': State)
    requires Moves(s, t, th', s') && CommitsOk(s) && TxnLocksOk(s)
    requires KeyedMove(s.txnOwner, s'.txnOwner, t, s.threads[t].id, th'.id, HoldsTxn(s.threads[t]), HoldsTxn(th'))
    requires s'.store.commits == s.store.commits
    requires forall i :: i in s'.store.live && i in s.store.commits ==> i in s.store.live
    requires Inserted(s.threads[t]) && s.threads[t].id in s'.store.live ==> Inserted(th') && HoldsTxn(th')
    ensures CommitsOk(s')
  {
  }

  /** Everything but files, logs and history. */
  predicate SameCore(st: Store, st': Store) {
    && st'.live == st.live && st'.commits == st.commits && st'.index == st.index
    && st'.attrs == st.attrs && st'.nextAddress == st.nextAddress
  }

  lemma SameCoreIndex(st: Store, st': Store)
    requires IndexOk(st) && SameCore(st, st')
    ensures IndexOk(st')
  {
  }

  /** A step that leaves the maps alone and takes no new reference. */
  lemma QuietStepIsSafe(s: State, t: Tid, th': Thread, s': State)
    requires Safe(s) && Moves(s, t, th', s') && LockMove(s, t, s')
    requires !s'.fault && SameCore(s.store, s'.store) && s'.hist.used == s.hist.used
    requires PastCheck(th') ==> PastCheck(s.threads[t]) && th'.id == s.threads[t].id
    requires RefsOk(s.store, th')
    requires Inserted(s.threads[t]) ==> Inserted(th') && HoldsTxn(th')
    ensures RefsSafe(s')
  {
    assert s'.threads[t] == th';
    SameCoreIndex(s.store, s'.store);
    assert TxnLocksOk(s);
    hide LocksOk, IndexOk, LockMove;
    assert KeyedMove(s.txnOwner, s'.txnOwner, t, s.threads[t].id, th'.id, HoldsTxn(s.threads[t]), HoldsTxn(th'))
           by { LockMoveTxn(s, t, s'); }
    KeepRefs(s, t, th', s');
    KeepExclusive(s, t, th', s');
    KeepCommits(s, t, th', s');
  }

  lemma LockMoveTxn(s: State, t: Tid, s': State)
    requires t in s.threads && LockMove(s, t, s')
    ensures t in s'.threads
    ensures KeyedMove(s.txnOwner, s'.txnOwner, t, s.threads[t].id, s'.threads[t].id, HoldsTxn(s.threads[t]), HoldsTxn(s'.threads[t]))
  {
  }

  // ---------------------------------------------------------------- step by step

  lemma OwnRefs(s: State, t: Tid)
    requires Safe(s) && t in s.threads
    ensures RefsOk(s.store, s.threads[t]) && Shape(s.threads[t])
  {
  }

  lemma Check1IsSafe(s: State, t: Tid)
    requires Safe(s) && t in s.threads && s.threads[t].pc == Check1
    ensures RefsSafe(StepCheck1(s, t))
  {
    var s' := StepCheck1(s, t);
    OwnRefs(s, t);
    Check1MovesLocks(s, t);
    QuietStepIsSafe(s, t, s'.threads[t], s');
  }

  /** The argument of the comment in ABORT: a thread that finds the transaction live at its
      re-check is alone with it. Another thread past its re-check would hold either the
      transaction mutex, which we hold, or (an ABORT) the member mutex, which we hold too. */
  lemma RecheckFindsQuiet(s: State, t: Tid)
    requires Safe(s) && t in s.threads && s.threads[t].pc == Check2
    ensures Quiet(s, s.threads[t].id)
  {
    assert HoldsTxn(s.threads[t]) && HoldsMember(s.threads[t]);
    forall u | u in s.threads && PastCheck(s.threads[u])
      ensures s.threads[u].id != s.threads[t].id
    {
      assert !HoldsMember(s.threads[u]);
    }
  }

  lemma Check2IsSafe(s: State, t: Tid)
    requires Safe(s) && t in s.threads && s.threads[t].pc == Check2
    ensures RefsSafe(StepCheck2(s, t))
  {
    var s' := StepCheck2(s, t);
    RecheckFindsQuiet(s, t);
    OwnRefs(s, t);
    Check2MovesLocks(s, t);
    LockMoveTxn(s, t, s');
    assert TxnLocksOk(s) && IndexOk(s.store);
    LiveAttrs(s.store);
    Check2Effect(s, t);
    hide LocksOk, LockMove, StepCheck2, IndexOk;
    var th' := s'.threads[t];
    assert Moves(s, t, th', s') by { LockMoveMoves(s, t, s'); }
    KeepRefs(s, t, th', s');
    KeepExclusive(s, t, th', s');
    KeepCommits(s, t, th', s');
  }

  lemma Check2Effect(s: State, t: Tid)
    requires t in s.threads && s.threads[t].pc == Check2 && Shape(s.threads[t]) && !s.fault
    requires s.threads[t].id in s.store.live ==> s.store.live[s.threads[t].id].attr in s.store.attrs
    ensures var s' := StepCheck2(s, t);
            && t in s'.threads
            && !s'.fault && s'.store == s.store && s'.hist == s.hist
            && s'.threads[t].id == s.threads[t].id
            && RefsOk(s.store, s'.threads[t])
  {
    hide Complete;
  }

  lemma LockMoveMoves(s: State, t: Tid, s': State)
    requires t in s.threads && LockMove(s, t, s')
    ensures t in s'.threads && Moves(s, t, s'.threads[t], s')
  {
  }

  lemma LiveAttrs(st: Store)
    requires IndexOk(st)
    ensures forall id :: id in st.live ==> st.live[id].attr in st.attrs
  {
  }

  lemma TxnUpdateKeepsIndex(st: Store, id: TxnId, txn: Txn)
    requires IndexOk(st) && id in st.live && txn.attr == st.live[id].attr
    ensures IndexOk(st.(live := st.live[id := txn]))
  {
    var st' := st.(live := st.live[id := txn]);
    forall a ensures Users(st'.live, a) == Users(st.live, a) {
    }
  }

  lemma BodyEffect(s: State, t: Tid, c: Choice)
    requires t in s.threads && s.threads[t].pc == Body && Shape(s.threads[t]) && !s.fault
    requires s.threads[t].id in s.store.live && s.store.live[s.threads[t].id].attr in s.store.attrs
    ensures var s' := StepBody(s, t, c); var id := s.threads[t].id;
            && t in s'.threads && s'.threads[t].id == id
            && !s'.fault && s'.hist == s.hist
            && id in s'.store.live && s'.store.live[id].attr == s.store.live[id].attr
            && s'.store == s.store.(live := s.store.live[id := s'.store.live[id]])
            && RefsOk(s'.store, s'.threads[t]) && !Inserted(s'.threads[t])
  {
    if s.threads[t].req.WriteReq? { WriteEffectOf(s, t, c); }
  }

  lemma WriteEffectOf(s: State, t: Tid, c: Choice)
    requires t in s.threads && s.threads[t].pc == Body && s.threads[t].req.WriteReq? && !s.fault && s.threads[t].id in s.store.live
    ensures var s' := StepBody(s, t, c); var id := s.threads[t].id;
            && t in s'.threads && s'.threads[t].id == id && s'.threads[t].pc.Done?
            && !s'.fault && s'.hist == s.hist
            && id in s'.store.live && s'.store.live[id].attr == s.store.live[id].attr
            && s'.store == s.store.(live := s.store.live[id := s'.store.live[id]])
  {
  }

  lemma BodyIsSafe(s: State, t: Tid, c: Choice)
    requires Safe(s) && t in s.threads && s.threads[t].pc == Body
    ensures RefsSafe(StepBody(s, t, c))
  {
    var s' := StepBody(s, t, c);
    var id := s.threads[t].id;
    OwnRefs(s, t);
    LiveAttrs(s.store);
    BodyEffect(s, t, c);
    BodyMovesLocks(s, t, c);
    LockMoveTxn(s, t, s');
    LockMoveMoves(s, t, s');
    TxnUpdateKeepsIndex(s.store, id, s'.store.live[id]);
    assert TxnLocksOk(s);
    hide LocksOk, LockMove, StepBody, IndexOk;
    KeepRefs(s, t, s'.threads[t], s');
    KeepExclusive(s, t, s'.threads[t], s');
    KeepCommits(s, t, s'.threads[t], s');
  }

  /** What a step shows when it leaves the maps alone and takes no new reference. */
  ghost predicate QuietEffect(s: State, t: Tid, s': State)
    requires t in s.threads
  {
    && t in s'.threads && s'.threads[t].id == s.threads[t].id
    && !s'.fault && SameCore(s.store, s'.store) && s'.hist.used == s.hist.used
    && RefsOk(s.store, s'.threads[t])
    && (PastCheck(s'.threads[t]) ==> PastCheck(s.threads[t]))
    && (Inserted(s.threads[t]) ==> Inserted(s'.threads[t]) && HoldsTxn(s'.threads[t]))
  }

  lemma QuietEffectIsSafe(s: State, t: Tid, s': State)
    requires Safe(s) && t in s.threads && LockMove(s, t, s') && QuietEffect(s, t, s')
    ensures RefsSafe(s')
  {
    LockMoveMoves(s, t, s');
    QuietStepIsSafe(s, t, s'.threads[t], s');
  }

  lemma OpenEffect(s: State, t: Tid, c: Choice)
    requires t in s.threads && s.threads[t].pc == OpenHeld && !s.fault && s.threads[t].req.CommitReq?
    requires RefsOk(s.store, s.threads[t])
    ensures QuietEffect(s, t, StepOpen(s, t, c))
  {
    hide Complete, Content;
  }

  lemma WritingEffect(s: State, t: Tid, k: SeqNum, off: nat, c: Choice)
    requires t in s.threads && s.threads[t].pc == Writing(k, off) && !s.fault && s.threads[t].req.CommitReq?
    requires RefsOk(s.store, s.threads[t]) && k <= s.store.live[s.threads[t].id].maxSeq
    requires StepWriting(s, t, k, off, c).Some?
    ensures QuietEffect(s, t, StepWriting(s, t, k, off, c).value)
  {
    hide Append;
    assert k in s.store.live[s.threads[t].id].buffers;
    hide Complete;
  }

  lemma LogPieceEffect(s: State, t: Tid, p: nat)
    requires t in s.threads && s.threads[t].pc == Log(p) && 2 <= p <= 7 && !s.fault && Shape(s.threads[t])
    requires RefsOk(s.store, s.threads[t])
    ensures StepLog(s, t, p).Some? && QuietEffect(s, t, StepLog(s, t, p).value)
  {
    hide Complete, ViewAfter, FileSize, KindOf;
  }

  lemma LogOpenEffect(s: State, t: Tid, p: nat)
    requires t in s.threads && s.threads[t].pc == Log(p) && !(2 <= p <= 7) && !s.fault && Shape(s.threads[t])
    requires RefsOk(s.store, s.threads[t]) && StepLog(s, t, p).Some?
    ensures QuietEffect(s, t, StepLog(s, t, p).value)
  {
    hide Complete;
  }

  lemma RollbackEffect(s: State, t: Tid)
    requires t in s.threads && s.threads[t].pc == Rollback && !s.fault && s.threads[t].req.CommitReq?
    requires RefsOk(s.store, s.threads[t])
    ensures QuietEffect(s, t, StepRollback(s, t))
  {
    hide Complete, Truncate;
  }

  lemma LockingEffect(s: State, t: Tid, c: Choice)
    requires t in s.threads && !s.fault && Shape(s.threads[t]) && RefsOk(s.store, s.threads[t]) && Step(s, t, c).Some?
    requires s.threads[t].pc in {Lock1, LockTxn, Lock2, LockFile, OpenWant, CloseWant(true), CloseWant(false),
                                 CloseHeld(true), CloseHeld(false), Lock3}
    ensures QuietEffect(s, t, Step(s, t, c).value)
  {
    hide Complete, StepCheck1, StepCheck2, StepBody, StepOpen, StepWriting, StepLog, StepResize, StepRollback, StepRemove,
         StepPick, StepExpire;
  }

  lemma QuietStepsAreSafe(s: State, t: Tid, c: Choice)
    requires Safe(s) && t in s.threads && Step(s, t, c).Some?
    requires s.threads[t].pc in {Lock1, LockTxn, Lock2, LockFile, OpenWant, OpenHeld, CloseWant(true), CloseWant(false),
                                 CloseHeld(true), CloseHeld(false), Rollback, Lock3}
    ensures RefsSafe(Step(s, t, c).value)
  {
    OwnRefs(s, t);
    StepMovesLocks(s, t, c);
    hide Safe, RefsOk, LockMove, StepOpen, StepRollback, QuietEffect;
    if s.threads[t].pc == OpenHeld {
      OpenEffect(s, t, c);
    } else if s.threads[t].pc == Rollback {
      RollbackEffect(s, t);
    } else {
      LockingEffect(s, t, c);
    }
    QuietEffectIsSafe(s, t, Step(s, t, c).value);
  }

  lemma LogIsSafe(s: State, t: Tid, p: nat)
    requires Safe(s) && t in s.threads && s.threads[t].pc == Log(p) && StepLog(s, t, p).Some?
    ensures RefsSafe(StepLog(s, t, p).value)
  {
    OwnRefs(s, t);
    var c := Choice(0, true, 0);
    StepMovesLocks(s, t, c);
    assert Step(s, t, c) == StepLog(s, t, p) by { hide StepLog; }
    if 2 <= p <= 7 { LogPieceEffect(s, t, p); } else { LogOpenEffect(s, t, p); }
    hide *;
    QuietEffectIsSafe(s, t, StepLog(s, t, p).value);
  }

  lemma WritingIsSafe(s: State, t: Tid, k: SeqNum, off: nat, c: Choice)
    requires Safe(s) && t in s.threads && s.threads[t].pc == Writing(k, off) && StepWriting(s, t, k, off, c).Some?
    ensures RefsSafe(StepWriting(s, t, k, off, c).value)
  {
    OwnRefs(s, t);
    WritingMovesLocks(s, t, k, off, c);
    if k <= s.store.live[s.threads[t].id].maxSeq {
      WritingEffect(s, t, k, off, c);
      hide *;
      QuietEffectIsSafe(s, t, StepWriting(s, t, k, off, c).value);
    } else {
      InsertIsSafe(s, t, k, off, c);
    }
  }

  lemma InsertEffect(s: State, t: Tid, k: SeqNum, off: nat, c: Choice)
    requires t in s.threads && s.threads[t].id in s.store.live && k > s.store.live[s.threads[t].id].maxSeq
    ensures StepWriting(s, t, k, off, c)
            == Some(s.(store := s.store.(commits := s.store.commits + {s.threads[t].id})).Goto(t, Log(0)))
  {
  }

  lemma InsertKeepsCommits(s: State, t: Tid, th': Thread, s': State)
    requires Moves(s, t, th', s') && CommitsOk(s) && s'.txnOwner == s.txnOwner
    requires s'.store.live == s.store.live && s'.store.commits == s.store.commits + {th'.id}
    requires Inserted(th') && th'.id in s.txnOwner && s.txnOwner[th'.id] == t
    ensures CommitsOk(s')
  {
  }

  lemma InsertIsSafe(s: State, t: Tid, k: SeqNum, off: nat, c: Choice)
    requires Safe(s) && t in s.threads && s.threads[t].pc == Writing(k, off)
    requires s.threads[t].id in s.store.live && k > s.store.live[s.threads[t].id].maxSeq
    ensures RefsSafe(StepWriting(s, t, k, off, c).value)
  {
    var s' := StepWriting(s, t, k, off, c).value;
    var th := s.threads[t];
    var th' := th.(pc := Log(0));
    InsertEffect(s, t, k, off, c);
    SafeParts(s);
    hide StepWriting, Safe;
    SameCommitsIndex(s.store, s'.store);
    OwnTxnLock(s, t);
    hide LocksOk, IndexOk, Complete;
    assert RefsOk(s'.store, th');
    KeepRefs(s, t, th', s');
    KeepExclusive(s, t, th', s');
    InsertKeepsCommits(s, t, th', s');
  }

  lemma SafeParts(s: State)
    requires Safe(s)
    ensures LocksOk(s) && IndexOk(s.store) && AllRefsOk(s) && Exclusive(s) && CommitsOk(s) && !s.fault
    ensures s.store.live.Keys <= s.hist.used && s.store.commits <= s.hist.used
  {
    hide LocksOk, IndexOk, AllRefsOk, Exclusive, CommitsOk;
  }

  lemma SameCommitsIndex(st: Store, st': Store)
    requires IndexOk(st) && st' == st.(commits := st'.commits)
    ensures IndexOk(st')
  {
  }

  lemma OwnTxnLock(s: State, t: Tid)
    requires LocksOk(s) && t in s.threads && HoldsTxn(s.threads[t])
    ensures s.threads[t].id in s.txnOwner && s.txnOwner[s.threads[t].id] == t
  {
    assert TxnLocksOk(s);
  }

  lemma ResizeIsSafe(s: State, t: Tid)
    requires Safe(s) && t in s.threads && s.threads[t].pc == Resize
    ensures RefsSafe(StepResize(s, t))
  {
    var s' := StepResize(s, t);
    var th := s.threads[t];
    OwnRefs(s, t);
    ResizeMovesLocks(s, t);
    LockMoveTxn(s, t, s');
    LockMoveMoves(s, t, s');
    assert TxnLocksOk(s);
    ResizeKeepsIndex(s.store, th.attr, FileSize(s.store.files, th.name));
    hide LocksOk, LockMove, IndexOk, FileSize;
    KeepRefs(s, t, s'.threads[t], s');
    KeepExclusive(s, t, s'.threads[t], s');
    KeepCommits(s, t, s'.threads[t], s');
  }

  lemma ResizeKeepsIndex(st: Store, a: Address, size: nat)
    requires IndexOk(st) && a in st.attrs
    ensures IndexOk(st.(attrs := st.attrs[a := st.attrs[a].(size := size)]))
  {
  }

  lemma EvictReach(st: Store, id: TxnId, i: TxnId)
    requires IndexOk(st) && i != id
    ensures SameReach(st, Evict(st, id), i)
  {
    EvictKeepsIndex(st, id);
    assert IndexOk(Evict(st, id));
    assert i in st.live ==> NameOf(Evict(st, id), i) == NameOf(st, i);
  }

  lemma RemoveIsSafe(s: State, t: Tid)
    requires Safe(s) && t in s.threads && s.threads[t].pc == Remove
    ensures RefsSafe(StepRemove(s, t))
  {
    var s' := StepRemove(s, t);
    var th := s.threads[t];
    OwnRefs(s, t);
    MapStepsMoveLocks(s, t, Choice(0, true, 0));
    LockMoveTxn(s, t, s');
    LockMoveMoves(s, t, s');
    EvictKeepsIndex(s.store, th.id);
    forall u | u in s.threads && u != t && PastCheck(s.threads[u]) ensures SameReach(s.store, s'.store, s.threads[u].id) {
      EvictReach(s.store, th.id, s.threads[u].id);
    }
    assert TxnLocksOk(s);
    hide LocksOk, LockMove, IndexOk;
    KeepRefs(s, t, s'.threads[t], s');
    KeepExclusive(s, t, s'.threads[t], s');
    KeepCommits(s, t, s'.threads[t], s');
  }

  lemma ExpireIsSafe(s: State, t: Tid, c: Choice)
    requires Safe(s) && t in s.threads && s.threads[t].pc == Expire && TimeoutQuiet(s, Act(t, c))
    ensures RefsSafe(StepExpire(s, t, c))
  {
    var s' := StepExpire(s, t, c);
    var th := s.threads[t];
    OwnRefs(s, t);
    LiveAttrs(s.store);
    MapStepsMoveLocks(s, t, c);
    LockMoveTxn(s, t, s');
    LockMoveMoves(s, t, s');
    if Expired(s, th.id, c.now) {
      EvictKeepsIndex(s.store, th.id);
      forall u | u in s.threads && u != t && PastCheck(s.threads[u]) ensures SameReach(s.store, s'.store, s.threads[u].id) {
        EvictReach(s.store, th.id, s.threads[u].id);
      }
      assert TxnLocksOk(s);
      hide LocksOk, LockMove, IndexOk, Expired;
      KeepRefs(s, t, s'.threads[t], s');
      KeepExclusive(s, t, s'.threads[t], s');
      KeepCommits(s, t, s'.threads[t], s');
    } else {
      QuietEffectIsSafe(s, t, s');
    }
  }

  lemma EnrollReach(st: Store, id: TxnId, name: FileName, now: Time, i: TxnId)
    requires IndexOk(st) && i != id
    ensures SameReach(st, Enroll(st, id, name, now), i)
  {
  }

  lemma PickIsSafe(s: State, t: Tid, c: Choice)
    requires Safe(s) && t in s.threads && s.threads[t].pc == Pick && FreshId(s, Act(t, c)) && StepPick(s, t, c).Some?
    ensures RefsSafe(StepPick(s, t, c).value)
  {
    var s' := StepPick(s, t, c).value;
    var th := s.threads[t];
    OwnRefs(s, t);
    MapStepsMoveLocks(s, t, c);
    LockMoveTxn(s, t, s');
    LockMoveMoves(s, t, s');
    EnrollKeepsIndex(s.store, c.n, th.req.name, c.now);
    forall u | u in s.threads && u != t && PastCheck(s.threads[u]) ensures SameReach(s.store, s'.store, s.threads[u].id) {
      EnrollReach(s.store, c.n, th.req.name, c.now, s.threads[u].id);
    }
    assert TxnLocksOk(s);
    hide LocksOk, LockMove, IndexOk;
    KeepRefs(s, t, s'.threads[t], s');
    KeepExclusive(s, t, s'.threads[t], s');
    KeepCommits(s, t, s'.threads[t], s');
  }

  lemma ArrivalIsSafe(s: State, t: Tid, req: Request)
    requires Safe(s) && t !in s.threads
    ensures RefsSafe(s.Put(t, Arrived(req)))
  {
    var s' := s.Put(t, Arrived(req));
    assert TxnLocksOk(s);
    hide LocksOk, IndexOk;
    assert forall u :: u in s.threads ==> s'.threads[u] == s.threads[u];
  }

  lemma HandlerStepIsSafe(s: State, t: Tid, c: Choice)
    requires Safe(s) && t in s.threads && Step(s, t, c).Some?
    requires !s.threads[t].pc.Pick? && !s.threads[t].pc.Expire?
    ensures RefsSafe(Step(s, t, c).value)
  {
    hide Safe, RefsSafe, StepCheck1, StepCheck2, StepBody, StepOpen, StepWriting, StepLog, StepResize, StepRollback, StepRemove,
         StepPick, StepExpire;
    match s.threads[t].pc
    case Check1 => Check1IsSafe(s, t);
    case Check2 => Check2IsSafe(s, t);
    case Body => BodyIsSafe(s, t, c);
    case Writing(k, off) => WritingIsSafe(s, t, k, off, c);
    case Log(p) => LogIsSafe(s, t, p);
    case Resize => ResizeIsSafe(s, t);
    case Remove => RemoveIsSafe(s, t);
    case _ => QuietStepsAreSafe(s, t, c);
  }

  lemma NextIsSafe(s: State, l: Label)
    requires Safe(s) && FreshId(s, l) && TimeoutQuiet(s, l) && Next(s, l).Some?
    ensures Safe(Next(s, l).value)
  {
    hide RefsSafe, LocksOk, TimeoutQuiet, FreshId, Step;
    NextKeepsLocks(s, l);
    hide Safe;
    match l
    case Arrive(t, req) => ArrivalIsSafe(s, t, req);
    case Act(t, c) =>
      if s.threads[t].pc.Pick? || s.threads[t].pc.Expire? {
        MapStepIsSafe(s, t, c);
      } else {
        HandlerStepIsSafe(s, t, c);
      }
  }

  lemma MapStepIsSafe(s: State, t: Tid, c: Choice)
    requires Safe(s) && FreshId(s, Act(t, c)) && TimeoutQuiet(s, Act(t, c)) && t in s.threads && Step(s, t, c).Some?
    requires s.threads[t].pc.Pick? || s.threads[t].pc.Expire?
    ensures RefsSafe(Step(s, t, c).value)
  {
    hide Safe, RefsSafe, FreshId, TimeoutQuiet, StepPick, StepExpire;
    if s.threads[t].pc.Pick? { PickIsSafe(s, t, c); } else { ExpireIsSafe(s, t, c); }
  }

  ghost predicate SafeChoices(s: State, ls: seq<Label>)
    decreases |ls|
  {
    ls == [] || (FreshId(s, ls[0]) && TimeoutQuiet(s, ls[0])
                 && (Next(s, ls[0]).Some? ==> SafeChoices(Next(s, ls[0]).value, ls[1..])))
  }

  /** Use-after-removal safety: in every interleaving of any number of threads, no step follows
      a reference to a removed transaction or to deleted file attributes. */
  lemma {:induction false} NoUseAfterRemoval(s: State, ls: seq<Label>)
    requires Safe(s) && SafeChoices(s, ls) && Run(s, ls).Some?
    ensures Safe(Run(s, ls).value) && !Run(s, ls).value.fault
    decreases |ls|
  {
    if ls != [] {
      NextIsSafe(s, ls[0]);
      NoUseAfterRemoval(Next(s, ls[0]).value, ls[1..]);
    }
  }

  /** Deadlock freedom, the whole of it: in every state these runs reach, if a handler is
      unfinished then some thread can take a step that moves it, meets the premises, and
      follows no dangling reference. */
  lemma HandlersGoOn(s: State, ls: seq<Label>, u: Tid) returns (t: Tid, c: Choice)
    requires Safe(s) && SafeChoices(s, ls) && Run(s, ls).Some?
    requires u in Run(s, ls).value.threads && !Run(s, ls).value.threads[u].pc.Done?
    ensures var s' := Run(s, ls).value;
            && FreshId(s', Act(t, c)) && TimeoutQuiet(s', Act(t, c))
            && t in s'.threads && Step(s', t, c).Some? && Safe(Step(s', t, c).value)
            && t in Step(s', t, c).value.threads && Step(s', t, c).value.threads[t].pc != s'.threads[t].pc
  {
    hide Safe, SafeChoices, Run, Step, Progress;
    NoUseAfterRemoval(s, ls);
    t, c := OneGoesOn(Run(s, ls).value, u);
  }

  lemma OneGoesOn(s: State, u: Tid) returns (t: Tid, c: Choice)
    requires Safe(s) && u in s.threads && !s.threads[u].pc.Done?
    ensures FreshId(s, Act(t, c)) && TimeoutQuiet(s, Act(t, c))
    ensures t in s.threads && Step(s, t, c).Some? && Safe(Step(s, t, c).value)
    ensures t in Step(s, t, c).value.threads && Step(s, t, c).value.threads[t].pc != s.threads[t].pc
  {
    assert LocksOk(s);
    hide Safe, Step, LocksOk, RefsSafe;
    t, c := DeadlockFreedom(s, u);
    NextIsSafe(s, Act(t, c));
    assert !Step(s, t, c).value.fault by { IsNoFault(Step(s, t, c).value); }
  }

  lemma IsNoFault(s: State)
    requires Safe(s)
    ensures !s.fault
  {
  }
}
