/** Serial commits and rollback: at every moment a data file is its initial contents, then
    whole committed transactions in commit order, then at most one unfinished transaction's
    bytes; a failed commit puts back what was there before it. */
module MachineFiles {
  import opened Basics
  import opened Transactions
  import opened Stores
  import opened LogText
  import opened Machine
  import opened MachineLocks
  import opened MachineSafety
  import opened MachineFrames
  import Text

  // ---------------------------------------------------------------- premise

  /** No commit takes the mutex of a file whose failed commit is about to be truncated: COMMIT
      releases that mutex before it truncates. */
  ghost predicate RollbackQuiet(s: State, l: Label) {
    l.Act? && l.t in s.threads && s.threads[l.t].pc.LockFile? ==>
      forall u :: u in s.threads && s.threads[u].pc.Rollback? ==> s.threads[u].attr != s.threads[l.t].attr
  }

  // ---------------------------------------------------------------- the invariant

  /** The bytes all committed transactions appended to a file, in commit order. */
  function CommittedTo(done: seq<Commitment>, name: FileName): Data {
    if done == [] then ""
    else
      var last := done[|done| - 1];
      CommittedTo(done[..|done| - 1], name)
      + if last.name == name then Assemble(last.txn.buffers, last.txn.maxSeq) else ""
  }

  function Base(h: History, name: FileName): Data {
    Content(h.initial, name) + CommittedTo(h.done, name)
  }

  function PendingBytes(h: History, name: FileName): Data {
    if name in h.pending then h.pending[name].bytes else ""
  }

  /** COMMIT has opened the file and neither completed its record nor truncated it back. */
  predicate Dirty(th: Thread) {
    th.req.CommitReq? &&
    match th.pc
    case Writing(_, _) | Rollback => true
    case Log(p) => p <= 6
    case CloseWant(ok) => !ok
    case CloseHeld(ok) => !ok
    case _ => false
  }

  predicate InFile(th: Thread) {
    HoldsFile(th) || th.pc.Rollback?
  }

  /** The record is complete and the remembered size not yet updated. */
  predicate SizeStale(th: Thread) {
    th.req.CommitReq? && (th.pc.Resize? || (th.pc.Log? && th.pc.p > 6))
  }

  ghost predicate InFileOk(s: State) {
    forall t, u :: t in s.threads && u in s.threads && t != u && InFile(s.threads[t]) && InFile(s.threads[u])
                   ==> s.threads[t].attr != s.threads[u].attr
  }

  ghost predicate WritersOk(s: State) {
    && (forall t :: t in s.threads && Dirty(s.threads[t]) ==>
          s.threads[t].name in s.hist.pending && s.hist.pending[s.threads[t].name].writer == t)
    && (forall name :: name in s.hist.pending ==>
          var t := s.hist.pending[name].writer;
          t in s.threads && Dirty(s.threads[t]) && s.threads[t].name == name)
  }

  ghost predicate ContentsOk(files: map<FileName, Data>, h: History) {
    forall name :: Content(files, name) == Base(h, name) + PendingBytes(h, name)
  }

  /** What a committing thread has appended so far. */
  ghost predicate ProgressOk(st: Store, h: History, th: Thread) {
    && (th.pc.Writing? && th.id in st.live ==>
          PendingBytes(h, th.name) == WrittenSoFar(st.live[th.id], th.pc.k, th.pc.off))
    && (th.pc.Log? && Dirty(th) && th.id in st.live ==>
          PendingBytes(h, th.name) == Assemble(st.live[th.id].buffers, st.live[th.id].maxSeq))
  }

  function WrittenSoFar(txn: Txn, k: SeqNum, off: nat): Data {
    Assemble(txn.buffers, k - 1)
    + if k <= txn.maxSeq && k in txn.buffers && off <= |txn.buffers[k]| then txn.buffers[k][..off] else ""
  }

  ghost predicate AllProgressOk(s: State) {
    forall t :: t in s.threads ==> ProgressOk(s.store, s.hist, s.threads[t])
  }

  /** The remembered size of a file is the length of its committed contents, except between a
      commit record and the update that follows it under the file mutex. */
  ghost predicate SizesOk(s: State) {
    forall a :: a in s.store.attrs ==>
      || s.store.attrs[a].size == |Base(s.hist, s.store.attrs[a].name)|
      || (a in s.fileOwner && s.fileOwner[a] in s.threads && SizeStale(s.threads[s.fileOwner[a]]))
  }

  ghost predicate WholeOk(h: History) {
    forall j :: 0 <= j < |h.done| ==> Complete(h.done[j].txn)
  }

  ghost predicate FilesOk(s: State) {
    && InFileOk(s) && WritersOk(s) && ContentsOk(s.store.files, s.hist)
    && AllProgressOk(s) && SizesOk(s) && WholeOk(s.hist)
  }

  // ---------------------------------------------------------------- facts used below

  /** Two threads inside the file part of COMMIT with one file name are the same thread. */
  lemma OneWriterPerName(s: State, t: Tid, u: Tid)
    requires Safe(s) && InFileOk(s) && t in s.threads && u in s.threads
    requires InFile(s.threads[t]) && InFile(s.threads[u]) && s.threads[t].name == s.threads[u].name
    ensures t == u
  {
    assert RefsOk(s.store, s.threads[t]) && RefsOk(s.store, s.threads[u]);
    assert Shape(s.threads[t]) && Shape(s.threads[u]);
    assert IndexOk(s.store);
  }

  lemma NotPending(s: State, t: Tid)
    requires Safe(s) && FilesOk(s) && t in s.threads && InFile(s.threads[t]) && !Dirty(s.threads[t])
    ensures s.threads[t].name !in s.hist.pending
  {
    var name := s.threads[t].name;
    if name in s.hist.pending {
      OneWriterPerName(s, t, s.hist.pending[name].writer);
    }
  }

  lemma ContentsAt(s: State, name: FileName)
    requires FilesOk(s)
    ensures Content(s.store.files, name) == Base(s.hist, name) + PendingBytes(s.hist, name)
  {
  }

  lemma ProgressAt(s: State, t: Tid)
    requires FilesOk(s) && t in s.threads
    ensures ProgressOk(s.store, s.hist, s.threads[t])
    ensures Dirty(s.threads[t]) ==> s.threads[t].name in s.hist.pending && s.hist.pending[s.threads[t].name].writer == t
  {
  }

  lemma FileLocksOf(s: State)
    requires Safe(s)
    ensures FileLocksOk(s) && Exclusive(s) && IndexOk(s.store)
  {
  }

  lemma AssembleNothing(buffers: map<SeqNum, Data>, n: SeqNum)
    requires n <= 0
    ensures Assemble(buffers, n) == ""
  {
  }

  // ---------------------------------------------------------------- conjuncts over steps

  lemma KeepInFile(s: State, t: Tid, th': Thread, s': State)
    requires Moves(s, t, th', s') && InFileOk(s) && FileLocksOk(s)
    requires InFile(th') ==> (InFile(s.threads[t]) && th'.attr == s.threads[t].attr)
                             || (th'.attr !in s.fileOwner
                                 && forall u :: u in s.threads && s.threads[u].pc.Rollback? ==> s.threads[u].attr != th'.attr)
    ensures InFileOk(s')
  {
  }

  lemma KeepWriters(s: State, t: Tid, th': Thread, s': State)
    requires Moves(s, t, th', s') && WritersOk(s) && s'.hist.pending == s.hist.pending
    requires Dirty(th') <==> Dirty(s.threads[t])
    requires Dirty(th') ==> th'.name == s.threads[t].name
    ensures WritersOk(s')
  {
  }

  lemma KeepProgress(s: State, t: Tid, th': Thread, s': State)
    requires Moves(s, t, th', s') && AllProgressOk(s) && s'.hist.pending == s.hist.pending
    requires ProgressOk(s'.store, s'.hist, th')
    requires forall u :: u in s.threads && u != t && Dirty(s.threads[u]) ==> SameReach(s.store, s'.store, s.threads[u].id)
    requires forall u :: u in s.threads && Dirty(s.threads[u]) ==> s.threads[u].id in s.store.live
    requires forall u :: u in s.threads && s.threads[u].pc.Writing? ==> s.threads[u].req.CommitReq?
    ensures AllProgressOk(s')
  {
    forall u | u in s'.threads && u != t ensures ProgressOk(s'.store, s'.hist, s'.threads[u]) {
      assert ProgressOk(s.store, s.hist, s.threads[u]);
    }
  }

  /** Sizes of attributes whose file mutex stays put. */
  lemma KeepSizes(s: State, t: Tid, th': Thread, s': State)
    requires Moves(s, t, th', s') && SizesOk(s) && FileLocksOk(s)
    requires KeyedMove(s.fileOwner, s'.fileOwner, t, s.threads[t].attr, th'.attr, HoldsFile(s.threads[t]), HoldsFile(th'))
    requires SizeStale(s.threads[t]) ==> SizeStale(th') && HoldsFile(th')
    requires s'.store.attrs == s.store.attrs && s'.hist.initial == s.hist.initial && s'.hist.done == s.hist.done
    ensures SizesOk(s')
  {
    hide Base;
    assert forall name :: Base(s'.hist, name) == Base(s.hist, name) by { SameBase(s.hist, s'.hist); }
  }

  lemma SameBase(h: History, h': History)
    requires h'.initial == h.initial && h'.done == h.done
    ensures forall name :: Base(h', name) == Base(h, name)
  {
  }

  // ---------------------------------------------------------------- steps that append nothing

  lemma DirtyIsLive(s: State)
    requires Safe(s)
    ensures forall u :: u in s.threads && Dirty(s.threads[u]) ==> PastCheck(s.threads[u]) && s.threads[u].id in s.store.live
    ensures forall u :: u in s.threads && s.threads[u].pc.Writing? ==> s.threads[u].req.CommitReq?
  {
    assert forall u :: u in s.threads ==> RefsOk(s.store, s.threads[u]) && Shape(s.threads[u]);
  }

  /** Any step that appends nothing and completes no commit record. */
  lemma CalmStepKeepsFiles(s: State, t: Tid, th': Thread, s': State)
    requires Safe(s) && FilesOk(s) && Moves(s, t, th', s')
    requires s'.hist.pending == s.hist.pending && s'.hist.done == s.hist.done && s'.hist.initial == s.hist.initial
    requires s'.store.files == s.store.files
    requires InFile(th') ==> (InFile(s.threads[t]) && th'.attr == s.threads[t].attr)
                             || (th'.attr !in s.fileOwner
                                 && forall u :: u in s.threads && s.threads[u].pc.Rollback? ==> s.threads[u].attr != th'.attr)
    requires Dirty(th') <==> Dirty(s.threads[t])
    requires Dirty(th') ==> th'.name == s.threads[t].name
    requires ProgressOk(s'.store, s'.hist, th')
    requires forall u :: u in s.threads && u != t && PastCheck(s.threads[u]) ==> SameReach(s.store, s'.store, s.threads[u].id)
    requires SizesOk(s')
    ensures FilesOk(s')
  {
    DirtyIsLive(s);
    assert FileLocksOk(s);
    hide Safe, SameReach, ProgressOk, SizesOk;
    KeepInFile(s, t, th', s');
    KeepWriters(s, t, th', s');
    KeepProgress(s, t, th', s');
    SameBase(s.hist, s'.hist);
    assert ContentsOk(s'.store.files, s'.hist) by { hide Base; }
  }

  /** Program counters whose steps touch neither files, maps, sizes nor commit bookkeeping. */
  predicate Uninvolved(th: Thread) {
    match th.pc
    case Body | LockFile | OpenHeld | Writing(_, _) | Resize | Rollback | Remove | Pick | Expire | Done(_) => false
    case Log(p) => p != 6 || !th.req.CommitReq?
    case _ => true
  }

  lemma LogBookkeeping(s: State, t: Tid, p: nat)
    requires t in s.threads && s.threads[t].pc == Log(p) && StepLog(s, t, p).Some?
    requires Uninvolved(s.threads[t])
    ensures var h' := StepLog(s, t, p).value.hist;
            h'.pending == s.hist.pending && h'.done == s.hist.done && h'.initial == s.hist.initial
  {
    hide ViewAfter, KindOf, FileSize;
  }

  lemma IdleProgress(s: State, t: Tid, s': State)
    requires t in s.threads && t in s'.threads && Frame(s, t, s') && Shape(s.threads[t]) && Uninvolved(s.threads[t])
    requires ProgressOk(s.store, s.hist, s.threads[t]) && s'.hist.pending == s.hist.pending
    ensures var th, th' := s.threads[t], s'.threads[t];
            && Moves(s, t, th', s')
            && s'.store.files == s.store.files && s'.store.live == s.store.live && s'.store.attrs == s.store.attrs
            && (InFile(th') ==> InFile(th) && th'.attr == th.attr)
            && (Dirty(th') <==> Dirty(th))
            && (Dirty(th') ==> th'.name == th.name)
            && ProgressOk(s'.store, s'.hist, th')
            && (SizeStale(th) ==> SizeStale(th') && HoldsFile(th'))
  {
    hide Assemble, WrittenSoFar;
  }

  lemma IdleStepKeepsFiles(s: State, t: Tid, c: Choice)
    requires Safe(s) && FilesOk(s) && t in s.threads && Step(s, t, c).Some? && Uninvolved(s.threads[t])
    requires !Step(s, t, c).value.fault
    ensures FilesOk(Step(s, t, c).value)
  {
    var s' := Step(s, t, c).value;
    OwnRefs(s, t);
    StepFrame(s, t, c);
    StepMovesLocks(s, t, c);
    if s.threads[t].pc.Log? {
      LogBookkeeping(s, t, s.threads[t].pc.p);
      assert Step(s, t, c) == StepLog(s, t, s.threads[t].pc.p) by { hide StepLog; }
    }
    hide Step, StepLog;
    assert s'.hist.pending == s.hist.pending && s'.hist.done == s.hist.done && s'.hist.initial == s.hist.initial;
    IdleProgress(s, t, s');
    assert FileLocksOk(s);
    FileLockMoves(s, t, s');
    hide Safe, Frame, LockMove, ProgressOk, InFile, Dirty, SizeStale;
    KeepSizes(s, t, s'.threads[t], s');
    CalmStepKeepsFiles(s, t, s'.threads[t], s');
  }

  lemma FileLockMoves(s: State, t: Tid, s': State)
    requires t in s.threads && LockMove(s, t, s')
    ensures t in s'.threads
    ensures KeyedMove(s.fileOwner, s'.fileOwner, t, s.threads[t].attr, s'.threads[t].attr,
                      HoldsFile(s.threads[t]), HoldsFile(s'.threads[t]))
  {
  }

  // ---------------------------------------------------------------- calm steps with an effect elsewhere

  lemma LockFileKeepsFiles(s: State, t: Tid, c: Choice)
    requires Safe(s) && FilesOk(s) && t in s.threads && s.threads[t].pc == LockFile && Step(s, t, c).Some?
    requires !Step(s, t, c).value.fault && RollbackQuiet(s, Act(t, c))
    ensures FilesOk(Step(s, t, c).value)
  {
    var s' := Step(s, t, c).value;
    OwnRefs(s, t);
    var th' := s.threads[t].(pc := OpenWant);
    assert s' == s.(fileOwner := s.fileOwner[th'.attr := t]).Goto(t, OpenWant);
    assert FileLocksOk(s) && th'.attr !in s.fileOwner;
    hide Step, Safe;
    assert ProgressOk(s'.store, s'.hist, th') by { hide *; }
    KeepSizes(s, t, th', s');
    CalmStepKeepsFiles(s, t, th', s');
  }

  lemma BodyKeepsFiles(s: State, t: Tid, c: Choice)
    requires Safe(s) && FilesOk(s) && t in s.threads && s.threads[t].pc == Body
    requires !StepBody(s, t, c).fault
    ensures FilesOk(StepBody(s, t, c))
  {
    var s' := StepBody(s, t, c);
    assert SizesOk(s);
    FileLocksOf(s);
    hide *;
    BodyFiles(s, t, c);
    KeepSizes(s, t, s'.threads[t], s');
    CalmStepKeepsFiles(s, t, s'.threads[t], s');
  }

  lemma BodyFiles(s: State, t: Tid, c: Choice)
    requires Safe(s) && t in s.threads && s.threads[t].pc == Body && !StepBody(s, t, c).fault
    ensures var s' := StepBody(s, t, c);
            && t in s'.threads && Moves(s, t, s'.threads[t], s')
            && !InFile(s'.threads[t]) && !Dirty(s.threads[t]) && !Dirty(s'.threads[t]) && !SizeStale(s.threads[t])
            && ProgressOk(s'.store, s'.hist, s'.threads[t])
            && s'.store.files == s.store.files && s'.store.attrs == s.store.attrs && s'.hist == s.hist
            && KeyedMove(s.fileOwner, s'.fileOwner, t, s.threads[t].attr, s'.threads[t].attr,
                         HoldsFile(s.threads[t]), HoldsFile(s'.threads[t]))
            && forall u :: u in s.threads && u != t && PastCheck(s.threads[u]) ==> SameReach(s.store, s'.store, s.threads[u].id)
  {
    OwnRefs(s, t);
    BodyFrame(s, t, c);
    BodyMovesLocks(s, t, c);
    SafeParts(s);
    LiveAttrs(s.store);
    hide Safe, LocksOk, IndexOk;
    BodyEffect(s, t, c);
    hide StepBody, RefsOk;
  }

  lemma OpenFailureKeepsFiles(s: State, t: Tid, c: Choice)
    requires Safe(s) && FilesOk(s) && t in s.threads && s.threads[t].pc == OpenHeld && !c.ok
    ensures FilesOk(StepOpen(s, t, c))
  {
    var s' := StepOpen(s, t, c);
    OwnRefs(s, t);
    OpenMovesLocks(s, t, c);
    FileLockMoves(s, t, s');
    assert FileLocksOk(s);
    var th' := s'.threads[t];
    assert Moves(s, t, th', s') && th'.pc.Done? && s'.store == s.store && s'.hist == s.hist;
    hide StepOpen, Safe, LockMove, RefsOk;
    KeepSizes(s, t, th', s');
    CalmStepKeepsFiles(s, t, th', s');
  }

  /** The writing loop between two calls: next buffer, end of the loop, or a failed call. */
  lemma WritingTurn(s: State, t: Tid, k: SeqNum, off: nat, c: Choice)
    requires t in s.threads && s.threads[t].pc == Writing(k, off) && Shape(s.threads[t])
    requires RefsOk(s.store, s.threads[t]) && ProgressOk(s.store, s.hist, s.threads[t])
    requires StepWriting(s, t, k, off, c).Some?
    requires var txn := s.store.live[s.threads[t].id];
             k > txn.maxSeq || off >= |txn.buffers[k]| || !c.ok
    ensures var s' := StepWriting(s, t, k, off, c).value;
            && t in s'.threads
            && var th' := s'.threads[t];
            && Moves(s, t, th', s') && s'.hist == s.hist && s'.fileOwner == s.fileOwner
            && s'.store == s.store.(commits := s'.store.commits)
            && th'.attr == s.threads[t].attr && th'.name == s.threads[t].name
            && Dirty(th') && InFile(th') && HoldsFile(th') && ProgressOk(s'.store, s'.hist, th')
  {
    var txn := s.store.live[s.threads[t].id];
    if k > txn.maxSeq {
      if k != txn.maxSeq + 1 { AssembleNothing(txn.buffers, k - 1); AssembleNothing(txn.buffers, txn.maxSeq); }
      hide Assemble;
    } else {
      assert k in txn.buffers;
      if off >= |txn.buffers[k]| {
        assert txn.buffers[k][..off] == txn.buffers[k];
        assert Assemble(txn.buffers, k) == Assemble(txn.buffers, k - 1) + txn.buffers[k];
        assert k + 1 <= txn.maxSeq && k + 1 in txn.buffers ==> txn.buffers[k + 1][..0] == "";
        hide Assemble;
      }
    }
  }

  lemma WritingTurnKeepsFiles(s: State, t: Tid, k: SeqNum, off: nat, c: Choice)
    requires Safe(s) && FilesOk(s) && t in s.threads && s.threads[t].pc == Writing(k, off) && s.threads[t].id in s.store.live
    requires StepWriting(s, t, k, off, c).Some?
    requires var txn := s.store.live[s.threads[t].id];
             k > txn.maxSeq || k !in txn.buffers || off >= |txn.buffers[k]| || !c.ok
    ensures FilesOk(StepWriting(s, t, k, off, c).value)
  {
    var s' := StepWriting(s, t, k, off, c).value;
    OwnRefs(s, t);
    ProgressAt(s, t);
    assert k <= s.store.live[s.threads[t].id].maxSeq ==> k in s.store.live[s.threads[t].id].buffers;
    hide Safe, FilesOk, ProgressOk;
    WritingTurn(s, t, k, off, c);
    hide StepWriting, RefsOk;
    TurnKeepsFiles(s, t, s'.threads[t], s');
  }

  /** A turn of the writing loop that writes nothing. */
  lemma TurnKeepsFiles(s: State, t: Tid, th': Thread, s': State)
    requires Safe(s) && FilesOk(s) && t in s.threads && s.threads[t].pc.Writing? && Shape(s.threads[t]) && Moves(s, t, th', s')
    requires s'.hist == s.hist && s'.fileOwner == s.fileOwner && s'.store == s.store.(commits := s'.store.commits)
    requires th'.attr == s.threads[t].attr && th'.name == s.threads[t].name
    requires Dirty(th') && InFile(th') && HoldsFile(th') && ProgressOk(s'.store, s'.hist, th')
    ensures FilesOk(s')
  {
    FileLocksOf(s);
    assert SizesOk(s);
    hide Safe, FilesOk, SizesOk, FileLocksOk, Exclusive, IndexOk, ProgressOk;
    KeepSizes(s, t, th', s');
    CalmStepKeepsFiles(s, t, th', s');
  }

  lemma ResizeMove(s: State, t: Tid)
    requires t in s.threads && s.threads[t].pc == Resize && s.threads[t].attr in s.store.attrs
    ensures var th := s.threads[t];
            StepResize(s, t)
            == s.(store := s.store.(attrs := s.store.attrs[th.attr := s.store.attrs[th.attr].(size := FileSize(s.store.files, th.name))]))
               .Put(t, th.(pc := CloseWant(true)))
  {
    hide FileSize;
  }

  lemma ResizeSizes(s: State, t: Tid, s': State)
    requires SizesOk(s) && FileLocksOk(s) && t in s.threads && s.threads[t].pc == Resize && HoldsFile(s.threads[t])
    requires var th := s.threads[t];
             && th.attr in s.store.attrs && s.store.attrs[th.attr].name == th.name
             && |Base(s.hist, th.name)| == FileSize(s.store.files, th.name)
             && s' == s.(store := s.store.(attrs := s.store.attrs[th.attr :=
                          s.store.attrs[th.attr].(size := FileSize(s.store.files, th.name))]))
                      .Put(t, th.(pc := CloseWant(true)))
    ensures SizesOk(s')
    ensures forall i :: SameReach(s.store, s'.store, i)
  {
    hide Base, FileSize;
  }

  lemma ResizeKeepsFiles(s: State, t: Tid)
    requires Safe(s) && FilesOk(s) && t in s.threads && s.threads[t].pc == Resize
    ensures FilesOk(StepResize(s, t))
  {
    var s' := StepResize(s, t);
    var th := s.threads[t];
    assert SizesOk(s);
    hide Safe, FilesOk, StepResize, Base, SizesOk;
    OwnRefs(s, t);
    NotPending(s, t);
    ContentsAt(s, th.name);
    FileLocksOf(s);
    ResizeMove(s, t);
    ResizeSizes(s, t, s');
    hide FileLocksOk, RefsOk, SameReach, FileSize, IndexOk;
    CalmStepKeepsFiles(s, t, th.(pc := CloseWant(true)), s');
  }

  lemma MapStepSizes(s: State, t: Tid, s': State)
    requires t in s.threads && t in s'.threads && Moves(s, t, s'.threads[t], s') && SizesOk(s) && FileLocksOk(s)
    requires s'.fileOwner == s.fileOwner && !HoldsFile(s.threads[t])
    requires s'.hist.initial == s.hist.initial && s'.hist.done == s.hist.done
    requires forall a :: a in s'.store.attrs ==>
               || (a in s.store.attrs && s'.store.attrs[a].size == s.store.attrs[a].size && s'.store.attrs[a].name == s.store.attrs[a].name)
               || s'.store.attrs[a].size == |Base(s.hist, s'.store.attrs[a].name)|
    ensures SizesOk(s')
  {
    SameBase(s.hist, s'.hist);
    hide Base;
  }

  /** What leaving the live map means for the files: nothing. */
  ghost predicate EvictsOnly(s: State, t: Tid, s': State)
    requires t in s.threads
  {
    && t in s'.threads && Moves(s, t, s'.threads[t], s')
    && !Dirty(s'.threads[t]) && !InFile(s'.threads[t]) && ProgressOk(s'.store, s'.hist, s'.threads[t])
    && s'.fileOwner == s.fileOwner && s'.hist == s.hist && s'.store.files == s.store.files
    && (s'.store == s.store || s'.store == Evict(s.store, s.threads[t].id))
  }

  lemma RemoveEvictsOnly(s: State, t: Tid)
    requires t in s.threads && s.threads[t].pc == Remove
    ensures EvictsOnly(s, t, StepRemove(s, t))
  {
    EvictTouches(s.store, s.threads[t].id);
    hide Evict;
  }

  lemma ExpireEvictsOnly(s: State, t: Tid, c: Choice)
    requires t in s.threads && s.threads[t].pc == Expire && s.threads[t].req.TimerReq?
    requires !StepExpire(s, t, c).fault
    ensures EvictsOnly(s, t, StepExpire(s, t, c))
  {
    EvictTouches(s.store, s.threads[t].id);
    hide Evict, Expired;
  }

  lemma EvictionKeepsFiles(s: State, t: Tid, s': State)
    requires Safe(s) && FilesOk(s) && t in s.threads && EvictsOnly(s, t, s')
    requires !HoldsFile(s.threads[t]) && !Dirty(s.threads[t])
    requires s'.store == s.store || forall u :: u in s.threads && u != t && PastCheck(s.threads[u]) ==> s.threads[u].id != s.threads[t].id
    ensures FilesOk(s')
  {
    EvictSizes(s.store, s.threads[t].id);
    forall u | u in s.threads && u != t && PastCheck(s.threads[u]) ensures SameReach(s.store, s'.store, s.threads[u].id) {
      if s'.store != s.store { EvictReach(s.store, s.threads[t].id, s.threads[u].id); }
    }
    assert FileLocksOk(s);
    hide Evict, Safe, SameReach;
    MapStepSizes(s, t, s');
    CalmStepKeepsFiles(s, t, s'.threads[t], s');
  }

  lemma RemoveKeepsFiles(s: State, t: Tid)
    requires Safe(s) && FilesOk(s) && t in s.threads && s.threads[t].pc == Remove
    ensures FilesOk(StepRemove(s, t))
  {
    OwnRefs(s, t);
    assert Exclusive(s);
    RemoveEvictsOnly(s, t);
    hide StepRemove, Safe, FilesOk, EvictsOnly;
    EvictionKeepsFiles(s, t, StepRemove(s, t));
  }

  lemma ExpireKeepsFiles(s: State, t: Tid, c: Choice)
    requires Safe(s) && FilesOk(s) && t in s.threads && s.threads[t].pc == Expire && TimeoutQuiet(s, Act(t, c))
    requires !StepExpire(s, t, c).fault
    ensures FilesOk(StepExpire(s, t, c))
  {
    OwnRefs(s, t);
    ExpireEvictsOnly(s, t, c);
    assert StepExpire(s, t, c).store == s.store || Expired(s, s.threads[t].id, c.now) by { hide Evict; }
    hide StepExpire, Safe, FilesOk, EvictsOnly, Expired;
    EvictionKeepsFiles(s, t, StepExpire(s, t, c));
  }

  lemma EvictSizes(st: Store, id: TxnId)
    ensures forall a :: a in Evict(st, id).attrs ==> a in st.attrs && Evict(st, id).attrs[a].size == st.attrs[a].size
                                                     && Evict(st, id).attrs[a].name == st.attrs[a].name
  {
  }

  /** Fresh attributes read the right size: nobody is writing a file no transaction is on. */
  lemma EnrollSizes(s: State, id: TxnId, name: FileName, now: Time)
    requires Safe(s) && FilesOk(s)
    ensures var st' := Enroll(s.store, id, name, now);
            forall a :: a in st'.attrs ==>
              || (a in s.store.attrs && st'.attrs[a].size == s.store.attrs[a].size && st'.attrs[a].name == s.store.attrs[a].name)
              || st'.attrs[a].size == |Base(s.hist, st'.attrs[a].name)|
  {
    if name in s.hist.pending { PendingNameIndexed(s, name); }
    hide Safe, FilesOk, Base;
    if !(name in s.store.index && s.store.index[name] in s.store.attrs) {
      ContentsAt(s, name);
      assert FileSize(s.store.files, name) == |Base(s.hist, name)|;
    }
    hide FileSize, Content, PendingBytes;
  }

  lemma PendingNameIndexed(s: State, name: FileName)
    requires Safe(s) && FilesOk(s) && name in s.hist.pending
    ensures name in s.store.index && s.store.index[name] in s.store.attrs
  {
    assert WritersOk(s);
    hide FilesOk;
    var w := s.hist.pending[name].writer;
    assert RefsOk(s.store, s.threads[w]) && PastCheck(s.threads[w]);
    FileLocksOf(s);
    hide Safe;
  }

  lemma PickKeepsFiles(s: State, t: Tid, c: Choice)
    requires Safe(s) && FilesOk(s) && t in s.threads && s.threads[t].pc == Pick && StepPick(s, t, c).Some?
    ensures FilesOk(StepPick(s, t, c).value)
  {
    var s' := StepPick(s, t, c).value;
    OwnRefs(s, t);
    EnrollTouches(s.store, c.n, s.threads[t].req.name, c.now);
    EnrollSizes(s, c.n, s.threads[t].req.name, c.now);
    var th' := s'.threads[t];
    assert Moves(s, t, th', s') && !Dirty(th') && !InFile(th') && s'.fileOwner == s.fileOwner;
    assert ProgressOk(s'.store, s'.hist, th');
    forall u | u in s.threads && u != t && PastCheck(s.threads[u]) ensures SameReach(s.store, s'.store, s.threads[u].id) {
      EnrollReach(s.store, c.n, s.threads[t].req.name, c.now, s.threads[u].id);
    }
    assert FileLocksOk(s);
    hide Enroll, Safe, RefsOk, SameReach, ProgressOk;
    MapStepSizes(s, t, s');
    CalmStepKeepsFiles(s, t, th', s');
  }

  // ---------------------------------------------------------------- the four steps that matter

  /** `t` becomes, stays or ceases to be the writer of its own file, and of no other. */
  lemma MoveWriter(s: State, t: Tid, th': Thread, s': State)
    requires WritersOk(s) && Moves(s, t, th', s') && th'.name == s.threads[t].name
    requires th'.name in s.hist.pending ==> s.hist.pending[th'.name].writer == t
    requires Dirty(s.threads[t]) ==> th'.name in s.hist.pending
    requires if Dirty(th') then th'.name in s'.hist.pending && s'.hist.pending[th'.name].writer == t
                                && s'.hist.pending - {th'.name} == s.hist.pending - {th'.name}
             else s'.hist.pending == s.hist.pending - {th'.name}
    ensures WritersOk(s')
  {
    forall name | name in s'.hist.pending && name != th'.name
      ensures name in s.hist.pending && s'.hist.pending[name] == s.hist.pending[name]
    {
      assert name in s'.hist.pending - {th'.name};
      assert (s'.hist.pending - {th'.name})[name] == (s.hist.pending - {th'.name})[name];
    }
    forall name | name in s.hist.pending && name != th'.name
      ensures name in s'.hist.pending
    {
      assert name in s.hist.pending - {th'.name};
    }
  }

  /** Other committing threads are on other files, so their progress is untouched. */
  lemma OthersProgress(s: State, t: Tid, th': Thread, s': State)
    requires Safe(s) && FilesOk(s) && Moves(s, t, th', s') && s'.store.live == s.store.live
    requires InFile(s.threads[t])
    requires forall name :: name != s.threads[t].name ==> PendingBytes(s'.hist, name) == PendingBytes(s.hist, name)
    requires ProgressOk(s'.store, s'.hist, th')
    ensures AllProgressOk(s')
  {
    DirtyIsLive(s);
    forall u | u in s'.threads && u != t ensures ProgressOk(s'.store, s'.hist, s'.threads[u]) {
      assert ProgressOk(s.store, s.hist, s.threads[u]);
      if InFile(s.threads[u]) && s.threads[u].name == s.threads[t].name {
        OneWriterPerName(s, t, u);
      }
    }
  }

  /** A step on the thread's own file that commits nothing. */
  lemma OwnFileStepKeepsFiles(s: State, t: Tid, th': Thread, s': State)
    requires Safe(s) && FilesOk(s) && Moves(s, t, th', s')
    requires InFile(s.threads[t]) && th'.name == s.threads[t].name && th'.attr == s.threads[t].attr
    requires s'.fileOwner == s.fileOwner && (HoldsFile(th') <==> HoldsFile(s.threads[t]))
    requires !SizeStale(s.threads[t])
    requires s'.store.live == s.store.live && s'.store.attrs == s.store.attrs
    requires s'.hist.done == s.hist.done && s'.hist.initial == s.hist.initial
    requires th'.name in s.hist.pending ==> Dirty(s.threads[t])
    requires if Dirty(th') then th'.name in s'.hist.pending && s'.hist.pending[th'.name].writer == t
                                && s'.hist.pending - {th'.name} == s.hist.pending - {th'.name}
             else s'.hist.pending == s.hist.pending - {th'.name}
    requires forall name :: name != th'.name ==> PendingBytes(s'.hist, name) == PendingBytes(s.hist, name)
    requires forall name :: name != th'.name ==> Content(s'.store.files, name) == Content(s.store.files, name)
    requires Content(s'.store.files, th'.name) == Base(s.hist, th'.name) + PendingBytes(s'.hist, th'.name)
    requires ProgressOk(s'.store, s'.hist, th')
    ensures FilesOk(s')
  {
    assert FileLocksOk(s);
    OwnFileContents(s, th'.name, s');
    OthersProgress(s, t, th', s');
    hide Safe, ProgressOk, ContentsOk, Base, PendingBytes, Content, Dirty, InFile, SizeStale, HoldsFile;
    MoveWriter(s, t, th', s');
    KeepInFile(s, t, th', s');
    KeepSizes(s, t, th', s');
  }

  lemma OwnFileContents(s: State, own: FileName, s': State)
    requires ContentsOk(s.store.files, s.hist)
    requires s'.hist.done == s.hist.done && s'.hist.initial == s.hist.initial
    requires forall name :: name != own ==> PendingBytes(s'.hist, name) == PendingBytes(s.hist, name)
    requires forall name :: name != own ==> Content(s'.store.files, name) == Content(s.store.files, name)
    requires Content(s'.store.files, own) == Base(s.hist, own) + PendingBytes(s'.hist, own)
    ensures ContentsOk(s'.store.files, s'.hist)
  {
    SameBase(s.hist, s'.hist);
    hide Base, PendingBytes, Content;
  }

  lemma OpenSuccess(s: State, t: Tid, c: Choice)
    requires t in s.threads && s.threads[t].pc == OpenHeld && c.ok
    ensures var th, s' := s.threads[t], StepOpen(s, t, c);
            && Moves(s, t, th.(pc := Writing(1, 0)), s') && s'.fileOwner == s.fileOwner
            && s'.store == s.store.(files := s.store.files[th.name := Content(s.store.files, th.name)])
            && s'.hist == s.hist.(pending := s.hist.pending[th.name := Uncommitted(t, "")])
  {
    hide Content;
  }

  lemma OpenKeepsFiles(s: State, t: Tid, c: Choice)
    requires Safe(s) && FilesOk(s) && t in s.threads && s.threads[t].pc == OpenHeld && c.ok
    ensures FilesOk(StepOpen(s, t, c))
  {
    hide Safe, FilesOk, Base, StepOpen, Assemble;
    var s' := StepOpen(s, t, c);
    var th := s.threads[t];
    OwnRefs(s, t);
    NotPending(s, t);
    OpenSuccess(s, t, c);
    ContentsAt(s, th.name);
    OpenBytes(s, t, s');
    hide RefsOk, Content, PendingBytes;
    OwnFileStepKeepsFiles(s, t, th.(pc := Writing(1, 0)), s');
  }

  lemma OpenBytes(s: State, t: Tid, s': State)
    requires t in s.threads && s.threads[t].name !in s.hist.pending && s.threads[t].id in s.store.live
    requires var name := s.threads[t].name;
             && s'.store == s.store.(files := s.store.files[name := Content(s.store.files, name)])
             && s'.hist == s.hist.(pending := s.hist.pending[name := Uncommitted(t, "")])
    ensures s'.hist.pending - {s.threads[t].name} == s.hist.pending - {s.threads[t].name}
    ensures forall name :: PendingBytes(s'.hist, name) == PendingBytes(s.hist, name)
    ensures forall name :: Content(s'.store.files, name) == Content(s.store.files, name)
    ensures ProgressOk(s'.store, s'.hist, s.threads[t].(pc := Writing(1, 0)))
  {
    AssembleNothing(s.store.live[s.threads[t].id].buffers, 0);
    assert WrittenSoFar(s.store.live[s.threads[t].id], 1, 0) == "";
    hide Assemble;
  }

  lemma ChunkProgress(txn: Txn, k: SeqNum, off: nat, n: nat)
    requires 1 <= k <= txn.maxSeq && k in txn.buffers && off + n <= |txn.buffers[k]|
    ensures WrittenSoFar(txn, k, off + n) == WrittenSoFar(txn, k, off) + txn.buffers[k][off..off + n]
  {
    var b := txn.buffers[k];
    assert b[..off + n] == b[..off] + b[off..off + n];
    hide Assemble;
  }

  /** What one successful write(2) call does. */
  ghost predicate AppendsChunk(s: State, t: Tid, k: SeqNum, off: nat, n: nat, s': State)
    requires t in s.threads
  {
    var th := s.threads[t];
    && Moves(s, t, th.(pc := Writing(k, off + n)), s') && s'.fileOwner == s.fileOwner
    && th.id in s.store.live && k in s.store.live[th.id].buffers
    && off + n <= |s.store.live[th.id].buffers[k]|
    && var chunk := s.store.live[th.id].buffers[k][off..off + n];
    && s'.store == s.store.(files := Append(s.store.files, th.name, chunk))
    && s'.hist == Appended(s.hist, t, th.name, chunk)
  }

  lemma ChunkEffect(s: State, t: Tid, k: SeqNum, off: nat, c: Choice)
    requires t in s.threads && s.threads[t].id in s.store.live && s.threads[t].pc == Writing(k, off)
    requires var txn := s.store.live[s.threads[t].id];
             k <= txn.maxSeq && k in txn.buffers && off < |txn.buffers[k]| && c.ok
    requires StepWriting(s, t, k, off, c).Some?
    ensures 0 <= c.n && AppendsChunk(s, t, k, off, c.n, StepWriting(s, t, k, off, c).value)
  {
    hide Append, Appended;
  }

  lemma ChunkBytes(s: State, t: Tid, k: SeqNum, off: nat, n: nat, s': State)
    requires t in s.threads && s.threads[t].pc == Writing(k, off) && s.threads[t].name in s.hist.pending
    requires AppendsChunk(s, t, k, off, n, s')
    ensures var name, chunk := s.threads[t].name, s.store.live[s.threads[t].id].buffers[k][off..off + n];
            && PendingBytes(s'.hist, name) == PendingBytes(s.hist, name) + chunk
            && Content(s'.store.files, name) == Content(s.store.files, name) + chunk
            && name in s'.hist.pending && s'.hist.pending[name].writer == t
            && s'.hist.pending - {name} == s.hist.pending - {name}
            && (forall other :: other != name ==> PendingBytes(s'.hist, other) == PendingBytes(s.hist, other))
            && (forall other :: other != name ==> Content(s'.store.files, other) == Content(s.store.files, other))
  {
  }

  lemma ChunkKeepsFiles(s: State, t: Tid, k: SeqNum, off: nat, n: nat, s': State)
    requires Safe(s) && FilesOk(s) && t in s.threads && s.threads[t].pc == Writing(k, off)
    requires AppendsChunk(s, t, k, off, n, s') && k <= s.store.live[s.threads[t].id].maxSeq
    ensures FilesOk(s')
  {
    hide Safe, FilesOk, Base, Append, WrittenSoFar, PendingBytes, Content;
    OwnRefs(s, t);
    ProgressAt(s, t);
    var th := s.threads[t];
    var txn := s.store.live[th.id];
    var chunk := txn.buffers[k][off..off + n];
    ChunkBytes(s, t, k, off, n, s');
    ChunkProgress(txn, k, off, n);
    ContentsAt(s, th.name);
    Text.Assoc(Base(s.hist, th.name), PendingBytes(s.hist, th.name), chunk);
    assert ProgressOk(s'.store, s'.hist, th.(pc := Writing(k, off + n)));
    assert s'.hist.initial == s.hist.initial && s'.hist.done == s.hist.done;
    hide ProgressOk, RefsOk, Appended;
    OwnFileStepKeepsFiles(s, t, th.(pc := Writing(k, off + n)), s');
  }

  /** The commit record is complete: what was pending has become committed. */
  ghost predicate Commits(s: State, t: Tid, s': State)
    requires t in s.threads
  {
    var th := s.threads[t];
    && Moves(s, t, th.(pc := Log(7)), s') && s'.fileOwner == s.fileOwner
    && s'.store == s.store.(logs := s'.store.logs)
    && th.id in s.store.live
    && s'.hist.initial == s.hist.initial
    && s'.hist.pending == s.hist.pending - {th.name}
    && (exists serial :: s'.hist.done == s.hist.done + [Commitment(th.id, serial, th.name, s.store.live[th.id])])
  }

  lemma CommitRecordEffect(s: State, t: Tid)
    requires t in s.threads && s.threads[t].pc == Log(6) && s.threads[t].req.CommitReq?
    requires s.threads[t].id in s.store.live && s.threads[t].attr in s.store.attrs
    ensures StepLog(s, t, 6).Some? && Commits(s, t, StepLog(s, t, 6).value)
  {
    hide ViewAfter, FileSize;
    var th := s.threads[t];
    var serial := if th.id in s.hist.serial then s.hist.serial[th.id] else 0;
    assert StepLog(s, t, 6).value.hist.done == s.hist.done + [Commitment(th.id, serial, th.name, s.store.live[th.id])];
  }

  lemma BaseAfterCommit(h: History, h': History, c: Commitment)
    requires h'.initial == h.initial && h'.done == h.done + [c]
    ensures Base(h', c.name) == Base(h, c.name) + Assemble(c.txn.buffers, c.txn.maxSeq)
    ensures forall name :: name != c.name ==> Base(h', name) == Base(h, name)
  {
    assert h'.done[..|h'.done| - 1] == h.done;
    Text.Assoc(Content(h.initial, c.name), CommittedTo(h.done, c.name), Assemble(c.txn.buffers, c.txn.maxSeq));
    assert forall name :: name != c.name ==> CommittedTo(h'.done, name) == CommittedTo(h.done, name) + "";
  }

  lemma CommitSizes(s: State, t: Tid, s': State)
    requires Safe(s) && FilesOk(s) && t in s.threads && s.threads[t].pc == Log(6) && s.threads[t].req.CommitReq?
    requires Commits(s, t, s')
    requires forall name :: name != s.threads[t].name ==> Base(s'.hist, name) == Base(s.hist, name)
    ensures SizesOk(s')
  {
    OwnRefs(s, t);
    var th := s.threads[t];
    assert FileLocksOk(s) && IndexOk(s.store);
    hide Base;
    forall a | a in s'.store.attrs
      ensures || s'.store.attrs[a].size == |Base(s'.hist, s'.store.attrs[a].name)|
              || (a in s'.fileOwner && s'.fileOwner[a] in s'.threads && SizeStale(s'.threads[s'.fileOwner[a]]))
    {
      if s.store.attrs[a].name == th.name {
        assert a == th.attr;
        assert SizeStale(s'.threads[t]);
      }
    }
  }

  lemma CommitPending(s: State, t: Tid, s': State)
    requires Safe(s) && FilesOk(s) && t in s.threads && s.threads[t].pc == Log(6) && s.threads[t].req.CommitReq?
    requires Commits(s, t, s')
    ensures var name, txn := s.threads[t].name, s.store.live[s.threads[t].id];
            && name in s.hist.pending && s.hist.pending[name].writer == t && Complete(txn)
            && PendingBytes(s.hist, name) == Assemble(txn.buffers, txn.maxSeq) && PendingBytes(s'.hist, name) == ""
            && (forall other :: other != name ==> PendingBytes(s'.hist, other) == PendingBytes(s.hist, other))
  {
    hide Safe, FilesOk, Assemble;
    OwnRefs(s, t);
    ProgressAt(s, t);
  }

  lemma CommitKeepsFiles(s: State, t: Tid, s': State)
    requires Safe(s) && FilesOk(s) && t in s.threads && s.threads[t].pc == Log(6) && s.threads[t].req.CommitReq?
    requires Commits(s, t, s')
    ensures FilesOk(s')
  {
    var th := s.threads[t];
    var th' := th.(pc := Log(7));
    var serial :| s'.hist.done == s.hist.done + [Commitment(th.id, serial, th.name, s.store.live[th.id])];
    var c := Commitment(th.id, serial, th.name, s.store.live[th.id]);
    BaseAfterCommit(s.hist, s'.hist, c);
    CommitSizes(s, t, s');
    CommitPending(s, t, s');
    assert FileLocksOk(s);
    assert ProgressOk(s'.store, s'.hist, th');
    hide Safe, ProgressOk, Base, PendingBytes, Assemble, SizesOk;
    WholeSnoc(s.hist, s'.hist, c);
    hide Complete;
    OthersProgress(s, t, th', s');
    CommitContents(s, th.name, s', Assemble(c.txn.buffers, c.txn.maxSeq));
    hide ContentsOk, WholeOk, Commits;
    MoveWriter(s, t, th', s');
    KeepInFile(s, t, th', s');
  }

  lemma WholeSnoc(h: History, h': History, c: Commitment)
    requires WholeOk(h) && h'.done == h.done + [c] && Complete(c.txn)
    ensures WholeOk(h')
  {
    hide Complete;
  }

  lemma CommitContents(s: State, own: FileName, s': State, data: Data)
    requires ContentsOk(s.store.files, s.hist) && s'.store.files == s.store.files
    requires PendingBytes(s.hist, own) == data && PendingBytes(s'.hist, own) == ""
    requires Base(s'.hist, own) == Base(s.hist, own) + data
    requires forall name :: name != own ==> PendingBytes(s'.hist, name) == PendingBytes(s.hist, name)
    requires forall name :: name != own ==> Base(s'.hist, name) == Base(s.hist, name)
    ensures ContentsOk(s'.store.files, s'.hist)
  {
    hide Base, PendingBytes, Content;
    assert Base(s'.hist, own) + "" == Base(s'.hist, own);
  }

  function Answering(th: Thread): Thread {
    th.(pc := Done(Error(th.id, SeqNumOf(th.req), ErrorWritingFile)))
  }

  lemma RollbackMove(s: State, t: Tid)
    requires t in s.threads && s.threads[t].pc == Rollback && s.threads[t].attr in s.store.attrs
    ensures var th, s' := s.threads[t], StepRollback(s, t);
            && Moves(s, t, Answering(th), s') && s'.fileOwner == s.fileOwner
            && s'.store == s.store.(files := Truncate(s.store.files, th.name, s.store.attrs[th.attr].size))
            && s'.hist == s.hist.(pending := s.hist.pending - {th.name})
  {
    hide Truncate;
  }

  lemma TruncateRestores(files: map<FileName, Data>, name: FileName, base: Data, extra: Data)
    requires Content(files, name) == base + extra
    ensures Content(Truncate(files, name, |base|), name) == base
    ensures forall other :: other != name ==> Content(Truncate(files, name, |base|), other) == Content(files, other)
  {
    assert (base + extra)[..|base|] == base;
  }

  lemma RollbackContents(s: State, t: Tid)
    requires Safe(s) && FilesOk(s) && t in s.threads && s.threads[t].pc == Rollback
    ensures var name, files' := s.threads[t].name, StepRollback(s, t).store.files;
            && Content(files', name) == Base(s.hist, name)
            && (forall other :: other != name ==> Content(files', other) == Content(s.store.files, other))
  {
    var name := s.threads[t].name;
    RollbackSize(s, t);
    RollbackMove(s, t);
    hide StepRollback;
    assert Content(s.store.files, name) == Base(s.hist, name) + PendingBytes(s.hist, name);
    hide Safe, FilesOk, Base;
    TruncateRestores(s.store.files, name, Base(s.hist, name), PendingBytes(s.hist, name));
  }

  /** Rollback of a failed commit: whatever part of the writes went through, truncation puts
      back the contents from before the commit, and the transaction stays live, unchanged. */
  lemma RollbackKeepsFiles(s: State, t: Tid)
    requires Safe(s) && FilesOk(s) && t in s.threads && s.threads[t].pc == Rollback
    ensures FilesOk(StepRollback(s, t))
    ensures Content(StepRollback(s, t).store.files, s.threads[t].name) == Base(s.hist, s.threads[t].name)
    ensures StepRollback(s, t).store.live == s.store.live && s.threads[t].id in s.store.live
  {
    hide Safe, FilesOk, StepRollback, Base, Content, Truncate;
    var s' := StepRollback(s, t);
    var th := s.threads[t];
    OwnRefs(s, t);
    RollbackMove(s, t);
    RollbackContents(s, t);
    ProgressAt(s, t);
    RollbackBytes(s.hist, s'.hist, th.name);
    assert Base(s.hist, th.name) + "" == Base(s.hist, th.name);
    hide PendingBytes, RefsOk;
    OwnFileStepKeepsFiles(s, t, Answering(th), s');
  }

  lemma RollbackBytes(h: History, h': History, name: FileName)
    requires h' == h.(pending := h.pending - {name})
    ensures PendingBytes(h', name) == "" && forall other :: other != name ==> PendingBytes(h', other) == PendingBytes(h, other)
  {
  }

  /** The size COMMIT truncates to is the length of the committed contents. */
  lemma RollbackSize(s: State, t: Tid)
    requires Safe(s) && FilesOk(s) && t in s.threads && s.threads[t].pc == Rollback
    ensures s.threads[t].attr in s.store.attrs
    ensures s.store.attrs[s.threads[t].attr].size == |Base(s.hist, s.threads[t].name)|
  {
    OwnRefs(s, t);
    hide Base;
    var a := s.threads[t].attr;
    assert FileLocksOk(s);
    assert InFile(s.threads[t]) && !HoldsFile(s.threads[t]);
    assert forall u :: u in s.threads && HoldsFile(s.threads[u]) ==> InFile(s.threads[u]);
    assert a !in s.fileOwner;
  }

  // ---------------------------------------------------------------- all steps

  lemma CommitRecordKeepsFiles(s: State, t: Tid)
    requires Safe(s) && FilesOk(s) && t in s.threads && s.threads[t].pc == Log(6) && s.threads[t].req.CommitReq?
    requires StepLog(s, t, 6).Some?
    ensures FilesOk(StepLog(s, t, 6).value)
  {
    OwnRefs(s, t);
    CommitRecordEffect(s, t);
    hide StepLog, Commits;
    CommitKeepsFiles(s, t, StepLog(s, t, 6).value);
  }

  lemma WritingKeepsFiles(s: State, t: Tid, k: SeqNum, off: nat, c: Choice)
    requires Safe(s) && FilesOk(s) && t in s.threads && s.threads[t].pc == Writing(k, off)
    requires StepWriting(s, t, k, off, c).Some?
    ensures FilesOk(StepWriting(s, t, k, off, c).value)
  {
    OwnRefs(s, t);
    var txn := s.store.live[s.threads[t].id];
    if k > txn.maxSeq || k !in txn.buffers || off >= |txn.buffers[k]| || !c.ok {
      WritingTurnKeepsFiles(s, t, k, off, c);
    } else {
      ChunkEffect(s, t, k, off, c);
      hide StepWriting, AppendsChunk;
      ChunkKeepsFiles(s, t, k, off, c.n, StepWriting(s, t, k, off, c).value);
    }
  }

  lemma FileStepKeepsFiles(s: State, t: Tid, c: Choice)
    requires Safe(s) && FilesOk(s) && t in s.threads && Step(s, t, c).Some? && RollbackQuiet(s, Act(t, c))
    requires !Step(s, t, c).value.fault
    requires match s.threads[t].pc
             case LockFile | OpenHeld | Writing(_, _) | Resize | Rollback => true
             case _ => false
    ensures FilesOk(Step(s, t, c).value)
  {
    hide Safe, FilesOk, StepOpen, StepWriting, StepResize, StepRollback;
    match s.threads[t].pc
    case LockFile => LockFileKeepsFiles(s, t, c);
    case OpenHeld => if c.ok { OpenKeepsFiles(s, t, c); } else { OpenFailureKeepsFiles(s, t, c); }
    case Writing(k, off) => WritingKeepsFiles(s, t, k, off, c);
    case Resize => ResizeKeepsFiles(s, t);
    case Rollback => RollbackKeepsFiles(s, t);
  }

  lemma MapStepKeepsFiles(s: State, t: Tid, c: Choice)
    requires Safe(s) && FilesOk(s) && t in s.threads && Step(s, t, c).Some? && TimeoutQuiet(s, Act(t, c))
    requires !Step(s, t, c).value.fault
    requires match s.threads[t].pc
             case Body | Remove | Pick | Expire => true
             case _ => false
    ensures FilesOk(Step(s, t, c).value)
  {
    hide Safe, FilesOk, StepBody, StepRemove, StepPick, StepExpire;
    match s.threads[t].pc
    case Body => BodyKeepsFiles(s, t, c);
    case Remove => RemoveKeepsFiles(s, t);
    case Pick => PickKeepsFiles(s, t, c);
    case Expire => ExpireKeepsFiles(s, t, c);
  }

  lemma NextKeepsFiles(s: State, l: Label)
    requires Safe(s) && FilesOk(s) && FreshId(s, l) && TimeoutQuiet(s, l) && RollbackQuiet(s, l) && Next(s, l).Some?
    ensures FilesOk(Next(s, l).value)
  {
    NextIsSafe(s, l);
    assert !Next(s, l).value.fault by { hide Step; SafeMeansNoFault(Next(s, l).value); }
    hide Safe, FilesOk, RollbackQuiet, TimeoutQuiet, Step;
    match l
    case Arrive(t, req) => ArrivalKeepsFiles(s, t, req);
    case Act(t, c) =>
      match s.threads[t].pc
      case LockFile | OpenHeld | Writing(_, _) | Resize | Rollback => FileStepKeepsFiles(s, t, c);
      case Body | Remove | Pick | Expire => MapStepKeepsFiles(s, t, c);
      case Log(p) =>
        if p == 6 && s.threads[t].req.CommitReq? {
          assert Step(s, t, c) == StepLog(s, t, 6) by { StepOfLog(s, t, c); }
          CommitRecordKeepsFiles(s, t);
        } else {
          IdleStepKeepsFiles(s, t, c);
        }
      case Done(_) => StepOfDone(s, t, c);
      case _ => IdleStepKeepsFiles(s, t, c);
  }

  lemma StepOfLog(s: State, t: Tid, c: Choice)
    requires t in s.threads && s.threads[t].pc == Log(6)
    ensures Step(s, t, c) == StepLog(s, t, 6)
  {
    hide StepLog;
  }

  lemma StepOfDone(s: State, t: Tid, c: Choice)
    requires t in s.threads && s.threads[t].pc.Done?
    ensures Step(s, t, c) == None
  {
  }

  lemma SafeMeansNoFault(s: State)
    requires Safe(s)
    ensures !s.fault
  {
  }

  lemma ArrivalKeepsFiles(s: State, t: Tid, req: Request)
    requires FilesOk(s) && t !in s.threads
    ensures FilesOk(s.Put(t, Arrived(req)))
  {
    var s' := s.Put(t, Arrived(req));
    assert forall u :: u in s.threads ==> s'.threads[u] == s.threads[u];
    hide Base, Assemble, WrittenSoFar, PendingBytes;
  }

  ghost predicate FileChoices(s: State, ls: seq<Label>)
    decreases |ls|
  {
    ls == [] || (FreshId(s, ls[0]) && TimeoutQuiet(s, ls[0]) && RollbackQuiet(s, ls[0])
                 && (Next(s, ls[0]).Some? ==> FileChoices(Next(s, ls[0]).value, ls[1..])))
  }

  lemma {:induction false} RunKeepsFiles(s: State, ls: seq<Label>)
    requires Safe(s) && FilesOk(s) && FileChoices(s, ls) && Run(s, ls).Some?
    ensures Safe(Run(s, ls).value) && FilesOk(Run(s, ls).value)
    decreases |ls|
  {
    hide Safe, FilesOk;
    if ls != [] {
      NextIsSafe(s, ls[0]);
      NextKeepsFiles(s, ls[0]);
      RunKeepsFiles(Next(s, ls[0]).value, ls[1..]);
    }
  }

  /** Serial commits: in every interleaving a file is its initial contents, then the data 1..n
      of whole committed transactions in commit order, then nothing, or a part of what one
      single thread that is alone in the file has appended. */
  lemma SerialCommits(s: State, ls: seq<Label>, name: FileName)
    requires Safe(s) && FilesOk(s) && FileChoices(s, ls) && Run(s, ls).Some?
    ensures var s' := Run(s, ls).value;
            && WholeOk(s'.hist)
            && Content(s'.store.files, name) == Base(s'.hist, name) + PendingBytes(s'.hist, name)
            && (name in s'.hist.pending ==>
                  exists t :: t in s'.threads && Dirty(s'.threads[t]) && s'.threads[t].name == name)
            && (forall t, u :: (t in s'.threads && u in s'.threads && Dirty(s'.threads[t]) && Dirty(s'.threads[u])
                                && s'.threads[t].name == s'.threads[u].name) ==> t == u)
  {
    RunKeepsFiles(s, ls);
    var s' := Run(s, ls).value;
    assert ContentsOk(s'.store.files, s'.hist) && WritersOk(s');
  }
}
