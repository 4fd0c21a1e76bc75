/** What each step may change, so that later invariants need not look at steps again. */
module MachineFrames {
  import opened Basics
  import opened Transactions
  import opened Stores
  import opened LogText
  import opened Machine
  import opened MachineLocks
  import opened MachineSafety

  /** The successors of a program counter in the absence of faults. */
  predicate PcNext(th: Thread, pc': Pc) {
    match th.pc
    case Lock1 => pc' == FirstPc(th.req)
    case Check1 => pc'.Done? || pc' == LockTxn
    case LockTxn => pc' == Lock2
    case Lock2 => pc' == Check2
    case Check2 => pc'.Done? || pc' == (if th.req.AbortReq? then Log(0) else Body)
    case Body => pc'.Done? || (pc' == LockFile && th.req.CommitReq?)
    case LockFile => pc' == OpenWant
    case OpenWant => pc' == OpenHeld
    case OpenHeld => pc'.Done? || pc' == Writing(1, 0)
    case Writing(_, _) => pc'.Writing? || pc' == Log(0) || pc' == CloseWant(false)
    case Log(p) => if p < 9 then pc' == Log(p + 1)
                   else if th.req.CommitReq? then pc' == Resize
                   else if th.req.AbortReq? then pc' == Remove
                   else pc'.Done?
    case Resize => pc' == CloseWant(true)
    case CloseWant(ok) => pc' == CloseHeld(ok)
    case CloseHeld(ok) => pc' == if ok then Lock3 else Rollback
    case Rollback => pc'.Done?
    case Lock3 => pc' == Remove
    case Remove => pc'.Done?
    case Pick => pc' == Log(0)
    case Expire => pc'.Done? || pc' == Log(0)
    case Done(_) => false
  }

  predicate WritesLog(pc: Pc) {
    pc.Log? && 2 <= pc.p <= 7
  }

  ghost predicate Frame(s: State, t: Tid, s': State)
    requires t in s.threads
  {
    && t in s'.threads && s'.threads == s.threads[t := s'.threads[t]]
    && var th, th' := s.threads[t], s'.threads[t];
    && th'.req == th.req
    && PcNext(th, th'.pc)
    && (!th.pc.Pick? ==> th'.id == th.id)
    && (!(th.pc.Body? || th.pc.Check2? || th.pc.Pick? || th.pc.Expire?) ==> th'.attr == th.attr && th'.name == th.name)
    && (!(th.pc.Body? || th.pc.Remove? || th.pc.Pick? || th.pc.Expire?) ==> s'.store.live == s.store.live)
    && (!(th.pc.Resize? || th.pc.Remove? || th.pc.Pick? || th.pc.Expire?) ==>
          s'.store.attrs == s.store.attrs && s'.store.index == s.store.index)
    && (!(th.pc.OpenHeld? || th.pc.Writing? || th.pc.Rollback?) ==> s'.store.files == s.store.files)
    && (!WritesLog(th.pc) ==> s'.store.logs == s.store.logs)
    && (!(th.pc.OpenHeld? || th.pc.Writing? || th.pc.Rollback? || th.pc.Pick? || WritesLog(th.pc)) ==> s'.hist == s.hist)
  }

  lemma CheckFrames(s: State, t: Tid)
    requires t in s.threads && Shape(s.threads[t])
    ensures s.threads[t].pc == Check1 ==> Frame(s, t, StepCheck1(s, t))
    ensures s.threads[t].pc == Check2 && !StepCheck2(s, t).fault ==> Frame(s, t, StepCheck2(s, t))
  {
    if s.threads[t].pc == Check2 && !StepCheck2(s, t).fault { RecheckFrame(s, t); }
  }

  lemma RecheckFrame(s: State, t: Tid)
    requires t in s.threads && Shape(s.threads[t]) && s.threads[t].pc == Check2 && !StepCheck2(s, t).fault
    ensures Frame(s, t, StepCheck2(s, t))
  {
  }

  lemma BodyFrame(s: State, t: Tid, c: Choice)
    requires t in s.threads && Shape(s.threads[t]) && s.threads[t].pc == Body && !StepBody(s, t, c).fault
    ensures Frame(s, t, StepBody(s, t, c))
  {
    hide WriteBody, CommitBody;
    if s.threads[t].req.WriteReq? { WriteFrame(s, t, c); }
  }

  lemma WriteFrame(s: State, t: Tid, c: Choice)
    requires t in s.threads && Shape(s.threads[t]) && s.threads[t].pc == Body && s.threads[t].req.WriteReq? && !StepBody(s, t, c).fault
    ensures Frame(s, t, StepBody(s, t, c))
  {
    hide WriteBody, CommitBody;
  }

  lemma FileFrames(s: State, t: Tid, c: Choice)
    requires t in s.threads && Shape(s.threads[t])
    ensures s.threads[t].pc == OpenHeld ==> Frame(s, t, StepOpen(s, t, c))
    ensures s.threads[t].pc == Resize && !StepResize(s, t).fault ==> Frame(s, t, StepResize(s, t))
    ensures s.threads[t].pc == Rollback && !StepRollback(s, t).fault ==> Frame(s, t, StepRollback(s, t))
  {
    hide Content, Truncate, FileSize;
  }

  lemma WritingFrame(s: State, t: Tid, k: SeqNum, off: nat, c: Choice)
    requires t in s.threads && Shape(s.threads[t]) && s.threads[t].pc == Writing(k, off)
    requires StepWriting(s, t, k, off, c).Some? && !StepWriting(s, t, k, off, c).value.fault
    ensures Frame(s, t, StepWriting(s, t, k, off, c).value)
  {
    hide Append, Appended;
  }

  lemma LogFrame(s: State, t: Tid, p: nat)
    requires t in s.threads && Shape(s.threads[t]) && s.threads[t].pc == Log(p)
    requires StepLog(s, t, p).Some? && !StepLog(s, t, p).value.fault
    ensures Frame(s, t, StepLog(s, t, p).value)
  {
    hide ViewAfter, Recorded, Piece, FileSize, KindOf;
  }

  lemma RemoveFrame(s: State, t: Tid)
    requires t in s.threads && Shape(s.threads[t]) && s.threads[t].pc == Remove
    ensures Frame(s, t, StepRemove(s, t))
  {
    EvictTouches(s.store, s.threads[t].id);
    hide Evict;
  }

  lemma ExpireFrame(s: State, t: Tid, c: Choice)
    requires t in s.threads && Shape(s.threads[t]) && s.threads[t].pc == Expire && !StepExpire(s, t, c).fault
    ensures Frame(s, t, StepExpire(s, t, c))
  {
    EvictTouches(s.store, s.threads[t].id);
    hide Evict, Expired;
  }

  lemma PickFrame(s: State, t: Tid, c: Choice)
    requires t in s.threads && Shape(s.threads[t]) && s.threads[t].pc == Pick && StepPick(s, t, c).Some?
    ensures Frame(s, t, StepPick(s, t, c).value)
  {
    EnrollTouches(s.store, c.n, s.threads[t].req.name, c.now);
    hide Enroll;
  }

  lemma EvictTouches(st: Store, id: TxnId)
    ensures var st' := Evict(st, id); st'.files == st.files && st'.logs == st.logs && st'.commits == st.commits
    ensures Evict(st, id).live == st.live - {id}
  {
  }

  lemma EnrollTouches(st: Store, id: TxnId, name: FileName, now: Time)
    ensures var st' := Enroll(st, id, name, now); st'.files == st.files && st'.logs == st.logs && st'.commits == st.commits
    ensures Enroll(st, id, name, now).live.Keys == st.live.Keys + {id}
  {
  }

  lemma LockingFrames(s: State, t: Tid, c: Choice)
    requires t in s.threads && Shape(s.threads[t]) && Step(s, t, c).Some? && !Step(s, t, c).value.fault
    requires s.threads[t].pc in {Lock1, LockTxn, Lock2, LockFile, OpenWant, CloseWant(true), CloseWant(false),
                                 CloseHeld(true), CloseHeld(false), Lock3}
    ensures Frame(s, t, Step(s, t, c).value)
  {
    hide StepCheck1, StepCheck2, StepBody, StepOpen, StepWriting, StepLog, StepResize, StepRollback, StepRemove, StepPick, StepExpire;
  }

  lemma StepFrame(s: State, t: Tid, c: Choice)
    requires t in s.threads && Shape(s.threads[t]) && Step(s, t, c).Some? && !Step(s, t, c).value.fault
    ensures Frame(s, t, Step(s, t, c).value)
  {
    hide Frame, StepCheck1, StepCheck2, StepBody, StepOpen, StepWriting, StepLog, StepResize, StepRollback, StepRemove, StepPick,
         StepExpire;
    match s.threads[t].pc
    case Check1 | Check2 => CheckFrames(s, t);
    case Body => BodyFrame(s, t, c);
    case OpenHeld | Resize | Rollback => FileFrames(s, t, c);
    case Writing(k, off) => WritingFrame(s, t, k, off, c);
    case Log(p) => LogFrame(s, t, p);
    case Remove => RemoveFrame(s, t);
    case Expire => ExpireFrame(s, t, c);
    case Pick => PickFrame(s, t, c);
    case _ => LockingFrames(s, t, c);
  }
}
