/** Who holds what: the locks a thread holds are a function of its program counter in every
    reachable state, whatever the environment does. Deadlock freedom follows. */
module MachineLocks {
  import opened Basics
  import opened Transactions
  import opened Stores
  import opened LogText
  import opened Machine

  predicate HoldsMember(th: Thread) {
    match th.pc
    case Check1 | Check2 | Remove | Pick | Expire => true
    case Log(_) => !th.req.CommitReq?
    case _ => false
  }

  predicate HoldsGlobal(th: Thread) {
    match th.pc
    case OpenHeld | CloseHeld(_) => true
    case Log(p) => p == 1 || p == 9
    case _ => false
  }

  predicate HoldsTxn(th: Thread) {
    match th.pc
    case Lock2 | Check2 | Body | LockFile | OpenWant | OpenHeld | Writing(_, _)
       | Resize | CloseWant(_) | CloseHeld(_) | Rollback | Lock3 => true
    case Log(_) | Remove => th.req.CommitReq?
    case _ => false
  }

  predicate HoldsFile(th: Thread) {
    match th.pc
    case OpenWant | OpenHeld | Writing(_, _) | Resize | CloseWant(_) | CloseHeld(_) => true
    case Log(_) => th.req.CommitReq?
    case _ => false
  }

  /** Which requests can be at which point. */
  predicate Shape(th: Thread) {
    match th.pc
    case Lock1 => true
    case Check1 | LockTxn | Lock2 | Check2 => !th.req.NewReq? && !th.req.TimerReq?
    case Body => th.req.WriteReq? || th.req.CommitReq?
    case Log(p) => !th.req.WriteReq? && p <= 9
    case Remove => th.req.CommitReq? || th.req.AbortReq?
    case Pick => th.req.NewReq?
    case Expire => th.req.TimerReq?
    case Done(_) => true
    case _ => th.req.CommitReq?
  }

  ghost predicate MemberOk(s: State) {
    && (forall t :: t in s.threads ==> (HoldsMember(s.threads[t]) <==> s.member == Some(t)))
    && (s.member.Some? ==> s.member.value in s.threads)
  }

  ghost predicate GlobalOk(s: State) {
    && (forall t :: t in s.threads ==> (HoldsGlobal(s.threads[t]) <==> s.global == Some(t)))
    && (s.global.Some? ==> s.global.value in s.threads)
  }

  ghost predicate TxnLocksOk(s: State) {
    && (forall t :: t in s.threads && HoldsTxn(s.threads[t]) ==>
          s.threads[t].id in s.txnOwner && s.txnOwner[s.threads[t].id] == t)
    && (forall i :: i in s.txnOwner ==>
          var t := s.txnOwner[i];
          t in s.threads && HoldsTxn(s.threads[t]) && s.threads[t].id == i)
  }

  ghost predicate FileLocksOk(s: State) {
    && (forall t :: t in s.threads && HoldsFile(s.threads[t]) ==>
          s.threads[t].attr in s.fileOwner && s.fileOwner[s.threads[t].attr] == t)
    && (forall a :: a in s.fileOwner ==>
          var t := s.fileOwner[a];
          t in s.threads && HoldsFile(s.threads[t]) && s.threads[t].attr == a)
  }

  ghost predicate LocksOk(s: State) {
    && (forall t :: t in s.threads ==> Shape(s.threads[t]))
    && MemberOk(s) && GlobalOk(s) && TxnLocksOk(s) && FileLocksOk(s)
  }

  /** How one lock with at most one owner moves when a thread goes from `had` to `has`. */
  predicate OwnerMove(owner: Option<Tid>, owner': Option<Tid>, t: Tid, had: bool, has: bool) {
    if had == has then owner' == owner
    else if has then owner == None && owner' == Some(t)
    else owner' == None
  }

  predicate KeyedMove<K>(owners: map<K, Tid>, owners': map<K, Tid>, t: Tid, key: K, key': K, had: bool, has: bool) {
    if had && has then owners' == owners && key' == key
    else if has then key' !in owners && owners' == owners[key' := t]
    else if had then owners' == owners - {key}
    else owners' == owners
  }

  /** Every step moves one thread and exactly the locks its program counter says. */
  ghost predicate LockMove(s: State, t: Tid, s': State)
    requires t in s.threads
  {
    && t in s'.threads && s'.threads == s.threads[t := s'.threads[t]]
    && var th, th' := s.threads[t], s'.threads[t];
    && th'.req == th.req && Shape(th')
    && OwnerMove(s.member, s'.member, t, HoldsMember(th), HoldsMember(th'))
    && OwnerMove(s.global, s'.global, t, HoldsGlobal(th), HoldsGlobal(th'))
    && KeyedMove(s.txnOwner, s'.txnOwner, t, th.id, th'.id, HoldsTxn(th), HoldsTxn(th'))
    && KeyedMove(s.fileOwner, s'.fileOwner, t, th.attr, th'.attr, HoldsFile(th), HoldsFile(th'))
  }

  lemma Check1MovesLocks(s: State, t: Tid)
    requires t in s.threads && Shape(s.threads[t]) && s.threads[t].pc == Check1
    ensures LockMove(s, t, StepCheck1(s, t))
  {
  }

  lemma Check2MovesLocks(s: State, t: Tid)
    requires t in s.threads && Shape(s.threads[t]) && s.threads[t].pc == Check2
    ensures LockMove(s, t, StepCheck2(s, t))
  {
    hide LockMove;
    var id := s.threads[t].id;
    if id in s.store.commits || id !in s.store.live {
      RefusalMovesLocks(s, t);
    } else {
      ProceedingMovesLocks(s, t);
    }
  }

  lemma RefusalMovesLocks(s: State, t: Tid)
    requires t in s.threads && Shape(s.threads[t]) && s.threads[t].pc == Check2
    requires s.threads[t].id in s.store.commits || s.threads[t].id !in s.store.live
    ensures LockMove(s, t, StepCheck2(s, t))
  {
  }

  lemma ProceedingMovesLocks(s: State, t: Tid)
    requires t in s.threads && Shape(s.threads[t]) && s.threads[t].pc == Check2
    requires s.threads[t].id !in s.store.commits && s.threads[t].id in s.store.live
    ensures LockMove(s, t, StepCheck2(s, t))
  {
  }

  lemma BodyMovesLocks(s: State, t: Tid, c: Choice)
    requires t in s.threads && Shape(s.threads[t]) && s.threads[t].pc == Body
    ensures LockMove(s, t, StepBody(s, t, c))
  {
    hide WriteBody, CommitBody;
    if s.threads[t].req.WriteReq? { WriteMovesLocks(s, t, c); }
  }

  lemma WriteMovesLocks(s: State, t: Tid, c: Choice)
    requires t in s.threads && Shape(s.threads[t]) && s.threads[t].pc == Body && s.threads[t].req.WriteReq?
    ensures LockMove(s, t, StepBody(s, t, c))
  {
    hide WriteBody, CommitBody;
  }

  lemma OpenMovesLocks(s: State, t: Tid, c: Choice)
    requires t in s.threads && Shape(s.threads[t]) && s.threads[t].pc == OpenHeld
    ensures LockMove(s, t, StepOpen(s, t, c))
  {
    hide Content;
  }

  lemma RollbackMovesLocks(s: State, t: Tid)
    requires t in s.threads && Shape(s.threads[t]) && s.threads[t].pc == Rollback
    ensures LockMove(s, t, StepRollback(s, t))
  {
    hide Truncate;
  }

  lemma ResizeMovesLocks(s: State, t: Tid)
    requires t in s.threads && Shape(s.threads[t])
    ensures s.threads[t].pc == Resize ==> LockMove(s, t, StepResize(s, t))
    ensures s.threads[t].pc == Rollback ==> LockMove(s, t, StepRollback(s, t))
  {
    if s.threads[t].pc == Rollback { RollbackMovesLocks(s, t); }
    hide Truncate, FileSize;
  }

  /** The writing loop stays under its locks: it moves to another point that holds the same. */
  lemma WritingStays(s: State, t: Tid, k: SeqNum, off: nat, c: Choice)
    requires t in s.threads && s.threads[t].pc == Writing(k, off) && s.threads[t].req.CommitReq?
    requires StepWriting(s, t, k, off, c).Some?
    ensures var s' := StepWriting(s, t, k, off, c).value;
            && t in s'.threads && s'.threads == s.threads[t := s'.threads[t]]
            && s'.threads[t] == s.threads[t].(pc := s'.threads[t].pc)
            && (s'.threads[t].pc.Writing? || s'.threads[t].pc == Log(0) || s'.threads[t].pc == CloseWant(false))
            && s'.member == s.member && s'.global == s.global && s'.txnOwner == s.txnOwner && s'.fileOwner == s.fileOwner
  {
    hide Append, Appended;
  }

  lemma WritingMovesLocks(s: State, t: Tid, k: SeqNum, off: nat, c: Choice)
    requires t in s.threads && Shape(s.threads[t]) && s.threads[t].pc == Writing(k, off)
    requires StepWriting(s, t, k, off, c).Some?
    ensures LockMove(s, t, StepWriting(s, t, k, off, c).value)
  {
    WritingStays(s, t, k, off, c);
    hide StepWriting;
  }

  lemma LogPieceMovesLocks(s: State, t: Tid, p: nat)
    requires t in s.threads && Shape(s.threads[t]) && s.threads[t].pc == Log(p) && 2 <= p <= 7
    ensures LockMove(s, t, StepLog(s, t, p).value)
  {
    hide ViewAfter, Recorded, Piece, FileSize, KindOf;
  }

  lemma LogOpenMovesLocks(s: State, t: Tid, p: nat)
    requires t in s.threads && Shape(s.threads[t]) && s.threads[t].pc == Log(p) && StepLog(s, t, p).Some?
    requires !(2 <= p <= 7)
    ensures LockMove(s, t, StepLog(s, t, p).value)
  {
    hide ViewAfter, Recorded, Piece, FileSize, KindOf;
  }

  lemma MapStepsMoveLocks(s: State, t: Tid, c: Choice)
    requires t in s.threads && Shape(s.threads[t])
    ensures s.threads[t].pc == Remove ==> LockMove(s, t, StepRemove(s, t))
    ensures s.threads[t].pc == Expire ==> LockMove(s, t, StepExpire(s, t, c))
    ensures s.threads[t].pc == Pick && StepPick(s, t, c).Some? ==> LockMove(s, t, StepPick(s, t, c).value)
  {
    hide Evict, Enroll, Expired;
  }

  lemma LockingMovesLocks(s: State, t: Tid, c: Choice)
    requires t in s.threads && Shape(s.threads[t]) && Step(s, t, c).Some?
    requires s.threads[t].pc in {Lock1, LockTxn, Lock2, LockFile, OpenWant, CloseWant(true), CloseWant(false),
                                 CloseHeld(true), CloseHeld(false), Lock3}
    ensures LockMove(s, t, Step(s, t, c).value)
  {
    if s.threads[t].pc in {Lock1, LockTxn, Lock2, LockFile} {
      TakingMovesLocks(s, t, c);
    } else {
      hide StepCheck1, StepCheck2, StepBody, StepOpen, StepWriting, StepLog, StepResize, StepRollback, StepRemove, StepPick, StepExpire;
    }
  }

  lemma TakingMovesLocks(s: State, t: Tid, c: Choice)
    requires t in s.threads && Shape(s.threads[t]) && Step(s, t, c).Some? && s.threads[t].pc in {Lock1, LockTxn, Lock2, LockFile}
    ensures LockMove(s, t, Step(s, t, c).value)
  {
    hide StepCheck1, StepCheck2, StepBody, StepOpen, StepWriting, StepLog, StepResize, StepRollback, StepRemove, StepPick, StepExpire;
  }

  lemma StepMovesLocks(s: State, t: Tid, c: Choice)
    requires t in s.threads && Shape(s.threads[t]) && Step(s, t, c).Some?
    ensures LockMove(s, t, Step(s, t, c).value)
  {
    hide LockMove, StepCheck1, StepCheck2, StepBody, StepOpen, StepWriting, StepLog, StepResize, StepRollback, StepRemove,
         StepPick, StepExpire;
    match s.threads[t].pc
    case Check1 => Check1MovesLocks(s, t);
    case Check2 => Check2MovesLocks(s, t);
    case Body => BodyMovesLocks(s, t, c);
    case OpenHeld => OpenMovesLocks(s, t, c);
    case Resize | Rollback => ResizeMovesLocks(s, t);
    case Writing(k, off) => WritingMovesLocks(s, t, k, off, c);
    case Log(p) => if 2 <= p <= 7 { LogPieceMovesLocks(s, t, p); } else { LogOpenMovesLocks(s, t, p); }
    case Remove | Expire | Pick => MapStepsMoveLocks(s, t, c);
    case _ => LockingMovesLocks(s, t, c);
  }

  lemma LockMoveKeepsMember(s: State, t: Tid, s': State)
    requires t in s.threads && MemberOk(s) && GlobalOk(s) && LockMove(s, t, s')
    ensures MemberOk(s') && GlobalOk(s')
  {
  }

  lemma LockMoveKeepsTxnLocks(s: State, t: Tid, s': State)
    requires t in s.threads && TxnLocksOk(s) && LockMove(s, t, s')
    ensures TxnLocksOk(s')
  {
  }

  lemma LockMoveKeepsFileLocks(s: State, t: Tid, s': State)
    requires t in s.threads && FileLocksOk(s) && LockMove(s, t, s')
    ensures FileLocksOk(s')
  {
  }

  lemma ArrivalKeepsLocks(s: State, t: Tid, req: Request)
    requires LocksOk(s) && t !in s.threads
    ensures LocksOk(s.Put(t, Arrived(req)))
  {
    var s' := s.Put(t, Arrived(req));
    assert forall u :: u in s.threads ==> s'.threads[u] == s.threads[u];
  }

  lemma MoveKeepsLocks(s: State, t: Tid, s': State)
    requires t in s.threads && LocksOk(s) && LockMove(s, t, s')
    ensures LocksOk(s')
  {
    LockMoveKeepsMember(s, t, s');
    LockMoveKeepsTxnLocks(s, t, s');
    LockMoveKeepsFileLocks(s, t, s');
  }

  lemma NextKeepsLocks(s: State, l: Label)
    requires LocksOk(s) && Next(s, l).Some?
    ensures LocksOk(Next(s, l).value)
  {
    match l
    case Arrive(t, req) => ArrivalKeepsLocks(s, t, req);
    case Act(t, c) =>
      hide Step, LockMove;
      StepMovesLocks(s, t, c) by { assert Shape(s.threads[t]); }
      hide LocksOk;
      MoveKeepsLocks(s, t, Next(s, l).value);
  }

  /** Mutual exclusion over every run from a state without threads, under any environment. */
  lemma {:induction false} RunKeepsLocks(s: State, ls: seq<Label>)
    requires LocksOk(s) && Run(s, ls).Some?
    ensures LocksOk(Run(s, ls).value)
    decreases |ls|
  {
    if ls != [] {
      NextKeepsLocks(s, ls[0]);
      RunKeepsLocks(Next(s, ls[0]).value, ls[1..]);
    }
  }

  // ---------------------------------------------------------------- deadlock freedom

  datatype Lock = NoLock | TxnLock | FileLock | MemberLock | GlobalLock

  function Rank(l: Lock): nat {
    match l
    case NoLock => 0
    case TxnLock => 1
    case FileLock => 2
    case MemberLock => 2
    case GlobalLock => 3
  }

  function Wants(th: Thread): Lock {
    match th.pc
    case Lock1 | Lock2 | Lock3 => MemberLock
    case LockTxn => TxnLock
    case LockFile => FileLock
    case OpenWant | CloseWant(_) => GlobalLock
    case Log(p) => if p == 0 || p == 8 then GlobalLock else NoLock
    case _ => NoLock
  }

  /** A thread that waits holds only locks of smaller rank: transaction before member and
      file, both before the process-wide one. */
  lemma WaitingRespectsRank(th: Thread)
    requires Shape(th) && Wants(th) != NoLock
    ensures HoldsTxn(th) ==> Rank(TxnLock) < Rank(Wants(th))
    ensures HoldsFile(th) ==> Rank(FileLock) < Rank(Wants(th))
    ensures HoldsMember(th) ==> Rank(MemberLock) < Rank(Wants(th))
    ensures !HoldsGlobal(th)
  {
  }

  predicate LockFree(s: State, th: Thread) {
    match Wants(th)
    case NoLock => true
    case TxnLock => th.id !in s.txnOwner
    case FileLock => th.attr !in s.fileOwner
    case MemberLock => s.member == None
    case GlobalLock => s.global == None
  }

  lemma {:induction false} UnusedId(ids: set<TxnId>) returns (unused: TxnId)
    ensures unused !in ids && forall i :: i in ids ==> i < unused
  {
    if ids == {} {
      unused := 0;
    } else {
      var i := SomeElement(ids);
      var bound := UnusedId(ids - {i});
      assert ids == ids - {i} + {i};
      unused := if i < bound then bound else i + 1;
    }
  }

  /** Thread t can take a step that moves it (or runs into a dangling reference). */
  ghost predicate Progress(s: State, t: Tid, c: Choice) {
    && t in s.threads && Step(s, t, c).Some?
    && var s' := Step(s, t, c).value;
       s'.fault || (t in s'.threads && s'.threads[t].pc != s.threads[t].pc)
  }

  /** Its choice draws an id never drawn before and expires nothing. */
  predicate Harmless(s: State, t: Tid, c: Choice) {
    t in s.threads && (s.threads[t].pc.Pick? ==> c.n !in s.hist.used) && (s.threads[t].pc.Expire? ==> !Expired(s, s.threads[t].id, c.now))
  }

  lemma LogProgress(s: State, t: Tid, p: nat)
    requires t in s.threads && s.threads[t].pc == Log(p) && p <= 9
    requires (p == 0 || p == 8) ==> s.global == None
    ensures StepLog(s, t, p).Some? && t in StepLog(s, t, p).value.threads
    ensures StepLog(s, t, p).value.fault || StepLog(s, t, p).value.threads[t].pc != Log(p)
  {
    hide ViewAfter, Recorded, Piece, FileSize, KindOf;
  }

  lemma WritingProgress(s: State, t: Tid, k: SeqNum, off: nat, c: Choice)
    requires t in s.threads && s.threads[t].pc == Writing(k, off) && c.n == 1
    ensures StepWriting(s, t, k, off, c).Some? && t in StepWriting(s, t, k, off, c).value.threads
    ensures StepWriting(s, t, k, off, c).value.fault || StepWriting(s, t, k, off, c).value.threads[t].pc != Writing(k, off)
  {
    hide Append, Appended;
  }

  lemma UnlockingProgress(s: State, t: Tid, c: Choice)
    requires t in s.threads && LockFree(s, s.threads[t])
    requires !s.threads[t].pc.Log? && !s.threads[t].pc.Writing? && Wants(s.threads[t]) != NoLock
    ensures Progress(s, t, c)
  {
    hide StepCheck1, StepCheck2, StepBody, StepOpen, StepResize, StepRollback, StepRemove, StepPick, StepExpire, StepWriting, StepLog;
  }

  /** An unfinished thread whose wanted lock, if any, is free makes progress. */
  lemma FreeThreadSteps(s: State, t: Tid) returns (c: Choice)
    requires LocksOk(s) && t in s.threads && !s.threads[t].pc.Done? && LockFree(s, s.threads[t])
    ensures Progress(s, t, c) && Harmless(s, t, c)
  {
    hide WriteBody, CommitBody, Truncate, FileSize, StepWriting, StepLog, Enroll, Evict, Content;
    var th := s.threads[t];
    assert Shape(th);
    hide LocksOk;
    var unused := UnusedId(s.store.live.Keys + s.hist.used);
    c := Choice(if th.pc.Pick? then unused else 1, true, if th.id in s.store.live then s.store.live[th.id].stamp else 0);
    assert Harmless(s, t, c);
    if th.pc.Log? {
      LogProgress(s, t, th.pc.p);
    } else if th.pc.Writing? {
      WritingProgress(s, t, th.pc.k, th.pc.off, c);
    } else if Wants(th) != NoLock {
      UnlockingProgress(s, t, c);
    }
  }

  /** Deadlock freedom: in every state whose locks match its program counters, if any handler
      is unfinished then some thread can take a step that moves it. */
  lemma DeadlockFreedom(s: State, u: Tid) returns (t: Tid, c: Choice)
    requires LocksOk(s) && u in s.threads && !s.threads[u].pc.Done?
    ensures Progress(s, t, c) && Harmless(s, t, c)
  {
    hide Progress, Harmless;
    var th := s.threads[u];
    if s.global.Some? {
      t := s.global.value;
    } else if s.member.Some? {
      t := s.member.value;
    } else if LockFree(s, th) {
      t := u;
    } else {
      var owner := if Wants(th).TxnLock? then s.txnOwner[th.id] else s.fileOwner[th.attr];
      if LockFree(s, s.threads[owner]) {
        t := owner;
      } else {
        t := s.fileOwner[s.threads[owner].attr];
      }
    }
    c := FreeThreadSteps(s, t);
  }

  /** The same over runs: no run from a state without threads ends in a deadlock. */
  lemma RunsNeverDeadlock(s: State, ls: seq<Label>, u: Tid) returns (t: Tid, c: Choice)
    requires LocksOk(s) && Run(s, ls).Some?
    requires u in Run(s, ls).value.threads && !Run(s, ls).value.threads[u].pc.Done?
    ensures Progress(Run(s, ls).value, t, c)
  {
    hide Progress, Next, LocksOk;
    RunKeepsLocks(s, ls);
    t, c := DeadlockFreedom(Run(s, ls).value, u);
  }
}
