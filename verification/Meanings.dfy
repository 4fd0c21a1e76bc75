/** What an answer of the concurrent server is worth. An ACK means that the thing was done, whatever
    the other threads did meanwhile; a refusal at the re-check tells how the transaction ended. */
module Meanings {
  import opened Basics
  import opened Text
  import opened Transactions
  import opened Stores
  import opened LogText
  import opened Machine
  import opened MachineLocks
  import opened MachineSafety
  import opened MachineFrames
  import opened MachineEnds
  import opened MachineRecords
  import opened MachineSerials
  import opened MachineFiles
  import opened MachineSizes
  import opened Recovery
  import opened Crash
  import opened Bodies
  import Durability

  // ---------------------------------------------------------------- every transaction is accounted for

  predicate Ended(h: History, id: TxnId, kind: LogKind) {
    exists j :: 0 <= j < |h.ends| && h.ends[j] == End(id, kind)
  }

  /** The thread's end record is complete. */
  predicate Recorded(th: Thread) {
    RecordedPc(th) || (TimerLogging(th) && th.pc.p > 6)
  }

  ghost predicate RecordedOk(s: State) {
    forall t :: t in s.threads && Recorded(s.threads[t]) ==> Ended(s.hist, s.threads[t].id, KindOf(s.threads[t].req))
  }

  /** An id that was drawn is live, or a record says how it ended, or its timer is writing one. */
  predicate Gone(s: State, i: TxnId) {
    || Ended(s.hist, i, CommitLog) || Ended(s.hist, i, AbortLog) || Ended(s.hist, i, TimeoutLog)
    || exists t :: t in s.threads && TimerLogging(s.threads[t]) && s.threads[t].id == i
  }

  ghost predicate GoneOk(s: State) {
    forall i :: i in s.hist.used ==> i in s.store.live || Gone(s, i)
  }

  /** The commit set: who is in it has a commit record or is about to. */
  predicate Committed(s: State, i: TxnId) {
    Ended(s.hist, i, CommitLog) || exists t :: t in s.threads && Inserted(s.threads[t]) && s.threads[t].id == i
  }

  ghost predicate CommitSetOk(s: State) {
    && (forall i :: Ended(s.hist, i, CommitLog) ==> i in s.store.commits)
    && (forall i :: i in s.store.commits ==> Committed(s, i))
    && (forall t :: t in s.threads && Inserted(s.threads[t]) ==> s.threads[t].id in s.store.commits)
  }

  /** Between its first look and its re-check a thread works on an id that was drawn. */
  predicate BetweenLooks(th: Thread) {
    th.pc.LockTxn? || th.pc.Lock2? || th.pc.Check2?
  }

  /** NEW_TXN from its draw to its answer. */
  predicate NewBorn(th: Thread) {
    th.req.NewReq? && th.pc.Log?
  }

  ghost predicate IdsOk(s: State) {
    && (forall t :: t in s.threads && BetweenLooks(s.threads[t]) ==> s.threads[t].id in s.hist.used)
    && (forall t :: t in s.threads && NewBorn(s.threads[t]) ==> s.threads[t].id in s.store.live)
  }

  ghost predicate Accounted(s: State) {
    RecordedOk(s) && GoneOk(s) && CommitSetOk(s) && IdsOk(s)
  }

  // ---------------------------------------------------------------- what a step changes

  lemma CommitsMove(s: State, t: Tid, c: Choice)
    requires t in s.threads && Shape(s.threads[t]) && Step(s, t, c).Some? && !Step(s, t, c).value.fault
    requires t in Step(s, t, c).value.threads
    ensures var th, s' := s.threads[t], Step(s, t, c).value;
            s'.store.commits == s.store.commits + if th.pc.Writing? && s'.threads[t].pc.Log? then {th.id} else {}
  {
    match s.threads[t].pc
    case Remove | Expire =>
      EvictTouches(s.store, s.threads[t].id);
      hide Evict, StepCheck1, StepCheck2, StepBody, StepOpen, StepWriting, StepLog, StepResize, StepRollback, StepPick;
    case Pick =>
      EnrollTouches(s.store, c.n, s.threads[t].req.name, c.now);
      hide Enroll, StepCheck1, StepCheck2, StepBody, StepOpen, StepWriting, StepLog, StepResize, StepRollback, StepExpire;
    case Writing(_, _) | OpenHeld | Resize | Rollback =>
      hide StepCheck1, StepCheck2, StepBody, StepLog, StepRemove, StepPick, StepExpire, Content, Truncate, FileSize, Append, Appended;
    case Check2 | Body =>
      hide StepCheck1, StepOpen, StepWriting, StepLog, StepResize, StepRollback, StepRemove, StepPick, StepExpire, WriteBody, CommitBody;
    case _ =>
      hide StepCheck2, StepBody, StepOpen, StepWriting, StepResize, StepRollback, StepRemove, StepPick, StepExpire, ViewAfter,
           Machine.Recorded;
  }

  /** All of it in one place. */
  ghost predicate Moved(s: State, t: Tid, c: Choice, s': State)
    requires t in s.threads
  {
    var th := s.threads[t];
    && Frame(s, t, s') && Shape(th)
    && s'.hist.ends == (if CompletesEnd(th) then s.hist.ends + [End(th.id, KindOf(th.req))] else s.hist.ends)
    && s'.hist.used == (if th.pc.Pick? then s.hist.used + {s'.threads[t].id} else s.hist.used)
    && s'.store.commits == s.store.commits + (if th.pc.Writing? && s'.threads[t].pc.Log? then {th.id} else {})
    && (th.pc.Pick? ==> s'.store.live.Keys == s.store.live.Keys + {s'.threads[t].id})
    && (!th.pc.Pick? ==> s'.store.live.Keys <= s.store.live.Keys)
    && (forall i :: i in s.store.live && i !in s'.store.live ==>
          i == th.id && (th.pc.Remove? || (th.pc.Expire? && s'.threads[t].pc.Log?)))
    && (th.pc.Check1? && !s'.threads[t].pc.Done? ==> th.id in s.store.live)
  }

  lemma StepMoved(s: State, t: Tid, c: Choice)
    requires Safe(s) && t in s.threads && Step(s, t, c).Some? && !Step(s, t, c).value.fault
    ensures Moved(s, t, c, Step(s, t, c).value)
  {
    OwnRefs(s, t);
    StepFrame(s, t, c);
    HistEffect(s, t, c);
    LiveEffect(s, t, c);
    CommitsMove(s, t, c);
    LeavesOnly(s, t, c);
    hide Safe, RefsOk, Step, Frame;
    FrameParts(s, t, Step(s, t, c).value);
  }

  lemma FrameParts(s: State, t: Tid, s': State)
    requires t in s.threads && Frame(s, t, s')
    ensures t in s'.threads
  {
  }

  lemma FrameKeepsLive(s: State, t: Tid, c: Choice)
    requires t in s.threads && Shape(s.threads[t]) && Step(s, t, c).Some? && !Step(s, t, c).value.fault
    requires var pc := s.threads[t].pc; !pc.Body? && !pc.Remove? && !pc.Pick? && !pc.Expire?
    ensures Step(s, t, c).value.store.live == s.store.live
  {
    StepFrame(s, t, c);
    hide Step;
  }

  lemma LeavesOnly(s: State, t: Tid, c: Choice)
    requires Safe(s) && t in s.threads && Step(s, t, c).Some? && !Step(s, t, c).value.fault && t in Step(s, t, c).value.threads
    ensures var th, s' := s.threads[t], Step(s, t, c).value;
            forall i :: i in s.store.live && i !in s'.store.live ==>
              i == th.id && (th.pc.Remove? || (th.pc.Expire? && s'.threads[t].pc.Log?))
    ensures var th, s' := s.threads[t], Step(s, t, c).value;
            th.pc.Check1? && !s'.threads[t].pc.Done? ==> th.id in s.store.live
  {
    OwnRefs(s, t);
    hide Safe, RefsOk, Step;
    match s.threads[t].pc
    case Check1 => LookKeeps(s, t, c);
    case Expire => ExpiryKeeps(s, t, c);
    case Body => BodyStays(s, t, c);
    case Remove | Pick =>
      StepOfMaps(s, t, c);
      EvictTouches(s.store, s.threads[t].id);
      hide Evict;
    case _ => FrameKeepsLive(s, t, c);
  }

  lemma LookKeeps(s: State, t: Tid, c: Choice)
    requires t in s.threads && s.threads[t].pc == Check1
    ensures Step(s, t, c) == Some(StepCheck1(s, t)) && t in StepCheck1(s, t).threads && StepCheck1(s, t).store == s.store
    ensures !StepCheck1(s, t).threads[t].pc.Done? ==> s.threads[t].id in s.store.live
  {
    hide StepCheck2, StepBody, StepOpen, StepWriting, StepLog, StepResize, StepRollback, StepRemove, StepPick, StepExpire;
  }

  lemma ExpiryKeeps(s: State, t: Tid, c: Choice)
    requires t in s.threads && s.threads[t].pc == Expire && !StepExpire(s, t, c).fault
    ensures Step(s, t, c) == Some(StepExpire(s, t, c)) && t in StepExpire(s, t, c).threads
    ensures var s' := StepExpire(s, t, c);
            forall i :: i in s.store.live && i !in s'.store.live ==> i == s.threads[t].id && s'.threads[t].pc.Log?
  {
    EvictTouches(s.store, s.threads[t].id);
    hide Evict, StepCheck1, StepCheck2, StepBody, StepOpen, StepWriting, StepLog, StepResize, StepRollback, StepRemove, StepPick;
  }

  lemma BodyStays(s: State, t: Tid, c: Choice)
    requires Safe(s) && t in s.threads && s.threads[t].pc == Body && Step(s, t, c).Some?
    ensures s.store.live.Keys <= Step(s, t, c).value.store.live.Keys
  {
    OwnRefs(s, t);
    SafeParts(s);
    LiveAttrs(s.store);
    StepOfBody(s, t, c);
    hide Safe, IndexOk, LocksOk, Step;
    BodyEffect(s, t, c);
    hide StepBody, RefsOk;
  }

  // ---------------------------------------------------------------- preservation

  lemma EndedStays(h: History, h': History)
    requires h.ends <= h'.ends
    ensures forall i, kind :: Ended(h, i, kind) ==> Ended(h', i, kind)
  {
    forall i, kind | Ended(h, i, kind) ensures Ended(h', i, kind) {
      var j :| 0 <= j < |h.ends| && h.ends[j] == End(i, kind);
      assert h'.ends[j] == End(i, kind);
    }
  }

  lemma EndedNow(h: History, h': History, e: End)
    requires h'.ends == h.ends + [e]
    ensures forall i, kind :: Ended(h', i, kind) <==> Ended(h, i, kind) || End(i, kind) == e
  {
    EndedStays(h, h');
    forall i, kind ensures Ended(h', i, kind) <==> Ended(h, i, kind) || End(i, kind) == e {
      assert h'.ends[|h.ends|] == e;
    }
  }

  lemma EndsMove(s: State, t: Tid, c: Choice, s': State)
    requires t in s.threads && Moved(s, t, c, s')
    ensures forall i, kind :: Ended(s'.hist, i, kind)
              <==> Ended(s.hist, i, kind) || (CompletesEnd(s.threads[t]) && i == s.threads[t].id && kind == KindOf(s.threads[t].req))
  {
    var th := s.threads[t];
    if CompletesEnd(th) { EndedNow(s.hist, s'.hist, End(th.id, KindOf(th.req))); }
    hide Frame, KindOf;
  }

  lemma RecordedMove(s: State, t: Tid, c: Choice, s': State)
    requires t in s.threads && Moved(s, t, c, s') && RecordedOk(s)
    ensures RecordedOk(s')
  {
    EndsMove(s, t, c, s');
    OwnRecord(s, t, c, s');
    hide Ended, Recorded, KindOf;
  }

  lemma OwnRecord(s: State, t: Tid, c: Choice, s': State)
    requires t in s.threads && Moved(s, t, c, s')
    ensures t in s'.threads && (forall u :: u in s'.threads && u != t ==> u in s.threads && s'.threads[u] == s.threads[u])
    ensures Recorded(s'.threads[t]) ==>
              && s'.threads[t].id == s.threads[t].id && s'.threads[t].req == s.threads[t].req
              && (Recorded(s.threads[t]) || CompletesEnd(s.threads[t]))
  {
    hide KindOf;
  }

  lemma GoneMove(s: State, t: Tid, c: Choice, s': State)
    requires t in s.threads && Moved(s, t, c, s') && RecordedOk(s) && GoneOk(s)
    ensures GoneOk(s')
  {
    EndsMove(s, t, c, s');
    OwnRecord(s, t, c, s');
    TimerMove(s, t, c, s');
    var th := s.threads[t];
    forall i | i in s'.hist.used && i !in s'.store.live ensures Gone(s', i) {
      hide Ended;
      if i in s.store.live {
        assert i == th.id;
        if th.pc.Remove? {
          assert Recorded(th);
          assert KindOf(th.req) == CommitLog || KindOf(th.req) == AbortLog;
        } else {
          assert TimerLogging(s'.threads[t]) && s'.threads[t].id == i;
        }
      } else {
        assert i in s.hist.used;
        if u :| u in s.threads && TimerLogging(s.threads[u]) && s.threads[u].id == i {
          if u == t && !TimerLogging(s'.threads[t]) {
            assert Ended(s.hist, i, TimeoutLog);
          } else {
            assert u in s'.threads && TimerLogging(s'.threads[u]) && s'.threads[u].id == i;
          }
        }
      }
    }
  }

  /** A timer that logs goes on until its record is complete. */
  lemma TimerMove(s: State, t: Tid, c: Choice, s': State)
    requires t in s.threads && Moved(s, t, c, s')
    ensures t in s'.threads && TimerLogging(s.threads[t]) ==>
              && KindOf(s.threads[t].req) == TimeoutLog
              && ((TimerLogging(s'.threads[t]) && s'.threads[t].id == s.threads[t].id) || Recorded(s.threads[t]))
    ensures s.threads[t].pc.Expire? && s'.threads[t].pc.Log? ==>
              TimerLogging(s'.threads[t]) && s'.threads[t].id == s.threads[t].id
    ensures s.threads[t].pc.Remove? ==> s.threads[t].req.CommitReq? || s.threads[t].req.AbortReq?
  {
  }

  lemma CommitSetMove(s: State, t: Tid, c: Choice, s': State)
    requires t in s.threads && Moved(s, t, c, s') && RecordedOk(s) && CommitSetOk(s)
    ensures CommitSetOk(s')
  {
    EndsMove(s, t, c, s');
    OwnRecord(s, t, c, s');
    InsertedMove(s, t, c, s');
    hide Ended, Inserted, KindOf, Recorded, Frame;
    var th := s.threads[t];
    forall i | i in s'.store.commits ensures Committed(s', i) {
      if i in s.store.commits {
        assert Committed(s, i);
        if u :| u in s.threads && Inserted(s.threads[u]) && s.threads[u].id == i {
          if u != t { assert u in s'.threads && Inserted(s'.threads[u]) && s'.threads[u].id == i; }
        }
      }
    }
  }

  lemma InsertedMove(s: State, t: Tid, c: Choice, s': State)
    requires t in s.threads && Moved(s, t, c, s')
    ensures t in s'.threads
    ensures Inserted(s.threads[t]) ==>
              || (Inserted(s'.threads[t]) && s'.threads[t].id == s.threads[t].id)
              || (Recorded(s.threads[t]) && KindOf(s.threads[t].req) == CommitLog)
    ensures Inserted(s'.threads[t]) ==>
              s'.threads[t].id == s.threads[t].id && (Inserted(s.threads[t]) || s.threads[t].id in s'.store.commits)
    ensures CompletesEnd(s.threads[t]) && KindOf(s.threads[t].req) == CommitLog ==> Inserted(s.threads[t])
    ensures forall i :: i in s'.store.commits && i !in s.store.commits ==> Inserted(s'.threads[t]) && s'.threads[t].id == i
  {
  }

  lemma IdsMove(s: State, t: Tid, c: Choice, s': State)
    requires Safe(s) && t in s.threads && Moved(s, t, c, s') && IdsOk(s)
    ensures IdsOk(s')
  {
    SafeParts(s);
    WhatLeaves(s, t, c, s');
    hide *;
    OwnRecord(s, t, c, s');
    OwnIds(s, t, c, s');
    OneMember(s, t);
    IdsFrom(s, t, s');
  }

  lemma WhatLeaves(s: State, t: Tid, c: Choice, s': State)
    requires t in s.threads && Moved(s, t, c, s')
    ensures s.hist.used <= s'.hist.used
    ensures forall i :: i in s.store.live && i !in s'.store.live ==> s.threads[t].pc.Remove? || s.threads[t].pc.Expire?
  {
    hide Frame, KindOf;
  }

  lemma IdsFrom(s: State, t: Tid, s': State)
    requires IdsOk(s) && t in s.threads && t in s'.threads && s.store.live.Keys <= s.hist.used <= s'.hist.used
    requires forall u :: u in s'.threads && u != t ==> u in s.threads && s'.threads[u] == s.threads[u]
    requires BetweenLooks(s'.threads[t]) ==>
               s'.threads[t].id == s.threads[t].id && (BetweenLooks(s.threads[t]) || s.threads[t].id in s.store.live)
    requires NewBorn(s'.threads[t]) ==>
               s'.threads[t].id in s'.store.live || (NewBorn(s.threads[t]) && s'.threads[t].id == s.threads[t].id)
    requires s.threads[t].pc.Remove? || s.threads[t].pc.Expire? ==> HoldsMember(s.threads[t]) && !NewBorn(s.threads[t])
    requires forall i :: i in s.store.live && i !in s'.store.live ==> s.threads[t].pc.Remove? || s.threads[t].pc.Expire?
    requires forall u :: u in s.threads && NewBorn(s.threads[u]) ==> HoldsMember(s.threads[u])
    requires forall u :: u in s.threads && HoldsMember(s.threads[u]) && HoldsMember(s.threads[t]) ==> u == t
    ensures IdsOk(s')
  {
    hide BetweenLooks, NewBorn, HoldsMember;
  }

  lemma OwnIds(s: State, t: Tid, c: Choice, s': State)
    requires t in s.threads && Moved(s, t, c, s')
    ensures t in s'.threads
    ensures BetweenLooks(s'.threads[t]) ==>
              s'.threads[t].id == s.threads[t].id && (BetweenLooks(s.threads[t]) || s.threads[t].id in s.store.live)
    ensures NewBorn(s'.threads[t]) ==>
              s'.threads[t].id in s'.store.live || (NewBorn(s.threads[t]) && s'.threads[t].id == s.threads[t].id)
    ensures s.threads[t].pc.Remove? || s.threads[t].pc.Expire? ==> HoldsMember(s.threads[t]) && !NewBorn(s.threads[t])
    ensures forall u :: u in s.threads && NewBorn(s.threads[u]) ==> HoldsMember(s.threads[u])
  {
    hide KindOf;
  }

  lemma OneMember(s: State, t: Tid)
    requires LocksOk(s) && t in s.threads
    ensures forall u :: u in s.threads && HoldsMember(s.threads[u]) && HoldsMember(s.threads[t]) ==> u == t
  {
    assert MemberOk(s);
  }

  lemma StepAccounts(s: State, t: Tid, c: Choice)
    requires Safe(s) && Accounted(s) && t in s.threads && Step(s, t, c).Some? && !Step(s, t, c).value.fault
    ensures Accounted(Step(s, t, c).value)
  {
    StepMoved(s, t, c);
    var s' := Step(s, t, c).value;
    hide Safe, Step, Moved, RecordedOk, GoneOk, CommitSetOk, IdsOk;
    RecordedMove(s, t, c, s');
    GoneMove(s, t, c, s');
    CommitSetMove(s, t, c, s');
    IdsMove(s, t, c, s');
  }

  lemma ArrivalAccounts(s: State, t: Tid, req: Request)
    requires Accounted(s) && t !in s.threads
    ensures Accounted(s.Put(t, Arrived(req)))
  {
    var s' := s.Put(t, Arrived(req));
    assert forall u :: u in s.threads ==> s'.threads[u] == s.threads[u];
    hide Ended, KindOf;
    forall i | i in s.hist.used && i !in s.store.live ensures Gone(s', i) {
      if u :| u in s.threads && TimerLogging(s.threads[u]) && s.threads[u].id == i {
        assert u in s'.threads && TimerLogging(s'.threads[u]) && s'.threads[u].id == i;
      }
    }
    forall i | i in s.store.commits ensures Committed(s', i) {
      if u :| u in s.threads && Inserted(s.threads[u]) && s.threads[u].id == i {
        assert u in s'.threads && Inserted(s'.threads[u]) && s'.threads[u].id == i;
      }
    }
  }

  /** Without threads, with everything drawn live and nothing committed, all is accounted for. */
  lemma NobodyAccounts(s: State)
    requires s.threads == map[] && s.hist.used == s.store.live.Keys && s.hist.ends == [] && s.store.commits == {}
    ensures Accounted(s)
  {
  }

  lemma EventAccounts(s: State, e: Event)
    requires Safe(s) && Accounted(s) && After(s, e).Some? && (e.Does? ==> FreshId(s, e.l) && TimeoutQuiet(s, e.l))
    ensures Accounted(After(s, e).value)
  {
    hide Safe, Accounted, FreshId, TimeoutQuiet, Recovered, Restart, Step;
    match e
    case Does(Arrive(t, req)) => ArrivalAccounts(s, t, req);
    case Does(Act(t, c)) =>
      NextIsSafe(s, e.l);
      SafeMeansNoFault(Next(s, e.l).value);
      StepAccounts(s, t, c);
    case Dies(st, now) =>
      RestartParts(s.hist, st);
      RecoveredIndex(s.store, st);
      NobodyAccounts(Restart(s.hist, st));
  }

  lemma BootAccounts(files: map<FileName, Data>)
    ensures Safe(Boot(files)) && Accounted(Boot(files))
  {
    BootIsGood(files);
    ParseNothing();
    hide Parse, Accounted, Good;
    assert Safe(Boot(files)) by { hide Boot; Durability.GoodIsSafe(Boot(files)); }
    NobodyAccounts(Boot(files));
  }

  /** Over every life with fresh ids and quiet timeouts. */
  lemma {:induction false} LifeAccounts(s: State, es: seq<Event>)
    requires Safe(s) && Accounted(s) && SafeLife(s, es) && Life(s, es).Some?
    ensures Safe(Life(s, es).value) && Accounted(Life(s, es).value)
    decreases |es|
  {
    hide Safe, Accounted, After, FreshId, TimeoutQuiet;
    if es != [] {
      EventAccounts(s, es[0]);
      EventIsSafe(s, es[0]);
      LifeAccounts(After(s, es[0]).value, es[1..]);
    }
  }

  lemma EventIsSafe(s: State, e: Event)
    requires Safe(s) && After(s, e).Some? && (e.Does? ==> FreshId(s, e.l) && TimeoutQuiet(s, e.l))
    ensures Safe(After(s, e).value)
  {
    hide Safe, FreshId, TimeoutQuiet, Recovered, Restart, Next;
    match e
    case Does(l) => NextIsSafe(s, l);
    case Dies(st, now) => RestartIsSafe(s.hist, st) by { RecoveredIndex(s.store, st); }
  }

  // ---------------------------------------------------------------- what answers mean

  /** An acknowledgement: the thing is done. */
  ghost predicate AckMeansIt(s': State, th: Thread, resp: Response) {
    match th.req
    case NewReq(_, _, _) => resp == Ack(th.id, 0) && th.id in s'.store.live
    case WriteReq(id, n, data) =>
      && resp == Ack(id, n)
      && th.id in s'.store.live && n in s'.store.live[th.id].buffers && s'.store.live[th.id].buffers[n] == data
    case CommitReq(_, n) =>
      && resp == Ack(th.id, n)
      && th.id in s'.store.commits && Committed(s', th.id)
      && (th.pc.Remove? ==> Ended(s'.hist, th.id, CommitLog) && th.id !in s'.store.live)
    case AbortReq(_, n) =>
      resp == Ack(th.id, n) && th.id !in s'.store.live && Ended(s'.hist, th.id, AbortLog)
    case TimerReq(_) => false
  }

  /** A refusal: why. */
  ghost predicate ErrorMeansIt(s: State, s': State, th: Thread, code: ErrorCode) {
    match code
    case InvalidTransactionId => th.id !in s'.store.live && th.id !in s'.store.commits
    case InvalidOperation => Committed(s', th.id) && !th.req.CommitReq?
    case RepeatedSequenceNumber =>
      && th.req.WriteReq? && th.id in s.store.live && th.req.seqNum in s.store.live[th.id].buffers
      && th.id in s'.store.live && s'.store.live[th.id].buffers == s.store.live[th.id].buffers
    case CommitWithInvalidSequenceNumber =>
      && th.req.CommitReq? && th.id in s'.store.live && th.req.seqNum < s'.store.live[th.id].maxSeq
      && th.id in s.store.live && s'.store.live[th.id].buffers == s.store.live[th.id].buffers
    case TransactionAlreadyCommitted => Ended(s'.hist, th.id, CommitLog)
    case TransactionAborted => Ended(s'.hist, th.id, AbortLog) || Ended(s'.hist, th.id, TimeoutLog)
    case ErrorOpeningFile => th.req.CommitReq? && th.id in s'.store.live && s'.store == s.store
    case ErrorWritingFile => th.req.CommitReq? && th.id in s'.store.live && s'.store.live == s.store.live
    case _ => false
  }

  ghost predicate MeansIt(s: State, s': State, th: Thread, resp: Response) {
    match resp
    case Ack(_, _) => AckMeansIt(s', th, resp)
    case AskResend(id, k) =>
      && th.req.CommitReq? && id == th.id && th.id in s'.store.live && 1 <= k <= th.req.seqNum
      && k !in s'.store.live[th.id].buffers && forall j :: 1 <= j < k ==> j in s'.store.live[th.id].buffers
    case Error(id, n, code) =>
      (id == th.id || id == th.req.id) && n == SeqNumOf(th.req) && ErrorMeansIt(s, s', th, code)
    case Silent => th.req.TimerReq?
  }

  lemma FirstLookMeansIt(s: State, t: Tid, c: Choice)
    requires Safe(s) && Accounted(s) && t in s.threads && Step(s, t, c).Some? && !Step(s, t, c).value.fault
    requires Accounted(Step(s, t, c).value)
    requires t in Step(s, t, c).value.threads && Step(s, t, c).value.threads[t].pc.Done?
    requires s.threads[t].pc == Check1
    ensures var s' := Step(s, t, c).value; MeansIt(s, s', s.threads[t], s'.threads[t].pc.resp)
  {
    OwnRefs(s, t);
    LookKeeps(s, t, c);
    assert CommitSetOk(s);
    hide Safe, Accounted, Step, Ended, RecordedOk, GoneOk, IdsOk;
    if s.threads[t].id in s.store.commits { CommittedStays(s, StepCheck1(s, t), t, s.threads[t].id); }
    hide CommitSetOk, Committed;
  }

  lemma RecheckMeansIt(s: State, t: Tid, c: Choice)
    requires Safe(s) && Accounted(s) && t in s.threads && Step(s, t, c).Some? && !Step(s, t, c).value.fault
    requires Accounted(Step(s, t, c).value)
    requires t in Step(s, t, c).value.threads && Step(s, t, c).value.threads[t].pc.Done?
    requires s.threads[t].pc == Check2
    ensures var s' := Step(s, t, c).value; MeansIt(s, s', s.threads[t], s'.threads[t].pc.resp)
  {
    hide *;
    RecheckIs(s, t, c);
    HowItEnded(s, t);
    RefusedAs(s, t);
    RefusalMeansIt(s, StepCheck2(s, t), s.threads[t], StepCheck2(s, t).threads[t].pc.resp);
  }

  lemma RefusalMeansIt(s: State, s': State, th: Thread, resp: Response)
    requires resp.Error? && resp == Error(th.id, SeqNumOf(th.req), resp.code)
    requires resp.code == TransactionAlreadyCommitted || resp.code == TransactionAborted
    requires s'.hist == s.hist && (resp.code == TransactionAlreadyCommitted ==> Ended(s.hist, th.id, CommitLog))
    requires resp.code == TransactionAborted ==> Ended(s.hist, th.id, AbortLog) || Ended(s.hist, th.id, TimeoutLog)
    ensures MeansIt(s, s', th, resp)
  {
    hide Ended, AckMeansIt;
  }

  lemma RefusedAs(s: State, t: Tid)
    requires t in s.threads && s.threads[t].pc == Check2 && t in StepCheck2(s, t).threads && StepCheck2(s, t).threads[t].pc.Done?
    ensures StepCheck2(s, t).hist == s.hist
    ensures var th := s.threads[t];
            if th.id in s.store.commits then
              StepCheck2(s, t).threads[t].pc.resp == Error(th.id, SeqNumOf(th.req), TransactionAlreadyCommitted)
            else
              th.id !in s.store.live && StepCheck2(s, t).threads[t].pc.resp == Error(th.id, SeqNumOf(th.req), TransactionAborted)
  {
  }

  lemma BodyMeansIt(s: State, t: Tid, c: Choice)
    requires Safe(s) && Accounted(s) && t in s.threads && Step(s, t, c).Some? && !Step(s, t, c).value.fault
    requires Accounted(Step(s, t, c).value)
    requires t in Step(s, t, c).value.threads && Step(s, t, c).value.threads[t].pc.Done?
    requires s.threads[t].pc == Body
    ensures var s' := Step(s, t, c).value; MeansIt(s, s', s.threads[t], s'.threads[t].pc.resp)
  {
    OwnRefs(s, t);
    SafeParts(s);
    LiveAttrs(s.store);
    StepOfBody(s, t, c);
    hide Safe, Accounted, Step, LocksOk, IndexOk, MeansIt;
    if s.threads[t].req.WriteReq? { WriteMeansIt(s, t, c); } else { CommitBodyMeansIt(s, t, c); }
  }

  lemma WriteMeansIt(s: State, t: Tid, c: Choice)
    requires t in s.threads && s.threads[t].pc == Body && s.threads[t].req.WriteReq? && s.threads[t].id in s.store.live
    ensures var s' := StepBody(s, t, c);
            && t in s'.threads && s'.threads[t].pc.Done?
            && MeansIt(s, s', s.threads[t], s'.threads[t].pc.resp)
  {
    hide Ended, Committed;
  }

  lemma CommitBodyMeansIt(s: State, t: Tid, c: Choice)
    requires t in s.threads && s.threads[t].pc == Body && s.threads[t].req.CommitReq? && s.threads[t].id in s.store.live
    requires !StepBody(s, t, c).fault && t in StepBody(s, t, c).threads && StepBody(s, t, c).threads[t].pc.Done?
    ensures MeansIt(s, StepBody(s, t, c), s.threads[t], StepBody(s, t, c).threads[t].pc.resp)
  {
    hide Ended, Committed;
  }

  lemma FileErrorMeansIt(s: State, t: Tid, c: Choice)
    requires Safe(s) && Accounted(s) && t in s.threads && Step(s, t, c).Some? && !Step(s, t, c).value.fault
    requires Accounted(Step(s, t, c).value)
    requires t in Step(s, t, c).value.threads && Step(s, t, c).value.threads[t].pc.Done?
    requires s.threads[t].pc.OpenHeld? || s.threads[t].pc.Rollback?
    ensures var s' := Step(s, t, c).value; MeansIt(s, s', s.threads[t], s'.threads[t].pc.resp)
  {
    OwnRefs(s, t);
    FileSteps(s, t, c);
    hide Safe, Accounted, Step, StepOpen, StepRollback, MeansIt;
    if s.threads[t].pc.OpenHeld? { OpenMeansIt(s, t, c); } else { RollbackMeansIt(s, t); }
  }

  lemma FileSteps(s: State, t: Tid, c: Choice)
    requires t in s.threads
    ensures s.threads[t].pc.OpenHeld? ==> Step(s, t, c) == Some(StepOpen(s, t, c))
    ensures s.threads[t].pc.Rollback? ==> Step(s, t, c) == Some(StepRollback(s, t))
  {
    hide StepOpen, StepRollback;
  }

  lemma OpenMeansIt(s: State, t: Tid, c: Choice)
    requires t in s.threads && s.threads[t].pc == OpenHeld && Shape(s.threads[t]) && RefsOk(s.store, s.threads[t])
    requires t in StepOpen(s, t, c).threads && StepOpen(s, t, c).threads[t].pc.Done?
    ensures MeansIt(s, StepOpen(s, t, c), s.threads[t], StepOpen(s, t, c).threads[t].pc.resp)
  {
    hide Ended, Committed;
  }

  lemma RollbackMeansIt(s: State, t: Tid)
    requires t in s.threads && s.threads[t].pc == Rollback && Shape(s.threads[t]) && RefsOk(s.store, s.threads[t])
    requires t in StepRollback(s, t).threads
    ensures StepRollback(s, t).threads[t].pc.Done?
    ensures MeansIt(s, StepRollback(s, t), s.threads[t], StepRollback(s, t).threads[t].pc.resp)
  {
    hide Ended, Committed, Truncate;
  }

  lemma RemoveMeansIt(s: State, t: Tid, c: Choice)
    requires Safe(s) && Accounted(s) && t in s.threads && Step(s, t, c).Some? && !Step(s, t, c).value.fault
    requires Accounted(Step(s, t, c).value)
    requires t in Step(s, t, c).value.threads && Step(s, t, c).value.threads[t].pc.Done?
    requires s.threads[t].pc == Remove
    ensures var s' := Step(s, t, c).value; MeansIt(s, s', s.threads[t], s'.threads[t].pc.resp)
  {
    OwnRefs(s, t);
    StepOfMaps(s, t, c);
    EvictTouches(s.store, s.threads[t].id);
    assert RecordedOk(s) && CommitSetOk(s);
    hide Safe, Accounted, Step, Evict, Ended;
  }

  lemma LogMeansIt(s: State, t: Tid, c: Choice)
    requires Safe(s) && Accounted(s) && t in s.threads && Step(s, t, c).Some? && !Step(s, t, c).value.fault
    requires Accounted(Step(s, t, c).value)
    requires t in Step(s, t, c).value.threads && Step(s, t, c).value.threads[t].pc.Done?
    requires s.threads[t].pc.Log?
    ensures var s' := Step(s, t, c).value; MeansIt(s, s', s.threads[t], s'.threads[t].pc.resp)
  {
    OwnRefs(s, t);
    assert IdsOk(s);
    LastLogStep(s, t, c);
    hide Safe, Accounted, Step;
  }

  lemma ExpireMeansIt(s: State, t: Tid, c: Choice)
    requires Safe(s) && Accounted(s) && t in s.threads && Step(s, t, c).Some? && !Step(s, t, c).value.fault
    requires Accounted(Step(s, t, c).value)
    requires t in Step(s, t, c).value.threads && Step(s, t, c).value.threads[t].pc.Done?
    requires s.threads[t].pc == Expire
    ensures var s' := Step(s, t, c).value; MeansIt(s, s', s.threads[t], s'.threads[t].pc.resp)
  {
    OwnRefs(s, t);
    StepOfMaps(s, t, c);
    hide Safe, Accounted, Step, Evict, Expired;
  }

  lemma NoAnswer(s: State, t: Tid, c: Choice)
    requires Safe(s) && Accounted(s) && t in s.threads && Step(s, t, c).Some? && !Step(s, t, c).value.fault
    requires Accounted(Step(s, t, c).value)
    requires t in Step(s, t, c).value.threads && Step(s, t, c).value.threads[t].pc.Done?
    requires var pc := s.threads[t].pc;
             !pc.Check1? && !pc.Check2? && !pc.Body? && !pc.OpenHeld? && !pc.Rollback? && !pc.Remove? && !pc.Log? && !pc.Expire?
    ensures false
  {
    OwnRefs(s, t);
    StepFrame(s, t, c);
    hide Safe, Accounted, Step;
  }

  lemma CommittedStays(s: State, s': State, t: Tid, i: TxnId)
    requires Committed(s, i) && t in s.threads && t in s'.threads && s'.threads == s.threads[t := s'.threads[t]]
    requires s'.hist == s.hist && !Inserted(s.threads[t])
    ensures Committed(s', i)
  {
    hide Inserted, Ended;
    if u :| u in s.threads && Inserted(s.threads[u]) && s.threads[u].id == i {
      assert u in s'.threads && Inserted(s'.threads[u]) && s'.threads[u].id == i;
    }
  }

  lemma RecheckIs(s: State, t: Tid, c: Choice)
    requires t in s.threads && s.threads[t].pc == Check2
    ensures Step(s, t, c) == Some(StepCheck2(s, t)) && StepCheck2(s, t).store == s.store && StepCheck2(s, t).hist == s.hist
  {
    hide StepCheck1, StepBody, StepOpen, StepWriting, StepLog, StepResize, StepRollback, StepRemove, StepPick, StepExpire;
  }

  /** Under the member and the transaction mutex: an id in the commit set has its commit record, and
      one that is neither there nor live has an abort or timeout record. */
  lemma HowItEnded(s: State, t: Tid)
    requires Safe(s) && Accounted(s) && t in s.threads && s.threads[t].pc == Check2
    ensures s.threads[t].id in s.store.commits ==> Ended(s.hist, s.threads[t].id, CommitLog)
    ensures s.threads[t].id !in s.store.commits && s.threads[t].id !in s.store.live ==>
              Ended(s.hist, s.threads[t].id, AbortLog) || Ended(s.hist, s.threads[t].id, TimeoutLog)
  {
    var i := s.threads[t].id;
    NobodyElseThere(s, t);
    assert GoneOk(s) && CommitSetOk(s) && IdsOk(s);
    hide Safe, Accounted, Ended, Inserted, TimerLogging;
    assert i in s.hist.used;
    if i in s.store.commits {
      assert Committed(s, i);
    } else if i !in s.store.live {
      assert Gone(s, i);
    }
  }

  lemma NobodyElseThere(s: State, t: Tid)
    requires Safe(s) && t in s.threads && s.threads[t].pc == Check2
    ensures forall u :: u in s.threads && s.threads[u].id == s.threads[t].id ==> !Inserted(s.threads[u]) && !TimerLogging(s.threads[u])
  {
    SafeParts(s);
    assert TxnLocksOk(s) && MemberOk(s);
    hide Safe, LocksOk, IndexOk, AllRefsOk, Exclusive, CommitsOk;
    assert HoldsTxn(s.threads[t]) && HoldsMember(s.threads[t]);
    hide Inserted, TimerLogging, HoldsTxn, HoldsMember;
    forall u | u in s.threads && s.threads[u].id == s.threads[t].id
      ensures !Inserted(s.threads[u]) && !TimerLogging(s.threads[u])
    {
      WhatTheyHold(s.threads[u]);
    }
  }

  lemma WhatTheyHold(th: Thread)
    ensures Inserted(th) ==> HoldsTxn(th) && !th.pc.Check2?
    ensures TimerLogging(th) ==> HoldsMember(th) && !th.pc.Check2?
  {
  }

  lemma LastLogStep(s: State, t: Tid, c: Choice)
    requires t in s.threads && s.threads[t].pc.Log? && Shape(s.threads[t]) && Step(s, t, c).Some? && !Step(s, t, c).value.fault
    requires t in Step(s, t, c).value.threads && Step(s, t, c).value.threads[t].pc.Done?
    ensures var th, s' := s.threads[t], Step(s, t, c).value;
            && s'.store == s.store
            && (th.req.NewReq? ==> s'.threads[t].pc.resp == Ack(th.id, 0))
            && (!th.req.NewReq? ==> th.req.TimerReq? && s'.threads[t].pc.resp == Silent)
  {
    hide StepCheck1, StepCheck2, StepBody, StepOpen, StepWriting, StepResize, StepRollback, StepRemove, StepPick, StepExpire;
    hide ViewAfter, Machine.Recorded, FileSize, Piece;
  }

  /** In every state that is reached with fresh ids and quiet timeouts, whatever the other threads
      are doing, the step that answers a request means what it says. */
  lemma AnswersMeanWhatTheySay(s: State, t: Tid, c: Choice)
    requires Safe(s) && Accounted(s) && t in s.threads && Step(s, t, c).Some? && !Step(s, t, c).value.fault
    requires t in Step(s, t, c).value.threads && Step(s, t, c).value.threads[t].pc.Done?
    ensures var s' := Step(s, t, c).value; MeansIt(s, s', s.threads[t], s'.threads[t].pc.resp)
  {
    OwnRefs(s, t);
    StepFrame(s, t, c);
    StepAccounts(s, t, c);
    hide Safe, Accounted, Frame, RefsOk, MeansIt, Step;
    match s.threads[t].pc
    case Check1 => FirstLookMeansIt(s, t, c);
    case Check2 => RecheckMeansIt(s, t, c);
    case Body => BodyMeansIt(s, t, c);
    case OpenHeld | Rollback => FileErrorMeansIt(s, t, c);
    case Remove => RemoveMeansIt(s, t, c);
    case Log(p) => LogMeansIt(s, t, c);
    case Expire => ExpireMeansIt(s, t, c);
    case _ => NoAnswer(s, t, c);
  }

  /** NEW_TXN with another number than 0 is refused before it does anything; no other request is
      answered on arrival. */
  lemma RefusedOnArrival(s: State, t: Tid, req: Request)
    requires Next(s, Arrive(t, req)).Some?
    ensures var s' := Next(s, Arrive(t, req)).value;
            && s'.store == s.store && t in s'.threads
            && (s'.threads[t].pc.Done? <==> req.NewReq? && req.seqNum != 0)
            && (s'.threads[t].pc.Done? ==> s'.threads[t].pc.resp == Error(req.id, req.seqNum, InvalidSequenceNumber))
  {
  }

  // ---------------------------------------------------------------- acknowledged commits, with no premise at all

  ghost predicate InsertedOk(s: State) {
    forall t :: t in s.threads && Inserted(s.threads[t]) ==> s.threads[t].id in s.store.commits
  }

  lemma NextKeepsInserted(s: State, l: Label)
    requires LocksOk(s) && InsertedOk(s) && Next(s, l).Some? && !Next(s, l).value.fault
    ensures InsertedOk(Next(s, l).value)
  {
    CommitsOnlyGrow(s, l);
    match l
    case Arrive(t, req) =>
      var s' := Next(s, l).value;
      assert forall u :: u in s.threads ==> s'.threads[u] == s.threads[u];
    case Act(t, c) =>
      assert Shape(s.threads[t]);
      var s' := Step(s, t, c).value;
      StepFrame(s, t, c);
      FrameParts(s, t, s');
      CommitsMove(s, t, c);
      hide LocksOk, Step;
      InsertedFrom(s, t, s');
      hide Inserted, Frame;
  }

  lemma InsertedFrom(s: State, t: Tid, s': State)
    requires t in s.threads && Frame(s, t, s') && Shape(s.threads[t])
    ensures t in s'.threads && forall u :: u in s'.threads && u != t ==> u in s.threads && s'.threads[u] == s.threads[u]
    ensures Inserted(s'.threads[t]) ==>
              && s'.threads[t].id == s.threads[t].id
              && (Inserted(s.threads[t]) || (s.threads[t].pc.Writing? && s'.threads[t].pc.Log?))
  {
  }

  lemma FaultStays(s: State, l: Label)
    requires s.fault && Next(s, l).Some?
    ensures Next(s, l).value.fault
  {
    hide WriteBody, CommitBody, Enroll, Evict, Expired, ViewAfter, Machine.Recorded, Truncate, FileSize, Append, Appended, Content;
  }

  /** Every run that follows no dangling reference, whatever ids are drawn and whatever times out. */
  lemma {:induction false} RunKeepsInserted(s: State, ls: seq<Label>)
    requires LocksOk(s) && InsertedOk(s) && Run(s, ls).Some? && !Run(s, ls).value.fault
    ensures LocksOk(Run(s, ls).value) && InsertedOk(Run(s, ls).value) && !s.fault
    decreases |ls|
  {
    hide LocksOk, InsertedOk, Next;
    if ls != [] {
      NextKeepsLocks(s, ls[0]);
      if Next(s, ls[0]).value.fault {
        FaultInRun(Next(s, ls[0]).value, ls[1..]);
      }
      NextKeepsInserted(s, ls[0]);
      RunKeepsInserted(Next(s, ls[0]).value, ls[1..]);
      if s.fault { FaultStays(s, ls[0]); }
    }
  }

  lemma {:induction false} FaultInRun(s: State, ls: seq<Label>)
    requires s.fault && Run(s, ls).Some?
    ensures Run(s, ls).value.fault
    decreases |ls|
  {
    hide Next;
    if ls != [] {
      FaultStays(s, ls[0]);
      FaultInRun(Next(s, ls[0]).value, ls[1..]);
    }
  }

  /** A COMMIT that is answered ACK is in the commit set, from whatever branch it was answered and in
      every such run. */
  lemma AcknowledgedCommitIsCommitted(s: State, ls: seq<Label>, t: Tid, c: Choice)
    requires LocksOk(s) && InsertedOk(s) && Run(s, ls).Some? && !Run(s, ls).value.fault
    requires var s1 := Run(s, ls).value;
             && t in s1.threads && s1.threads[t].req.CommitReq? && Step(s1, t, c).Some? && t in Step(s1, t, c).value.threads
             && Step(s1, t, c).value.threads[t].pc.Done? && Step(s1, t, c).value.threads[t].pc.resp.Ack?
    ensures var s1 := Run(s, ls).value; s1.threads[t].id in Step(s1, t, c).value.store.commits
  {
    RunKeepsInserted(s, ls);
    hide Run;
    AckedFrom(Run(s, ls).value, t, c);
    hide LocksOk, Step, Inserted;
  }

  lemma AckedFrom(s: State, t: Tid, c: Choice)
    requires LocksOk(s) && t in s.threads && s.threads[t].req.CommitReq? && Step(s, t, c).Some? && t in Step(s, t, c).value.threads
    requires Step(s, t, c).value.threads[t].pc.Done? && Step(s, t, c).value.threads[t].pc.resp.Ack?
    ensures s.threads[t].id in s.store.commits || Inserted(s.threads[t])
    ensures s.store.commits <= Step(s, t, c).value.store.commits
  {
    CommitsOnlyGrow(s, Act(t, c));
    assert Shape(s.threads[t]);
    hide LocksOk;
    match s.threads[t].pc
    case Check1 => LookKeeps(s, t, c);
    case Check2 => RecheckIs(s, t, c);
    case Remove => hide Step;
    case Body =>
      StepOfBody(s, t, c);
      hide Step;
      NoAckInBody(s, t, c);
      hide StepBody;
    case Writing(_, _) | OpenHeld | Rollback | Resize =>
      hide Step;
      NoAckInFile(s, t, c);
    case Log(p) =>
      hide Step;
      NoAckInLog(s, t, c);
    case _ =>
      hide StepCheck1, StepCheck2, StepBody, StepOpen, StepWriting, StepLog, StepResize, StepRollback, StepRemove, StepPick, StepExpire;
  }

  lemma NoAckInBody(s: State, t: Tid, c: Choice)
    requires t in s.threads && s.threads[t].pc == Body && s.threads[t].req.CommitReq? && t in StepBody(s, t, c).threads
    ensures !StepBody(s, t, c).threads[t].pc.Done? || !StepBody(s, t, c).threads[t].pc.resp.Ack?
  {
  }

  lemma NoAckInFile(s: State, t: Tid, c: Choice)
    requires t in s.threads && Step(s, t, c).Some? && t in Step(s, t, c).value.threads
    requires var pc := s.threads[t].pc; pc.Writing? || pc.OpenHeld? || pc.Rollback? || pc.Resize?
    ensures !Step(s, t, c).value.threads[t].pc.Done? || !Step(s, t, c).value.threads[t].pc.resp.Ack?
  {
    hide StepCheck1, StepCheck2, StepBody, StepLog, StepRemove, StepPick, StepExpire, Truncate, FileSize, Append, Appended, Content;
  }

  lemma NoAckInLog(s: State, t: Tid, c: Choice)
    requires t in s.threads && Step(s, t, c).Some? && t in Step(s, t, c).value.threads && s.threads[t].pc.Log?
             && s.threads[t].req.CommitReq?
    ensures !Step(s, t, c).value.threads[t].pc.Done?
  {
    hide StepCheck1, StepCheck2, StepBody, StepOpen, StepWriting, StepResize, StepRollback, StepRemove, StepPick, StepExpire;
    hide ViewAfter, Machine.Recorded, Piece, FileSize;
  }
}
