/** Commit xor abort: a transaction ends at most once, so it gets at most one record in the
    commit, abort and timeout logs together; a handler that loses the race changes nothing. */
module MachineEnds {
  import opened Basics
  import opened Transactions
  import opened Stores
  import opened LogText
  import opened Machine
  import opened MachineLocks
  import opened MachineSafety
  import opened MachineFrames

  // ---------------------------------------------------------------- the invariant

  /** The thread's end record has its size, and the transaction is about to leave the map. */
  predicate RecordedPc(th: Thread) {
    && PastCheck(th)
    && match th.pc
       case Log(p) => p > 6
       case Resize | Lock3 | Remove => true
       case CloseWant(ok) => ok
       case CloseHeld(ok) => ok
       case _ => false
  }

  /** A timer that has removed its transaction and not finished its record. */
  predicate TimerLogging(th: Thread) {
    th.req.TimerReq? && th.pc.Log?
  }

  /** The thread may still write an end record for its transaction. */
  predicate Pending(th: Thread) {
    (PastCheck(th) && !RecordedPc(th)) || (TimerLogging(th) && th.pc.p <= 6)
  }

  predicate HasEnded(h: History, id: TxnId) {
    exists j :: 0 <= j < |h.ends| && h.ends[j].id == id
  }

  ghost predicate PendingOk(s: State) {
    forall t :: t in s.threads && Pending(s.threads[t]) ==> !HasEnded(s.hist, s.threads[t].id)
  }

  ghost predicate EndedOk(s: State) {
    forall i :: i in s.store.live && HasEnded(s.hist, i) ==>
      exists t :: t in s.threads && RecordedPc(s.threads[t]) && s.threads[t].id == i
  }

  ghost predicate TimersOk(s: State) {
    forall t :: t in s.threads && TimerLogging(s.threads[t]) ==>
      s.threads[t].id in s.hist.used && s.threads[t].id !in s.store.live
  }

  /** At most one end per transaction, whatever its kind. */
  ghost predicate EndsOnce(h: History) {
    && (forall i, j :: 0 <= i < j < |h.ends| ==> h.ends[i].id != h.ends[j].id)
    && (forall j :: 0 <= j < |h.ends| ==> h.ends[j].id in h.used)
  }

  ghost predicate EndsOk(s: State) {
    PendingOk(s) && EndedOk(s) && TimersOk(s) && EndsOnce(s.hist)
  }

  // ---------------------------------------------------------------- what steps do to it

  predicate CompletesEnd(th: Thread) {
    th.pc == Log(6) && !th.req.NewReq?
  }

  lemma LogHist(s: State, t: Tid, p: nat)
    requires t in s.threads && s.threads[t].pc == Log(p) && StepLog(s, t, p).Some?
    requires !StepLog(s, t, p).value.fault
    ensures var th, h' := s.threads[t], StepLog(s, t, p).value.hist;
            && h'.ends == (if CompletesEnd(th) then s.hist.ends + [End(th.id, KindOf(th.req))] else s.hist.ends)
            && h'.used == s.hist.used
  {
    hide ViewAfter, KindOf, FileSize;
  }

  lemma HistEffect(s: State, t: Tid, c: Choice)
    requires t in s.threads && Shape(s.threads[t]) && Step(s, t, c).Some? && !Step(s, t, c).value.fault
    ensures var th, h' := s.threads[t], Step(s, t, c).value.hist;
            && h'.ends == (if CompletesEnd(th) then s.hist.ends + [End(th.id, KindOf(th.req))] else s.hist.ends)
            && h'.used == (if th.pc.Pick? then s.hist.used + {c.n} else s.hist.used)
  {
    match s.threads[t].pc
    case OpenHeld | Rollback | Writing(_, _) | Pick =>
      hide StepCheck1, StepCheck2, StepBody, StepLog, StepResize, StepRemove, StepExpire, Frame, Enroll, Append, Truncate, Content;
    case Log(p) =>
      assert Step(s, t, c) == StepLog(s, t, p) by { hide StepLog; }
      hide Step, StepLog;
      LogHist(s, t, p);
    case _ =>
      hide Step;
      StepFrame(s, t, c);
  }

  lemma LiveEffect(s: State, t: Tid, c: Choice)
    requires t in s.threads && Shape(s.threads[t]) && Step(s, t, c).Some? && !Step(s, t, c).value.fault
    ensures var th, s' := s.threads[t], Step(s, t, c).value;
            && (th.pc.Pick? ==> s'.store.live.Keys == s.store.live.Keys + {c.n} && t in s'.threads && s'.threads[t].id == c.n)
            && (th.pc.Remove? ==> s'.store.live == s.store.live - {th.id})
            && (th.pc.Expire? && t in s'.threads && s'.threads[t].pc.Log? ==>
                  s'.store.live == s.store.live - {th.id} && th.id in s.store.live && Expired(s, th.id, c.now))
            && (!th.pc.Pick? ==> s'.store.live.Keys <= s.store.live.Keys)
  {
    StepFrame(s, t, c);
    match s.threads[t].pc
    case Pick =>
      EnrollTouches(s.store, c.n, s.threads[t].req.name, c.now);
      hide Enroll;
    case Remove | Expire =>
      EvictTouches(s.store, s.threads[t].id);
      hide Evict;
    case Body => hide WriteBody, CommitBody;
    case _ => hide Step;
  }

  // ---------------------------------------------------------------- preservation

  lemma KeepPending(s: State, t: Tid, th': Thread, s': State)
    requires Moves(s, t, th', s') && PendingOk(s) && s'.hist.ends == s.hist.ends
    requires Pending(th') ==> (Pending(s.threads[t]) && th'.id == s.threads[t].id) || !HasEnded(s.hist, th'.id)
    ensures PendingOk(s')
  {
  }

  lemma KeepEnded(s: State, t: Tid, th': Thread, s': State)
    requires Moves(s, t, th', s') && EndedOk(s) && s'.hist.ends == s.hist.ends
    requires forall i :: i in s'.store.live ==> i in s.store.live || !HasEnded(s.hist, i)
    requires RecordedPc(s.threads[t]) ==>
               (RecordedPc(th') && th'.id == s.threads[t].id) || s.threads[t].id !in s'.store.live
    ensures EndedOk(s')
  {
    forall i | i in s'.store.live && HasEnded(s'.hist, i)
      ensures exists u :: u in s'.threads && RecordedPc(s'.threads[u]) && s'.threads[u].id == i
    {
      var u :| u in s.threads && RecordedPc(s.threads[u]) && s.threads[u].id == i;
      assert u in s'.threads && RecordedPc(s'.threads[u]) && s'.threads[u].id == i;
    }
  }

  lemma KeepTimers(s: State, t: Tid, th': Thread, s': State)
    requires Moves(s, t, th', s') && TimersOk(s) && s.hist.used <= s'.hist.used
    requires forall i :: i in s'.store.live ==> i in s.store.live || i !in s.hist.used
    requires TimerLogging(th') ==> (TimerLogging(s.threads[t]) && th'.id == s.threads[t].id)
                                   || (th'.id in s'.hist.used && th'.id !in s'.store.live)
    ensures TimersOk(s')
  {
  }

  /** A thread whose re-check has just succeeded, or a timer that has just expired its
      transaction, is the first to end it. */
  lemma NobodyEndedIt(s: State, id: TxnId)
    requires EndsOk(s) && Quiet(s, id) && id in s.store.live
    ensures !HasEnded(s.hist, id)
  {
    assert forall u :: u in s.threads && RecordedPc(s.threads[u]) ==> s.threads[u].id != id;
  }

  /** The heart of it: when an end record becomes complete, no other thread can still be
      working towards one for the same transaction. */
  lemma OthersArePendingElsewhere(s: State, t: Tid, u: Tid)
    requires Safe(s) && TimersOk(s) && t in s.threads && u in s.threads && t != u
    requires CompletesEnd(s.threads[t]) && Pending(s.threads[u])
    ensures s.threads[u].id != s.threads[t].id
  {
    var tt, uu := s.threads[t], s.threads[u];
    assert Shape(tt) && RefsOk(s.store, tt) && RefsOk(s.store, uu);
    assert PastCheck(tt) || TimerLogging(tt);
    assert TimerLogging(tt) ==> HoldsMember(tt);
    assert TimerLogging(uu) ==> HoldsMember(uu);
  }

  lemma EndedSnoc(h: History, h': History, e: End)
    requires h'.ends == h.ends + [e]
    ensures forall i :: HasEnded(h', i) <==> HasEnded(h, i) || i == e.id
  {
    forall i ensures HasEnded(h', i) <==> HasEnded(h, i) || i == e.id {
      if HasEnded(h, i) {
        var j :| 0 <= j < |h.ends| && h.ends[j].id == i;
        assert h'.ends[j].id == i;
      }
      if i == e.id { assert h'.ends[|h.ends|].id == i; }
    }
  }

  lemma CompletionPending(s: State, t: Tid, s': State)
    requires t in s.threads && Safe(s) && EndsOk(s) && Moves(s, t, s.threads[t].(pc := Log(7)), s') && CompletesEnd(s.threads[t])
    requires Shape(s.threads[t]) && Pending(s.threads[t])
    requires forall i :: HasEnded(s'.hist, i) <==> HasEnded(s.hist, i) || i == s.threads[t].id
    ensures PendingOk(s')
  {
    hide Safe, HasEnded;
    forall u | u in s'.threads && Pending(s'.threads[u]) ensures !HasEnded(s'.hist, s'.threads[u].id) {
      assert u != t;
      OthersArePendingElsewhere(s, t, u);
    }
  }

  lemma CompletionEnded(s: State, t: Tid, s': State)
    requires t in s.threads && EndedOk(s) && Moves(s, t, s.threads[t].(pc := Log(7)), s') && CompletesEnd(s.threads[t])
             && s'.store.live == s.store.live
    requires Shape(s.threads[t]) && (TimerLogging(s.threads[t]) ==> s.threads[t].id !in s.store.live)
    requires forall i :: HasEnded(s'.hist, i) <==> HasEnded(s.hist, i) || i == s.threads[t].id
    ensures EndedOk(s')
  {
    hide HasEnded;
    forall i | i in s'.store.live && HasEnded(s'.hist, i)
      ensures exists u :: u in s'.threads && RecordedPc(s'.threads[u]) && s'.threads[u].id == i
    {
      if i == s.threads[t].id {
        assert RecordedPc(s'.threads[t]);
      } else {
        var u :| u in s.threads && RecordedPc(s.threads[u]) && s.threads[u].id == i;
        assert u in s'.threads && RecordedPc(s'.threads[u]) && s'.threads[u].id == i;
      }
    }
  }

  lemma CompletionKeepsEnds(s: State, t: Tid, th': Thread, s': State)
    requires Safe(s) && EndsOk(s) && Moves(s, t, th', s')
    requires CompletesEnd(s.threads[t])
    requires s'.store.live == s.store.live && s'.hist.used == s.hist.used
    requires s'.hist.ends == s.hist.ends + [End(s.threads[t].id, KindOf(s.threads[t].req))]
    requires th' == s.threads[t].(pc := Log(7))
    ensures EndsOk(s')
  {
    var th := s.threads[t];
    OwnRefs(s, t);
    assert Pending(th) && th.id in s.hist.used by { SafeParts(s); hide LocksOk, IndexOk; }
    EndedSnoc(s.hist, s'.hist, End(th.id, KindOf(th.req)));
    CompletionPending(s, t, s');
    CompletionEnded(s, t, s');
    hide Safe, PendingOk, EndedOk, KindOf;
    KeepTimers(s, t, th', s');
    assert !HasEnded(s.hist, th.id) by { assert PendingOk(s); }
    forall i | 0 <= i < |s.hist.ends| ensures s.hist.ends[i].id != th.id {
      assert !HasEnded(s.hist, th.id);
    }
  }

  /** Steps that complete no end record, from what they may change. */
  lemma OtherStepsKeepEnds(s: State, t: Tid, s': State)
    requires t in s.threads && t in s'.threads && EndsOk(s) && Frame(s, t, s') && Shape(s.threads[t])
    requires !CompletesEnd(s.threads[t]) && s'.hist.ends == s.hist.ends && s.hist.used <= s'.hist.used
    requires forall i :: i in s'.store.live ==> i in s.store.live || i !in s.hist.used
    requires s.threads[t].pc.Check2? && PastCheck(s'.threads[t]) ==> !HasEnded(s.hist, s.threads[t].id)
    requires s.threads[t].pc.Expire? && s'.threads[t].pc.Log? ==>
               !HasEnded(s.hist, s.threads[t].id) && s.threads[t].id in s.hist.used && s.threads[t].id !in s'.store.live
    requires s.threads[t].pc.Remove? ==> s.threads[t].id !in s'.store.live
    ensures EndsOk(s')
  {
    var th' := s'.threads[t];
    assert forall i :: HasEnded(s.hist, i) ==> i in s.hist.used;
    PendingStays(s, t, s');
    if RecordedPc(s.threads[t]) { RecordedStays(s, t, s'); }
    hide Frame, Pending, RecordedPc, TimerLogging;
    KeepPending(s, t, th', s');
    KeepEnded(s, t, th', s');
    KeepTimers(s, t, th', s');
  }

  lemma RecordedStays(s: State, t: Tid, s': State)
    requires t in s.threads && t in s'.threads && Frame(s, t, s') && Shape(s.threads[t])
    requires RecordedPc(s.threads[t])
    ensures (RecordedPc(s'.threads[t]) && s'.threads[t].id == s.threads[t].id) || s.threads[t].pc.Remove?
  {
  }

  lemma PendingStays(s: State, t: Tid, s': State)
    requires t in s.threads && t in s'.threads && Frame(s, t, s') && Shape(s.threads[t])
    ensures Moves(s, t, s'.threads[t], s')
    ensures Pending(s'.threads[t]) ==>
              && s'.threads[t].id == s.threads[t].id
              && (Pending(s.threads[t]) || s.threads[t].pc.Check2? || s.threads[t].pc.Expire?)
    ensures TimerLogging(s'.threads[t]) ==>
              s'.threads[t].id == s.threads[t].id && (TimerLogging(s.threads[t]) || s.threads[t].pc.Expire?)
  {
  }

  lemma StepKeepsEnds(s: State, t: Tid, c: Choice)
    requires Safe(s) && EndsOk(s) && t in s.threads && Step(s, t, c).Some?
    requires FreshId(s, Act(t, c)) && TimeoutQuiet(s, Act(t, c))
    ensures EndsOk(Step(s, t, c).value)
  {
    var s' := Step(s, t, c).value;
    var th := s.threads[t];
    NextIsSafe(s, Act(t, c));
    OwnRefs(s, t);
    StepFrame(s, t, c);
    HistEffect(s, t, c);
    LiveEffect(s, t, c);
    hide Step;
    assert s.store.live.Keys <= s.hist.used;
    if CompletesEnd(th) {
      CompletionFrame(s, t, s');
      hide Safe, EndsOk;
      CompletionKeepsEnds(s, t, s'.threads[t], s');
    } else {
      if th.pc.Check2? {
        RecheckFindsQuiet(s, t);
        assert RefsOk(s'.store, s'.threads[t]);
        if th.id in s.store.live { NobodyEndedIt(s, th.id); }
      }
      if th.pc.Expire? && s'.threads[t].pc.Log? { NobodyEndedIt(s, th.id); }
      hide Safe, EndsOk, Frame;
      OtherStepsKeepEnds(s, t, s');
    }
  }

  lemma CompletionFrame(s: State, t: Tid, s': State)
    requires t in s.threads && t in s'.threads && Frame(s, t, s') && s.threads[t].pc == Log(6)
    ensures Moves(s, t, s'.threads[t], s') && s'.threads[t] == s.threads[t].(pc := Log(7))
    ensures s'.store.live == s.store.live
  {
  }

  lemma ArrivalKeepsEnds(s: State, t: Tid, req: Request)
    requires EndsOk(s) && t !in s.threads
    ensures EndsOk(s.Put(t, Arrived(req)))
  {
    var s' := s.Put(t, Arrived(req));
    assert forall u :: u in s.threads ==> s'.threads[u] == s.threads[u];
    forall i | i in s'.store.live && HasEnded(s'.hist, i)
      ensures exists u :: u in s'.threads && RecordedPc(s'.threads[u]) && s'.threads[u].id == i
    {
      var u :| u in s.threads && RecordedPc(s.threads[u]) && s.threads[u].id == i;
      assert u in s'.threads && RecordedPc(s'.threads[u]) && s'.threads[u].id == i;
    }
  }

  lemma NextKeepsEnds(s: State, l: Label)
    requires Safe(s) && EndsOk(s) && FreshId(s, l) && TimeoutQuiet(s, l) && Next(s, l).Some?
    ensures EndsOk(Next(s, l).value)
  {
    match l
    case Arrive(t, req) => ArrivalKeepsEnds(s, t, req);
    case Act(t, c) => StepKeepsEnds(s, t, c);
  }

  /** Over every interleaved run each transaction gets at most one complete record in the
      commit, abort and timeout logs together. */
  lemma {:induction false} TransactionsEndOnce(s: State, ls: seq<Label>)
    requires Safe(s) && EndsOk(s) && SafeChoices(s, ls) && Run(s, ls).Some?
    ensures Safe(Run(s, ls).value) && EndsOk(Run(s, ls).value) && EndsOnce(Run(s, ls).value.hist)
    decreases |ls|
  {
    if ls != [] {
      NextIsSafe(s, ls[0]);
      NextKeepsEnds(s, ls[0]);
      TransactionsEndOnce(Next(s, ls[0]).value, ls[1..]);
    }
  }

  /** A handler that loses the race: the step that answers it at its first look or at its
      re-check is an error (or, for a repeated COMMIT, an acknowledgement of the first one)
      and leaves the whole store as it was. */
  lemma LosersChangeNothing(s: State, t: Tid, c: Choice)
    requires t in s.threads && Shape(s.threads[t]) && Step(s, t, c).Some?
    requires s.threads[t].pc.Check1? || s.threads[t].pc.Check2?
    ensures var th, s' := s.threads[t], Step(s, t, c).value;
            && s'.store == s.store
            && (t in s'.threads && s'.threads[t].pc.Done? ==>
                  || s'.threads[t].pc.resp.Error?
                  || (th.req.CommitReq? && th.id in s.store.commits && s'.threads[t].pc.resp == Ack(th.id, th.req.seqNum)))
            && (th.pc.Check2? && (th.id in s.store.commits || th.id !in s.store.live) ==>
                  t in s'.threads && s'.threads[t].pc.Done? && s'.threads[t].pc.resp.Error?)
  {
    hide StepBody, StepOpen, StepWriting, StepLog, StepResize, StepRollback, StepRemove, StepPick, StepExpire;
  }
}
