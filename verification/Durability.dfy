/** Durability of acknowledgements: a COMMIT answered at the end of its handler stays committed
    through every crash; one answered from the commit set is exactly as durable as the record
    that the first COMMIT is still writing. */
module Durability {
  import opened Basics
  import opened Transactions
  import opened Stores
  import opened LogText
  import opened Machine
  import opened MachineLocks
  import opened MachineSafety
  import opened MachineFrames
  import opened MachineEnds
  import opened MachineFiles
  import opened MachineRecords
  import opened MachineSizes
  import opened MachineSerials
  import opened Recovery
  import opened Crash

  /** COMMIT after its record is complete. */
  predicate CommitRecorded(th: Thread) {
    th.req.CommitReq? && RecordedPc(th)
  }

  ghost predicate IsCommitted(h: History, id: TxnId, name: FileName, txn: Txn) {
    id in h.serial && exists j :: 0 <= j < |h.done| && h.done[j] == Commitment(id, h.serial[id], name, txn)
  }

  /** Every such thread's transaction is committed, with the buffers it has right now. */
  ghost predicate DurableOk(s: State) {
    forall t :: t in s.threads && CommitRecorded(s.threads[t]) && s.threads[t].id in s.store.live ==>
      IsCommitted(s.hist, s.threads[t].id, s.threads[t].name, s.store.live[s.threads[t].id])
  }

  // ---------------------------------------------------------------- preservation

  lemma DoneGrows(s: State, t: Tid, c: Choice)
    requires Safe(s) && t in s.threads && Step(s, t, c).Some? && !Step(s, t, c).value.fault
    ensures s.hist.done <= Step(s, t, c).value.hist.done
    ensures s.threads[t].pc == Log(6) && s.threads[t].req.CommitReq? && s.threads[t].id in s.hist.serial ==>
              var th := s.threads[t];
              th.id in s.store.live && IsCommitted(Step(s, t, c).value.hist, th.id, th.name, s.store.live[th.id])
  {
    var h, h' := s.hist, Step(s, t, c).value.hist;
    OwnRefs(s, t);
    DoneEffect(s, t, c);
    if s.threads[t].pc == Log(6) && s.threads[t].req.CommitReq? {
      SerialEffect(s, t, c);
      StepOfLog(s, t, c);
      CommitRecordEffect(s, t);
      hide Safe, Step, StepLog;
      var th := s.threads[t];
      assert th.id in h.serial ==> h'.done[|h.done|] == Commitment(th.id, h.serial[th.id], th.name, s.store.live[th.id]);
    }
  }

  lemma StaysCommitted(h: History, h': History, id: TxnId, name: FileName, txn: Txn)
    requires IsCommitted(h, id, name, txn) && h.done <= h'.done && id in h'.serial && h'.serial[id] == h.serial[id]
    ensures IsCommitted(h', id, name, txn)
  {
    var j :| 0 <= j < |h.done| && h.done[j] == Commitment(id, h.serial[id], name, txn);
    assert h'.done[j] == h.done[j];
  }

  /** Another thread past its re-check keeps its transaction as it is. */
  lemma OthersTxnStays(s: State, t: Tid, u: Tid, c: Choice)
    requires Safe(s) && t in s.threads && u in s.threads && t != u && PastCheck(s.threads[u])
    requires Step(s, t, c).Some? && !Step(s, t, c).value.fault && FreshId(s, Act(t, c)) && TimeoutQuiet(s, Act(t, c))
    ensures var id := s.threads[u].id; var live' := Step(s, t, c).value.store.live;
            id in s.store.live && id in live' && live'[id] == s.store.live[id]
  {
    SafeParts(s);
    OwnRefs(s, t);
    OwnRefs(s, u);
    assert s.threads[u].id in s.store.live;
    hide Safe, LocksOk, IndexOk, RefsOk, Step, Frame;
    match s.threads[t].pc
    case Body => BodyKeepsOthers(s, t, c);
    case Pick => StepOfMaps(s, t, c);
    case Remove | Expire =>
      StepOfMaps(s, t, c);
      EvictTouches(s.store, s.threads[t].id);
      hide Evict;
    case _ => LiveStays(s, t, c);
  }

  lemma LiveStays(s: State, t: Tid, c: Choice)
    requires t in s.threads && Shape(s.threads[t]) && Step(s, t, c).Some? && !Step(s, t, c).value.fault
    requires var pc := s.threads[t].pc; !pc.Body? && !pc.Pick? && !pc.Remove? && !pc.Expire?
    ensures Step(s, t, c).value.store.live == s.store.live
  {
    StepFrame(s, t, c);
    hide Step;
  }

  lemma BodyKeepsOthers(s: State, t: Tid, c: Choice)
    requires Safe(s) && t in s.threads && s.threads[t].pc == Body && Step(s, t, c).Some?
    ensures var live' := Step(s, t, c).value.store.live;
            forall id :: id in s.store.live && id != s.threads[t].id ==> id in live' && live'[id] == s.store.live[id]
  {
    OwnRefs(s, t);
    LiveAttrsOf(s, t);
    StepOfBody(s, t, c);
    hide Safe, Step;
    BodyEffect(s, t, c);
    hide StepBody, RefsOk;
  }

  lemma LiveAttrsOf(s: State, t: Tid)
    requires Safe(s) && t in s.threads && s.threads[t].pc == Body
    ensures s.threads[t].id in s.store.live && s.store.live[s.threads[t].id].attr in s.store.attrs && !s.fault
  {
    OwnRefs(s, t);
    SafeParts(s);
    hide Safe, LocksOk;
    LiveAttrs(s.store);
    hide IndexOk;
  }

  lemma RecordedOrigin(s: State, t: Tid, s': State)
    requires t in s.threads && t in s'.threads && Frame(s, t, s') && Shape(s.threads[t]) && CommitRecorded(s'.threads[t])
    ensures s'.threads[t].id == s.threads[t].id && s'.threads[t].name == s.threads[t].name && s'.store.live == s.store.live
    ensures CommitRecorded(s.threads[t]) || (s.threads[t].pc == Log(6) && s.threads[t].req.CommitReq?)
  {
  }

  lemma SerialStays(s: State, t: Tid, c: Choice, id: TxnId)
    requires Safe(s) && SerialsOk(s.hist) && t in s.threads && Step(s, t, c).Some? && !Step(s, t, c).value.fault
    requires FreshId(s, Act(t, c)) && id in s.hist.used
    ensures id in s.hist.serial && id in Step(s, t, c).value.hist.serial && Step(s, t, c).value.hist.serial[id] == s.hist.serial[id]
  {
    OwnRefs(s, t);
    SerialEffect(s, t, c);
    hide Safe, Step;
  }

  lemma StepKeepsDurable(s: State, t: Tid, c: Choice)
    requires Safe(s) && SerialsOk(s.hist) && DurableOk(s) && t in s.threads && Step(s, t, c).Some? && !Step(s, t, c).value.fault
    requires FreshId(s, Act(t, c)) && TimeoutQuiet(s, Act(t, c))
    ensures DurableOk(Step(s, t, c).value)
  {
    hide Safe, SerialsOk, Step, IsCommitted, FreshId, TimeoutQuiet, Frame, RefsOk, RecordedPc, PastCheck;
    var s' := Step(s, t, c).value;
    OwnRefs(s, t);
    StepFrame(s, t, c);
    DoneGrows(s, t, c);
    assert s.store.live.Keys <= s.hist.used by { SafeParts(s); hide LocksOk, IndexOk; }
    FrameMoves(s, t, s');
    forall u | u in s'.threads && CommitRecorded(s'.threads[u]) && s'.threads[u].id in s'.store.live
      ensures IsCommitted(s'.hist, s'.threads[u].id, s'.threads[u].name, s'.store.live[s'.threads[u].id])
    {
      if u == t {
        RecordedOrigin(s, t, s');
        SerialStays(s, t, c, s.threads[t].id);
        if CommitRecorded(s.threads[t]) {
          StaysCommitted(s.hist, s'.hist, s.threads[t].id, s.threads[t].name, s.store.live[s.threads[t].id]);
        }
      } else {
        assert PastCheck(s.threads[u]) by { RecordedIsPast(s.threads[u]); }
        OthersTxnStays(s, t, u, c);
        SerialStays(s, t, c, s.threads[u].id);
        StaysCommitted(s.hist, s'.hist, s.threads[u].id, s.threads[u].name, s.store.live[s.threads[u].id]);
      }
    }
  }

  lemma RecordedIsPast(th: Thread)
    requires CommitRecorded(th)
    ensures PastCheck(th)
  {
  }

  lemma FrameMoves(s: State, t: Tid, s': State)
    requires t in s.threads && Frame(s, t, s')
    ensures t in s'.threads
    ensures forall u :: u != t ==> (u in s'.threads <==> u in s.threads) && (u in s.threads ==> s'.threads[u] == s.threads[u])
  {
  }

  lemma ArrivalKeepsDurable(s: State, t: Tid, req: Request)
    requires DurableOk(s) && t !in s.threads
    ensures DurableOk(s.Put(t, Arrived(req)))
  {
    var s' := s.Put(t, Arrived(req));
    assert forall u :: u in s.threads ==> s'.threads[u] == s.threads[u];
    hide IsCommitted;
  }

  lemma EventKeepsDurable(s: State, e: Event)
    requires Good(s) && SerialsOk(s.hist) && DurableOk(s) && After(s, e).Some? && (e.Does? ==> Polite(s, e.l))
    ensures DurableOk(After(s, e).value) && s.hist.done <= After(s, e).value.hist.done
  {
    hide Good, SerialsOk, DurableOk, Recovered, Restart;
    match e
    case Does(Arrive(t, req)) => ArrivalKeepsDurable(s, t, req);
    case Does(Act(t, c)) =>
      assert Safe(s) by { GoodIsSafe(s); }
      assert FreshId(s, e.l) && TimeoutQuiet(s, e.l);
      hide Polite, FreshId, TimeoutQuiet, Step;
      NextIsSafe(s, e.l);
      SafeMeansNoFault(Next(s, e.l).value);
      StepKeepsDurable(s, t, c);
      DoneGrows(s, t, c);
    case Dies(st', now) =>
      RestartParts(s.hist, st');
      NobodyRecorded(Restart(s.hist, st'));
  }

  lemma GoodIsSafe(s: State)
    requires Good(s)
    ensures Safe(s)
  {
  }

  lemma NobodyRecorded(s: State)
    requires s.threads == map[]
    ensures DurableOk(s)
  {
  }

  lemma {:induction false} LifeKeepsDurable(s: State, es: seq<Event>)
    requires Good(s) && SerialsOk(s.hist) && AtMostOnce(s.hist) && DurableOk(s) && PoliteLife(s, es) && Life(s, es).Some?
    ensures DurableOk(Life(s, es).value) && s.hist.done <= Life(s, es).value.hist.done
    decreases |es|
  {
    hide Good, SerialsOk, AtMostOnce, DurableOk, After, Polite;
    if es != [] {
      EventIsGood(s, es[0]);
      EventKeepsDurable(s, es[0]);
      LifeKeepsDurable(After(s, es[0]).value, es[1..]);
    }
  }

  // ---------------------------------------------------------------- acknowledgements

  lemma {:induction false} LifeConcat(s: State, a: seq<Event>, b: seq<Event>)
    requires Life(s, a).Some?
    ensures Life(s, a + b) == Life(Life(s, a).value, b)
    ensures PoliteLife(s, a) && PoliteLife(Life(s, a).value, b) ==> PoliteLife(s, a + b)
    decreases |a|
  {
    hide After, Polite;
    if a == [] {
      assert a + b == b;
    } else {
      assert (a + b)[1..] == a[1..] + b && (a + b)[0] == a[0];
      LifeConcat(After(s, a[0]).value, a[1..], b);
    }
  }

  /** The step that answers a COMMIT from the end of its handler. */
  lemma LastStepAcknowledges(s: State, t: Tid, c: Choice)
    requires t in s.threads && s.threads[t].pc == Remove
    ensures Step(s, t, c).Some? && t in Step(s, t, c).value.threads
    ensures Step(s, t, c).value.threads[t].pc == Done(Ack(s.threads[t].id, SeqNumOf(s.threads[t].req)))
  {
    hide Evict;
  }

  /** Durability: whatever happened before, when a COMMIT is answered from the end of its handler,
      the data 1..n of its transaction is committed, and after any later requests, crashes and
      restarts a recovery still leaves the file with it, once and whole. */
  lemma AcknowledgedIsDurable(files: map<FileName, Data>, es: seq<Event>, t: Tid, c: Choice, later: seq<Event>, recovered: Store)
    requires PoliteLife(Boot(files), es) && Life(Boot(files), es).Some?
    requires var s := Life(Boot(files), es).value;
             && t in s.threads && s.threads[t].pc == Remove && s.threads[t].req.CommitReq?
             && PoliteLife(s, later) && Life(s, later).Some? && Recovered(Life(s, later).value.store, recovered)
    ensures var s := Life(Boot(files), es).value; var answered := Step(s, t, c);
            && answered.Some? && t in answered.value.threads
            && answered.value.threads[t].pc == Done(Ack(s.threads[t].id, SeqNumOf(s.threads[t].req)))
    ensures var s := Life(Boot(files), es).value; var th := s.threads[t]; var done := Life(s, later).value.hist.done;
            && th.id in s.store.live && th.id in s.hist.serial && Complete(s.store.live[th.id])
            && (exists j :: 0 <= j < |done| && done[j] == Commitment(th.id, s.hist.serial[th.id], th.name, s.store.live[th.id]))
            && (forall i, j :: 0 <= i < j < |done| ==> done[i].serial != done[j].serial)
            && Content(recovered.files, th.name) == Content(files, th.name) + CommittedTo(done, th.name)
  {
    var s := Life(Boot(files), es).value;
    hide *;
    LastStepAcknowledges(s, t, c);
    BootIsGood(files);
    RestartBoot(files);
    NobodyRecorded(Boot(files));
    LifeIsGood(Boot(files), es);
    LifeKeepsDurable(Boot(files), es);
    LifeKeepsDurable(s, later);
    LifeConcat(Boot(files), es, later);
    LifeIsGood(s, later);
    DurableAndAtomic(files, es + later, recovered);
    GoodIsSafe(s);
    RemovingIsCommitted(s, t);
    StaysInDone(s.hist, Life(s, later).value.hist, s.threads[t].id, s.threads[t].name, s.store.live[s.threads[t].id]);
  }

  lemma RemovingIsCommitted(s: State, t: Tid)
    requires Safe(s) && DurableOk(s) && t in s.threads && s.threads[t].pc == Remove && s.threads[t].req.CommitReq?
    ensures var th := s.threads[t];
            th.id in s.store.live && Complete(s.store.live[th.id]) && IsCommitted(s.hist, th.id, th.name, s.store.live[th.id])
  {
    RemovingIsComplete(s, t);
    hide Safe, IsCommitted, Complete;
  }

  lemma StaysInDone(h: History, h': History, id: TxnId, name: FileName, txn: Txn)
    requires IsCommitted(h, id, name, txn) && h.done <= h'.done && AtMostOnce(h')
    ensures id in h.serial && exists j :: 0 <= j < |h'.done| && h'.done[j] == Commitment(id, h.serial[id], name, txn)
    ensures forall i, j :: 0 <= i < j < |h'.done| ==> h'.done[i].serial != h'.done[j].serial
  {
    var j :| 0 <= j < |h.done| && h.done[j] == Commitment(id, h.serial[id], name, txn);
    assert h'.done[j] == h.done[j];
  }

  lemma RestartBoot(files: map<FileName, Data>)
    ensures Boot(files).threads == map[]
  {
    hide ViewOf;
  }

  lemma RemovingIsComplete(s: State, t: Tid)
    requires Safe(s) && t in s.threads && s.threads[t].pc == Remove && s.threads[t].req.CommitReq?
    ensures CommitRecorded(s.threads[t]) && s.threads[t].id in s.store.live && Complete(s.store.live[s.threads[t].id])
  {
    OwnRefs(s, t);
    hide Safe;
  }

  /** A retransmitted COMMIT is acknowledged from the commit set, which the first COMMIT enters
      before it logs. If the process dies right after such an answer, the transaction comes
      back open, its data cut away, iff the first COMMIT's record was not complete. */
  lemma EarlyAcknowledgementIff(s: State, t: Tid, c: Choice, recovered: Store)
    requires Good(s) && SerialsOk(s.hist) && DurableOk(s)
    requires t in s.threads && s.threads[t].pc == Check1 && s.threads[t].req.CommitReq?
    requires s.threads[t].id in s.store.commits && s.threads[t].id in s.store.live
    requires Step(s, t, c).Some? && Recovered(Step(s, t, c).value.store, recovered)
    ensures var s' := Step(s, t, c).value; var id := s.threads[t].id;
            && t in s'.threads && s'.threads[t].pc == Done(Ack(id, s.threads[t].req.seqNum))
            && id in s.txnOwner && s.txnOwner[id] in s.threads
            && (id in recovered.live <==> !CommitRecorded(s.threads[s.txnOwner[id]]))
  {
    var id := s.threads[t].id;
    assert Step(s, t, c).value.store == s.store && Step(s, t, c) == Some(StepCheck1(s, t)) by {
      hide StepCheck2, StepBody, StepOpen, StepWriting, StepLog, StepResize, StepRollback, StepRemove, StepPick, StepExpire;
    }
    hide Step;
    ReopensUnended(s);
    RecoveredNames(s.store, recovered);
    var u := Committer(s, id);
    CommitterIsKnown(s, id, u);
    hide Good, Recovered, ReplayAll, AllRecords, IndexOk, IsCreated, HasEnded, RecordedPc, SerialsOk, DurableOk;
  }

  lemma Committer(s: State, id: TxnId) returns (u: Tid)
    requires Good(s) && id in s.store.commits && id in s.store.live
    ensures id in s.txnOwner && u == s.txnOwner[id] && u in s.threads && s.threads[u].id == id && Inserted(s.threads[u])
  {
    GoodIsSafe(s);
    SafeParts(s);
    hide Good, Safe, IndexOk;
    u := s.txnOwner[id];
    assert TxnLocksOk(s);
  }

  lemma CommitterIsKnown(s: State, id: TxnId, u: Tid)
    requires Good(s) && SerialsOk(s.hist) && DurableOk(s)
    requires id in s.store.live && u in s.threads && s.threads[u].id == id && Inserted(s.threads[u])
    ensures IsCreated(s.hist, id)
    ensures HasEnded(s.hist, id) <==> CommitRecorded(s.threads[u])
  {
    GoodIsSafe(s);
    SafeParts(s);
    OwnRefs(s, u);
    assert ThreadKnown(s.hist, s.threads[u]) && EndsOk(s);
    hide Good, Safe, IndexOk, LocksOk, IsCreated, CreatedAs, RefsOk, HistoryOk;
    if HasEnded(s.hist, id) {
      var v :| v in s.threads && RecordedPc(s.threads[v]) && s.threads[v].id == id;
      assert PastCheck(s.threads[v]) && PastCheck(s.threads[u]);
      assert v == u;
    }
    if CommitRecorded(s.threads[u]) {
      assert id in s.hist.used && IsCommitted(s.hist, id, s.threads[u].name, s.store.live[id]);
      assert CommittedSerial(s.hist, s.hist.serial[id]);
    }
  }
}
