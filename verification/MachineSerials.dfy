/** At-most-once commit. Ids come back after a restart, so a transaction is identified by its
    creation number: no creation number is committed twice. */
module MachineSerials {
  import opened Basics
  import opened Transactions
  import opened Stores
  import opened LogText
  import opened Machine
  import opened MachineLocks
  import opened MachineSafety
  import opened MachineFrames
  import opened MachineEnds
  import opened MachineFiles
  import opened MachineSizes

  predicate CommittedSerial(h: History, n: nat) {
    exists j :: 0 <= j < |h.done| && h.done[j].serial == n
  }

  ghost predicate SerialsOk(h: History) {
    && (forall i :: i in h.used ==> i in h.serial && h.serial[i] < h.nextSerial)
    && (forall i, j :: i in h.used && j in h.used && i in h.serial && j in h.serial && h.serial[i] == h.serial[j] ==> i == j)
    && (forall j :: 0 <= j < |h.done| ==> h.done[j].serial < h.nextSerial)
    && (forall i :: i in h.used && i in h.serial && CommittedSerial(h, h.serial[i]) ==> HasEnded(h, i))
  }

  /** No transaction's data is appended twice, over all server runs. */
  ghost predicate AtMostOnce(h: History) {
    forall i, j :: 0 <= i < j < |h.done| ==> h.done[i].serial != h.done[j].serial
  }

  lemma LogSerials(s: State, t: Tid, p: nat)
    requires t in s.threads && s.threads[t].pc == Log(p) && StepLog(s, t, p).Some?
    requires !StepLog(s, t, p).value.fault
    ensures var th, h, h' := s.threads[t], s.hist, StepLog(s, t, p).value.hist;
            && h'.serial == h.serial && h'.nextSerial == h.nextSerial
            && (p == 6 && th.req.CommitReq? && th.id in h.serial ==>
                  |h'.done| == |h.done| + 1 && h'.done[..|h.done|] == h.done && h'.done[|h.done|].serial == h.serial[th.id])
  {
    hide ViewAfter, KindOf, FileSize;
  }

  lemma SerialEffect(s: State, t: Tid, c: Choice)
    requires t in s.threads && Shape(s.threads[t]) && Step(s, t, c).Some? && !Step(s, t, c).value.fault
    ensures var th, h, h' := s.threads[t], s.hist, Step(s, t, c).value.hist;
            && (th.pc.Pick? ==> h'.serial == h.serial[c.n := h.nextSerial] && h'.nextSerial == h.nextSerial + 1)
            && (!th.pc.Pick? ==> h'.serial == h.serial && h'.nextSerial == h.nextSerial)
            && (th.pc == Log(6) && th.req.CommitReq? && th.id in h.serial ==>
                  |h'.done| == |h.done| + 1 && h'.done[..|h.done|] == h.done && h'.done[|h.done|].serial == h.serial[th.id])
  {
    match s.threads[t].pc
    case OpenHeld | Rollback | Writing(_, _) | Pick =>
      hide StepCheck1, StepCheck2, StepBody, StepLog, StepResize, StepRemove, StepExpire, Enroll, Append, Truncate, Content;
    case Log(p) =>
      assert Step(s, t, c) == StepLog(s, t, p) by { hide StepLog; }
      hide Step, StepLog;
      LogSerials(s, t, p);
    case _ =>
      hide Step;
      StepFrame(s, t, c);
  }

  lemma PickKeepsSerials(h: History, h': History, id: TxnId)
    requires SerialsOk(h) && AtMostOnce(h) && id !in h.used
    requires h'.used == h.used + {id} && h'.serial == h.serial[id := h.nextSerial] && h'.nextSerial == h.nextSerial + 1
    requires h'.done == h.done && h'.ends == h.ends
    ensures SerialsOk(h') && AtMostOnce(h')
  {
    assert forall n :: CommittedSerial(h', n) <==> CommittedSerial(h, n);
    assert forall i :: HasEnded(h', i) <==> HasEnded(h, i);
    assert !CommittedSerial(h, h.nextSerial);
  }

  lemma CommitKeepsSerials(h: History, h': History, id: TxnId)
    requires SerialsOk(h) && AtMostOnce(h) && id in h.used && !HasEnded(h, id)
    requires h'.used == h.used && h'.serial == h.serial && h'.nextSerial == h.nextSerial
    requires |h'.done| == |h.done| + 1 && h'.done[..|h.done|] == h.done && h'.done[|h.done|].serial == h.serial[id]
    requires exists kind :: h'.ends == h.ends + [End(id, kind)]
    ensures SerialsOk(h') && AtMostOnce(h')
  {
    forall i ensures HasEnded(h', i) <==> HasEnded(h, i) || i == id {
      if HasEnded(h, i) {
        var j :| 0 <= j < |h.ends| && h.ends[j].id == i;
        assert h'.ends[j].id == i;
      }
      if i == id { assert h'.ends[|h.ends|].id == i; }
    }
    assert forall j :: 0 <= j < |h.done| ==> h'.done[j] == h'.done[..|h.done|][j] == h.done[j];
    assert !CommittedSerial(h, h.serial[id]);
    forall n | CommittedSerial(h', n) ensures CommittedSerial(h, n) || n == h.serial[id] {
      var j :| 0 <= j < |h'.done| && h'.done[j].serial == n;
      assert j < |h.done| ==> h.done[j].serial == n;
    }
  }

  lemma EndsGrowKeepSerials(h: History, h': History)
    requires SerialsOk(h) && AtMostOnce(h)
    requires h'.used == h.used && h'.serial == h.serial && h'.nextSerial == h.nextSerial && h'.done == h.done
    requires h'.ends == h.ends || exists e :: h'.ends == h.ends + [e]
    ensures SerialsOk(h') && AtMostOnce(h')
  {
    forall i | HasEnded(h, i) ensures HasEnded(h', i) {
      var j :| 0 <= j < |h.ends| && h.ends[j].id == i;
      assert h'.ends[j].id == i;
    }
    assert forall n :: CommittedSerial(h', n) <==> CommittedSerial(h, n);
  }

  lemma NextKeepsSerials(s: State, l: Label)
    requires Safe(s) && EndsOk(s) && SerialsOk(s.hist) && AtMostOnce(s.hist)
    requires Next(s, l).Some? && !Next(s, l).value.fault && FreshId(s, l)
    ensures SerialsOk(Next(s, l).value.hist) && AtMostOnce(Next(s, l).value.hist)
  {
    match l
    case Arrive(t, req) =>
    case Act(t, c) =>
      var h, h' := s.hist, Step(s, t, c).value.hist;
      var th := s.threads[t];
      OwnRefs(s, t);
      HistEffect(s, t, c);
      SerialEffect(s, t, c);
      DoneEffect(s, t, c);
      assert th.pc == Log(6) && th.req.CommitReq? ==> th.id in h.used && Pending(th);
      assert th.pc == Log(6) && th.req.CommitReq? ==> !HasEnded(h, th.id);
      hide Step, Safe, EndsOk;
      if th.pc.Pick? {
        PickKeepsSerials(h, h', c.n);
      } else if th.pc == Log(6) && th.req.CommitReq? {
        assert h'.ends == h.ends + [End(th.id, KindOf(th.req))];
        CommitKeepsSerials(h, h', th.id);
      } else {
        EndsGrowKeepSerials(h, h');
      }
  }

  // ---------------------------------------------------------------- retransmitted COMMITs

  lemma CommitsOnlyGrow(s: State, l: Label)
    requires Next(s, l).Some?
    ensures s.store.commits <= Next(s, l).value.store.commits
  {
    match l
    case Arrive(t, req) =>
    case Act(t, c) =>
      match s.threads[t].pc
      case Remove | Pick | Expire =>
        EvictTouches(s.store, s.threads[t].id);
        if s.threads[t].req.NewReq? { EnrollTouches(s.store, c.n, s.threads[t].req.name, c.now); }
        hide Evict, Enroll, StepCheck1, StepCheck2, StepBody, StepOpen, StepWriting, StepLog, StepResize, StepRollback;
      case Writing(_, _) | OpenHeld | Resize | Rollback =>
        hide StepCheck1, StepCheck2, StepBody, StepLog, StepRemove, StepPick, StepExpire, Content, Truncate, FileSize, Append, Appended;
      case Check2 | Body =>
        hide StepCheck1, StepOpen, StepWriting, StepLog, StepResize, StepRollback, StepRemove, StepPick, StepExpire, WriteBody, CommitBody;
      case _ =>
        hide StepCheck2, StepBody, StepOpen, StepWriting, StepResize, StepRollback, StepRemove, StepPick, StepExpire, ViewAfter, Recorded;
  }

  lemma {:induction false} CommitsOnlyGrowRun(s: State, ls: seq<Label>)
    requires Run(s, ls).Some?
    ensures s.store.commits <= Run(s, ls).value.store.commits
    decreases |ls|
  {
    hide Next;
    if ls != [] {
      CommitsOnlyGrow(s, ls[0]);
      CommitsOnlyGrowRun(Next(s, ls[0]).value, ls[1..]);
    }
  }

  /** Once a transaction is in the commit set, the first look of every later COMMIT on it in
      the same server run answers ACK and leaves the store alone. */
  lemma RepeatedCommitsAreAcknowledged(s: State, ls: seq<Label>, t: Tid, c: Choice)
    requires Run(s, ls).Some? && t in Run(s, ls).value.threads
    requires var th := Run(s, ls).value.threads[t]; th.req.CommitReq? && th.pc == Check1 && th.id in s.store.commits
    ensures var s1 := Run(s, ls).value; var th := s1.threads[t];
            && Step(s1, t, c).Some? && Step(s1, t, c).value.store == s1.store
            && t in Step(s1, t, c).value.threads
            && Step(s1, t, c).value.threads[t].pc == Done(Ack(th.id, th.req.seqNum))
  {
    CommitsOnlyGrowRun(s, ls);
    hide Run;
    hide StepCheck2, StepBody, StepOpen, StepWriting, StepLog, StepResize, StepRollback, StepRemove, StepPick, StepExpire;
  }
}
