/** The sizes in the logs: for every file a complete record mentions, the largest size any of
    them gives is the length of the file's committed contents. */
module MachineSizes {
  import opened Basics
  import opened Transactions
  import opened Stores
  import opened LogText
  import opened Machine
  import opened MachineLocks
  import opened MachineSafety
  import opened MachineFrames
  import opened MachineEnds
  import opened MachineFiles
  import opened MachineLogs
  import opened MachineRecords

  predicate SizeReached(h: History, name: FileName) {
    exists kind, j :: 0 <= j < |Records(h, kind)|
                      && Records(h, kind)[j].name == name && Records(h, kind)[j].size == |Base(h, name)|
  }

  ghost predicate SizesLogged(h: History) {
    forall kind, j :: 0 <= j < |Records(h, kind)| ==>
      Records(h, kind)[j].size <= |Base(h, Records(h, kind)[j].name)| && SizeReached(h, Records(h, kind)[j].name)
  }

  lemma SameSizes(h: History, h': History)
    requires SizesLogged(h) && SameRecords(h, h') && h'.initial == h.initial && h'.done == h.done
    ensures SizesLogged(h')
  {
    SameBase(h, h');
    hide Base, Records;
    forall kind, j | 0 <= j < |Records(h', kind)| ensures SizeReached(h', Records(h', kind)[j].name) {
      var name := Records(h', kind)[j].name;
      assert SizeReached(h, Records(h, kind)[j].name);
      var k, i :| 0 <= i < |Records(h, k)| && Records(h, k)[i].name == name && Records(h, k)[i].size == |Base(h, name)|;
      assert Records(h', k)[i].name == name && Records(h', k)[i].size == |Base(h', name)|;
    }
  }

  /** A new record whose size is the committed length keeps the logs right. */
  lemma RecordKeepsSizes(h: History, h': History, kind: LogKind, r: Record)
    requires SizesLogged(h)
    requires forall k :: Records(h', k) == Records(h, k) + if k == kind then [r] else []
    requires r.size == |Base(h', r.name)| >= |Base(h, r.name)|
    requires forall name :: name != r.name ==> Base(h', name) == Base(h, name)
    ensures SizesLogged(h')
  {
    hide Base, Records;
    var last := |Records(h, kind)|;
    assert Records(h', kind)[last] == r;
    assert SizeReached(h', r.name);
    forall k, j | 0 <= j < |Records(h', k)|
      ensures Records(h', k)[j].size <= |Base(h', Records(h', k)[j].name)| && SizeReached(h', Records(h', k)[j].name)
    {
      var q := Records(h', k)[j];
      if j < |Records(h, k)| {
        assert q == Records(h, k)[j];
        if q.name != r.name {
          assert SizeReached(h, q.name);
          var k0, i :| 0 <= i < |Records(h, k0)| && Records(h, k0)[i].name == q.name && Records(h, k0)[i].size == |Base(h, q.name)|;
          assert Records(h', k0)[i] == Records(h, k0)[i];
        }
      } else {
        assert q == r;
      }
    }
  }

  lemma DoneEffect(s: State, t: Tid, c: Choice)
    requires t in s.threads && Shape(s.threads[t]) && Step(s, t, c).Some? && !Step(s, t, c).value.fault
    ensures Step(s, t, c).value.hist.initial == s.hist.initial
    ensures !(s.threads[t].pc == Log(6) && s.threads[t].req.CommitReq?) ==> Step(s, t, c).value.hist.done == s.hist.done
  {
    match s.threads[t].pc
    case OpenHeld | Rollback | Writing(_, _) | Pick => FileStepDone(s, t, c);
    case Log(p) =>
      assert Step(s, t, c) == StepLog(s, t, p) by { hide StepLog; }
      hide Step;
      LogDone(s, t, p);
    case _ =>
      StepFrame(s, t, c);
      hide Step;
  }

  lemma FileStepDone(s: State, t: Tid, c: Choice)
    requires t in s.threads && Step(s, t, c).Some? && !Step(s, t, c).value.fault
    requires s.threads[t].pc.OpenHeld? || s.threads[t].pc.Rollback? || s.threads[t].pc.Writing? || s.threads[t].pc.Pick?
    ensures Step(s, t, c).value.hist.initial == s.hist.initial && Step(s, t, c).value.hist.done == s.hist.done
  {
    hide StepCheck1, StepCheck2, StepBody, StepLog, StepResize, StepRemove, StepExpire, Enroll, Truncate, Content;
  }

  lemma LogDone(s: State, t: Tid, p: nat)
    requires t in s.threads && s.threads[t].pc == Log(p) && StepLog(s, t, p).Some? && !StepLog(s, t, p).value.fault
    ensures StepLog(s, t, p).value.hist.initial == s.hist.initial
    ensures !(p == 6 && s.threads[t].req.CommitReq?) ==> StepLog(s, t, p).value.hist.done == s.hist.done
  {
    hide ViewAfter, KindOf, Piece, FileSize;
  }

  lemma CommitRecordSize(s: State, t: Tid, c: Choice)
    requires Safe(s) && FilesOk(s) && TextsOk(s) && SizesLogged(s.hist) && t in s.threads
    requires s.threads[t].pc == Log(6) && s.threads[t].req.CommitReq? && CommitLogQuiet(s, Act(t, c))
    requires Step(s, t, c).Some? && !Step(s, t, c).value.fault
    ensures SizesLogged(Step(s, t, c).value.hist)
  {
    var s' := Step(s, t, c).value;
    var th := s.threads[t];
    OwnRefs(s, t);
    StepOfLog(s, t, c);
    CommitRecordEffect(s, t);
    CommitRecordKeepsFiles(s, t);
    RecordEffect(s, t, c);
    var serial :| s'.hist.done == s.hist.done + [Commitment(th.id, serial, th.name, s.store.live[th.id])];
    BaseAfterCommit(s.hist, s'.hist, Commitment(th.id, serial, th.name, s.store.live[th.id]));
    assert s'.store.files == s.store.files && s'.hist.pending == s.hist.pending - {th.name};
    assert Content(s'.store.files, th.name) == Base(s'.hist, th.name) + PendingBytes(s'.hist, th.name);
    assert PendingBytes(s'.hist, th.name) == "";
    hide Step, StepLog, Safe, FilesOk, TextsOk, Base, Records, Commits;
    RecordKeepsSizes(s.hist, s'.hist, KindOf(th.req), Record(th.id, th.name, FileSize(s.store.files, th.name)));
  }

  lemma OtherRecordSize(s: State, t: Tid, c: Choice)
    requires Safe(s) && FilesOk(s) && TextsOk(s) && SizesLogged(s.hist) && t in s.threads
    requires s.threads[t].pc == Log(6) && !s.threads[t].req.CommitReq?
    requires CommitLogQuiet(s, Act(t, c)) && RecordQuiet(s, Act(t, c))
    requires Step(s, t, c).Some? && !Step(s, t, c).value.fault
    ensures SizesLogged(Step(s, t, c).value.hist)
  {
    var s' := Step(s, t, c).value;
    var th := s.threads[t];
    OwnRefs(s, t);
    RecordEffect(s, t, c);
    DoneEffect(s, t, c);
    assert Content(s.store.files, th.name) == Base(s.hist, th.name) + PendingBytes(s.hist, th.name);
    assert Base(s.hist, th.name) + "" == Base(s.hist, th.name);
    SameBase(s.hist, s'.hist);
    hide Step, Safe, FilesOk, TextsOk, Base, Records;
    RecordKeepsSizes(s.hist, s'.hist, KindOf(th.req), Record(th.id, th.name, FileSize(s.store.files, th.name)));
  }

  lemma NextKeepsSizes(s: State, l: Label)
    requires Safe(s) && FilesOk(s) && TextsOk(s) && SizesLogged(s.hist) && Next(s, l).Some? && !Next(s, l).value.fault
    requires CommitLogQuiet(s, l) && RecordQuiet(s, l)
    ensures SizesLogged(Next(s, l).value.hist)
  {
    match l
    case Arrive(t, req) =>
      SameSizes(s.hist, Next(s, l).value.hist);
    case Act(t, c) =>
      OwnRefs(s, t);
      hide Step, Safe, FilesOk, TextsOk, SizesLogged, CommitLogQuiet;
      if s.threads[t].pc == Log(6) {
        if s.threads[t].req.CommitReq? { CommitRecordSize(s, t, c); } else { OtherRecordSize(s, t, c); }
      } else {
        StepSameRecords(s, t, c);
        DoneEffect(s, t, c);
        SameSizes(s.hist, Step(s, t, c).value.hist);
      }
  }

  // ---------------------------------------------------------------- everything together

  /** The premises under which the server recovers; each is a condition on one step. */
  ghost predicate Polite(s: State, l: Label) {
    && FreshId(s, l) && TimeoutQuiet(s, l) && RollbackQuiet(s, l)
    && CommitLogQuiet(s, l) && RecordQuiet(s, l) && NameReadable(l)
  }

  ghost predicate PoliteRun(s: State, ls: seq<Label>)
    decreases |ls|
  {
    ls == [] || (Polite(s, ls[0]) && (Next(s, ls[0]).Some? ==> PoliteRun(Next(s, ls[0]).value, ls[1..])))
  }

  ghost predicate Good(s: State) {
    Safe(s) && EndsOk(s) && FilesOk(s) && TextsOk(s) && RecordsOk(s) && SizesLogged(s.hist)
  }

  lemma NextIsGood(s: State, l: Label)
    requires Good(s) && Polite(s, l) && Next(s, l).Some?
    ensures Good(Next(s, l).value)
  {
    hide Next, Safe, EndsOk, FilesOk, TextsOk, RecordsOk, SizesLogged, FreshId, TimeoutQuiet, RollbackQuiet, CommitLogQuiet,
         RecordQuiet, NameReadable;
    NextIsSafe(s, l);
    SafeMeansNoFault(Next(s, l).value);
    NextKeepsEnds(s, l);
    NextKeepsFiles(s, l);
    NextKeepsTexts(s, l);
    NextKeepsRecords(s, l);
    NextKeepsSizes(s, l);
  }

  lemma {:induction false} RunIsGood(s: State, ls: seq<Label>)
    requires Good(s) && PoliteRun(s, ls) && Run(s, ls).Some?
    ensures Good(Run(s, ls).value)
    decreases |ls|
  {
    hide Next, Good, Polite;
    if ls != [] {
      NextIsGood(s, ls[0]);
      RunIsGood(Next(s, ls[0]).value, ls[1..]);
    }
  }
}
