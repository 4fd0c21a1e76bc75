/** The failures are reached: from a first start on an empty directory, runs of ordinary requests
    that end in each of the states the exact conditions warn of, and what becomes of them. */
module Witnesses {
  import opened Basics
  import opened Text
  import opened Transactions
  import opened Stores
  import opened LogText
  import opened Machine
  import opened MachineLocks
  import opened MachineSafety
  import opened MachineFiles
  import opened MachineLogs
  import opened MachineRecords
  import opened MachineSizes
  import opened MachineSerials
  import opened Effects
  import opened Solo
  import opened Recovery
  import opened Crash
  import Durability
  import Interleaving
  import Limits
  import Rollbacks
  import Restarts

  // ---------------------------------------------------------------- quiet states

  const NOTHING: Store := Store(map[], {}, map[], map[], 0, map[], NO_LOGS)

  /** A first start in an empty directory. */
  function Empty(): State {
    Boot(map[])
  }

  /** Threads 0 to n - 1 have answered, no lock is held, and the store is st. */
  ghost predicate Calm(s: State, st: Store, n: nat) {
    && s.store == st && !s.fault
    && (forall t: Tid :: t in s.threads <==> t < n)
    && (forall t :: t in s.threads ==> s.threads[t].pc.Done?)
    && s.member == None && s.global == None && s.txnOwner == map[] && s.fileOwner == map[]
  }

  lemma CalmNext(s: State, st: Store, n: nat, st': Store, resp: Response, s': State)
    requires Calm(s, st, n) && Answered(s, n, st', resp, s')
    ensures Calm(s', st', n + 1)
  {
  }

  lemma CalmAlone(s: State, st: Store, n: nat, id: TxnId, name: FileName, a: Address)
    requires Calm(s, st, n)
    ensures Alone(s, n, id) && NobodyWriting(s, n, name) && MayOpen(true, s, n, a) && NoCommitRecordOpen(s, n) && Quiet(s, id)
  {
  }

  lemma EmptyIsCalm()
    ensures Calm(Empty(), NOTHING, 0)
    ensures Good(Empty()) && Empty().hist.used == {}
  {
    hide ViewOf, Good;
    BootIsGood(map[]);
  }

  lemma Unpolite(s: State, s': State)
    requires Reaches(true, s, s')
    ensures Reaches(false, s, s')
  {
    var ls :| Run(s, ls) == Some(s') && PoliteRun(s, ls);
  }

  // ---------------------------------------------------------------- one transaction, written once

  /** One transaction, written once, with these logs. */
  function Single(i: TxnId, f: FileName, d: Data, logs: PerLog<string>): Store {
    Store(map[i := Txn(0, map[1 := d], 1, 0)], {}, map[f := 0], map[0 := FileAttributes(f, 0, 1)], 1, map[], logs)
  }

  /** Transaction i on file f with data d under number 1. */
  function Store1(i: TxnId, f: FileName, d: Data): Store {
    Single(i, f, d, PerLog(Render(Record(i, f, 0)), "", "", ""))
  }

  lemma Store1Is(i: TxnId, f: FileName, d: Data)
    ensures var st := NewEffect(NOTHING, i, f, 0);
            i in st.live && WriteEffect(st, i, 1, d, 0) == (Store1(i, f, d), Ack(i, 1))
  {
    hide Render;
    var st := NewEffect(NOTHING, i, f, 0);
    var text := Render(Record(i, f, 0));
    assert "" + text == text;
    assert st == Store(map[i := Txn(0, map[], 1, 0)], {}, map[f := 0], map[0 := FileAttributes(f, 0, 1)], 1, map[],
           PerLog(text, "", "", ""));
    var st' := WriteEffect(st, i, 1, d, 0).0;
    assert st'.live == map[i := Txn(0, map[1 := d], 1, 0)];
  }

  lemma OneTransaction(i: TxnId, f: FileName, d: Data) returns (s: State)
    requires IsWord(f)
    ensures Reaches(true, Empty(), s) && Good(s) && Calm(s, Store1(i, f, d), 2)
  {
    hide Reaches, Good, Empty, NewEffect, WriteEffect, Alone, NobodyWriting;
    var st0 := NOTHING;
    EmptyIsCalm();
    CalmAlone(Empty(), st0, 0, -1, f, 0);
    var s1 := NewAlone(true, Empty(), 0, -1, f, i, 0);
    CalmNext(Empty(), st0, 0, NewEffect(st0, i, f, 0), Ack(i, 0), s1);
    Store1Is(i, f, d);
    CalmAlone(s1, NewEffect(st0, i, f, 0), 1, i, f, 0);
    s := WriteAlone(true, s1, 1, i, 1, d, 0);
    CalmNext(s1, s1.store, 1, Store1(i, f, d), Ack(i, 1), s);
    ReachesThen(true, Empty(), s1, s);
    ReachesGood(Empty(), s);
  }

  // ---------------------------------------------------------------- two transactions, each written once

  /** Transactions i on f and j on g. */
  function Store2(i: TxnId, f: FileName, d: Data, j: TxnId, g: FileName, e: Data): Store {
    var logs := PerLog(Render(Record(i, f, 0)) + Render(Record(j, g, 0)), "", "", "");
    if f == g then
      Store(map[i := Txn(0, map[1 := d], 1, 0), j := Txn(0, map[1 := e], 1, 0)], {}, map[f := 0],
            map[0 := FileAttributes(f, 0, 2)], 1, map[], logs)
    else
      Store(map[i := Txn(0, map[1 := d], 1, 0), j := Txn(1, map[1 := e], 1, 0)], {}, map[f := 0, g := 1],
            map[0 := FileAttributes(f, 0, 1), 1 := FileAttributes(g, 0, 1)], 2, map[], logs)
  }

  /** The store after the two NEW_TXN. */
  function Opened2(i: TxnId, f: FileName, j: TxnId, g: FileName): Store {
    NewEffect(NewEffect(NOTHING, i, f, 0), j, g, 0)
  }

  lemma Store2Is(i: TxnId, f: FileName, d: Data, j: TxnId, g: FileName, e: Data)
    requires i != j
    ensures var st := WriteEffect(Opened2(i, f, j, g), i, 1, d, 0);
            && st.1 == Ack(i, 1)
            && WriteEffect(st.0, j, 1, e, 0) == (Store2(i, f, d, j, g, e), Ack(j, 1))
  {
    hide Render;
    var st := Opened2(i, f, j, g);
    var (ri, rj) := (Render(Record(i, f, 0)), Render(Record(j, g, 0)));
    assert "" + ri == ri;
    OpenedIs(i, f, j, g);
    var st1 := WriteEffect(st, i, 1, d, 0).0;
    var st2 := WriteEffect(st1, j, 1, e, 0).0;
    hide Opened2;
    var a := if f == g then 0 else 1;
    assert st1.live == map[i := Txn(0, map[1 := d], 1, 0), j := Txn(a, map[], 1, 0)];
    assert st2.live == map[i := Txn(0, map[1 := d], 1, 0), j := Txn(a, map[1 := e], 1, 0)];
  }

  lemma OpenedIs(i: TxnId, f: FileName, j: TxnId, g: FileName)
    requires i != j
    ensures var logs := PerLog(Render(Record(i, f, 0)) + Render(Record(j, g, 0)), "", "", ""); var a := if f == g then 0 else 1;
            Opened2(i, f, j, g) == Store(map[i := Txn(0, map[], 1, 0), j := Txn(a, map[], 1, 0)], {},
              if f == g then map[f := 0] else map[f := 0, g := 1],
              if f == g then map[0 := FileAttributes(f, 0, 2)] else map[0 := FileAttributes(f, 0, 1), 1 := FileAttributes(g, 0, 1)],
              if f == g then 1 else 2, map[], logs)
  {
    hide Render;
    var text := Render(Record(i, f, 0));
    assert "" + text == text;
    var st1 := NewEffect(NOTHING, i, f, 0);
    assert st1 == Store(map[i := Txn(0, map[], 1, 0)], {}, map[f := 0], map[0 := FileAttributes(f, 0, 1)], 1, map[],
           PerLog(text, "", "", ""));
    hide Enroll;
    OpensAnother(st1, i, f, j, g);
  }

  lemma OpensAnother(st: Store, i: TxnId, f: FileName, j: TxnId, g: FileName)
    requires st == Store(map[i := Txn(0, map[], 1, 0)], {}, map[f := 0], map[0 := FileAttributes(f, 0, 1)], 1, map[], st.logs) && i != j
    ensures var a := if f == g then 0 else 1;
            Enroll(st, j, g, 0) == Store(map[i := Txn(0, map[], 1, 0), j := Txn(a, map[], 1, 0)], {},
              if f == g then map[f := 0] else map[f := 0, g := 1],
              if f == g then map[0 := FileAttributes(f, 0, 2)] else map[0 := FileAttributes(f, 0, 1), 1 := FileAttributes(g, 0, 1)],
              if f == g then 1 else 2, map[], st.logs)
  {
    var st' := Enroll(st, j, g, 0);
    if f == g {
      assert st'.attrs == map[0 := FileAttributes(f, 0, 2)];
    }
  }

  lemma TwoTransactions(i: TxnId, f: FileName, d: Data, j: TxnId, g: FileName, e: Data) returns (s: State)
    requires IsWord(f) && IsWord(g) && i != j
    ensures Reaches(true, Empty(), s) && Good(s) && Calm(s, Store2(i, f, d, j, g, e), 4)
  {
    hide Reaches, Good, Empty, WriteEffect, Alone, NobodyWriting;
    var s2 := TwoOpened(i, f, j, g);
    Store2Is(i, f, d, j, g, e);
    hide NewEffect, Opened2;
    CalmAlone(s2, Opened2(i, f, j, g), 2, i, f, 0);
    var s3 := WriteAlone(true, s2, 2, i, 1, d, 0);
    var st3 := WriteEffect(Opened2(i, f, j, g), i, 1, d, 0).0;
    CalmNext(s2, s2.store, 2, st3, Ack(i, 1), s3);
    CalmAlone(s3, st3, 3, j, g, 0);
    s := WriteAlone(true, s3, 3, j, 1, e, 0);
    CalmNext(s3, st3, 3, Store2(i, f, d, j, g, e), Ack(j, 1), s);
    ReachesThen(true, Empty(), s2, s3);
    ReachesThen(true, Empty(), s3, s);
    EmptyIsCalm();
    ReachesGood(Empty(), s);
  }

  lemma TwoOpened(i: TxnId, f: FileName, j: TxnId, g: FileName) returns (s: State)
    requires IsWord(f) && IsWord(g) && i != j
    ensures Reaches(true, Empty(), s) && Calm(s, Opened2(i, f, j, g), 2)
  {
    hide Reaches, Good, Empty, Alone, NobodyWriting;
    var st0 := NOTHING;
    EmptyIsCalm();
    CalmAlone(Empty(), st0, 0, -1, f, 0);
    var s1 := NewAlone(true, Empty(), 0, -1, f, i, 0);
    var st1 := NewEffect(st0, i, f, 0);
    assert j !in st1.live by { hide Logged; }
    hide NewEffect;
    CalmNext(Empty(), st0, 0, st1, Ack(i, 0), s1);
    ReachesGood(Empty(), s1);
    CalmAlone(s1, st1, 1, -1, g, 0);
    s := NewAlone(true, s1, 1, -1, g, j, 0);
    CalmNext(s1, st1, 1, Opened2(i, f, j, g), Ack(j, 0), s);
    ReachesThen(true, Empty(), s1, s);
  }

  // ---------------------------------------------------------------- a rollback and another commit

  /** A failed commit about to truncate, and a ready commit on the same file about to lock it. */
  lemma CommitSlipsIn(i: TxnId, j: TxnId, f: FileName, d: Data, e: Data, b: nat) returns (s: State)
    requires IsWord(f) && i != j && b < |d|
    ensures Reaches(true, Empty(), s) && Good(s)
    ensures Rollbacks.SlippingIn(s, 4, 5, "", d[..b]) && Rollbacks.DataOf(s, 5) == e
    ensures 4 in s.threads && 5 in s.threads && s.threads[5].req == CommitReq(j, 1) && s.threads[5].id == j
            && s.threads[5].name == f && s.store.logs.commits == ""
  {
    hide Reaches, Good, Empty, CommitBody, Rollbacks.SlippingIn, Rollbacks.DataOf;
    var s0 := TwoTransactions(i, f, d, j, f, e);
    var s1 := FailedCommit(s0, i, j, f, d, e, b);
    CommitReady(i, j, f, d, e);
    assert s1.store.live[j] == Txn(0, map[1 := e], 1, 0);
    s := DecideAlone(true, s1, 5, j, 1, 0);
    assert s1.store.live[j := Txn(0, map[1 := e], 1, 0)] == s1.store.live && map[i := 4][j := 5] == map[i := 4, j := 5];
    hide Calm;
    ThatSlipsIn(s, i, j, f, d, e, b);
    ReachesThen(true, Empty(), s0, s1);
    ReachesThen(true, Empty(), s1, s);
    EmptyIsCalm();
    ReachesGood(Empty(), s);
  }

  lemma ThatSlipsIn(s: State, i: TxnId, j: TxnId, f: FileName, d: Data, e: Data, b: nat)
    requires i != j && b < |d| && 4 in s.threads && 5 in s.threads
    requires s.threads[4] == Thread(CommitReq(i, 1), Rollback, i, 0, f) && s.threads[5] == Thread(CommitReq(j, 1), LockFile, j, 0, f)
    requires s.store == Store2(i, f, d, j, f, e).(files := map[f := d[..b]]) && s.txnOwner == map[i := 4, j := 5]
    requires s.fileOwner == map[] && s.member == None && s.global == None
    ensures Rollbacks.SlippingIn(s, 4, 5, "", d[..b]) && Rollbacks.DataOf(s, 5) == e
  {
    One(e);
    assert "" + d[..b] == d[..b];
    assert s.store.live[j] == Txn(0, map[1 := e], 1, 0);
    hide Assemble, Render;
  }

  /** With one buffer, data 1..1 is that buffer. */
  lemma One(d: Data)
    ensures Assemble(map[1 := d], 1) == d && Assemble(map[1 := d], 0) == ""
  {
    assert Assemble(map[1 := d], 0) == "" && "" + d == d;
  }

  lemma CommitReady(i: TxnId, j: TxnId, f: FileName, d: Data, e: Data)
    ensures CommitBody(Txn(0, map[1 := d], 1, 0), i, 1, 0) == (Txn(0, map[1 := d], 1, 0), None)
    ensures CommitBody(Txn(0, map[1 := e], 1, 0), j, 1, 0) == (Txn(0, map[1 := e], 1, 0), None)
  {
    assert FirstMissing(map[1 := d], 1, 1) == None && FirstMissing(map[1 := e], 1, 1) == None;
  }

  /** Commit of i fails after b bytes; up to its truncation. */
  lemma FailedCommit(s: State, i: TxnId, j: TxnId, f: FileName, d: Data, e: Data, b: nat) returns (s': State)
    requires Calm(s, Store2(i, f, d, j, f, e), 4) && i != j && b < |d|
    ensures Reaches(true, s, s')
    ensures s' == s.Put(4, Thread(CommitReq(i, 1), Rollback, i, 0, f))
                   .(store := s.store.(files := map[f := d[..b]]), txnOwner := map[i := 4], hist := s'.hist)
  {
    hide Reaches;
    CalmAlone(s, s.store, 4, i, f, 0);
    CommitReady(i, j, f, d, e);
    Store2Index(i, f, d, j, f, e);
    hide CommitBody, Alone, IndexOk, Opened, Writer;
    var txn, s1 := OpenReady(true, s, 4, i, 1, 0);
    One(d);
    var s2 := FailSomewhereAlone(true, s, 4, i, 1, txn, s1, b);
    s' := ToRollback(true, s2, s, 4);
    ReachesThen(true, s, s1, s2);
    ReachesThen(true, s, s2, s');
    hide HoldsBoth, Assemble;
    Overwrite(s.threads, 4);
    assert s.store.live[i := txn] == s.store.live;
    assert "" + d[..b] == d[..b];
    assert map[][f := d[..b]] == map[f := d[..b]];
  }

  lemma Store2Index(i: TxnId, f: FileName, d: Data, j: TxnId, g: FileName, e: Data)
    requires i != j
    ensures IndexOk(Store2(i, f, d, j, g, e))
  {
    Store2Is(i, f, d, j, g, e);
    NewKeepsIndex(NOTHING, i, f, 0);
    var st1 := NewEffect(NOTHING, i, f, 0);
    assert j !in st1.live by { hide Logged; }
    NewKeepsIndex(st1, j, g, 0);
    WriteKeepsIndex(Opened2(i, f, j, g), i, 1, d, 0);
    WriteKeepsIndex(WriteEffect(Opened2(i, f, j, g), i, 1, d, 0).0, j, 1, e, 0);
    hide NewEffect, WriteEffect, IndexOk, Store2;
  }

  lemma Store1Index(i: TxnId, f: FileName, d: Data)
    ensures IndexOk(Store1(i, f, d))
  {
    Store1Is(i, f, d);
    NewKeepsIndex(NOTHING, i, f, 0);
    WriteKeepsIndex(NewEffect(NOTHING, i, f, 0), i, 1, d, 0);
    hide NewEffect, WriteEffect, IndexOk, Store1;
  }

  /** Isolation fails in ordinary use: a write of one commit fails, another commit on the file is
      acknowledged with its record complete, and the file ends without a byte of it. */
  lemma AcknowledgedCommitIsCutAway(i: TxnId, j: TxnId, f: FileName, d: Data, e: Data, b: nat) returns (s: State)
    requires IsWord(f) && i != j && b < |d|
    ensures Reaches(false, Empty(), s)
    ensures 5 in s.threads && s.threads[5].pc == Done(Ack(j, 1)) && Content(s.store.files, f) == ""
    ensures s.store.logs.commits == Render(Record(j, f, b + |e|))
  {
    hide Rollbacks.SlippingIn, Rollbacks.DataOf, Rollbacks.BothAnswered, Rollbacks.LoggedSize, Rollbacks.FinalContent;
    hide Reaches, Good, Render, Empty;
    var s1 := CommitSlipsIn(i, j, f, d, e, b);
    s := Rollbacks.WhereverTheTruncationFalls(s1, 4, 5, "", d[..b], Rollbacks.BeforeResize);
    CutSizes(d[..b], e);
    AnsweredParts(s1, f, j, b + |e|, s);
    Unpolite(Empty(), s1);
    ReachesThen(false, Empty(), s1, s);
  }

  lemma CutSizes(torn: Data, e: Data)
    ensures Rollbacks.LoggedSize("", torn, e, Rollbacks.BeforeResize) == |torn| + |e|
    ensures Rollbacks.FinalContent("", torn, e, Rollbacks.BeforeResize) == ""
  {
    assert "" + torn == torn;
  }

  lemma AnsweredParts(s1: State, f: FileName, j: TxnId, size: nat, s: State)
    requires 4 in s1.threads && 5 in s1.threads && s1.threads[5].req == CommitReq(j, 1)
    requires s1.threads[5].id == j && s1.threads[5].name == f && s1.store.logs.commits == ""
    requires Rollbacks.BothAnswered(s1, 4, 5, size, "", s)
    ensures Reaches(false, s1, s) && 5 in s.threads && s.threads[5].pc == Done(Ack(j, 1)) && Content(s.store.files, f) == ""
    ensures s.store.logs.commits == Render(Record(j, f, size))
  {
    hide Reaches, Render;
    assert "" + Render(Record(j, f, size)) == Render(Record(j, f, size));
  }

  // ---------------------------------------------------------------- a timeout and a handler

  /** A WRITE past its re-check, and a timer under the member mutex that finds the transaction
      15 seconds old: the premise of `Limits.ExpiryIsSafeIff` with its bad side. The timer
      removes the transaction and the WRITE then follows a reference to memory that is gone. */
  lemma ExpiryCatchesAWrite(i: TxnId, f: FileName, d: Data, e: Data) returns (s: State)
    requires IsWord(f)
    ensures Reaches(true, Empty(), s) && Good(s)
    ensures 3 in s.threads && s.threads[3].pc == Expire && s.threads[3].id == i
    ensures Expired(s, i, 15) && !Quiet(s, i)
    ensures var s1 := Step(s, 3, Choice(0, true, 15));
            && s1.Some? && !Safe(s1.value) && 2 in s1.value.threads
            && var s2 := Step(s1.value, 2, ANY); s2.Some? && s2.value.fault
  {
    hide Reaches, Good, Empty, Safe, Expired, Quiet, Alone;
    var s0 := OneTransaction(i, f, d);
    s := WriteAndTimer(s0, i, f, d, e);
    ReachesThen(true, Empty(), s0, s);
    EmptyIsCalm();
    ReachesGood(Empty(), s);
    Durability.GoodIsSafe(s);
    hide Calm, Store1, Step;
    Limits.ExpiryIsSafeIff(s, 3, Choice(0, true, 15));
    CaughtWriteFaults(s, i);
  }

  lemma WriteAndTimer(s: State, i: TxnId, f: FileName, d: Data, e: Data) returns (s': State)
    requires Calm(s, Store1(i, f, d), 2)
    ensures Reaches(true, s, s') && 2 in s'.threads && 3 in s'.threads
    ensures s'.threads[3].pc == Expire && s'.threads[3].id == i && s'.threads[2].pc == Body && s'.threads[2].id == i
    ensures Expired(s', i, 15) && !Quiet(s', i) && i in s'.store.live && s'.store.live[i].attr in s'.store.attrs
  {
    hide Reaches, Render;
    CalmAlone(s, s.store, 2, i, f, 0);
    var s1 := ToBody(true, s, 2, WriteReq(i, 2, e));
    s' := Enter(true, s1, 3, TimerReq(i));
    ReachesThen(true, s, s1, s');
    hide Calm;
    assert PastCheck(s'.threads[2]) && s'.threads[2].id == i;
  }

  lemma CaughtWriteFaults(s: State, i: TxnId)
    requires 2 in s.threads && 3 in s.threads && s.threads[3].pc == Expire && s.threads[3].id == i
    requires s.threads[2].pc == Body && s.threads[2].id == i
    requires i in s.store.live && Expired(s, i, 15) && s.store.live[i].attr in s.store.attrs
    ensures var s1 := Step(s, 3, Choice(0, true, 15));
            s1.Some? && 2 in s1.value.threads && var s2 := Step(s1.value, 2, ANY); s2.Some? && s2.value.fault
  {
    Limits.ExpiryLeavesOthers(s, 3, 2, Choice(0, true, 15));
    hide Evict, Expired, WriteBody, CommitBody;
    hide StepCheck1, StepCheck2, StepOpen, StepWriting, StepLog, StepResize, StepRollback, StepRemove, StepPick;
  }

  // ---------------------------------------------------------------- a size logged in mid-commit

  /** A commit with its bytes in the file, and an ABORT on that file about to write the size of
      its record: if the process dies after that write, every recovery keeps the bytes. */
  lemma UncommittedDataSurvives(i: TxnId, j: TxnId, f: FileName, d: Data, e: Data) returns (s: State)
    requires IsWord(f) && i != j && d != ""
    ensures Reaches(true, Empty(), s) && Good(s)
    ensures 5 in s.threads && s.threads[5].pc == Log(6) && s.threads[5].req == AbortReq(j, 0) && s.threads[5].name == f
    ensures Base(s.hist, f) == "" && PendingBytes(s.hist, f) == d && Step(s, 5, ANY).Some?
    ensures forall st' :: Recovered(Step(s, 5, ANY).value.store, st') ==> Content(st'.files, f) == d
  {
    hide Reaches, Good, Empty, Base, Recovered;
    var s0 := TwoTransactions(i, f, d, j, f, e);
    var s1 := MidCommit(s0, i, j, f, d, e);
    s := AbortLogging(s1, i, j, f, d, e);
    ReachesThen(true, Empty(), s0, s1);
    ReachesThen(true, Empty(), s1, s);
    EmptyIsCalm();
    ReachesGood(Empty(), s);
    NothingCommittedYet(s, 4, f, d);
    hide Calm, Step;
    forall st' | Recovered(Step(s, 5, ANY).value.store, st') ensures Content(st'.files, f) == d {
      Limits.RecordDuringCommitIff(s, 5, ANY, st');
    }
  }

  /** Commit of i with its one buffer written and its loop not finished. */
  lemma MidCommit(s: State, i: TxnId, j: TxnId, f: FileName, d: Data, e: Data) returns (s': State)
    requires Calm(s, Store2(i, f, d, j, f, e), 4) && i != j && d != ""
    ensures Reaches(true, s, s')
    ensures s' == s.Put(4, Thread(CommitReq(i, 1), Writing(1, |d|), i, 0, f))
                   .(store := s.store.(files := map[f := d]), txnOwner := map[i := 4], fileOwner := map[0 := 4], hist := s'.hist)
  {
    hide Reaches;
    CalmAlone(s, s.store, 4, i, f, 0);
    CommitReady(i, j, f, d, e);
    Store2Index(i, f, d, j, f, e);
    hide CommitBody, Render, IndexOk, Alone, HoldsBoth, Opened;
    var txn, s1 := OpenReady(true, s, 4, i, 1, 0);
    OpenedFirst(s, i, j, f, d, e, txn, s1);
    hide Calm;
    s' := ChunkAlone(true, s1, 4, txn, 1, 0, |d|);
    ReachesThen(true, s, s1, s');
    hide *;
    AllInFile(s, s1, s', f, d);
  }

  lemma AllInFile(s: State, s1: State, s': State, f: FileName, d: Data)
    requires 4 in s1.threads && s1.store.files == map[f := ""]
    requires s1 == s.Put(4, s1.threads[4]).(store := s1.store, txnOwner := s1.txnOwner, fileOwner := s1.fileOwner, hist := s1.hist)
    requires s' == s1.Put(4, s1.threads[4].(pc := Writing(1, 0 + |d|)))
                     .(store := WithFile(s1.store, f, d[0..0 + |d|]), hist := s'.hist)
    ensures s' == s.Put(4, s1.threads[4].(pc := Writing(1, |d|)))
                   .(store := s1.store.(files := map[f := d]), txnOwner := s1.txnOwner, fileOwner := s1.fileOwner, hist := s'.hist)
  {
    Overwrite(s.threads, 4);
    assert d[0..0 + |d|] == d && "" + d == d;
    assert map[f := ""][f := d] == map[f := d];
  }

  lemma OpenedFirst(s: State, i: TxnId, j: TxnId, f: FileName, d: Data, e: Data, txn: Txn, s1: State)
    requires Calm(s, Store2(i, f, d, j, f, e), 4) && i != j && txn == Txn(0, map[1 := d], 1, 0) && Opened(s, 4, i, 1, txn, s1)
    ensures s1 == s.Put(4, Thread(CommitReq(i, 1), Writing(1, 0), i, 0, f))
                   .(store := s.store.(files := map[f := ""]), txnOwner := map[i := 4], fileOwner := map[0 := 4], hist := s1.hist)
  {
    hide Render;
    assert s.store.live[i := txn] == s.store.live && "" + "" == "" && map[][f := ""] == map[f := ""];
  }

  /** ABORT of j up to the size of its record. */
  lemma AbortLogging(s: State, i: TxnId, j: TxnId, f: FileName, d: Data, e: Data) returns (s': State)
    requires i != j && s.store == Store2(i, f, d, j, f, e).(files := map[f := d])
    requires 5 !in s.threads && s.txnOwner == map[i := 4] && s.fileOwner == map[0 := 4] && s.member == None && s.global == None && !s.fault
    requires 4 in s.threads && s.threads[4] == Thread(CommitReq(i, 1), Writing(1, |d|), i, 0, f)
    requires forall t :: t in s.threads && t != 4 ==> s.threads[t].pc.Done?
    ensures Reaches(true, s, s')
    ensures 4 in s'.threads && s'.threads[4] == s.threads[4]
    ensures 5 in s'.threads && s'.threads[5] == Thread(AbortReq(j, 0), Log(6), j, 0, f)
    ensures s'.store.files == s.store.files && s'.store.live == s.store.live
  {
    hide Reaches;
    assert s.store.live[j] == Txn(0, map[1 := e], 1, 0) && s.store.attrs[0].name == f;
    var s1 := RecheckForAbort(true, s, 5, j, 0);
    var s2 := LogOpens(true, s1, 5);
    s' := PiecesAlone(true, s2, 5, 0, 4);
    ReachesThen(true, s, s1, s2);
    ReachesThen(true, s, s2, s');
    hide Store2, FileSize;
  }

  /** In a good state a commit's own bytes are all that is uncommitted in its file; here they are
      all there is. */
  lemma NothingCommittedYet(s: State, t: Tid, f: FileName, d: Data)
    requires Good(s) && t in s.threads && s.threads[t].req.CommitReq? && s.threads[t].name == f && Content(s.store.files, f) == d
    requires s.threads[t].id in s.store.live && s.store.live[s.threads[t].id].buffers == map[1 := d]
    requires s.threads[t].pc == Writing(1, |d|) || s.threads[t].pc == Log(0)
    requires s.store.live[s.threads[t].id].maxSeq == 1
    ensures PendingBytes(s.hist, f) == d && Base(s.hist, f) == ""
  {
    assert FilesOk(s);
    var th := s.threads[t];
    hide *;
    ContentsAt(s, f);
    ProgressAt(s, t);
    AllWritten(s, th, d);
    assert |d| == |Base(s.hist, f)| + |d|;
  }

  lemma AllWritten(s: State, th: Thread, d: Data)
    requires ProgressOk(s.store, s.hist, th) && th.req.CommitReq? && (th.pc == Writing(1, |d|) || th.pc == Log(0))
    requires th.id in s.store.live && s.store.live[th.id].buffers == map[1 := d] && s.store.live[th.id].maxSeq == 1
    ensures PendingBytes(s.hist, th.name) == d
  {
    One(d);
    assert "" + d[..|d|] == d;
    hide Assemble, PendingBytes;
  }

  // ---------------------------------------------------------------- an acknowledgement too early

  lemma {:induction false} RunIsLife(s: State, ls: seq<Label>)
    ensures Life(s, seq(|ls|, i requires 0 <= i < |ls| => Does(ls[i]))) == Run(s, ls)
    ensures PoliteRun(s, ls) ==> PoliteLife(s, seq(|ls|, i requires 0 <= i < |ls| => Does(ls[i])))
    decreases |ls|
  {
    hide Next, Polite;
    var es := seq(|ls|, i requires 0 <= i < |ls| => Does(ls[i]));
    if ls != [] {
      assert es[1..] == seq(|ls[1..]|, i requires 0 <= i < |ls[1..]| => Does(ls[1..][i]));
      if Next(s, ls[0]).Some? { RunIsLife(Next(s, ls[0]).value, ls[1..]); }
    }
  }

  lemma ReachedIsSound(s: State)
    requires Reaches(true, Empty(), s)
    ensures Good(s) && SerialsOk(s.hist) && Durability.DurableOk(s)
  {
    hide Run, PoliteRun, Good, SerialsOk, AtMostOnce, Durability.DurableOk, Life, PoliteLife;
    var ls :| Run(Empty(), ls) == Some(s) && PoliteRun(Empty(), ls);
    RunIsLife(Empty(), ls);
    BootIsGood(map[]);
    Durability.NobodyRecorded(Empty()) by { Durability.RestartBoot(map[]); }
    hide Boot;
    LifeIsGood(Empty(), seq(|ls|, i requires 0 <= i < |ls| => Does(ls[i])));
    Durability.LifeKeepsDurable(Empty(), seq(|ls|, i requires 0 <= i < |ls| => Does(ls[i])));
  }

  /** The first COMMIT is in the commit set and has logged nothing; a retransmission is
      acknowledged. If the process dies right then, the transaction comes back open, with its
      buffers gone and none of its data in the file. */
  lemma AcknowledgedTooEarly(i: TxnId, f: FileName, d: Data) returns (s: State)
    requires IsWord(f)
    ensures Reaches(true, Empty(), s) && Good(s)
    ensures 3 in s.threads && s.threads[3].pc == Check1 && s.threads[3].req == CommitReq(i, 1)
    ensures var s' := Step(s, 3, ANY);
            && s'.Some? && 3 in s'.value.threads && s'.value.threads[3].pc == Done(Ack(i, 1))
            && forall st' :: Recovered(s'.value.store, st') ==>
                 i in st'.live && st'.live[i].buffers == map[] && Content(st'.files, f) == ""
  {
    hide Reaches, Good, Empty, SerialsOk, Recovered, Durability.DurableOk;
    var s0 := OneTransaction(i, f, d);
    var s1 := CommitBegun(s0, i, f, d);
    s := Enter(true, s1, 3, CommitReq(i, 1));
    ReachesThen(true, Empty(), s0, s1);
    ReachesThen(true, Empty(), s1, s);
    ReachedIsSound(s);
    NothingCommittedYet(s, 2, f, d);
    hide Calm;
    AnsweredFromTheSet(s, 3);
    forall st' | Recovered(Step(s, 3, ANY).value.store, st')
      ensures i in st'.live && st'.live[i].buffers == map[] && Content(st'.files, f) == ""
    {
      hide Step, Base;
      Durability.EarlyAcknowledgementIff(s, 3, ANY, st');
      CrashAtomicity(s, st', f);
      RecoveredEmpty(s.store, st', i);
    }
  }

  lemma AnsweredFromTheSet(s: State, t: Tid)
    requires t in s.threads && s.threads[t].pc == Check1 && s.threads[t].req.CommitReq? && s.threads[t].id in s.store.commits
    ensures Step(s, t, ANY).Some? && t in Step(s, t, ANY).value.threads && Step(s, t, ANY).value.store == s.store
    ensures Step(s, t, ANY).value.threads[t].pc == Done(Ack(s.threads[t].id, s.threads[t].req.seqNum))
  {
    hide StepCheck2, StepBody, StepOpen, StepWriting, StepLog, StepResize, StepRollback, StepRemove, StepPick, StepExpire;
  }

  lemma RecoveredEmpty(st: Store, st': Store, i: TxnId)
    requires Recovered(st, st') && i in st'.live
    ensures st'.live[i].buffers == map[]
  {
    hide ReplayAll, AllRecords, TruncateFiles, IndexOk;
  }

  /** Commit of i with everything written and its record about to begin. */
  lemma CommitBegun(s: State, i: TxnId, f: FileName, d: Data) returns (s': State)
    requires Calm(s, Store1(i, f, d), 2)
    ensures Reaches(true, s, s')
    ensures s' == s.Put(2, Thread(CommitReq(i, 1), Log(0), i, 0, f))
                   .(store := s.store.(files := map[f := d], commits := {i}), txnOwner := map[i := 2], fileOwner := map[0 := 2],
                        hist := s'.hist)
  {
    hide Reaches;
    CalmAlone(s, s.store, 2, i, f, 0);
    CommitReady(i, i, f, d, d);
    Store1Index(i, f, d);
    var txn, s1 := OpenReady(true, s, 2, i, 1, 0);
    One(d);
    var s2 := WriteAllAlone(true, s, 2, i, 1, txn, s1);
    s' := BeginsRecord(true, s2, 2);
    ReachesThen(true, s, s1, s2);
    ReachesThen(true, s, s2, s');
    hide HoldsBoth, Alone, IndexOk, Writer, Opened, Assemble;
    Overwrite(s.threads, 2);
    assert s.store.live[i := txn] == s.store.live && "" + d == d && map[][f := d] == map[f := d] && {} + {i} == {i};
  }

  // ---------------------------------------------------------------- an id drawn again

  /** Created on f, committed, drawn again on g: a COMMIT of the new transaction is acknowledged
      unread, and after a crash it comes back on f. */
  lemma ReusedIdReopensTheWrongFile(i: TxnId, f: FileName, d: Data, g: FileName) returns (s: State)
    requires IsWord(f) && IsWord(g) && f != g
    ensures Reaches(false, Empty(), s)
    ensures i in s.store.live && s.store.live[i].attr in s.store.attrs && NameOf(s.store, i) == g
    ensures 4 in s.threads && s.threads[4].pc == Done(Ack(i, 1)) && Content(s.store.files, g) == ""
    ensures forall st' :: Recovered(s.store, st') ==> i in st'.live && IndexOk(st') && NameOf(st', i) == f
  {
    hide Reaches, Good, Empty, Recovered;
    var s0 := OneTransaction(i, f, d);
    Unpolite(Empty(), s0);
    CalmAlone(s0, s0.store, 2, i, f, 0);
    CommitReady(i, i, f, d, d);
    Store1Index(i, f, d);
    One(d);
    SingleCommits(i, f, d, PerLog(Render(Record(i, f, 0)), "", "", ""));
    hide Assemble;
    var s1 := CommitAlone(false, s0, 2, i, 1, 0, Works);
    var st1 := Reused1(i, f, d);
    CalmNext(s0, s0.store, 2, st1, Ack(i, 1), s1);
    CalmAlone(s1, st1, 3, -1, g, 0);
    var s2 := NewAlone(false, s1, 3, -1, g, i, 0);
    var st2 := Reused2(i, f, d, g);
    Reused2Is(i, f, d, g);
    CalmNext(s1, st1, 3, st2, Ack(i, 0), s2);
    CalmAlone(s2, st2, 4, i, g, 0);
    s := FirstLook(false, s2, 4, CommitReq(i, 1));
    ReachesThen(false, Empty(), s0, s1);
    ReachesThen(false, Empty(), s1, s2);
    ReachesThen(false, Empty(), s2, s);
    hide Calm;
    forall st' | Recovered(s.store, st') ensures i in st'.live && IndexOk(st') && NameOf(st', i) == f {
      ReusedReplay(i, f, d, g);
      RecoveredNames(s.store, st');
    }
  }

  function Reused1(i: TxnId, f: FileName, d: Data): Store {
    Finished(i, f, d, PerLog(Render(Record(i, f, 0)), "", "", ""))
  }

  function Reused2(i: TxnId, f: FileName, d: Data, g: FileName): Store {
    Store(map[i := Txn(1, map[], 1, 0)], {i}, map[g := 1], map[1 := FileAttributes(g, 0, 1)], 2, map[f := d],
          PerLog(Render(Record(i, f, 0)) + Render(Record(i, g, 0)), "", Render(Record(i, f, |d|)), ""))
  }

  /** The same after its COMMIT. */
  function Finished(i: TxnId, f: FileName, d: Data, logs: PerLog<string>): Store {
    Store(map[], {i}, map[], map[], 1, map[f := d], logs.(commits := Render(Record(i, f, |d|))))
  }

  lemma SingleCommits(i: TxnId, f: FileName, d: Data, logs: PerLog<string>)
    requires IndexOk(Single(i, f, d, logs)) && logs.commits == ""
    ensures CommitEffect(Single(i, f, d, logs), i, 1, 0, Works) == (Finished(i, f, d, logs), Ack(i, 1))
  {
    CommitReady(i, i, f, d, d);
    One(d);
    hide Render, IndexOk, CommitBody, Assemble;
    var st := Single(i, f, d, logs);
    var st1 := st.(live := st.live[i := Txn(0, map[1 := d], 1, 0)]);
    assert st1.live == st.live && st1 == st;
    assert CommitEffect(st, i, 1, 0, Works) == (Committed(st, i, d), Ack(i, 1));
    var text := Render(Record(i, f, |d|));
    assert "" + text == text && "" + d == d;
    var st3 := st.(files := map[f := d], commits := {i}, logs := logs.(commits := text), attrs := map[0 := FileAttributes(f, |d|, 1)]);
    assert Committed(st, i, d) == Evict(st3, i) by { CommittedIs(st, st3, i, f, d, logs); }
    assert st3.live - {i} == map[] && st3.attrs - {0} == map[] && st3.index - {f} == map[];
  }

  lemma CommittedIs(st: Store, st3: Store, i: TxnId, f: FileName, d: Data, logs: PerLog<string>)
    requires st == Single(i, f, d, logs) && logs.commits == ""
    requires "" + d == d && "" + Render(Record(i, f, |d|)) == Render(Record(i, f, |d|))
    requires st3 == st.(files := map[f := d], commits := {i}, logs := logs.(commits := Render(Record(i, f, |d|))),
                        attrs := map[0 := FileAttributes(f, |d|, 1)])
    ensures Committed(st, i, d) == Evict(st3, i)
  {
    hide Render, Evict;
    var st1 := st.(files := AppendTo(st.files, f, d), commits := st.commits + {i});
    assert st1.files == map[f := d] && st1.commits == {i};
    var st2 := Logged(st1, CommitLog, i, f);
    assert st2.attrs[0 := st2.attrs[0].(size := |d|)] == map[0 := FileAttributes(f, |d|, 1)];
  }

  lemma Reused2Is(i: TxnId, f: FileName, d: Data, g: FileName)
    requires f != g
    ensures NewEffect(Reused1(i, f, d), i, g, 0) == Reused2(i, f, d, g)
  {
    hide Render;
    var st := Reused1(i, f, d);
    assert st.live[i := Transactions.NewTxn(1, 0)] == map[i := Txn(1, map[], 1, 0)];
    assert st.attrs[1 := FileAttributes(g, 0, 1)] == map[1 := FileAttributes(g, 0, 1)] && st.index[g := 1] == map[g := 1];
  }

  lemma ReusedReplay(i: TxnId, f: FileName, d: Data, g: FileName)
    requires IsWord(f) && IsWord(g)
    ensures var open := ReplayAll(AllRecords(Reused2(i, f, d, g).logs)).open; i in open && open[i] == f
  {
    var created := [Record(i, f, 0), Record(i, g, 0)];
    var ended := [Record(i, f, |d|)];
    hide ReplayAll, AllRecords, Occurrences, Render;
    ReusedRecords(i, f, d, g);
    assert created + ended == [Record(i, f, 0), Record(i, g, 0), Record(i, f, |d|)];
    assert created == [Record(i, f, 0)] + [Record(i, g, 0)];
    Limits.OccurrencesConcat([Record(i, f, 0)], [Record(i, g, 0)], i);
    Once(Record(i, f, 0));
    Once(Record(i, g, 0));
    Once(Record(i, f, |d|));
    hide Limits.LastName;
    Limits.ReuseKeepsTheOpenIds(created, ended, i);
    Limits.OpenUnderLastName(created + ended, i);
    Limits.LastNameConcat(created, ended, i);
  }

  lemma Once(r: Record)
    ensures Occurrences([r], r.id) == 1 && Limits.LastName([r], r.id) == Some(r.name)
  {
    assert [r][..0] == [];
  }

  lemma ReusedRecords(i: TxnId, f: FileName, d: Data, g: FileName)
    requires IsWord(f) && IsWord(g)
    ensures AllRecords(Reused2(i, f, d, g).logs) == [Record(i, f, 0), Record(i, g, 0), Record(i, f, |d|)]
  {
    var two, r := [Record(i, f, 0), Record(i, g, 0)], Record(i, f, |d|);
    ParseNothing();
    TwoCreations(i, f, i, g);
    hide Parse, Render;
    assert Parse(Render(r)) == [r] by {
      ParseRecord(r, "");
      assert Render(r) + "" == Render(r) && [r] + [] == [r];
    }
    hide *;
    FourLogs(Reused2(i, f, d, g).logs, two, [r]) by { assert Reused2(i, f, d, g).logs.transactions == Render(two[0]) + Render(two[1]); }
  }

  lemma FourLogs(logs: PerLog<string>, created: seq<Record>, ended: seq<Record>)
    requires Parse(logs.transactions) == created && Parse(logs.timeouts) == []
    requires Parse(logs.commits) + Parse(logs.aborts) == ended
    ensures AllRecords(logs) == created + ended
  {
    hide Parse;
  }

  lemma TwoCreations(i: TxnId, f: FileName, j: TxnId, g: FileName)
    requires IsWord(f) && IsWord(g)
    ensures Parse(Render(Record(i, f, 0)) + Render(Record(j, g, 0))) == [Record(i, f, 0), Record(j, g, 0)]
  {
    Interleaving.TwoRecordsRead(Record(i, f, 0), Record(j, g, 0));
  }

  // ---------------------------------------------------------------- a crash inside recovery

  function AbortedLogs(i: TxnId, j: TxnId, f: FileName): PerLog<string> {
    PerLog(Render(Record(i, f, 0)) + Render(Record(j, f, 0)), "", "", Render(Record(j, f, 0)))
  }

  lemma AbortsSecond(i: TxnId, j: TxnId, f: FileName, d: Data, e: Data)
    requires i != j
    ensures IndexOk(Store2(i, f, d, j, f, e)) && IndexOk(Single(i, f, d, AbortedLogs(i, j, f)))
    ensures AbortEffect(Store2(i, f, d, j, f, e), j, 0) == (Single(i, f, d, AbortedLogs(i, j, f)), Ack(j, 0))
  {
    Store2Index(i, f, d, j, f, e);
    hide Render, IndexOk;
    var st := Store2(i, f, d, j, f, e);
    assert "" + Render(Record(j, f, 0)) == Render(Record(j, f, 0));
    var st' := AbortEffect(st, j, 0).0;
    assert st'.live == map[i := Txn(0, map[1 := d], 1, 0)] && st'.attrs == map[0 := FileAttributes(f, 0, 1)];
    AbortKeepsIndex(st, j, 0);
  }

  /** Two transactions on a file; one is aborted while the file is empty, the other committed.
      The process dies, and dies again when start-up has read and deleted the first three logs.
      The abort record is all that is left: the next start-up deletes the committed file and
      brings the aborted transaction back. */
  lemma CommittedFileIsDestroyed(i: TxnId, j: TxnId, f: FileName, d: Data, e: Data) returns (s: State)
    requires IsWord(f) && i != j
    ensures Reaches(true, Empty(), s) && Good(s)
    ensures 5 in s.threads && s.threads[5].pc == Done(Ack(i, 1)) && Content(s.store.files, f) == d
    ensures forall st' :: Recovered(Restarts.Interrupted(s.store, 3, {}), st') ==> Content(st'.files, f) == "" && j in st'.live
  {
    hide Reaches, Good, Empty, Recovered, AbortEffect, CommitEffect, Render, IndexOk, CommitBody;
    var s0 := TwoTransactions(i, f, d, j, f, e);
    var logs := AbortedLogs(i, j, f);
    var st0, st1, st2 := Store2(i, f, d, j, f, e), Single(i, f, d, logs), Finished(i, f, d, logs);
    CalmAlone(s0, st0, 4, j, f, 0);
    AbortsSecond(i, j, f, d, e);
    var s1 := AbortAlone(true, s0, 4, j, 0);
    CalmNext(s0, st0, 4, st1, Ack(j, 0), s1);
    ReachesThen(true, Empty(), s0, s1);
    CalmAlone(s1, st1, 5, i, f, 0);
    SingleCommits(i, f, d, logs);
    s := CommitAlone(true, s1, 5, i, 1, 0, Works);
    CalmNext(s1, st1, 5, st2, Ack(i, 1), s);
    ReachesThen(true, Empty(), s1, s);
    EmptyIsCalm();
    ReachesGood(Empty(), s);
    hide Calm;
    forall st' | Recovered(Restarts.Interrupted(s.store, 3, {}), st') ensures Content(st'.files, f) == "" && j in st'.live {
      OnlyTheAbortIsLeft(st2, j, f, st');
    }
  }

  lemma OnlyTheAbortIsLeft(st: Store, j: TxnId, f: FileName, st': Store)
    requires IsWord(f) && st.logs.aborts == Render(Record(j, f, 0)) && Recovered(Restarts.Interrupted(st, 3, {}), st')
    ensures Content(st'.files, f) == "" && j in st'.live
  {
    var r := Record(j, f, 0);
    ParseNothing();
    hide Parse, Render;
    assert Parse(Render(r)) == [r] by {
      ParseRecord(r, "");
      assert Render(r) + "" == Render(r) && [r] + [] == [r];
    }
    FourLogs(Restarts.Without(st.logs, 3), [], [r]);
    OneReplayed(r);
    hide *;
    RecoveredNames(Restarts.Interrupted(st, 3, {}), st');
    Deleted(Restarts.Interrupted(st, 3, {}), st', f);
  }

  lemma Deleted(st: Store, st': Store, f: FileName)
    requires Recovered(st, st') && var sizes := ReplayAll(AllRecords(st.logs)).sizes; f in sizes && sizes[f] == 0
    ensures Content(st'.files, f) == ""
  {
    hide ReplayAll, AllRecords, IndexOk;
  }

  lemma OneReplayed(r: Record)
    ensures ReplayAll([] + [r]) == Replay(map[r.name := r.size], map[r.id := r.name])
  {
    assert [] + [r] == [r] && [r][..0] == [];
  }

  // ---------------------------------------------------------------- a name that does not read back

  /** NEW_TXN on a name with white space, or none at all, is acknowledged; no recovery brings the
      transaction back on that file. */
  lemma UnreadableNameIsForgotten(i: TxnId, f: FileName) returns (s: State)
    requires !IsWord(f)
    ensures Reaches(false, Empty(), s)
    ensures 0 in s.threads && s.threads[0].pc == Done(Ack(i, 0)) && i in s.store.live && s.store.live[i].attr in s.store.attrs
    ensures NameOf(s.store, i) == f
    ensures forall st' :: Recovered(s.store, st') && i in st'.live ==> IndexOk(st') && NameOf(st', i) != f
  {
    hide Reaches, Good, Empty, Recovered, Logged;
    EmptyIsCalm();
    CalmAlone(Empty(), NOTHING, 0, -1, f, 0);
    s := NewAlone(false, Empty(), 0, -1, f, i, 0);
    NamesFirst(i, f);
    hide NewEffect, Calm;
    forall st' | Recovered(s.store, st') && i in st'.live ensures IndexOk(st') && NameOf(st', i) != f {
      RecoveredNames(s.store, st');
      RecordsAreReadable(s.store.logs);
      OpenNamesReadable(AllRecords(s.store.logs));
      hide ReplayAll, AllRecords, IndexOk;
    }
  }

  lemma NamesFirst(i: TxnId, f: FileName)
    ensures var st := NewEffect(NOTHING, i, f, 0); i in st.live && st.live[i].attr in st.attrs && NameOf(st, i) == f
  {
    hide Render;
  }
}
