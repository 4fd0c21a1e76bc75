/** What one request does to the store when nobody interferes: the sequential meaning of each
    handler, shared by the imperative backend and by the solo runs of the machine. */
module Effects {
  import opened Basics
  import opened Text
  import opened Transactions
  import opened Stores
  import opened LogText

  /** How the disk answers a commit: the file cannot be opened, a write fails once `bytes`
      bytes are in the file, or everything is written. */
  datatype Disk = NoOpen | FailsAfter(bytes: nat) | Works

  /** logTransaction as a whole. */
  function Logged(st: Store, kind: LogKind, id: TxnId, name: FileName): Store {
    var r := Record(id, name, FileSize(st.files, name));
    st.(logs := st.logs.Put(kind, st.logs.Get(kind) + Render(r)))
  }

  /** The first look at an id; None means that the transaction is live and may be used. */
  function Lookup(st: Store, id: TxnId, seqNum: SeqNum, isCommit: bool): Option<Response> {
    if id in st.commits then Some(if isCommit then Ack(id, seqNum) else Error(id, seqNum, InvalidOperation))
    else if id !in st.live then Some(Error(id, seqNum, InvalidTransactionId))
    else None
  }

  function NewEffect(st: Store, id: TxnId, name: FileName, now: Time): Store {
    Logged(Enroll(st, id, name, now), TransactionLog, id, name)
  }

  function WriteEffect(st: Store, id: TxnId, seqNum: SeqNum, data: Data, now: Time): (Store, Response) {
    match Lookup(st, id, seqNum, false)
    case Some(refusal) => (st, refusal)
    case None =>
      var (txn, resp) := WriteBody(st.live[id], id, seqNum, data, now);
      (st.(live := st.live[id := txn]), resp)
  }

  function AbortEffect(st: Store, id: TxnId, seqNum: SeqNum): (Store, Response)
    requires IndexOk(st)
  {
    match Lookup(st, id, seqNum, false)
    case Some(refusal) => (st, refusal)
    case None => (Evict(Logged(st, AbortLog, id, NameOf(st, id)), id), Ack(id, seqNum))
  }

  /** A timer wake-up: does the transaction go? */
  function ExpireEffect(st: Store, id: TxnId, now: Time): Store
    requires IndexOk(st)
  {
    if id in st.live && now >= st.live[id].stamp + TRANSACTION_TIMEOUT_SECONDS then
      Logged(Evict(st, id), TimeoutLog, id, NameOf(st, id))
    else st
  }

  function AppendTo(files: map<FileName, Data>, name: FileName, data: Data): map<FileName, Data> {
    files[name := Content(files, name) + data]
  }

  /** The data COMMIT n is about to append. */
  function Payload(st: Store, id: TxnId, n: SeqNum): Data
    requires id in st.live
  {
    Assemble(st.live[id].buffers, n)
  }

  function CommitEffect(st: Store, id: TxnId, n: SeqNum, now: Time, disk: Disk): (Store, Response)
    requires IndexOk(st)
  {
    match Lookup(st, id, n, true)
    case Some(answer) => (st, answer)
    case None =>
      var (txn, refusal) := CommitBody(st.live[id], id, n, now);
      var st1 := st.(live := st.live[id := txn]);
      if refusal.Some? then (st1, refusal.value)
      else
        match disk
        case NoOpen => (st1, Error(id, n, ErrorOpeningFile))
        case FailsAfter(b) => (RolledBack(st1, id, TakeBytes(Payload(st, id, n), b)), Error(id, n, ErrorWritingFile))
        case Works => (Committed(st1, id, Payload(st, id, n)), Ack(id, n))
  }

  function TakeBytes(data: Data, n: nat): Data {
    if n <= |data| then data[..n] else data
  }

  /** Some bytes got into the file before the failure, and the file is cut to its remembered size. */
  function RolledBack(st: Store, id: TxnId, bytes: Data): Store
    requires id in st.live && st.live[id].attr in st.attrs
  {
    var a := st.attrs[st.live[id].attr];
    st.(files := Truncate(AppendTo(st.files, a.name, bytes), a.name, a.size))
  }

  /** Append, enter the commit set, log, remember the new size, leave the live map. */
  function Committed(st: Store, id: TxnId, bytes: Data): Store
    requires id in st.live && st.live[id].attr in st.attrs
  {
    var a := st.live[id].attr;
    var name := st.attrs[a].name;
    var st1 := st.(files := AppendTo(st.files, name, bytes), commits := st.commits + {id});
    var st2 := Logged(st1, CommitLog, id, name);
    Evict(st2.(attrs := st2.attrs[a := st2.attrs[a].(size := FileSize(st2.files, name))]), id)
  }

  // ---------------------------------------------------------------- write(2) calls

  /** writeFileDescriptor over the results of successive calls (negative: failure; otherwise
      what was written, at most what was asked). Calls beyond the list write everything.
      Gives what got into the file, whether all of it did, and the unused results. */
  function WriteCalls(data: Data, calls: seq<int>): (r: (Data, bool, seq<int>))
    ensures |r.0| <= |data| && data[..|r.0|] == r.0
    ensures r.1 ==> r.0 == data
    ensures !r.1 ==> |r.0| < |data|
    decreases |calls|
  {
    if data == "" then ("", true, calls)
    else if calls == [] then (data, true, [])
    else if calls[0] < 0 then ("", false, calls[1..])
    else
      var n := if calls[0] <= |data| then calls[0] else |data|;
      var (rest, ok, left) := WriteCalls(data[n..], calls[1..]);
      assert data == data[..n] + data[n..];
      (data[..n] + rest, ok, left)
  }

  /** The writing loop of COMMIT from buffer k on. */
  function WriteBuffers(buffers: map<SeqNum, Data>, k: SeqNum, n: SeqNum, calls: seq<int>): (Data, bool)
    requires forall j :: k <= j <= n ==> j in buffers
    decreases n - k
  {
    if k > n then ("", true)
    else
      var (bytes, ok, left) := WriteCalls(buffers[k], calls);
      if !ok then (bytes, false)
      else
        var (more, ok') := WriteBuffers(buffers, k + 1, n, left);
        (bytes + more, ok')
  }

  function DiskOf(buffers: map<SeqNum, Data>, n: SeqNum, canOpen: bool, calls: seq<int>): Disk
    requires forall j :: 1 <= j <= n ==> j in buffers
  {
    if !canOpen then NoOpen
    else
      var (bytes, ok) := WriteBuffers(buffers, INITIAL_SEQ_NUM + 1, n, calls);
      if ok then Works else FailsAfter(|bytes|)
  }

  /** What calls 0 to i - 1 wrote together. */
  function Sum(calls: seq<int>, i: nat): int
    requires i <= |calls|
  {
    if i == 0 then 0 else calls[0] + Sum(calls[1..], i - 1)
  }

  /** Call i is the first to fail, and bytes are left for it. */
  predicate FailsAt(data: Data, calls: seq<int>, i: nat) {
    i < |calls| && calls[i] < 0 && (forall j :: 0 <= j < i ==> calls[j] >= 0) && Sum(calls, i) < |data|
  }

  /** Writing fails iff some call does while bytes are left, and then the file has what the
      calls before it wrote. */
  lemma {:induction false} WritingFailsIff(data: Data, calls: seq<int>)
    ensures !WriteCalls(data, calls).1 <==> exists i: nat :: FailsAt(data, calls, i)
    ensures forall i: nat :: FailsAt(data, calls, i) ==> 0 <= Sum(calls, i) && WriteCalls(data, calls).0 == data[..Sum(calls, i)]
    decreases |calls|
  {
    if calls != [] && calls[0] >= 0 && data != "" {
      var n := if calls[0] <= |data| then calls[0] else |data|;
      WritingFailsIff(data[n..], calls[1..]);
      forall i: nat | FailsAt(data, calls, i)
        ensures i > 0 && FailsAt(data[n..], calls[1..], i - 1)
        ensures 0 <= Sum(calls, i) && WriteCalls(data, calls).0 == data[..Sum(calls, i)]
      {
        assert Sum(calls, i) == calls[0] + Sum(calls[1..], i - 1);
        SumOfSizes(calls[1..], i - 1);
      }
      forall i: nat | FailsAt(data[n..], calls[1..], i) ensures FailsAt(data, calls, i + 1) {
        SumOfSizes(calls[1..], i);
      }
    } else if calls != [] && calls[0] < 0 {
      assert data != "" ==> FailsAt(data, calls, 0);
      forall i: nat | FailsAt(data, calls, i) ensures i == 0 {
      }
    } else {
      forall i: nat | FailsAt(data, calls, i) ensures false {
        SumOfSizes(calls, i);
      }
    }
  }

  lemma {:induction false} SumOfSizes(calls: seq<int>, i: nat)
    requires i <= |calls| && forall j :: 0 <= j < i ==> calls[j] >= 0
    ensures 0 <= Sum(calls, i)
    decreases i
  {
    if i > 0 { SumOfSizes(calls[1..], i - 1); }
  }

  /** A first call that fails leaves nothing in the file, if there is anything to write. */
  lemma {:induction false} FirstCallFails(buffers: map<SeqNum, Data>, k: SeqNum, n: SeqNum, calls: seq<int>)
    requires 1 <= k && (forall j :: k <= j <= n ==> j in buffers) && calls != [] && calls[0] < 0
    requires Assemble(buffers, k - 1) == ""
    ensures k <= n && Assemble(buffers, n) != "" ==> WriteBuffers(buffers, k, n, calls) == ("", false)
    decreases n - k
  {
    if k <= n && buffers[k] == "" { FirstCallFails(buffers, k + 1, n, calls); }
  }

  /** Whatever the sizes of the writes, what is in the file is a prefix of data k..n in order:
      all of it iff no call failed. */
  lemma {:induction false} WritesArePrefix(buffers: map<SeqNum, Data>, k: SeqNum, n: SeqNum, calls: seq<int>)
    requires 1 <= k && forall j :: k <= j <= n ==> j in buffers
    ensures var (bytes, ok) := WriteBuffers(buffers, k, n, calls);
            var (before, all) := (Assemble(buffers, k - 1), Assemble(buffers, if k <= n then n else k - 1));
            && |before + bytes| <= |all| && all[..|before + bytes|] == before + bytes
            && (ok <==> before + bytes == all)
    decreases n - k
  {
    if k <= n {
      var (bytes, ok, left) := WriteCalls(buffers[k], calls);
      var before, upto := Assemble(buffers, k - 1), Assemble(buffers, k);
      assert upto == before + buffers[k];
      if !ok {
        AssembleGrows(buffers, k, n);
        assert upto[..|before + bytes|] == before + bytes;
      } else {
        var more := WriteBuffers(buffers, k + 1, n, left).0;
        WritesArePrefix(buffers, k + 1, n, left);
        Assoc(before, bytes, more);
        if k == n { assert Assemble(buffers, k) == Assemble(buffers, n); }
      }
    } else {
      var before := Assemble(buffers, k - 1);
      assert before + "" == before;
    }
  }

  /** A call can fail only while bytes are left, and what is in the file then is that many of
      them from the front. */
  lemma FailureLeavesBytes(buffers: map<SeqNum, Data>, n: SeqNum, calls: seq<int>)
    requires forall j :: 1 <= j <= n ==> j in buffers
    ensures var disk := DiskOf(buffers, n, true, calls); var all := Assemble(buffers, n);
            && (disk.Works? <==> WriteBuffers(buffers, 1, n, calls).0 == all)
            && (disk.FailsAfter? ==> disk.bytes < |all| && TakeBytes(all, disk.bytes) == WriteBuffers(buffers, 1, n, calls).0)
  {
    WritesArePrefix(buffers, 1, n, calls);
    var bytes := WriteBuffers(buffers, 1, n, calls).0;
    assert Assemble(buffers, 0) == "" && "" + bytes == bytes;
  }

  lemma {:induction false} AssembleGrows(buffers: map<SeqNum, Data>, k: SeqNum, n: SeqNum)
    requires k <= n
    ensures |Assemble(buffers, k)| <= |Assemble(buffers, n)|
    ensures Assemble(buffers, n)[..|Assemble(buffers, k)|] == Assemble(buffers, k)
    decreases n - k
  {
    if k < n && n > 0 { AssembleGrows(buffers, k, n - 1); }
  }

  // ---------------------------------------------------------------- what the effects mean

  /** truncate(2) to a remembered size puts a file back iff that size is its old length. */
  lemma CutRestoresIff(before: Data, extra: Data, size: nat)
    ensures Resized(before + extra, size) == before <==> size == |before|
  {
    assert |Resized(before + extra, size)| == size;
    if size == |before| { assert (before + extra)[..size] == before; }
  }

  ghost predicate SameContents(files: map<FileName, Data>, files': map<FileName, Data>) {
    forall name :: Content(files', name) == Content(files, name)
  }

  /** Rollback of a failed commit: after any number of full and partial writes, truncation
      restores every file iff the remembered size was the file's length. The transaction stays
      live with its buffers, and the same COMMIT is ready to be tried again. */
  lemma RollbackUndoes(st: Store, id: TxnId, n: SeqNum, now: Time, b: nat)
    requires IndexOk(st) && id in st.live && id !in st.commits
    requires CommitBody(st.live[id], id, n, now).1 == None
    ensures var (st', resp) := CommitEffect(st, id, n, now, FailsAfter(b));
            && resp == Error(id, n, ErrorWritingFile)
            && (SameContents(st.files, st'.files)
                <==> st.attrs[st.live[id].attr].size == FileSize(st.files, NameOf(st, id)))
            && st'.live.Keys == st.live.Keys && st'.live[id].buffers == st.live[id].buffers
            && CommitBody(st'.live[id], id, n, now).1 == None
            && st'.commits == st.commits && st'.logs == st.logs && st'.index == st.index && st'.attrs == st.attrs
  {
    var (st', resp) := CommitEffect(st, id, n, now, FailsAfter(b));
    var name := NameOf(st, id);
    var before := Content(st.files, name);
    var bytes := TakeBytes(Payload(st, id, n), b);
    CutRestoresIff(before, bytes, st.attrs[st.live[id].attr].size);
    assert Content(st'.files, name) == Resized(before + bytes, st.attrs[st.live[id].attr].size);
    assert forall other :: other != name ==> Content(st'.files, other) == Content(st.files, other);
  }

  /** A successful commit appends data 1..n to its own file, changes no other file, and its
      log record carries the new length. */
  lemma CommitAppends(st: Store, id: TxnId, n: SeqNum, now: Time)
    requires IndexOk(st) && id in st.live && id !in st.commits
    requires CommitBody(st.live[id], id, n, now).1 == None
    ensures var (st', resp) := CommitEffect(st, id, n, now, Works); var name := NameOf(st, id);
            && resp == Ack(id, n)
            && Content(st'.files, name) == Content(st.files, name) + Payload(st, id, n)
            && (forall other :: other != name ==> Content(st'.files, other) == Content(st.files, other))
            && st'.logs.commits == st.logs.commits + Render(Record(id, name, FileSize(st'.files, name)))
            && id in st'.commits && id !in st'.live
  {
    var st1 := st.(live := st.live[id := CommitBody(st.live[id], id, n, now).0]);
    assert st1.live[id].attr == st.live[id].attr;
    hide CommitBody, Render, Assemble;
    assert CommitEffect(st, id, n, now, Works) == (Committed(st1, id, Payload(st, id, n)), Ack(id, n));
    hide CommitEffect;
    CommittedParts(st1, id, Payload(st, id, n));
  }

  lemma CommittedParts(st: Store, id: TxnId, bytes: Data)
    requires id in st.live && st.live[id].attr in st.attrs
    ensures var st' := Committed(st, id, bytes); var name := NameOf(st, id);
            && st'.files == AppendTo(st.files, name, bytes)
            && st'.logs.commits == st.logs.commits + Render(Record(id, name, FileSize(st'.files, name)))
            && id in st'.commits && st'.live == st.live - {id}
  {
    hide Render;
  }

  /** Every effect keeps the file index right. */
  lemma EffectsKeepIndex(st: Store, id: TxnId, n: SeqNum, data: Data, name: FileName, now: Time, disk: Disk)
    requires IndexOk(st)
    ensures id !in st.live ==> IndexOk(NewEffect(st, id, name, now))
    ensures IndexOk(WriteEffect(st, id, n, data, now).0)
    ensures IndexOk(AbortEffect(st, id, n).0)
    ensures IndexOk(ExpireEffect(st, id, now))
    ensures IndexOk(CommitEffect(st, id, n, now, disk).0)
  {
    hide *;
    if id !in st.live { NewKeepsIndex(st, id, name, now); }
    WriteKeepsIndex(st, id, n, data, now);
    AbortKeepsIndex(st, id, n);
    ExpireKeepsIndex(st, id, now);
    CommitKeepsIndex(st, id, n, now, disk);
  }

  lemma NewKeepsIndex(st: Store, id: TxnId, name: FileName, now: Time)
    requires IndexOk(st) && id !in st.live
    ensures IndexOk(NewEffect(st, id, name, now))
  {
    hide IndexOk, Logged, Enroll;
    EnrollKeepsIndex(st, id, name, now);
    LogKeepsIndex(Enroll(st, id, name, now), TransactionLog, id, name);
  }

  lemma WriteKeepsIndex(st: Store, id: TxnId, n: SeqNum, data: Data, now: Time)
    requires IndexOk(st)
    ensures IndexOk(WriteEffect(st, id, n, data, now).0)
  {
    hide IndexOk;
    if id in st.live {
      BodyKeepsIndex(st, id, WriteBody(st.live[id], id, n, data, now).0);
    }
  }

  lemma AbortKeepsIndex(st: Store, id: TxnId, n: SeqNum)
    requires IndexOk(st)
    ensures IndexOk(AbortEffect(st, id, n).0)
  {
    if id in st.live {
      LiveHasAttributes(st, id);
      hide IndexOk, Logged, Evict;
      LogKeepsIndex(st, AbortLog, id, NameOf(st, id));
      EvictKeepsIndex(Logged(st, AbortLog, id, NameOf(st, id)), id);
    }
  }

  lemma ExpireKeepsIndex(st: Store, id: TxnId, now: Time)
    requires IndexOk(st)
    ensures IndexOk(ExpireEffect(st, id, now))
  {
    if id in st.live {
      LiveHasAttributes(st, id);
      hide IndexOk, Logged, Evict;
      EvictKeepsIndex(st, id);
      LogKeepsIndex(Evict(st, id), TimeoutLog, id, NameOf(st, id));
    }
  }

  /** A timer wake-up, exactly: 15 seconds after the stamp the transaction leaves, with one record
      in the timeout log; before that nothing happens at all. */
  lemma ExpireExactly(st: Store, id: TxnId, now: Time)
    requires IndexOk(st)
    ensures var st' := ExpireEffect(st, id, now);
            if id in st.live && st.live[id].stamp + 15 <= now then
              && st'.live == st.live - {id} && st'.files == st.files && st'.commits == st.commits
              && st'.logs == st.logs.(timeouts := st.logs.timeouts
                   + (IntText(id) + " " + NameOf(st, id) + " " + IntText(|Content(st.files, NameOf(st, id))|) + "\n"))
              && forall i :: i in st'.live ==>
                   st.live[i].attr in st.attrs && st'.live[i].attr in st'.attrs && NameOf(st', i) == NameOf(st, i)
            else st' == st
  {
    if id in st.live && now >= st.live[id].stamp + TRANSACTION_TIMEOUT_SECONDS {
      LiveHasAttributes(st, id);
      TornText(Record(id, NameOf(st, id), FileSize(st.files, NameOf(st, id))));
      EvictKeepsIndex(st, id);
      hide Render, IntText;
      assert st.live - {id} == Evict(st, id).live;
      hide Evict;
      LiveNamesStay(st, id);
    }
    hide IndexOk;
  }

  lemma LiveNamesStay(st: Store, id: TxnId)
    requires IndexOk(st) && id in st.live
    ensures var st' := Evict(st, id);
            forall i :: i in st'.live ==>
              i in st.live && st.live[i].attr in st.attrs && st'.live[i].attr in st'.attrs && NameOf(st', i) == NameOf(st, i)
  {
    EvictKeepsIndex(st, id);
  }

  /** A recovered transaction is safe from its timer for 15 seconds after the restart. */
  lemma NothingExpiresEarly(st: Store, id: TxnId, restart: Time, now: Time)
    requires IndexOk(st) && (forall i :: i in st.live ==> st.live[i].stamp == restart) && now < restart + 15
    ensures ExpireEffect(st, id, now) == st
  {
  }

  lemma LiveHasAttributes(st: Store, id: TxnId)
    requires IndexOk(st) && id in st.live
    ensures st.live[id].attr in st.attrs
  {
  }

  lemma LogKeepsIndex(st: Store, kind: LogKind, id: TxnId, name: FileName)
    requires IndexOk(st)
    ensures IndexOk(Logged(st, kind, id, name))
  {
    hide Render;
  }

  lemma BodyKeepsIndex(st: Store, id: TxnId, txn: Txn)
    requires IndexOk(st) && id in st.live && txn.attr == st.live[id].attr
    ensures IndexOk(st.(live := st.live[id := txn]))
  {
    var st' := st.(live := st.live[id := txn]);
    forall a ensures Users(st'.live, a) == Users(st.live, a) {
    }
  }

  lemma FilesKeepIndex(st: Store, st': Store)
    requires IndexOk(st) && st'.live == st.live && st'.index == st.index && st'.nextAddress == st.nextAddress
    requires st'.attrs.Keys == st.attrs.Keys
    requires forall a :: a in st.attrs ==> st'.attrs[a].name == st.attrs[a].name && st'.attrs[a].refs == st.attrs[a].refs
    ensures IndexOk(st')
  {
  }

  lemma CommitKeepsIndex(st: Store, id: TxnId, n: SeqNum, now: Time, disk: Disk)
    requires IndexOk(st)
    ensures IndexOk(CommitEffect(st, id, n, now, disk).0)
  {
    if id in st.live && id !in st.commits {
      LiveCommitKeepsIndex(st, id, n, now, disk);
    } else {
      hide IndexOk;
    }
  }

  lemma LiveCommitKeepsIndex(st: Store, id: TxnId, n: SeqNum, now: Time, disk: Disk)
    requires IndexOk(st) && id in st.live && id !in st.commits
    ensures IndexOk(CommitEffect(st, id, n, now, disk).0)
  {
    var (txn, refusal) := CommitBody(st.live[id], id, n, now);
    var st1 := st.(live := st.live[id := txn]);
    BodyKeepsIndex(st, id, txn);
    if refusal == None {
      match disk
      case NoOpen =>
      case FailsAfter(b) =>
        hide CommitBody, IndexOk, Truncate;
        FilesKeepIndex(st1, RolledBack(st1, id, TakeBytes(Payload(st, id, n), b)));
      case Works =>
        hide CommitBody;
        CommittedKeepsIndex(st1, id, Payload(st, id, n));
    }
  }

  lemma CommittedKeepsIndex(st: Store, id: TxnId, bytes: Data)
    requires IndexOk(st) && id in st.live
    ensures IndexOk(Committed(st, id, bytes))
  {
    var a := st.live[id].attr;
    assert a in st.attrs;
    var name := st.attrs[a].name;
    var st1 := st.(files := AppendTo(st.files, name, bytes), commits := st.commits + {id});
    var st2 := Logged(st1, CommitLog, id, name);
    var st3 := st2.(attrs := st2.attrs[a := st2.attrs[a].(size := FileSize(st2.files, name))]);
    hide Render, Evict, IndexOk;
    FilesKeepIndex(st, st3);
    EvictKeepsIndex(st3, id);
  }
}
