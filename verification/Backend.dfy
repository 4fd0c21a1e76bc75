/** The server backend as the program text has it: one object whose methods update its maps,
    sets and files in place. Each method is proved against the sequential meaning of its
    handler, and start-up against what recovery is specified to do. */
module Backend {
  import opened Basics
  import opened Text
  import opened Transactions
  import opened Stores
  import opened LogText
  import opened Recovery
  import opened Effects
  import Wire
  import opened Requests

  /** The draw NEW_TXN's loop stops at: the first of an unused id from number i on. */
  ghost function FirstFree(draws: nat -> TxnId, live: set<TxnId>, i: nat, free: nat): (id: TxnId)
    requires i <= free && draws(free) !in live
    ensures id !in live
    ensures exists j: nat :: i <= j && id == draws(j) && forall k: nat :: i <= k < j ==> draws(k) in live
    decreases free - i
  {
    if draws(i) !in live then draws(i) else FirstFree(draws, live, i + 1, free)
  }

  class ServerBackend {
    var live: map<TxnId, Txn>
    var commits: set<TxnId>
    var index: map<FileName, Address>
    var attrs: map<Address, FileAttributes>
    var nextAddress: Address
    var files: map<FileName, Data>
    var logs: PerLog<string>

    function State(): Store
      reads this
    {
      Store(live, commits, index, attrs, nextAddress, files, logs)
    }

    ghost predicate Valid()
      reads this
    {
      IndexOk(State())
    }

    /** A new process finds files and logs on disk and nothing in memory. */
    constructor (files: map<FileName, Data>, logs: PerLog<string>)
      ensures Valid() && State() == Store(map[], {}, map[], map[], 0, files, logs)
    {
      live, commits, index, attrs, nextAddress := map[], {}, map[], map[], 0;
      this.files, this.logs := files, logs;
    }

    // -------------------------------------------------------------- shared by the handlers

    /** Six writes; the size is read when it is its turn. */
    method LogTransaction(kind: LogKind, id: TxnId, name: FileName)
      modifies `logs
      ensures State() == Logged(old(State()), kind, id, name)
    {
      ghost var start := logs.Get(kind);
      ghost var r := Record(id, name, FileSize(files, name));
      hide FileSize, Render, IntText;
      AppendToLog(kind, IntText(id));
      AppendToLog(kind, " ");
      AppendToLog(kind, name);
      AppendToLog(kind, " ");
      AppendToLog(kind, IntText(FileSize(files, name)));
      AppendToLog(kind, "\n");
      SixWrites(start, r);
      assert old(logs).Put(kind, logs.Get(kind)) == logs;
    }

    method AppendToLog(kind: LogKind, text: string)
      modifies `logs
      ensures logs == old(logs).Put(kind, old(logs).Get(kind) + text)
      ensures logs.Get(kind) == old(logs).Get(kind) + text
    {
      logs := logs.Put(kind, logs.Get(kind) + text);
    }

    /** Joins the file's attributes or creates them, then logs. */
    method AddNewTransaction(id: TxnId, name: FileName, now: Time)
      requires Valid() && id !in live
      modifies this
      ensures Valid() && State() == NewEffect(old(State()), id, name, now)
    {
      NewKeepsIndex(State(), id, name, now);
      if name !in index {
        var a := nextAddress;
        nextAddress := a + 1;
        attrs := attrs[a := FileAttributes(name, FileSize(files, name), 1)];
        index := index[name := a];
        live := live[id := Transactions.NewTxn(a, now)];
      } else {
        var a := index[name];
        attrs := attrs[a := attrs[a].(refs := attrs[a].refs + 1)];
        live := live[id := Transactions.NewTxn(a, now)];
      }
      assert State() == Enroll(old(State()), id, name, now);
      LogTransaction(TransactionLog, id, name);
    }

    /** Erasing the entry drops its reference; the last one deletes the attributes and, with
        them, their index entry. */
    method RemoveTransaction(id: TxnId)
      requires Valid()
      modifies this
      ensures Valid() && State() == Evict(old(State()), id)
    {
      ghost var st := State();
      hide IndexOk;
      EvictKeepsIndex(st, id);
      if id in live {
        var a := live[id].attr;
        LiveIsCounted(st, id);
        live := live - {id};
        if attrs[a].refs == 1 {
          index := index - {attrs[a].name};
          attrs := attrs - {a};
        } else {
          attrs := attrs[a := attrs[a].(refs := attrs[a].refs - 1)];
        }
      }
    }

    // -------------------------------------------------------------- handlers

    /** `draws` are the random numbers; the loop ends because draw `free` is of an unused id. */
    method NewTransaction(id: TxnId, seqNum: SeqNum, name: FileName, now: Time, draws: nat -> TxnId, ghost free: nat)
      returns (resp: Response)
      requires Valid() && draws(free) !in live
      modifies this
      ensures Valid()
      ensures (State(), resp) ==
              if seqNum != INITIAL_SEQ_NUM then (old(State()), Error(id, seqNum, InvalidSequenceNumber))
              else var drawn := FirstFree(draws, old(live).Keys, 0, free);
                   (NewEffect(old(State()), drawn, name, now), Ack(drawn, INITIAL_SEQ_NUM))
    {
      if seqNum != INITIAL_SEQ_NUM {
        return Error(id, seqNum, InvalidSequenceNumber);
      }
      var i: nat := 0;
      while draws(i) in live
        invariant i <= free && FirstFree(draws, live.Keys, i, free) == FirstFree(draws, live.Keys, 0, free)
        decreases free - i
      {
        i := i + 1;
      }
      AddNewTransaction(draws(i), name, now);
      return Ack(draws(i), INITIAL_SEQ_NUM);
    }

    method Write(id: TxnId, seqNum: SeqNum, data: Data, now: Time) returns (resp: Response)
      requires Valid()
      modifies `live
      ensures Valid() && (State(), resp) == WriteEffect(old(State()), id, seqNum, data, now) && !resp.Silent?
    {
      WriteKeepsIndex(State(), id, seqNum, data, now);
      if id in commits { return Error(id, seqNum, InvalidOperation); }
      if id !in live { return Error(id, seqNum, InvalidTransactionId); }
      var txn := live[id].(stamp := now);
      if seqNum in txn.buffers {
        resp := Error(id, seqNum, RepeatedSequenceNumber);
      } else {
        if seqNum > txn.maxSeq {
          txn := txn.(maxSeq := seqNum);
        }
        txn := txn.(buffers := txn.buffers[seqNum := data]);
        resp := Ack(id, seqNum);
      }
      live := live[id := txn];
    }

    method Abort(id: TxnId, seqNum: SeqNum) returns (resp: Response)
      requires Valid()
      modifies this
      ensures Valid() && (State(), resp) == AbortEffect(old(State()), id, seqNum) && !resp.Silent?
    {
      if id in commits { return Error(id, seqNum, InvalidOperation); }
      if id !in live { return Error(id, seqNum, InvalidTransactionId); }
      var name := attrs[live[id].attr].name;
      LogKeepsIndex(State(), AbortLog, id, name);
      LogTransaction(AbortLog, id, name);
      RemoveTransaction(id);
      return Ack(id, seqNum);
    }

    /** One wake-up of a transaction's timer. */
    method Expire(id: TxnId, now: Time) returns (removed: bool)
      requires Valid()
      modifies this
      ensures Valid() && State() == ExpireEffect(old(State()), id, now)
      ensures removed <==> id in old(live) && now >= old(live)[id].stamp + TRANSACTION_TIMEOUT_SECONDS
    {
      ExpireKeepsIndex(State(), id, now);
      removed := false;
      if id in live && now >= live[id].stamp + TRANSACTION_TIMEOUT_SECONDS {
        var name := attrs[live[id].attr].name;
        RemoveTransaction(id);
        LogTransaction(TimeoutLog, id, name);
        removed := true;
      }
    }

    /** `canOpen` and `calls` are what the operating system answers to open(2) and to the
        successive write(2) calls. */
    method Commit(id: TxnId, n: SeqNum, now: Time, canOpen: bool, calls: seq<int>) returns (resp: Response)
      requires Valid()
      modifies this
      ensures Valid()
      ensures id in old(live) && CommitBody(old(live)[id], id, n, now).1 == None ==>
                (State(), resp) == CommitEffect(old(State()), id, n, now, DiskOf(old(live)[id].buffers, n, canOpen, calls))
      ensures !(id in old(live) && CommitBody(old(live)[id], id, n, now).1 == None) ==>
                forall disk :: (State(), resp) == CommitEffect(old(State()), id, n, now, disk)
      ensures !resp.Silent?
    {
      CommitKeepsIndex(State(), id, n, now, NoOpen);
      if id in commits { return Ack(id, n); }
      if id !in live { return Error(id, n, InvalidTransactionId); }
      var txn := live[id].(stamp := now);
      if n < txn.maxSeq {
        live := live[id := txn];
        return Error(id, n, CommitWithInvalidSequenceNumber);
      }
      txn := txn.(maxSeq := n);
      live := live[id := txn];
      var missing := FindMissing(txn.buffers, n);
      if missing.Some? {
        return AskResend(id, missing.value);
      }
      if !canOpen {
        return Error(id, n, ErrorOpeningFile);
      }
      resp := WriteToDisk(id, n, calls);
    }

    /** The part of COMMIT that touches the disk, for a transaction that is ready. */
    method WriteToDisk(id: TxnId, n: SeqNum, calls: seq<int>) returns (resp: Response)
      requires Valid() && id in live && forall k :: 1 <= k <= n ==> k in live[id].buffers
      modifies this
      ensures Valid()
      ensures var disk := DiskOf(old(live)[id].buffers, n, true, calls);
              && (disk.Works? ==> State() == Committed(old(State()), id, Assemble(old(live)[id].buffers, n)) && resp == Ack(id, n))
              && (disk.FailsAfter? ==>
                    && State() == RolledBack(old(State()), id, TakeBytes(Assemble(old(live)[id].buffers, n), disk.bytes))
                    && resp == Error(id, n, ErrorWritingFile))
    {
      ghost var st := State();
      LiveIsCounted(st, id);
      var buffers := live[id].buffers;
      var a := live[id].attr;
      var name := attrs[a].name;
      ghost var all := Assemble(buffers, n);
      WritesArePrefix(buffers, 1, n, calls);
      assert Assemble(buffers, 0) == "" && "" + WriteBuffers(buffers, 1, n, calls).0 == WriteBuffers(buffers, 1, n, calls).0;
      if n < 1 { assert all == ""; }
      hide IndexOk, Render, Evict, Truncate, Assemble, FileSize, WriteBuffers;
      var ok := AppendBuffers(buffers, n, name, calls);
      if ok {
        commits := commits + {id};
        LogTransaction(CommitLog, id, name);
        attrs := attrs[a := attrs[a].(size := FileSize(files, name))];
        FilesKeepIndex(st, State());
        RemoveTransaction(id);
        assert State() == Committed(st, id, all);
        return Ack(id, n);
      } else {
        files := Truncate(files, name, attrs[a].size);
        FilesKeepIndex(st, State());
        return Error(id, n, ErrorWritingFile);
      }
    }

    /** The writing loop: one File::write per buffer, in sequence order. */
    method AppendBuffers(buffers: map<SeqNum, Data>, n: SeqNum, name: FileName, calls: seq<int>) returns (ok: bool)
      requires forall k :: 1 <= k <= n ==> k in buffers
      modifies `files
      ensures files == AppendTo(old(files), name, WriteBuffers(buffers, 1, n, calls).0)
      ensures ok == WriteBuffers(buffers, 1, n, calls).1
    {
      ghost var start := Content(files, name);
      ghost var all := WriteBuffers(buffers, 1, n, calls);
      files := files[name := Content(files, name)]; // O_CREAT
      var k := INITIAL_SEQ_NUM + 1;
      var left := calls;
      ghost var sofar := "";
      assert "" + all.0 == all.0 && start + "" == start;
      while k <= n
        invariant 1 <= k && (k <= n + 1 || k == 1)
        invariant files == old(files)[name := start + sofar]
        invariant var (more, fine) := WriteBuffers(buffers, k, n, left); all == (sofar + more, fine)
        decreases n - k
      {
        var (bytes, fine, rest) := WriteCalls(buffers[k], left);
        files := files[name := files[name] + bytes]; // File::write
        ghost var more := WriteBuffers(buffers, k, n, left).0;
        Assoc(start, sofar, bytes);
        if !fine {
          return false;
        }
        Assoc(sofar, bytes, WriteBuffers(buffers, k + 1, n, rest).0);
        sofar := sofar + bytes;
        left := rest;
        k := k + 1;
      }
      assert sofar + "" == sofar;
      return true;
    }

    /** READ: the whole file, as a C string; it takes no lock and changes nothing. */
    method Read(id: TxnId, seqNum: SeqNum, name: FileName, canOpen: bool, canRead: bool) returns (reply: Wire.Reply)
      ensures name in files && canOpen && canRead ==> reply == Wire.Reply("ACK", id, seqNum, 0, Wire.CString(files[name]))
      ensures name in files && canOpen && !canRead ==> reply == Wire.ReplyOf(Error(id, seqNum, ErrorReadingFile))
      ensures name !in files || !canOpen ==> reply == Wire.ReplyOf(Error(id, seqNum, ErrorOpeningFile))
    {
      if name !in files || !canOpen {
        return Wire.ReplyOf(Error(id, seqNum, ErrorOpeningFile));
      }
      if !canRead {
        return Wire.ReplyOf(Error(id, seqNum, ErrorReadingFile));
      }
      return Wire.Reply("ACK", id, seqNum, 0, Wire.CString(files[name]));
    }

    /** processCommand: whatever the command, the object does what `Process` says with the first
        draw of an unused id. */
    method ProcessRequest(m: Wire.Message, now: Time, draws: nat -> TxnId, ghost free: nat, canOpen: bool, canRead: bool, calls: seq<int>)
      returns (reply: Wire.Reply, inProgress: bool)
      requires Valid() && draws(free) !in live
      modifies this
      ensures Valid()
      ensures var o := Outside(now, FirstFree(draws, old(live).Keys, 0, free), canOpen, canRead, calls);
              (State(), reply, inProgress) == Process(old(State()), m, o)
    {
      hide IndexOk, WriteEffect, AbortEffect, CommitEffect, NewEffect, Wire.ErrorText, Wire.ErrorNumber, Wire.CString;
      var resp: Response;
      match m.command {
        case "READ" =>
          reply := Read(m.id, m.seqNum, m.data, canOpen, canRead);
          inProgress := reply.command == "ACK";
          return;
        case "NEW_TXN" => resp := NewTransaction(m.id, m.seqNum, m.data, now, draws, free);
        case "WRITE" => resp := Write(m.id, m.seqNum, m.data, now);
        case "COMMIT" => resp := Commit(m.id, m.seqNum, now, canOpen, calls);
        case "ABORT" => resp := Abort(m.id, m.seqNum);
        case _ => resp := Error(m.id, m.seqNum, InvalidCommand);
      }
      reply := Wire.ReplyOf(resp);
      inProgress := !resp.Error? && m.command != "ABORT";
    }

    // -------------------------------------------------------------- start-up

    /** Reads the four logs in order, toggling ids and collecting sizes, and deletes them. */
    method LoadFilesAndTransactions() returns (sizes: map<FileName, int>, open: map<TxnId, FileName>)
      modifies `logs
      ensures Replay(sizes, open) == ReplayAll(AllRecords(old(logs)))
      ensures logs == NO_LOGS
    {
      var texts := [logs.transactions, logs.timeouts, logs.commits, logs.aborts];
      ghost var all := [Parse(texts[0]), Parse(texts[1]), Parse(texts[2]), Parse(texts[3])];
      sizes, open := ReplayLog(texts[0], map[], map[], []);
      assert [] + all[0] == all[0];
      sizes, open := ReplayLog(texts[1], sizes, open, all[0]);
      sizes, open := ReplayLog(texts[2], sizes, open, all[0] + all[1]);
      sizes, open := ReplayLog(texts[3], sizes, open, all[0] + all[1] + all[2]);
      logs := NO_LOGS;
    }

    /** truncateFiles, file by file in whatever order the hash map gives. */
    method TruncateAll(sizes: map<FileName, int>)
      modifies `files
      ensures files == TruncateFiles(old(files), sizes)
    {
      var todo := sizes.Keys;
      ghost var done := map[];
      TruncateNothing(files);
      while todo != {}
        invariant todo <= sizes.Keys
        invariant done == map name | name in sizes && name !in todo :: sizes[name]
        invariant files == TruncateFiles(old(files), done)
        decreases todo
      {
        ghost var some := SomeElement(todo);
        var name :| name in todo;
        todo := todo - {name};
        TruncateOneMore(old(files), done, name, sizes[name]);
        if name in files {
          if 0 < sizes[name] {
            files := Truncate(files, name, sizes[name]);
          } else {
            files := files - {name};
          }
        }
        done := done[name := sizes[name]];
      }
      assert done == sizes;
    }

    /** initializeTransactions in a new process: for any logs and files whatever, the outcome is
        a recovered store, and every reopened transaction carries the present time. */
    method InitializeTransactions(now: Time)
      requires live == map[] && commits == {} && index == map[] && attrs == map[]
      modifies this
      ensures Valid() && RecoveredAt(old(State()), now, State())
    {
      hide ReplayAll, AllRecords, IndexOk, Relogs, RenderAll, TruncateFiles, NewEffect, Restarting, Recovered;
      ghost var p := ReplayAll(AllRecords(logs));
      var sizes, open := LoadFilesAndTransactions();
      assert p == Replay(sizes, open);
      TruncateAll(sizes);
      ghost var rs: seq<Record> := [];
      var todo := open.Keys;
      ghost var done: map<TxnId, FileName> := map[];
      NothingReentered(State(), now);
      while todo != {}
        invariant todo <= open.Keys
        invariant done == map id | id in open && id !in todo :: open[id]
        invariant files == TruncateFiles(old(files), sizes)
        invariant Restarting(State(), done, rs, now)
        decreases todo
      {
        ghost var some := SomeElement(todo);
        var id :| id in todo;
        todo := todo - {id};
        RestartingParts(State(), done, rs, now);
        ReenterOne(State(), done, rs, id, open[id], now);
        NewKeepsFiles(State(), id, open[id], now);
        AddNewTransaction(id, open[id], now);
        rs := rs + [Record(id, open[id], FileSize(files, open[id]))];
        done := done[id := open[id]];
      }
      assert done == open;
      RestartingParts(State(), done, rs, now);
      Restarted(old(State()), State(), rs, now);
    }
  }

  // ---------------------------------------------------------------- facts used above

  lemma LiveIsCounted(st: Store, id: TxnId)
    requires IndexOk(st) && id in st.live
    ensures st.live[id].attr in st.attrs && st.attrs[st.live[id].attr].refs >= 1
  {
  }

  lemma SixWrites(start: string, r: Record)
    ensures start + IntText(r.id) + " " + r.name + " " + IntText(r.size) + "\n" == start + Render(r)
  {
    TornText(r);
    var id, size := IntText(r.id), IntText(r.size);
    Assoc(start, id, " ");
    Assoc(start, id + " ", r.name);
    Assoc(start, id + " " + r.name, " ");
    Assoc(start, id + " " + r.name + " ", size);
    Assoc(start, id + " " + r.name + " " + size, "\n");
  }

  /** The verification loop of COMMIT: the least number of 1..n that was not received. */
  method FindMissing(buffers: map<SeqNum, Data>, n: SeqNum) returns (r: Option<SeqNum>)
    ensures r == FirstMissing(buffers, INITIAL_SEQ_NUM + 1, n)
    ensures r.None? <==> forall k :: 1 <= k <= n ==> k in buffers
    ensures r.Some? ==> 1 <= r.value <= n && r.value !in buffers && forall k :: 1 <= k < r.value ==> k in buffers
  {
    var k := INITIAL_SEQ_NUM + 1;
    while k <= n
      invariant 1 <= k && FirstMissing(buffers, k, n) == FirstMissing(buffers, 1, n)
      decreases n - k
    {
      if k !in buffers {
        return Some(k);
      }
      k := k + 1;
    }
    return None;
  }

  /** The extraction loop over one log, continuing a replay. */
  method ReplayLog(text: string, sizes0: map<FileName, int>, open0: map<TxnId, FileName>, ghost before: seq<Record>)
    returns (sizes: map<FileName, int>, open: map<TxnId, FileName>)
    requires Replay(sizes0, open0) == ReplayAll(before)
    ensures Replay(sizes, open) == ReplayAll(before + Parse(text))
  {
    sizes, open := sizes0, open0;
    var rest := text;
    ghost var seen := before;
    hide ReadRecord, Parse, ReplayAll;
    var next := ReadRecord(rest);
    while next.Some?
      invariant next == ReadRecord(rest)
      invariant seen + Parse(rest) == before + Parse(text)
      invariant Replay(sizes, open) == ReplayAll(seen)
      decreases |rest|
    {
      var (r, after) := next.value;
      if r.name !in sizes || r.size > sizes[r.name] {
        sizes := sizes[r.name := r.size];
      }
      if r.id !in open {
        open := open[r.id := r.name];
      } else {
        open := open - {r.id};
      }
      ReplaySnoc(seen, r);
      ParseStep(rest);
      assert seen + ([r] + Parse(after)) == seen + [r] + Parse(after);
      seen := seen + [r];
      rest := after;
      next := ReadRecord(rest);
    }
    ParseStep(rest);
    assert seen + [] == seen;
  }

  lemma ParseStep(text: string)
    ensures Parse(text) == match ReadRecord(text) case None => [] case Some((r, rest)) => [r] + Parse(rest)
  {
    hide ReadRecord;
  }

  lemma ReplaySnoc(rs: seq<Record>, r: Record)
    ensures ReplayAll(rs + [r]) == ReplayRecord(ReplayAll(rs), r)
  {
    assert (rs + [r])[..|rs|] == rs;
  }

  lemma TruncateNothing(files: map<FileName, Data>)
    ensures TruncateFiles(files, map[]) == files
  {
  }

  /** Files are cut independently, so the order does not matter. */
  lemma TruncateOneMore(files: map<FileName, Data>, done: map<FileName, int>, name: FileName, size: int)
    requires name !in done
    ensures var now := TruncateFiles(files, done);
            TruncateFiles(files, done[name := size])
            == if name !in now then now else if 0 < size then Truncate(now, name, size) else now - {name}
  {
  }

  /** The maps of start-up once the transactions in `done` have been re-entered. */
  ghost predicate Reentered(st: Store, done: map<TxnId, FileName>, now: Time) {
    && IndexOk(st) && st.commits == {}
    && st.live.Keys == done.Keys
    && (forall id :: id in st.live ==>
          && NameOf(st, id) == done[id]
          && st.live[id].buffers == map[] && st.live[id].maxSeq == INITIAL_SEQ_NUM + 1 && st.live[id].stamp == now)
    && (forall a :: a in st.attrs ==> st.attrs[a].size == FileSize(st.files, st.attrs[a].name))
  }

  ghost predicate Restarting(st: Store, done: map<TxnId, FileName>, rs: seq<Record>, now: Time) {
    && Reentered(st, done, now)
    && st.logs == PerLog(RenderAll(rs), "", "", "")
    && Relogs(rs, done, st.files)
  }

  lemma RestartingParts(st: Store, done: map<TxnId, FileName>, rs: seq<Record>, now: Time)
    requires Restarting(st, done, rs, now)
    ensures IndexOk(st) && st.live.Keys == done.Keys
  {
  }

  lemma NewKeepsFiles(st: Store, id: TxnId, name: FileName, now: Time)
    ensures NewEffect(st, id, name, now).files == st.files
  {
  }

  lemma NothingReentered(st: Store, now: Time)
    requires st.live == map[] && st.commits == {} && st.index == map[] && st.attrs == map[] && st.logs == NO_LOGS
    ensures Restarting(st, map[], [], now)
  {
  }

  lemma RelogOneMore(rs: seq<Record>, done: map<TxnId, FileName>, files: map<FileName, Data>, id: TxnId, name: FileName)
    requires Relogs(rs, done, files) && id !in done
    ensures var rs' := rs + [Record(id, name, FileSize(files, name))];
            Relogs(rs', done[id := name], files) && RenderAll(rs') == RenderAll(rs) + Render(Record(id, name, FileSize(files, name)))
  {
    var r := Record(id, name, FileSize(files, name));
    var rs' := rs + [r];
    assert rs'[..|rs|] == rs;
    assert !Mentions(rs, id);
    forall i ensures Mentions(rs', i) <==> i in done || i == id {
      assert rs'[|rs|].id == id;
      if Mentions(rs, i) {
        var j :| 0 <= j < |rs| && rs[j].id == i;
        assert rs'[j].id == i;
      }
    }
  }

  lemma ReenterOne(st: Store, done: map<TxnId, FileName>, rs: seq<Record>, id: TxnId, name: FileName, now: Time)
    requires Restarting(st, done, rs, now) && id !in done
    ensures Restarting(NewEffect(st, id, name, now), done[id := name], rs + [Record(id, name, FileSize(st.files, name))], now)
  {
    hide Reentered, Relogs, RenderAll, Render, FileSize, Enroll, IndexOk;
    RestartingParts(st, done, rs, now);
    EnrollIsOneMore(st, done, id, name, now);
    RelogOneMore(rs, done, st.files, id, name);
    SameMapsReentered(Enroll(st, id, name, now), NewEffect(st, id, name, now), done[id := name], now);
    assert Enroll(st, id, name, now).logs == st.logs && Enroll(st, id, name, now).files == st.files
           by { EnrollTouchesMaps(st, id, name, now); }
  }

  lemma EnrollTouchesMaps(st: Store, id: TxnId, name: FileName, now: Time)
    ensures var st' := Enroll(st, id, name, now);
            st'.logs == st.logs && st'.files == st.files && st'.commits == st.commits
  {
  }

  lemma SameMapsReentered(st: Store, st': Store, done: map<TxnId, FileName>, now: Time)
    requires Reentered(st, done, now) && st' == st.(logs := st'.logs)
    ensures Reentered(st', done, now)
  {
  }

  lemma EnrollIsOneMore(st: Store, done: map<TxnId, FileName>, id: TxnId, name: FileName, now: Time)
    requires Reentered(st, done, now) && id !in st.live
    ensures Reentered(Enroll(st, id, name, now), done[id := name], now)
  {
    hide IndexOk, FileSize;
    EnrollKeepsIndex(st, id, name, now);
    EnrollKeepsNames(st, id, name, now);
    EnrollKeepsSizes(st, id, name, now);
    hide Enroll;
  }

  lemma EnrollKeepsNames(st: Store, id: TxnId, name: FileName, now: Time)
    requires IndexOk(st) && id !in st.live
    ensures var st' := Enroll(st, id, name, now);
            && st'.live.Keys == st.live.Keys + {id} && st'.commits == st.commits
            && st'.live[id].attr in st'.attrs && NameOf(st', id) == name
            && st'.live[id].buffers == map[] && st'.live[id].maxSeq == INITIAL_SEQ_NUM + 1 && st'.live[id].stamp == now
            && (forall i :: i in st.live ==> st'.live[i] == st.live[i] && st.live[i].attr in st'.attrs && NameOf(st', i) == NameOf(st, i))
  {
    hide FileSize;
  }

  lemma EnrollKeepsSizes(st: Store, id: TxnId, name: FileName, now: Time)
    requires forall a :: a in st.attrs ==> st.attrs[a].size == FileSize(st.files, st.attrs[a].name)
    ensures var st' := Enroll(st, id, name, now);
            forall a :: a in st'.attrs ==> st'.attrs[a].size == FileSize(st'.files, st'.attrs[a].name)
  {
    hide FileSize;
  }

  lemma Restarted(st: Store, st': Store, rs: seq<Record>, now: Time)
    requires var p := ReplayAll(AllRecords(st.logs));
             Restarting(st', p.open, rs, now) && st'.files == TruncateFiles(st.files, p.sizes)
    ensures RecoveredAt(st, now, st')
  {
    hide ReplayAll, AllRecords, IndexOk, Relogs, RenderAll, TruncateFiles, FileSize;
  }
}
