/** The transaction handlers as threads that interleave one atomic step at a time. A thread is
    a request, a program counter and the references it has taken; a lock is its owner. A step
    that follows a reference to a removed transaction or to deleted file attributes sets
    `fault`. `hist` is bookkeeping for statements about whole runs: no step reads it. */
module Machine {
  import opened Basics
  import opened Transactions
  import opened Stores
  import opened LogText

  type Tid = nat

  datatype Request =
    | NewReq(id: TxnId, seqNum: SeqNum, name: FileName)
    | WriteReq(id: TxnId, seqNum: SeqNum, data: Data)
    | CommitReq(id: TxnId, seqNum: SeqNum)
    | AbortReq(id: TxnId, seqNum: SeqNum)
    | TimerReq(id: TxnId) // one wake-up of a transaction's timer thread

  datatype Pc =
    | Lock1                          // wants the member mutex
    | Check1                         // member: first look at the id
    | LockTxn                        // wants the transaction mutex
    | Lock2                          // txn; wants member
    | Check2                         // txn, member: the re-check
    | Body                           // txn: WRITE's body, COMMIT's decision
    | LockFile                       // txn; wants file
    | OpenWant                       // txn, file; wants global
    | OpenHeld                       // txn, file, global: opening the data file
    | Writing(k: SeqNum, off: nat)   // txn, file: off bytes of buffer k are written
    | Log(p: nat)                    // 0 wants global, 1 opens, 2..7 the six writes, 8 wants global, 9 closes
    | Resize                         // txn, file: stores the new file size
    | CloseWant(ok: bool)            // txn, file; wants global
    | CloseHeld(ok: bool)            // txn, file, global: closing the data file
    | Rollback                       // txn: truncating, the file mutex is already released
    | Lock3                          // txn; wants member
    | Remove                         // member (COMMIT: and txn): leaving the live map
    | Pick                           // member: NEW_TXN draws an id
    | Expire                         // member: the timer looks at the stamp
    | Done(resp: Response)

  datatype Thread = Thread(req: Request, pc: Pc, id: TxnId, attr: Address, name: FileName)

  /** What the environment decides: an id or a byte count, success of a system call, the time. */
  datatype Choice = Choice(n: int, ok: bool, now: Time)

  /** What one log file holds: ended records, then the first `torn` writes of `next`. */
  datatype LogView = LogView(records: seq<Record>, next: Record, torn: nat) {
    /** The records whose size has been written. */
    function CompleteRecords(): seq<Record> {
      records + if torn > SIZE_PIECE then [next] else []
    }
  }

  /** A complete record that ends a transaction, in the order these were written. */
  datatype End = End(id: TxnId, kind: LogKind)

  datatype Commitment = Commitment(id: TxnId, serial: nat, name: FileName, txn: Txn)
  datatype Uncommitted = Uncommitted(writer: Tid, bytes: Data)

  datatype History = History(
    used: set<TxnId>,                      // ids drawn since the last recovery
    serial: map<TxnId, nat>,               // creation number of the transaction an id denotes
    nextSerial: nat,
    initial: map<FileName, Data>,          // files before the first request
    ends: seq<End>,                        // ends recorded since the last recovery
    done: seq<Commitment>,                 // transactions with a complete commit record
    pending: map<FileName, Uncommitted>,   // bytes appended for a record not yet complete
    views: PerLog<LogView>)

  datatype State = State(
    threads: map<Tid, Thread>,
    member: Option<Tid>,
    global: Option<Tid>,
    txnOwner: map<TxnId, Tid>,
    fileOwner: map<Address, Tid>,
    store: Store,
    fault: bool,
    hist: History)
  {
    function Goto(t: Tid, pc: Pc): State
      requires t in threads
    {
      this.(threads := threads[t := threads[t].(pc := pc)])
    }

    function Put(t: Tid, th: Thread): State {
      this.(threads := threads[t := th])
    }
  }

  function FirstPc(req: Request): Pc {
    match req
    case NewReq(_, _, _) => Pick
    case TimerReq(_) => Expire
    case _ => Check1
  }

  function KindOf(req: Request): LogKind {
    match req
    case NewReq(_, _, _) => TransactionLog
    case TimerReq(_) => TimeoutLog
    case AbortReq(_, _) => AbortLog
    case _ => CommitLog
  }

  function SeqNumOf(req: Request): SeqNum {
    match req
    case TimerReq(_) => 0
    case _ => req.seqNum
  }

  // ---------------------------------------------------------------- one step of one thread

  /** The next atomic step of thread t, or None while it waits for a lock (or the choice is
      not a possible outcome of the call it makes). */
  function Step(s: State, t: Tid, c: Choice): Option<State>
    requires t in s.threads
  {
    var th := s.threads[t];
    match th.pc
    case Lock1 => if s.member == None then Some(s.(member := Some(t)).Goto(t, FirstPc(th.req))) else None
    case Check1 => Some(StepCheck1(s, t))
    case LockTxn => if th.id in s.txnOwner then None else Some(s.(txnOwner := s.txnOwner[th.id := t]).Goto(t, Lock2))
    case Lock2 => if s.member == None then Some(s.(member := Some(t)).Goto(t, Check2)) else None
    case Check2 => Some(StepCheck2(s, t))
    case Body => Some(StepBody(s, t, c))
    case LockFile =>
      if th.attr in s.fileOwner then None
      else if th.attr !in s.store.attrs then Some(s.(fault := true))
      else Some(s.(fileOwner := s.fileOwner[th.attr := t]).Goto(t, OpenWant))
    case OpenWant => if s.global == None then Some(s.(global := Some(t)).Goto(t, OpenHeld)) else None
    case OpenHeld => Some(StepOpen(s, t, c))
    case Writing(k, off) => StepWriting(s, t, k, off, c)
    case Log(p) => StepLog(s, t, p)
    case Resize => Some(StepResize(s, t))
    case CloseWant(ok) => if s.global == None then Some(s.(global := Some(t)).Goto(t, CloseHeld(ok))) else None
    case CloseHeld(ok) =>
      Some(s.(global := None, fileOwner := s.fileOwner - {th.attr}).Goto(t, if ok then Lock3 else Rollback))
    case Rollback => Some(StepRollback(s, t))
    case Lock3 => if s.member == None then Some(s.(member := Some(t)).Goto(t, Remove)) else None
    case Remove => Some(StepRemove(s, t))
    case Pick => StepPick(s, t, c)
    case Expire => Some(StepExpire(s, t, c))
    case Done(_) => None
  }

  /** Under the member mutex, which is released: is the id committed, unknown, or live? */
  function StepCheck1(s: State, t: Tid): State
    requires t in s.threads
  {
    var th := s.threads[t];
    var seqNum := SeqNumOf(th.req);
    s.(member := None).Goto(t,
      if th.id in s.store.commits then
        Done(if th.req.CommitReq? then Ack(th.id, seqNum) else Error(th.id, seqNum, InvalidOperation))
      else if th.id !in s.store.live then Done(Error(th.id, seqNum, InvalidTransactionId))
      else LockTxn)
  }

  /** The re-check: only here does a thread take references into the transaction. ABORT keeps
      the member mutex and releases the transaction mutex early. */
  function StepCheck2(s: State, t: Tid): State
    requires t in s.threads
  {
    var th := s.threads[t];
    var seqNum := SeqNumOf(th.req);
    var released := s.(txnOwner := s.txnOwner - {th.id});
    if th.id in s.store.commits then
      released.(member := None).Goto(t, Done(Error(th.id, seqNum, TransactionAlreadyCommitted)))
    else if th.id !in s.store.live then
      released.(member := None).Goto(t, Done(Error(th.id, seqNum, TransactionAborted)))
    else if th.req.AbortReq? then
      var a := s.store.live[th.id].attr;
      if a !in s.store.attrs then s.(fault := true)
      else released.Put(t, th.(pc := Log(0), attr := a, name := s.store.attrs[a].name))
    else
      s.(member := None).Goto(t, Body)
  }

  function StepBody(s: State, t: Tid, c: Choice): State
    requires t in s.threads
  {
    var th := s.threads[t];
    if th.id !in s.store.live then s.(fault := true)
    else
      var txn := s.store.live[th.id];
      match th.req
      case WriteReq(id, seqNum, data) =>
        var (txn', resp) := WriteBody(txn, id, seqNum, data, c.now);
        s.(store := s.store.(live := s.store.live[th.id := txn']), txnOwner := s.txnOwner - {th.id}).Goto(t, Done(resp))
      case _ =>
        var (txn', refusal) := CommitBody(txn, th.id, SeqNumOf(th.req), c.now);
        var s' := s.(store := s.store.(live := s.store.live[th.id := txn']));
        if refusal.Some? then
          s'.(txnOwner := s.txnOwner - {th.id}).Goto(t, Done(refusal.value))
        else if txn.attr !in s.store.attrs then s.(fault := true)
        else s'.Put(t, th.(pc := LockFile, attr := txn.attr, name := s.store.attrs[txn.attr].name))
  }

  /** The File constructor: creates a missing file; on failure unwinding releases every lock. */
  function StepOpen(s: State, t: Tid, c: Choice): State
    requires t in s.threads
  {
    var th := s.threads[t];
    if c.ok then
      s.(global := None,
         store := s.store.(files := s.store.files[th.name := Content(s.store.files, th.name)]),
         hist := s.hist.(pending := s.hist.pending[th.name := Uncommitted(t, "")]))
      .Goto(t, Writing(INITIAL_SEQ_NUM + 1, 0))
    else
      s.(global := None, fileOwner := s.fileOwner - {th.attr}, txnOwner := s.txnOwner - {th.id})
      .Goto(t, Done(Error(th.id, SeqNumOf(th.req), ErrorOpeningFile)))
  }

  /** One write(2) call: a failure, or any part of what is left of buffer k. After the last
      buffer the id enters the commit set. */
  function StepWriting(s: State, t: Tid, k: SeqNum, off: nat, c: Choice): Option<State>
    requires t in s.threads
  {
    var th := s.threads[t];
    if th.id !in s.store.live then Some(s.(fault := true))
    else
      var txn := s.store.live[th.id];
      if k > txn.maxSeq then
        Some(s.(store := s.store.(commits := s.store.commits + {th.id})).Goto(t, Log(0)))
      else if k !in txn.buffers then Some(s.(fault := true)) // buffers.at throws
      else if off >= |txn.buffers[k]| then Some(s.Goto(t, Writing(k + 1, 0)))
      else if !c.ok then Some(s.Goto(t, CloseWant(false)))
      else if !(0 <= c.n <= |txn.buffers[k]| - off) then None
      else
        var chunk := txn.buffers[k][off..off + c.n];
        Some(s.(store := s.store.(files := Append(s.store.files, th.name, chunk)),
                hist := Appended(s.hist, t, th.name, chunk))
             .Goto(t, Writing(k, off + c.n)))
  }

  function Append(files: map<FileName, Data>, name: FileName, chunk: Data): map<FileName, Data> {
    files[name := Content(files, name) + chunk]
  }

  function Appended(h: History, t: Tid, name: FileName, chunk: Data): History {
    var before := if name in h.pending then h.pending[name].bytes else "";
    h.(pending := h.pending[name := Uncommitted(t, before + chunk)])
  }

  /** logTransaction: open, six writes, close. The file size is read when it is printed. */
  function StepLog(s: State, t: Tid, p: nat): Option<State>
    requires t in s.threads
  {
    var th := s.threads[t];
    if p == 0 || p == 8 then
      if s.global == None then Some(s.(global := Some(t)).Goto(t, Log(p + 1))) else None
    else if p == 1 then Some(s.(global := None).Goto(t, Log(2)))
    else if 2 <= p <= 7 then
      if (th.req.CommitReq? || th.req.AbortReq?) && th.attr !in s.store.attrs then Some(s.(fault := true))
      else
        var kind := KindOf(th.req);
        var r := Record(th.id, th.name, FileSize(s.store.files, th.name));
        var text := s.store.logs.Get(kind) + Piece(r, p - 2);
        var h := s.hist.(views := s.hist.views.Put(kind, ViewAfter(s.hist.views.Get(kind), r, p - 2)));
        Some(s.(store := s.store.(logs := s.store.logs.Put(kind, text)),
                hist := if p - 2 == SIZE_PIECE then Recorded(s, h, th) else h)
             .Goto(t, Log(p + 1)))
    else Some(AfterLog(s.(global := None), t))
  }

  function ViewAfter(v: LogView, r: Record, piece: nat): LogView {
    match piece
    case 0 => v.(next := r, torn := 1)
    case 4 => v.(next := r, torn := 5)
    case 5 => v.(records := v.records + [v.next], torn := 0)
    case _ => v.(torn := piece + 1)
  }

  /** The record of th is complete. If it is a commit record, the bytes appended for it now
      belong to a committed transaction. */
  function Recorded(s: State, h: History, th: Thread): History {
    var txn := if th.id in s.store.live then s.store.live[th.id] else Transactions.NewTxn(0, 0);
    var serial := if th.id in h.serial then h.serial[th.id] else 0;
    var h' := if th.req.NewReq? then h else h.(ends := h.ends + [End(th.id, KindOf(th.req))]);
    if !th.req.CommitReq? then h'
    else h'.(done := h.done + [Commitment(th.id, serial, th.name, txn)], pending := h.pending - {th.name})
  }

  function AfterLog(s: State, t: Tid): State
    requires t in s.threads
  {
    var th := s.threads[t];
    match th.req
    case NewReq(_, _, _) => s.(member := None).Goto(t, Done(Ack(th.id, INITIAL_SEQ_NUM)))
    case TimerReq(_) => s.(member := None).Goto(t, Done(Silent))
    case AbortReq(_, _) => s.Goto(t, Remove)
    case _ => s.Goto(t, Resize)
  }

  function StepResize(s: State, t: Tid): State
    requires t in s.threads
  {
    var th := s.threads[t];
    if th.attr !in s.store.attrs then s.(fault := true)
    else
      var a := s.store.attrs[th.attr].(size := FileSize(s.store.files, th.name));
      s.(store := s.store.(attrs := s.store.attrs[th.attr := a])).Goto(t, CloseWant(true))
  }

  /** The catch block of COMMIT: truncate to the remembered size, keep the transaction. */
  function StepRollback(s: State, t: Tid): State
    requires t in s.threads
  {
    var th := s.threads[t];
    if th.attr !in s.store.attrs then s.(fault := true)
    else
      s.(store := s.store.(files := Truncate(s.store.files, th.name, s.store.attrs[th.attr].size)),
         hist := s.hist.(pending := s.hist.pending - {th.name}),
         txnOwner := s.txnOwner - {th.id})
      .Goto(t, Done(Error(th.id, SeqNumOf(th.req), ErrorWritingFile)))
  }

  function StepRemove(s: State, t: Tid): State
    requires t in s.threads
  {
    var th := s.threads[t];
    s.(store := Evict(s.store, th.id), member := None,
       txnOwner := if th.req.CommitReq? then s.txnOwner - {th.id} else s.txnOwner)
    .Goto(t, Done(Ack(th.id, SeqNumOf(th.req))))
  }

  /** NEW_TXN: the drawn id is only known not to be live. */
  function StepPick(s: State, t: Tid, c: Choice): Option<State>
    requires t in s.threads
  {
    var th := s.threads[t];
    if c.n in s.store.live || !th.req.NewReq? then None
    else
      Some(s.(store := Enroll(s.store, c.n, th.req.name, c.now),
              hist := s.hist.(used := s.hist.used + {c.n},
                              serial := s.hist.serial[c.n := s.hist.nextSerial],
                              nextSerial := s.hist.nextSerial + 1))
           .Put(t, th.(pc := Log(0), id := c.n, name := th.req.name)))
  }

  function StepExpire(s: State, t: Tid, c: Choice): State
    requires t in s.threads
  {
    var th := s.threads[t];
    if Expired(s, th.id, c.now) then
      var a := s.store.live[th.id].attr;
      if a !in s.store.attrs then s.(fault := true)
      else s.(store := Evict(s.store, th.id)).Put(t, th.(pc := Log(0), name := s.store.attrs[a].name))
    else
      s.(member := None).Goto(t, Done(Silent))
  }

  predicate Expired(s: State, id: TxnId, now: Time) {
    id in s.store.live && now >= s.store.live[id].stamp + TRANSACTION_TIMEOUT_SECONDS
  }

  // ---------------------------------------------------------------- runs

  datatype Label = Arrive(t: Tid, req: Request) | Act(t: Tid, c: Choice)

  /** NEW_TXN with a nonzero sequence number is refused before any lock is taken. */
  function Arrived(req: Request): Thread {
    var pc := if req.NewReq? && req.seqNum != INITIAL_SEQ_NUM
              then Done(Error(req.id, req.seqNum, InvalidSequenceNumber)) else Lock1;
    Thread(req, pc, req.id, 0, "")
  }

  function Next(s: State, l: Label): Option<State> {
    match l
    case Arrive(t, req) => if t in s.threads then None else Some(s.Put(t, Arrived(req)))
    case Act(t, c) => if t in s.threads then Step(s, t, c) else None
  }

  function Run(s: State, ls: seq<Label>): Option<State>
    decreases |ls|
  {
    if ls == [] then Some(s)
    else match Next(s, ls[0])
         case None => None
         case Some(s') => Run(s', ls[1..])
  }
}
