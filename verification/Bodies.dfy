/** From requests to bytes: whatever the threads, timeouts and crashes, a live transaction is what
    the bodies that ran on its id since it was drawn (or reopened) make of a new one, so what a
    COMMIT appends is decided by the requests alone. */
module Bodies {
  import opened Basics
  import opened Transactions
  import opened Stores
  import opened LogText
  import opened Machine
  import opened MachineLocks
  import opened MachineSafety
  import opened MachineFrames
  import opened MachineEnds
  import opened MachineFiles
  import opened MachineRecords
  import opened MachineSizes
  import opened MachineSerials
  import opened Recovery
  import opened Crash
  import opened Durability
  import Effects

  /** Where a transaction began and the bodies that ran on it. */
  datatype Tale = Tale(attr: Address, stamp: Time, ops: seq<Op>)

  function Told(tale: Tale): Txn {
    RunOps(NewTxn(tale.attr, tale.stamp), tale.ops)
  }

  function OpOf(req: Request, now: Time): Op {
    if req.WriteReq? then WriteOp(req.seqNum, req.data, now) else CommitOp(SeqNumOf(req), now)
  }

  /** The attributes a new transaction on a file gets. */
  function AddressFor(st: Store, name: FileName): Address {
    if name in st.index && st.index[name] in st.attrs then st.index[name] else st.nextAddress
  }

  /** The tale of an id after one more event: drawn, reopened by a recovery, or a body run under
      its transaction's mutex. */
  function Tells(s: State, e: Event, id: TxnId, tale: Option<Tale>): Option<Tale> {
    match e
    case Dies(st, now) => if id in st.live then Some(Tale(st.live[id].attr, now, [])) else None
    case Does(Arrive(_, _)) => tale
    case Does(Act(t, c)) => if t in s.threads then TellsStep(s, s.threads[t], c, id, tale) else tale
  }

  function TellsStep(s: State, th: Thread, c: Choice, id: TxnId, tale: Option<Tale>): Option<Tale> {
    if th.pc.Pick? && th.req.NewReq? && c.n == id then Some(Tale(AddressFor(s.store, th.req.name), c.now, []))
    else if th.pc.Body? && th.id == id && tale.Some? then Some(tale.value.(ops := tale.value.ops + [OpOf(th.req, c.now)]))
    else tale
  }

  /** The tale of an id along a whole life. */
  ghost function Story(s: State, es: seq<Event>, id: TxnId, tale: Option<Tale>): Option<Tale>
    decreases |es|
  {
    if es == [] || After(s, es[0]).None? then tale
    else Story(After(s, es[0]).value, es[1..], id, Tells(s, es[0], id, tale))
  }

  predicate TaleOk(st: Store, id: TxnId, tale: Option<Tale>) {
    id in st.live ==> tale.Some? && st.live[id] == Told(tale.value)
  }

  // ---------------------------------------------------------------- one event

  lemma RunOneMore(tale: Tale, op: Op)
    ensures Told(tale.(ops := tale.ops + [op])) == ApplyOp(Told(tale), op)
  {
    assert (tale.ops + [op])[..|tale.ops|] == tale.ops;
    hide ApplyOp;
  }

  /** A body does to the transaction what its operation says. */
  lemma BodyApplies(s: State, t: Tid, c: Choice)
    requires t in s.threads && s.threads[t].pc == Body && s.threads[t].id in s.store.live && !StepBody(s, t, c).fault
    ensures var th := s.threads[t]; var live := s.store.live;
            StepBody(s, t, c).store.live == live[th.id := ApplyOp(live[th.id], OpOf(th.req, c.now))]
  {
    var th := s.threads[t];
    var txn := s.store.live[th.id];
    if th.req.WriteReq? {
      assert ApplyOp(txn, OpOf(th.req, c.now)) == WriteBody(txn, th.req.id, th.req.seqNum, th.req.data, c.now).0;
    } else {
      hide FirstMissing;
      assert ApplyOp(txn, OpOf(th.req, c.now)) == CommitBody(txn, th.id, SeqNumOf(th.req), c.now).0;
    }
    hide WriteBody, CommitBody, ApplyOp, OpOf;
  }

  lemma PickBegins(s: State, t: Tid, c: Choice)
    requires t in s.threads && s.threads[t].pc == Pick && Step(s, t, c).Some?
    ensures s.threads[t].req.NewReq?
    ensures Step(s, t, c).value.store.live == s.store.live[c.n := NewTxn(AddressFor(s.store, s.threads[t].req.name), c.now)]
  {
    StepOfMaps(s, t, c);
    hide Step, FileSize;
  }

  lemma OthersOnlyLeave(s: State, t: Tid, c: Choice)
    requires t in s.threads && (s.threads[t].pc == Remove || s.threads[t].pc == Expire) && Step(s, t, c).Some?
    ensures var live' := Step(s, t, c).value.store.live;
            forall id :: id in live' ==> id in s.store.live && live'[id] == s.store.live[id]
  {
    StepOfMaps(s, t, c);
    EvictTouches(s.store, s.threads[t].id);
    hide Step, Evict;
  }

  lemma BodyTells(s: State, t: Tid, c: Choice, id: TxnId, tale: Option<Tale>)
    requires Safe(s) && t in s.threads && s.threads[t].pc == Body && Step(s, t, c).Some? && !Step(s, t, c).value.fault
    requires TaleOk(s.store, id, tale)
    ensures TaleOk(Step(s, t, c).value.store, id, TellsStep(s, s.threads[t], c, id, tale))
  {
    LiveAttrsOf(s, t);
    StepOfBody(s, t, c);
    hide Safe, Told, ApplyOp, OpOf, AddressFor, Step;
    BodyApplies(s, t, c);
    hide StepBody;
    if tale.Some? { RunOneMore(tale.value, OpOf(s.threads[t].req, c.now)); }
  }

  lemma StepTells(s: State, t: Tid, c: Choice, id: TxnId, tale: Option<Tale>)
    requires Safe(s) && t in s.threads && Step(s, t, c).Some? && !Step(s, t, c).value.fault && TaleOk(s.store, id, tale)
    ensures TaleOk(Step(s, t, c).value.store, id, TellsStep(s, s.threads[t], c, id, tale))
  {
    OwnRefs(s, t);
    hide Safe, Told, AddressFor, RefsOk, Step;
    var th := s.threads[t];
    match th.pc
    case Body =>
      hide TaleOk, TellsStep;
      BodyTells(s, t, c, id, tale);
    case Pick =>
      PickBegins(s, t, c);
      NothingRun(Tale(AddressFor(s.store, th.req.name), c.now, []));
    case Remove | Expire => OthersOnlyLeave(s, t, c);
    case _ => LiveStays(s, t, c);
  }

  lemma NothingRun(tale: Tale)
    requires tale.ops == []
    ensures Told(tale) == NewTxn(tale.attr, tale.stamp)
  {
  }

  lemma ReopenedIsNew(st: Store, now: Time, st': Store, id: TxnId)
    requires RecoveredAt(st, now, st') && id in st'.live
    ensures st'.live[id] == Told(Tale(st'.live[id].attr, now, []))
  {
    hide ReplayAll, AllRecords, TruncateFiles, IndexOk;
  }

  // ---------------------------------------------------------------- whole lives

  /** A life with fresh ids and quiet timeouts. */
  ghost predicate SafeLife(s: State, es: seq<Event>)
    decreases |es|
  {
    es == [] || ((es[0].Does? ==> FreshId(s, es[0].l) && TimeoutQuiet(s, es[0].l))
                 && (After(s, es[0]).Some? ==> SafeLife(After(s, es[0]).value, es[1..])))
  }

  lemma EventTells(s: State, e: Event, id: TxnId, tale: Option<Tale>)
    requires Safe(s) && After(s, e).Some? && TaleOk(s.store, id, tale)
    requires e.Does? ==> FreshId(s, e.l) && TimeoutQuiet(s, e.l)
    ensures Safe(After(s, e).value) && TaleOk(After(s, e).value.store, id, Tells(s, e, id, tale))
  {
    hide Safe, Told, TellsStep, FreshId, TimeoutQuiet, Restart, Recovered;
    match e
    case Does(Arrive(t, req)) => NextIsSafe(s, e.l);
    case Does(Act(t, c)) =>
      NextIsSafe(s, e.l);
      hide Step;
      SafeMeansNoFault(Next(s, e.l).value);
      StepTells(s, t, c, id, tale);
    case Dies(st, now) =>
      RestartParts(s.hist, st);
      RestartIsSafe(s.hist, st) by { RecoveredIndex(s.store, st); }
      if id in st.live { ReopenedIsNew(s.store, now, st, id); }
  }

  lemma RecoveredIndex(st: Store, st': Store)
    requires Recovered(st, st')
    ensures IndexOk(st') && st'.commits == {}
  {
    hide ReplayAll, AllRecords, TruncateFiles, IndexOk;
  }

  /** Refinement: along every life of the machine, in every interleaving and through crashes, each
      live transaction is exactly what the bodies told of its id make of a new transaction. */
  lemma {:induction false} LivesAreBodies(s: State, es: seq<Event>, id: TxnId, tale: Option<Tale>)
    requires Safe(s) && SafeLife(s, es) && Life(s, es).Some? && TaleOk(s.store, id, tale)
    ensures Safe(Life(s, es).value) && TaleOk(Life(s, es).value.store, id, Story(s, es, id, tale))
    decreases |es|
  {
    hide Safe, TaleOk, After, FreshId, TimeoutQuiet, Tells;
    if es != [] {
      EventTells(s, es[0], id, tale);
      LivesAreBodies(After(s, es[0]).value, es[1..], id, Tells(s, es[0], id, tale));
    }
  }

  // ---------------------------------------------------------------- what a COMMIT appends

  /** With all of 1..maxSeq there, exactly these numbers were written, and the bytes are the first
      WRITE of each in the order of the numbers. */
  lemma CompleteIsFirstWrites(tale: Tale)
    requires Complete(Told(tale))
    ensures var n := Told(tale).maxSeq;
            && 1 <= n && Bounds(tale.ops, n) && (forall k :: 1 <= k ==> (FirstWrite(tale.ops, k).Some? <==> k <= n))
            && Assemble(Told(tale).buffers, n) == FirstWrites(tale.ops, n)
  {
    var txn := Told(tale);
    MaxSeqIsLeastBound(tale.attr, tale.stamp, tale.ops, txn.maxSeq);
    AssembleIsFirstWrites(tale.attr, tale.stamp, tale.ops, txn.maxSeq);
    forall k | 1 <= k ensures FirstWrite(tale.ops, k).Some? <==> k <= txn.maxSeq {
      AcknowledgedWritesAreKept(tale.attr, tale.stamp, tale.ops, k);
      if FirstWrite(tale.ops, k).Some? { FirstWriteBounded(tale.ops, k, txn.maxSeq); }
    }
  }

  /** COMMIT past its decision. */
  predicate Committing(s: State, t: Tid) {
    t in s.threads && PastCheck(s.threads[t]) && s.threads[t].pc != Body && s.threads[t].req.CommitReq?
  }

  /** A COMMIT past its decision appends the first WRITEs told of its id, 1 to the last. */
  lemma CommitsWhatWasWritten(s: State, es: seq<Event>, tale: Option<Tale>, t: Tid)
    requires Safe(s) && SafeLife(s, es) && Life(s, es).Some?
    requires var s' := Life(s, es).value;
             Committing(s', t) && TaleOk(s.store, s'.threads[t].id, tale)
    ensures var s' := Life(s, es).value; var id := s'.threads[t].id; var story := Story(s, es, id, tale);
            && id in s'.store.live && story.Some?
            && var txn, ops := s'.store.live[id], story.value.ops;
               && 1 <= txn.maxSeq && Assemble(txn.buffers, txn.maxSeq) == FirstWrites(ops, txn.maxSeq)
               && forall k :: 1 <= k ==> (FirstWrite(ops, k).Some? <==> k <= txn.maxSeq)
  {
    var s' := Life(s, es).value;
    var id := s'.threads[t].id;
    hide Life, SafeLife;
    LivesAreBodies(s, es, id, tale);
    OwnRefs(s', t);
    hide Safe, Story, Told, Complete;
    CompleteIsFirstWrites(Story(s, es, id, tale).value);
  }

  /** Order independence: two transactions, in any two lives, whose requests first wrote the same
      data under every positive number are committed with the same bytes. The order and the
      times of the requests, repeats, refusals, resends, other transactions and other threads
      make no difference. */
  lemma OrderIndependence(s1: State, es1: seq<Event>, t1: Tid, s2: State, es2: seq<Event>, t2: Tid)
    requires Safe(s1) && SafeLife(s1, es1) && Life(s1, es1).Some? && s1.store.live == map[]
    requires Safe(s2) && SafeLife(s2, es2) && Life(s2, es2).Some? && s2.store.live == map[]
    requires Committing(Life(s1, es1).value, t1) && Committing(Life(s2, es2).value, t2)
    requires var id1, id2 := Life(s1, es1).value.threads[t1].id, Life(s2, es2).value.threads[t2].id;
             forall k :: 1 <= k ==> FirstOf(Story(s1, es1, id1, None), k) == FirstOf(Story(s2, es2, id2, None), k)
    ensures var s1', s2' := Life(s1, es1).value, Life(s2, es2).value;
            && s1'.threads[t1].id in s1'.store.live && s2'.threads[t2].id in s2'.store.live
            && var txn1, txn2 := s1'.store.live[s1'.threads[t1].id], s2'.store.live[s2'.threads[t2].id];
               txn1.maxSeq == txn2.maxSeq && Assemble(txn1.buffers, txn1.maxSeq) == Assemble(txn2.buffers, txn2.maxSeq)
  {
    var s1', s2' := Life(s1, es1).value, Life(s2, es2).value;
    var id1, id2 := s1'.threads[t1].id, s2'.threads[t2].id;
    hide Life, SafeLife, Safe, Story;
    CommitsWhatWasWritten(s1, es1, None, t1);
    CommitsWhatWasWritten(s2, es2, None, t2);
    var ops1, ops2 := Story(s1, es1, id1, None).value.ops, Story(s2, es2, id2, None).value.ops;
    hide PastCheck, Assemble;
    assert forall k :: 1 <= k ==> FirstWrite(ops1, k) == FirstOf(Story(s1, es1, id1, None), k);
    assert forall k :: 1 <= k ==> FirstWrite(ops2, k) == FirstOf(Story(s2, es2, id2, None), k);
    hide FirstOf, FirstWrites;
    SameWritesSameBytes(ops1, s1'.store.live[id1].maxSeq, ops2, s2'.store.live[id2].maxSeq);
  }

  lemma SameWritesSameBytes(ops1: seq<Op>, n1: SeqNum, ops2: seq<Op>, n2: SeqNum)
    requires 1 <= n1 && forall k :: 1 <= k ==> (FirstWrite(ops1, k).Some? <==> k <= n1)
    requires 1 <= n2 && forall k :: 1 <= k ==> (FirstWrite(ops2, k).Some? <==> k <= n2)
    requires forall k :: 1 <= k ==> FirstWrite(ops1, k) == FirstWrite(ops2, k)
    ensures n1 == n2 && FirstWrites(ops1, n1) == FirstWrites(ops2, n2)
  {
    hide FirstWrite;
    assert n1 < n2 ==> FirstWrite(ops1, n2) == FirstWrite(ops2, n2);
    assert n2 < n1 ==> FirstWrite(ops1, n1) == FirstWrite(ops2, n1);
    FirstWritesAgree(ops1, ops2, n1);
  }

  function FirstOf(tale: Option<Tale>, k: SeqNum): Option<Data> {
    if tale.None? then None else FirstWrite(tale.value.ops, k)
  }

  // ---------------------------------------------------------------- an acknowledged WRITE reaches the file

  /** While the transaction lives, number k is buffered with data d, and COMMIT will write it. */
  ghost predicate Kept(s: State, id: TxnId, k: SeqNum, d: Data) {
    id in s.hist.used && (id in s.store.live ==> Holds(s.store.live[id], k, d))
  }

  predicate Holds(txn: Txn, k: SeqNum, d: Data) {
    k in txn.buffers && txn.buffers[k] == d && k <= txn.maxSeq
  }

  lemma BodyKeepsBuffer(txn: Txn, op: Op, k: SeqNum, d: Data)
    requires Holds(txn, k, d)
    ensures Holds(ApplyOp(txn, op), k, d)
  {
    hide FirstMissing;
  }

  lemma UsedStays(s: State, t: Tid, c: Choice)
    requires Safe(s) && t in s.threads && Step(s, t, c).Some? && !Step(s, t, c).value.fault
    ensures s.hist.used <= Step(s, t, c).value.hist.used
  {
    OwnRefs(s, t);
    hide Safe, Step;
    HistEffect(s, t, c);
  }

  lemma StepKeepsBuffer(s: State, t: Tid, c: Choice, id: TxnId, k: SeqNum, d: Data)
    requires Safe(s) && t in s.threads && Step(s, t, c).Some? && !Step(s, t, c).value.fault
    requires FreshId(s, Act(t, c)) && Kept(s, id, k, d)
    ensures Kept(Step(s, t, c).value, id, k, d)
  {
    UsedStays(s, t, c);
    OwnRefs(s, t);
    hide Safe, ApplyOp, OpOf, AddressFor, RefsOk, Holds;
    var th := s.threads[t];
    match th.pc
    case Body =>
      assert th.id in s.store.live by { LiveAttrsOf(s, t); }
      StepOfBody(s, t, c);
      hide Step;
      BodyApplies(s, t, c);
      hide StepBody;
      if th.id == id { BodyKeepsBuffer(s.store.live[id], OpOf(th.req, c.now), k, d); }
    case Pick =>
      PickBegins(s, t, c);
      hide Step;
    case Remove | Expire =>
      OthersOnlyLeave(s, t, c);
      hide Step;
    case _ =>
      hide Step;
      LiveStays(s, t, c);
  }

  ghost predicate NoCrash(es: seq<Event>) {
    forall i :: 0 <= i < |es| ==> es[i].Does?
  }

  lemma {:induction false} LifeKeepsBuffer(s: State, es: seq<Event>, id: TxnId, k: SeqNum, d: Data)
    requires Safe(s) && SafeLife(s, es) && Life(s, es).Some? && NoCrash(es) && Kept(s, id, k, d)
    ensures Safe(Life(s, es).value) && Kept(Life(s, es).value, id, k, d)
    decreases |es|
  {
    hide Safe, FreshId, TimeoutQuiet, Step, Kept;
    if es != [] {
      assert es[0].Does?;
      var s' := Next(s, es[0].l).value;
      NextIsSafe(s, es[0].l);
      SafeMeansNoFault(s');
      match es[0].l {
        case Arrive(t, req) => ArrivalKeepsBuffer(s, t, req, id, k, d);
        case Act(t, c) => StepKeepsBuffer(s, t, c, id, k, d);
      }
      assert NoCrash(es[1..]);
      LifeKeepsBuffer(s', es[1..], id, k, d);
    }
  }

  lemma ArrivalKeepsBuffer(s: State, t: Tid, req: Request, id: TxnId, k: SeqNum, d: Data)
    requires Kept(s, id, k, d)
    ensures Kept(s.Put(t, Arrived(req)), id, k, d)
  {
  }

  /** The acknowledgement of a WRITE means that its data is buffered. */
  lemma AcknowledgedIsBuffered(s: State, u: Tid, c: Choice)
    requires Safe(s) && u in s.threads && s.threads[u].pc == Body && s.threads[u].req.WriteReq?
    requires Step(s, u, c).Some? && u in Step(s, u, c).value.threads
    requires Step(s, u, c).value.threads[u].pc.Done? && Step(s, u, c).value.threads[u].pc.resp.Ack?
    ensures var req := s.threads[u].req; Kept(Step(s, u, c).value, s.threads[u].id, req.seqNum, req.data)
  {
    LiveAttrsOf(s, u);
    SafeParts(s);
    StepOfBody(s, u, c);
    hide Safe, Step, IndexOk;
  }

  lemma {:induction false} CommittedSplit(done: seq<Commitment>, j: nat, name: FileName) returns (rest: Data)
    requires j < |done| && done[j].name == name
    ensures CommittedTo(done, name)
            == CommittedTo(done[..j], name) + Assemble(done[j].txn.buffers, done[j].txn.maxSeq) + rest
  {
    hide Assemble;
    var front := done[..|done| - 1];
    var mine := CommittedTo(done[..j], name) + Assemble(done[j].txn.buffers, done[j].txn.maxSeq);
    if j == |done| - 1 {
      rest := "";
      assert mine + "" == mine;
    } else {
      var last := done[|done| - 1];
      var end := if last.name == name then Assemble(last.txn.buffers, last.txn.maxSeq) else "";
      rest := CommittedSplit(front, j, name);
      assert front[..j] == done[..j] && mine + rest + end == mine + (rest + end);
      rest := rest + end;
    }
  }

  lemma AssembleSplit(buffers: map<SeqNum, Data>, k: SeqNum, n: SeqNum) returns (rest: Data)
    requires 1 <= k <= n && k in buffers
    ensures Assemble(buffers, n) == Assemble(buffers, k - 1) + buffers[k] + rest
  {
    Effects.AssembleGrows(buffers, k, n);
    rest := Assemble(buffers, n)[|Assemble(buffers, k)|..];
    assert Assemble(buffers, n) == Assemble(buffers, k) + rest;
  }

  /** A WRITE answered ACK. */
  ghost predicate Accepted(s: State, u: Tid, c: Choice) {
    && u in s.threads && s.threads[u].pc == Body && s.threads[u].req.WriteReq? && Step(s, u, c).Some?
    && var s' := Step(s, u, c).value;
    u in s'.threads && s'.threads[u].pc.Done? && s'.threads[u].pc.resp.Ack?
  }

  /** The COMMIT that is about to be answered from the end of its handler. */
  predicate Removing(s: State, t: Tid, id: TxnId) {
    t in s.threads && s.threads[t].pc == Remove && s.threads[t].req.CommitReq? && s.threads[t].id == id
  }

  /** A life from s that meets the premises and ends in s'. */
  ghost predicate Leads(s: State, es: seq<Event>, s': State) {
    PoliteLife(s, es) && Life(s, es) == Some(s')
  }

  /** In a file with all these commitments, d stands behind the file's first content, the
      commitments before number j, and what number j itself has under numbers below k. */
  predicate InPlace(content: Data, first: Data, done: seq<Commitment>, j: nat, k: SeqNum, d: Data)
    requires j < |done|
  {
    first + CommittedTo(done[..j], done[j].name) + Assemble(done[j].txn.buffers, k - 1) + d <= content
  }

  /** The promise of the server to its client: after any life, a WRITE of a positive number is
      acknowledged; after anything but a crash a COMMIT of its transaction is acknowledged at the
      end of its handler; then, after any requests, crashes and restarts, recovery leaves the
      written bytes in the file: behind what was committed before, at their place among the
      transaction's own. */
  lemma AcknowledgedWriteIsInTheFile(
    files: map<FileName, Data>, es: seq<Event>, s0: State, u: Tid, c: Choice, s1: State, mid: seq<Event>, s2: State,
    t: Tid, later: seq<Event>, s3: State, recovered: Store)
    returns (j: nat)
    requires Leads(Boot(files), es, s0) && Accepted(s0, u, c) && 1 <= s0.threads[u].req.seqNum && s1 == Step(s0, u, c).value
    requires Leads(s1, mid, s2) && NoCrash(mid) && Removing(s2, t, s0.threads[u].id)
    requires Leads(s2, later, s3) && Recovered(s3.store, recovered)
    ensures var w := s0.threads[u];
            && w.id in s2.store.live && w.id in s2.hist.serial && j < |s3.hist.done|
            && s3.hist.done[j] == Commitment(w.id, s2.hist.serial[w.id], s2.threads[t].name, s2.store.live[w.id])
            && InPlace(Content(recovered.files, s2.threads[t].name), Content(files, s2.threads[t].name), s3.hist.done, j,
                 w.req.seqNum, w.req.data)
  {
    var w, name := s0.threads[u], s2.threads[t].name;
    hide Boot, Good, Step, CommittedTo, Assemble, Recovered, NoCrash, Kept, Holds, Leads, InPlace;
    GoodAfter(files, es, s0);
    var before := UpToCommit(Boot(files), es, s0, u, c, mid, s2);
    BufferedAt(s0, u, c, mid, s2);
    var k, d := w.req.seqNum, w.req.data;
    hide Accepted;
    j := CommittedAs(files, before, s2, t, later, s3, recovered);
    KeptIsHeld(s2, w.id, k, d);
    PlacedIn(Content(files, name), s3.hist.done, j, k, d);
  }

  lemma CommittedAs(files: map<FileName, Data>, es: seq<Event>, s: State, t: Tid, later: seq<Event>, s': State, recovered: Store)
    returns (j: nat)
    requires Leads(Boot(files), es, s) && Leads(s, later, s') && Recovered(s'.store, recovered)
    requires t in s.threads && Removing(s, t, s.threads[t].id)
    ensures var th := s.threads[t];
            && th.id in s.store.live && th.id in s.hist.serial && j < |s'.hist.done|
            && s'.hist.done[j] == Commitment(th.id, s.hist.serial[th.id], th.name, s.store.live[th.id])
            && Content(recovered.files, th.name) == Content(files, th.name) + CommittedTo(s'.hist.done, th.name)
  {
    hide Boot, Step, CommittedTo, Recovered, Life, PoliteLife;
    AcknowledgedIsDurable(files, es, t, Choice(0, true, 0), later, recovered);
    var th := s.threads[t];
    j :| 0 <= j < |s'.hist.done| && s'.hist.done[j] == Commitment(th.id, s.hist.serial[th.id], th.name, s.store.live[th.id]);
  }

  lemma KeptIsHeld(s: State, id: TxnId, k: SeqNum, d: Data)
    requires Kept(s, id, k, d) && id in s.store.live
    ensures Holds(s.store.live[id], k, d)
  {
  }

  lemma GoodAfter(files: map<FileName, Data>, es: seq<Event>, s: State)
    requires Leads(Boot(files), es, s)
    ensures Good(s)
  {
    BootIsGood(files);
    LifeIsGood(Boot(files), es);
  }

  lemma PlacedIn(first: Data, done: seq<Commitment>, j: nat, k: SeqNum, d: Data)
    requires j < |done| && 1 <= k && Holds(done[j].txn, k, d)
    ensures InPlace(first + CommittedTo(done, done[j].name), first, done, j, k, d)
  {
    var name, txn := done[j].name, done[j].txn;
    hide CommittedTo, Assemble;
    var rest1 := AssembleSplit(txn.buffers, k, txn.maxSeq);
    var rest2 := CommittedSplit(done, j, name);
    Regrouped(first, CommittedTo(done[..j], name), Assemble(txn.buffers, k - 1), d, rest1, rest2);
  }

  lemma Regrouped(a: Data, b: Data, c: Data, d: Data, e: Data, f: Data)
    ensures a + (b + (c + d + e) + f) == a + b + c + d + (e + f)
  {
  }

  /** From the acknowledged WRITE to the COMMIT. */
  lemma BufferedAt(s: State, u: Tid, c: Choice, mid: seq<Event>, s': State)
    requires Good(s) && Accepted(s, u, c) && Leads(Step(s, u, c).value, mid, s') && NoCrash(mid)
    ensures Kept(s', s.threads[u].id, s.threads[u].req.seqNum, s.threads[u].req.data)
  {
    GoodIsSafe(s);
    AcknowledgedIsBuffered(s, u, c);
    hide Good, Safe, Kept, Step, Life, PoliteLife;
    assert Safe(Step(s, u, c).value) by { BodyIsPolite(s, u, c); NextIsSafe(s, Act(u, c)); NextIsAStep(s, u, c); }
    PoliteIsSafe(Step(s, u, c).value, mid);
    LifeKeepsBuffer(Step(s, u, c).value, mid, s.threads[u].id, s.threads[u].req.seqNum, s.threads[u].req.data);
  }

  lemma NextIsAStep(s: State, t: Tid, c: Choice)
    requires t in s.threads
    ensures Next(s, Act(t, c)) == Step(s, t, c)
  {
    hide Step;
  }

  lemma BodyIsPolite(s: State, u: Tid, c: Choice)
    requires u in s.threads && s.threads[u].pc == Body
    ensures Polite(s, Act(u, c)) && FreshId(s, Act(u, c)) && TimeoutQuiet(s, Act(u, c))
  {
  }

  lemma {:induction false} PoliteIsSafe(s: State, es: seq<Event>)
    requires PoliteLife(s, es)
    ensures SafeLife(s, es)
    decreases |es|
  {
    hide After, FreshId, TimeoutQuiet;
    if es != [] && After(s, es[0]).Some? { PoliteIsSafe(After(s, es[0]).value, es[1..]); }
  }

  lemma UpToCommit(s: State, es: seq<Event>, s0: State, u: Tid, c: Choice, mid: seq<Event>, s': State) returns (all: seq<Event>)
    requires Leads(s, es, s0) && Accepted(s0, u, c) && Leads(Step(s0, u, c).value, mid, s')
    ensures Leads(s, all, s')
  {
    var step := Does(Act(u, c));
    BodyIsPolite(s0, u, c);
    NextIsAStep(s0, u, c);
    assert ([step] + mid)[1..] == mid && ([step] + mid)[0] == step;
    assert After(s0, step) == Step(s0, u, c);
    assert Leads(s0, [step] + mid, s') by { hide After, Polite; }
    all := es + ([step] + mid);
    LifeConcat(s, es, [step] + mid);
  }
}
