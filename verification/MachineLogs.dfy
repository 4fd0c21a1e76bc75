/** The four log files: their text is always complete records plus at most one torn one, each
    ended transaction was created, and the largest size logged for a file is the length of its
    committed contents. */
module MachineLogs {
  import opened Basics
  import opened Text
  import opened Transactions
  import opened Stores
  import opened LogText
  import opened Machine
  import opened MachineLocks
  import opened MachineSafety
  import opened MachineFrames
  import opened MachineEnds
  import opened MachineFiles

  // ---------------------------------------------------------------- premises

  /** No commit record is started while another is unfinished. Two commits on different files
      share no lock while they log. */
  ghost predicate CommitLogQuiet(s: State, l: Label) {
    l.Act? && l.t in s.threads && s.threads[l.t].pc == Log(2) && s.threads[l.t].req.CommitReq? ==>
      forall u :: u in s.threads && Mid(s.threads[u]) ==> !s.threads[u].req.CommitReq?
  }

  /** NEW_TXN, ABORT and the timer log no size of a file that a commit is in the middle of. */
  predicate RecordQuiet(s: State, l: Label) {
    l.Act? && l.t in s.threads && s.threads[l.t].pc == Log(6) && !s.threads[l.t].req.CommitReq? ==>
      s.threads[l.t].name !in s.hist.pending
  }

  /** File names are non-empty words. */
  predicate NameReadable(l: Label) {
    l.Arrive? && l.req.NewReq? ==> IsWord(l.req.name)
  }

  // ---------------------------------------------------------------- text and views

  /** The thread has written some but not all of a record's six pieces. */
  predicate Mid(th: Thread) {
    th.pc.Log? && 3 <= th.pc.p <= 7
  }

  ghost predicate TextOk(text: string, v: LogView) {
    v.torn <= 5 && text == RenderAll(v.records) + Torn(v.next, v.torn)
  }

  ghost predicate MidMatches(v: LogView, th: Thread)
    requires th.pc.Log?
  {
    v.torn == th.pc.p - 2 && v.next.id == th.id && v.next.name == th.name
  }

  ghost predicate MidsMatch(s: State) {
    forall t :: t in s.threads && Mid(s.threads[t]) ==> MidMatches(s.hist.views.Get(KindOf(s.threads[t].req)), s.threads[t])
  }

  ghost predicate TornHasWriter(s: State) {
    forall kind :: s.hist.views.Get(kind).torn > 0 ==>
      exists t :: t in s.threads && Mid(s.threads[t]) && KindOf(s.threads[t].req) == kind
  }

  ghost predicate OneWriterPerLog(s: State) {
    forall t, u :: t in s.threads && u in s.threads && t != u && Mid(s.threads[t]) && Mid(s.threads[u])
                   ==> KindOf(s.threads[t].req) != KindOf(s.threads[u].req)
  }

  ghost predicate TextsOk(s: State) {
    && (forall kind :: TextOk(s.store.logs.Get(kind), s.hist.views.Get(kind)))
    && MidsMatch(s) && TornHasWriter(s) && OneWriterPerLog(s)
  }

  lemma TornIgnoresSize(r: Record, r': Record, p: nat)
    requires p <= 4 && r'.id == r.id && r'.name == r.name
    ensures Torn(r', p) == Torn(r, p)
  {
    if p > 0 { TornIgnoresSize(r, r', p - 1); }
  }

  lemma PieceKeepsText(text: string, v: LogView, r: Record, q: nat)
    requires TextOk(text, v) && q <= 5 && v.torn == q
    requires q > 0 ==> v.next.id == r.id && v.next.name == r.name
    requires q == 5 ==> r == v.next || r.size >= 0
    ensures TextOk(text + Piece(r, q), ViewAfter(v, r, q))
  {
    var v' := ViewAfter(v, r, q);
    if q == 5 {
      assert Piece(r, 5) == Piece(v.next, 5);
      assert Torn(v.next, 6) == Torn(v.next, 5) + Piece(v.next, 5);
      assert (v.records + [v.next])[..|v.records|] == v.records;
      Text.Assoc(RenderAll(v.records), Torn(v.next, 5), Piece(v.next, 5));
      assert Torn(v.next, 0) == "";
    } else {
      if q == 4 { TornIgnoresSize(v.next, r, 4); }
      assert q == 0 ==> Torn(v.next, 0) == Torn(r, 0) == "";
      assert Torn(v'.next, q + 1) == Torn(v'.next, q) + Piece(v'.next, q);
      Text.Assoc(RenderAll(v.records), Torn(v.next, q), Piece(r, q));
    }
  }

  ghost predicate WritesPiece(s: State, t: Tid, p: nat, s': State)
    requires t in s.threads && 2 <= p
  {
    var th := s.threads[t];
    var kind := KindOf(th.req);
    var r := Record(th.id, th.name, FileSize(s.store.files, th.name));
    && Moves(s, t, th.(pc := Log(p + 1)), s')
    && s'.store == s.store.(logs := s.store.logs.Put(kind, s.store.logs.Get(kind) + Piece(r, p - 2)))
    && s'.hist.views == s.hist.views.Put(kind, ViewAfter(s.hist.views.Get(kind), r, p - 2))
    && s'.hist.used == s.hist.used && s'.hist.initial == s.hist.initial
  }

  lemma PieceEffect(s: State, t: Tid, p: nat)
    requires t in s.threads && s.threads[t].pc == Log(p) && 2 <= p <= 7 && StepLog(s, t, p).Some?
    requires !StepLog(s, t, p).value.fault
    ensures WritesPiece(s, t, p, StepLog(s, t, p).value)
  {
    hide ViewAfter, KindOf, FileSize, Piece;
  }

  lemma PutGet<T>(logs: PerLog<T>, kind: LogKind, value: T)
    ensures logs.Put(kind, value).Get(kind) == value
    ensures forall k :: k != kind ==> logs.Put(kind, value).Get(k) == logs.Get(k)
  {
  }

  /** Where a thread about to write a piece finds its log. */
  lemma PieceInTurn(s: State, t: Tid, p: nat, c: Choice)
    requires LocksOk(s) && TextsOk(s) && t in s.threads && s.threads[t].pc == Log(p) && 2 <= p <= 7
    requires CommitLogQuiet(s, Act(t, c))
    ensures s.hist.views.Get(KindOf(s.threads[t].req)).torn == p - 2
    ensures forall u :: u in s.threads && u != t && Mid(s.threads[u]) ==> KindOf(s.threads[u].req) != KindOf(s.threads[t].req)
  {
    var th := s.threads[t];
    assert Shape(th);
    forall u | u in s.threads && u != t && Mid(s.threads[u])
      ensures KindOf(s.threads[u].req) != KindOf(th.req)
    {
      assert Shape(s.threads[u]);
      if p == 2 && !th.req.CommitReq? {
        assert HoldsMember(th);
      }
    }
  }

  lemma PieceText(s: State, t: Tid, p: nat, s': State)
    requires TextsOk(s) && t in s.threads && s.threads[t].pc == Log(p) && 2 <= p <= 7 && WritesPiece(s, t, p, s')
    requires s.hist.views.Get(KindOf(s.threads[t].req)).torn == p - 2
    ensures var kind := KindOf(s.threads[t].req); var v' := s'.hist.views.Get(kind);
            && TextOk(s'.store.logs.Get(kind), v')
            && v'.torn == (if p == 7 then 0 else p - 1)
            && (p < 7 ==> v'.next.id == s.threads[t].id && v'.next.name == s.threads[t].name)
            && (forall k :: k != kind ==> s'.store.logs.Get(k) == s.store.logs.Get(k) && s'.hist.views.Get(k) == s.hist.views.Get(k))
  {
    var th := s.threads[t];
    var kind := KindOf(th.req);
    var v := s.hist.views.Get(kind);
    var r := Record(th.id, th.name, FileSize(s.store.files, th.name));
    assert p > 2 ==> MidMatches(v, th);
    assert TextOk(s.store.logs.Get(kind), v);
    hide TextsOk, KindOf, FileSize;
    PieceKeepsText(s.store.logs.Get(kind), v, r, p - 2);
    PutGet(s.store.logs, kind, s.store.logs.Get(kind) + Piece(r, p - 2));
    PutGet(s.hist.views, kind, ViewAfter(v, r, p - 2));
  }

  ghost predicate OthersElsewhere(s: State, t: Tid)
    requires t in s.threads
  {
    forall u :: u in s.threads && u != t && Mid(s.threads[u]) ==> KindOf(s.threads[u].req) != KindOf(s.threads[t].req)
  }

  lemma PieceKeepsMids(s: State, t: Tid, p: nat, s': State)
    requires t in s.threads && s.threads[t].pc == Log(p) && 2 <= p <= 7
    requires MidsMatch(s) && OneWriterPerLog(s) && OthersElsewhere(s, t)
    requires Moves(s, t, s.threads[t].(pc := Log(p + 1)), s')
    requires forall k :: k != KindOf(s.threads[t].req) ==> s'.hist.views.Get(k) == s.hist.views.Get(k)
    requires p < 7 ==> MidMatches(s'.hist.views.Get(KindOf(s.threads[t].req)), s.threads[t].(pc := Log(p + 1)))
    ensures MidsMatch(s') && OneWriterPerLog(s')
  {
    hide KindOf;
  }

  lemma PieceKeepsWriters(s: State, t: Tid, p: nat, s': State)
    requires t in s.threads && s.threads[t].pc == Log(p) && 2 <= p <= 7 && TornHasWriter(s)
    requires Moves(s, t, s.threads[t].(pc := Log(p + 1)), s')
    requires forall k :: k != KindOf(s.threads[t].req) ==> s'.hist.views.Get(k) == s.hist.views.Get(k)
    requires s'.hist.views.Get(KindOf(s.threads[t].req)).torn > 0 ==> p < 7
    ensures TornHasWriter(s')
  {
    hide KindOf;
    forall k | s'.hist.views.Get(k).torn > 0
      ensures exists u :: u in s'.threads && Mid(s'.threads[u]) && KindOf(s'.threads[u].req) == k
    {
      if k == KindOf(s.threads[t].req) {
        assert t in s'.threads && Mid(s'.threads[t]) && KindOf(s'.threads[t].req) == k;
      } else {
        var u :| u in s.threads && Mid(s.threads[u]) && KindOf(s.threads[u].req) == k;
        assert u in s'.threads && Mid(s'.threads[u]) && KindOf(s'.threads[u].req) == k;
      }
    }
  }

  lemma PieceKeepsTexts(s: State, t: Tid, p: nat, c: Choice, s': State)
    requires LocksOk(s) && TextsOk(s) && t in s.threads && s.threads[t].pc == Log(p) && 2 <= p <= 7
    requires CommitLogQuiet(s, Act(t, c)) && WritesPiece(s, t, p, s')
    ensures TextsOk(s')
  {
    PieceInTurn(s, t, p, c);
    PieceText(s, t, p, s');
    assert Moves(s, t, s.threads[t].(pc := Log(p + 1)), s');
    hide LocksOk, WritesPiece, CommitLogQuiet, TextOk, KindOf, MidsMatch, TornHasWriter, OneWriterPerLog;
    PieceKeepsMids(s, t, p, s');
    PieceKeepsWriters(s, t, p, s');
    assert forall kind :: TextOk(s'.store.logs.Get(kind), s'.hist.views.Get(kind));
  }

  lemma OtherStepsKeepTexts(s: State, t: Tid, th': Thread, s': State)
    requires TextsOk(s) && Moves(s, t, th', s') && !Mid(s.threads[t]) && !Mid(th')
    requires s'.store.logs == s.store.logs && s'.hist.views == s.hist.views
    ensures TextsOk(s')
  {
    forall k | s'.hist.views.Get(k).torn > 0
      ensures exists u :: u in s'.threads && Mid(s'.threads[u]) && KindOf(s'.threads[u].req) == k
    {
      var u :| u in s.threads && Mid(s.threads[u]) && KindOf(s.threads[u].req) == k;
      assert u in s'.threads && Mid(s'.threads[u]) && KindOf(s'.threads[u].req) == k;
    }
  }
}
