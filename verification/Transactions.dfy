/** One transaction: what the bodies of WRITE and COMMIT do to its tuple while they hold the
    transaction mutex, and what any sequence of such bodies leaves behind. */
module Transactions {
  import opened Basics

  /** The transaction tuple. `attr` is the address of the shared file attributes. */
  datatype Txn = Txn(attr: nat, buffers: map<SeqNum, Data>, maxSeq: SeqNum, stamp: Time)

  function NewTxn(attr: nat, now: Time): Txn {
    Txn(attr, map[], INITIAL_SEQ_NUM + 1, now)
  }

  // ---------------------------------------------------------------- handler bodies

  /** WRITE after its re-check: stamp, refuse a repeated number, otherwise buffer. */
  function WriteBody(txn: Txn, id: TxnId, seqNum: SeqNum, data: Data, now: Time): (Txn, Response) {
    var t := txn.(stamp := now);
    if seqNum in t.buffers then
      (t, Error(id, seqNum, RepeatedSequenceNumber))
    else
      (t.(maxSeq := if seqNum > t.maxSeq then seqNum else t.maxSeq, buffers := t.buffers[seqNum := data]),
       Ack(id, seqNum))
  }

  /** COMMIT after its re-check, up to the decision to touch the disk; None means go on. */
  function CommitBody(txn: Txn, id: TxnId, n: SeqNum, now: Time): (Txn, Option<Response>) {
    var t := txn.(stamp := now);
    if n < t.maxSeq then
      (t, Some(Error(id, n, CommitWithInvalidSequenceNumber)))
    else
      var t := t.(maxSeq := n);
      match FirstMissing(t.buffers, INITIAL_SEQ_NUM + 1, n)
      case Some(k) => (t, Some(AskResend(id, k)))
      case None => (t, None)
  }

  /** The verification loop of COMMIT: the least number in k..n that has no buffer. */
  function FirstMissing(buffers: map<SeqNum, Data>, k: SeqNum, n: SeqNum): (r: Option<SeqNum>)
    ensures r.Some? ==> k <= r.value <= n && r.value !in buffers
                        && forall j :: k <= j < r.value ==> j in buffers
    ensures r.None? ==> forall j :: k <= j <= n ==> j in buffers
    decreases n - k
  {
    if k > n then None
    else if k !in buffers then Some(k)
    else FirstMissing(buffers, k + 1, n)
  }

  /** The bytes COMMIT appends: data 1 to data n, in that order. */
  function Assemble(buffers: map<SeqNum, Data>, n: SeqNum): Data
    decreases n
  {
    if n <= 0 then ""
    else Assemble(buffers, n - 1) + if n in buffers then buffers[n] else ""
  }

  ghost predicate Complete(txn: Txn) {
    forall j :: 1 <= j <= txn.maxSeq ==> j in txn.buffers
  }

  // ---------------------------------------------------------------- runs of bodies

  /** The bodies that run on one transaction. That every life of the concurrent machine applies
      some sequence of these to each of its transactions is `Bodies.LivesAreBodies`. A CommitOp
      whose disk part failed is followed by further ops. */
  datatype Op = WriteOp(seqNum: SeqNum, data: Data, now: Time) | CommitOp(seqNum: SeqNum, now: Time)

  function ApplyOp(txn: Txn, op: Op): Txn {
    match op
    case WriteOp(k, d, now) => WriteBody(txn, 0, k, d, now).0
    case CommitOp(n, now) => CommitBody(txn, 0, n, now).0
  }

  function RunOps(txn: Txn, ops: seq<Op>): Txn {
    if ops == [] then txn else ApplyOp(RunOps(txn, ops[..|ops| - 1]), ops[|ops| - 1])
  }

  /** The data of the first WRITE of number k: the one that is acknowledged. */
  function FirstWrite(ops: seq<Op>, k: SeqNum): Option<Data> {
    if ops == [] then None
    else if ops[0].WriteOp? && ops[0].seqNum == k then Some(ops[0].data)
    else FirstWrite(ops[1..], k)
  }

  ghost predicate Bounds(ops: seq<Op>, n: SeqNum) {
    forall i :: 0 <= i < |ops| ==> ops[i].seqNum <= n
  }

  lemma {:induction false} FirstWriteSnoc(ops: seq<Op>, op: Op, k: SeqNum)
    ensures FirstWrite(ops + [op], k)
            == if FirstWrite(ops, k).Some? then FirstWrite(ops, k)
               else if op.WriteOp? && op.seqNum == k then Some(op.data) else None
  {
    if ops == [] {
      assert (ops + [op])[1..] == [];
    } else {
      assert (ops + [op])[1..] == ops[1..] + [op];
      FirstWriteSnoc(ops[1..], op, k);
    }
  }

  /** No acknowledged write is lost or replaced: after any run the buffer of k holds exactly
      the data of the first WRITE k, and k has no buffer iff no WRITE k ran. */
  lemma {:induction false} AcknowledgedWritesAreKept(attr: nat, now: Time, ops: seq<Op>, k: SeqNum)
    ensures var b := RunOps(NewTxn(attr, now), ops).buffers;
            FirstWrite(ops, k) == if k in b then Some(b[k]) else None
  {
    if ops != [] {
      var front, last := ops[..|ops| - 1], ops[|ops| - 1];
      assert ops == front + [last];
      AcknowledgedWritesAreKept(attr, now, front, k);
      FirstWriteSnoc(front, last, k);
    }
  }

  /** `maxSeq` is the least bound of 1 and of every number any WRITE or COMMIT ever named:
      refused requests never exceed it, so it never decreases. */
  lemma {:induction false} MaxSeqIsLeastBound(attr: nat, now: Time, ops: seq<Op>, n: SeqNum)
    ensures RunOps(NewTxn(attr, now), ops).maxSeq <= n <==> 1 <= n && Bounds(ops, n)
  {
    if ops != [] {
      var front, last := ops[..|ops| - 1], ops[|ops| - 1];
      assert ops == front + [last];
      var t := RunOps(NewTxn(attr, now), front);
      MaxSeqIsLeastBound(attr, now, front, n);
      MaxSeqIsLeastBound(attr, now, front, t.maxSeq);
      if last.WriteOp? && last.seqNum in t.buffers {
        AcknowledgedWritesAreKept(attr, now, front, last.seqNum);
        FirstWriteBounded(front, last.seqNum, t.maxSeq);
      }
      BoundsSnoc(front, last, n);
      BoundsSnoc(front, last, t.maxSeq);
      hide Bounds;
    }
  }

  lemma BoundsSnoc(front: seq<Op>, last: Op, n: SeqNum)
    ensures Bounds(front + [last], n) <==> Bounds(front, n) && last.seqNum <= n
  {
    var ops := front + [last];
    if Bounds(ops, n) {
      assert ops[|front|].seqNum <= n;
      assert forall i :: 0 <= i < |front| ==> front[i] == ops[i];
    }
  }

  lemma {:induction false} FirstWriteBounded(ops: seq<Op>, k: SeqNum, n: SeqNum)
    requires FirstWrite(ops, k).Some? && Bounds(ops, n)
    ensures k <= n
  {
    if !(ops[0].WriteOp? && ops[0].seqNum == k) {
      assert Bounds(ops[1..], n);
      FirstWriteBounded(ops[1..], k, n);
    }
  }

  /** COMMIT n goes to disk exactly when n is positive, no request so far named a larger
      number, and every number 1..n was written. */
  lemma {:induction false} CommitReadyIff(attr: nat, start: Time, ops: seq<Op>, id: TxnId, n: SeqNum, now: Time)
    ensures CommitBody(RunOps(NewTxn(attr, start), ops), id, n, now).1 == None
            <==> 1 <= n && Bounds(ops, n) && forall k :: 1 <= k <= n ==> FirstWrite(ops, k).Some?
  {
    var t := RunOps(NewTxn(attr, start), ops);
    MaxSeqIsLeastBound(attr, start, ops, n);
    forall k ensures FirstWrite(ops, k) == if k in t.buffers then Some(t.buffers[k]) else None {
      AcknowledgedWritesAreKept(attr, start, ops, k);
    }
    if CommitBody(t, id, n, now).1 == None {
      forall k | 1 <= k <= n ensures FirstWrite(ops, k).Some? {
        assert k in t.buffers;
      }
    } else if t.maxSeq <= n {
      var k := FirstMissing(t.buffers, 1, n).value;
      assert FirstWrite(ops, k) == None;
    }
  }

  /** What COMMIT n answers when it is not ready, from the requests alone. It is refused iff n is
      not positive or some request so far named a larger number, and then changes nothing but
      the stamp; it asks for k iff no request did and k is the least of 1..n not written yet. */
  lemma {:induction false} CommitRefusedIff(attr: nat, start: Time, ops: seq<Op>, id: TxnId, n: SeqNum, now: Time)
    ensures var before := RunOps(NewTxn(attr, start), ops); var (after, answer) := CommitBody(before, id, n, now);
            && (n < 1 || !Bounds(ops, n) ==>
                  answer == Some(Error(id, n, CommitWithInvalidSequenceNumber)) && after == before.(stamp := now))
            && (1 <= n && Bounds(ops, n) ==>
                  && (answer.Some? ==> exists k :: 1 <= k <= n && answer == Some(AskResend(id, k)) && LeastUnwritten(ops, k))
                  && after == before.(stamp := now, maxSeq := n))
  {
    var t := RunOps(NewTxn(attr, start), ops);
    MaxSeqIsLeastBound(attr, start, ops, n);
    var missing := FirstMissing(t.buffers, 1, n);
    if 1 <= n && Bounds(ops, n) && missing.Some? {
      forall j | 1 <= j <= missing.value ensures FirstWrite(ops, j).Some? <==> j < missing.value {
        AcknowledgedWritesAreKept(attr, start, ops, j);
      }
      assert LeastUnwritten(ops, missing.value);
    }
  }

  /** k is the least positive number without a WRITE. */
  predicate LeastUnwritten(ops: seq<Op>, k: SeqNum) {
    forall j :: 1 <= j <= k ==> (FirstWrite(ops, j).Some? <==> j < k)
  }

  /** What WRITE k answers, from the requests alone: an acknowledgement iff it is the first of its
      number. A repeat is refused and changes nothing but the stamp. */
  lemma {:induction false} WriteAnswers(attr: nat, start: Time, ops: seq<Op>, id: TxnId, k: SeqNum, data: Data, now: Time)
    ensures var before := RunOps(NewTxn(attr, start), ops); var (after, answer) := WriteBody(before, id, k, data, now);
            && (FirstWrite(ops, k) == None ==> answer == Ack(id, k))
            && (FirstWrite(ops, k).Some? ==> answer == Error(id, k, RepeatedSequenceNumber) && after == before.(stamp := now))
  {
    AcknowledgedWritesAreKept(attr, start, ops, k);
  }

  /** When COMMIT n is ready, the positive buffered numbers are exactly 1..n. */
  lemma {:induction false} ReadyBuffersAreExact(attr: nat, start: Time, ops: seq<Op>, id: TxnId, n: SeqNum, now: Time)
    requires CommitBody(RunOps(NewTxn(attr, start), ops), id, n, now).1 == None
    ensures forall k :: 0 < k ==> (k in RunOps(NewTxn(attr, start), ops).buffers <==> k <= n)
  {
    CommitReadyIff(attr, start, ops, id, n, now);
    forall k | 0 < k ensures k in RunOps(NewTxn(attr, start), ops).buffers <==> k <= n {
      AcknowledgedWritesAreKept(attr, start, ops, k);
      if FirstWrite(ops, k).Some? {
        FirstWriteBounded(ops, k, n);
      }
    }
  }

  /** Concatenation of the first writes 1..n, written without the transaction tuple. */
  function FirstWrites(ops: seq<Op>, n: SeqNum): Data
    decreases n
  {
    if n <= 0 then ""
    else FirstWrites(ops, n - 1) + if FirstWrite(ops, n).Some? then FirstWrite(ops, n).value else ""
  }

  lemma {:induction false} AssembleIsFirstWrites(attr: nat, now: Time, ops: seq<Op>, n: SeqNum)
    ensures Assemble(RunOps(NewTxn(attr, now), ops).buffers, n) == FirstWrites(ops, n)
    decreases n
  {
    if 0 < n {
      AssembleIsFirstWrites(attr, now, ops, n - 1);
      AcknowledgedWritesAreKept(attr, now, ops, n);
    }
  }

  lemma {:induction false} FirstWritesAgree(ops1: seq<Op>, ops2: seq<Op>, n: SeqNum)
    requires forall k :: 1 <= k <= n ==> FirstWrite(ops1, k) == FirstWrite(ops2, k)
    ensures FirstWrites(ops1, n) == FirstWrites(ops2, n)
    decreases n
  {
    if 0 < n { FirstWritesAgree(ops1, ops2, n - 1); }
  }

  // ---------------------------------------------------------------- the resend loop

  ghost function Missing(txn: Txn, n: SeqNum): set<SeqNum> {
    set k | 1 <= k <= n && k !in txn.buffers
  }

  /** A client that answers each ASK_RESEND k with WRITE k and repeats COMMIT n: the final
      transaction and the numbers it was asked for, in order. */
  ghost function ResendLoop(txn: Txn, id: TxnId, n: SeqNum, supply: SeqNum -> Data, now: Time): (Txn, seq<SeqNum>)
    decreases |Missing(txn, n)|
  {
    var (t, answer) := CommitBody(txn, id, n, now);
    if answer.Some? && answer.value.AskResend? then
      var k := answer.value.seqNum;
      var t' := WriteBody(t, id, k, supply(k), now).0;
      assert Missing(t', n) == Missing(txn, n) - {k};
      var (final, asked) := ResendLoop(t', id, n, supply, now);
      (final, [k] + asked)
    else
      (t, [])
  }

  /** One round: COMMIT n is ready, or it asks for the least missing number and WRITE of that
      number leaves one number less missing. */
  lemma ResendRound(txn: Txn, id: TxnId, n: SeqNum, data: Data, now: Time)
    requires txn.maxSeq <= n
    ensures var (t, answer) := CommitBody(txn, id, n, now);
            && (answer == None <==> Missing(txn, n) == {})
            && (answer == None ==> t == txn.(stamp := now, maxSeq := n) && CommitBody(t, id, n, now).1 == None)
            && (answer.Some? ==>
                  var k := answer.value.seqNum;
                  && answer == Some(AskResend(id, k))
                  && k in Missing(txn, n)
                  && (forall j :: j in Missing(txn, n) ==> k <= j)
                  && var t' := WriteBody(t, id, k, data, now).0;
                     && t'.maxSeq == n && t'.buffers == txn.buffers[k := data]
                     && Missing(t', n) == Missing(txn, n) - {k})
  {
    var (t, answer) := CommitBody(txn, id, n, now);
    if answer == None {
      assert forall k :: 1 <= k <= n ==> k in txn.buffers;
    } else {
      var k := FirstMissing(txn.buffers, INITIAL_SEQ_NUM + 1, n).value;
      assert answer == Some(AskResend(id, k));
      var t' := WriteBody(t, id, k, data, now).0;
      assert t'.buffers == txn.buffers[k := data];
      MissingAfterFill(txn, t', n, k);
      assert forall j | 1 <= j < k :: j in txn.buffers;
    }
  }

  lemma MissingAfterFill(txn: Txn, txn': Txn, n: SeqNum, k: SeqNum)
    requires 1 <= k <= n && k !in txn.buffers && txn'.buffers.Keys == txn.buffers.Keys + {k}
    ensures k in Missing(txn, n) && Missing(txn', n) == Missing(txn, n) - {k}
  {
  }

  /** `asked` is an increasing listing of the set `missing`. */
  ghost predicate Lists(asked: seq<SeqNum>, missing: set<SeqNum>) {
    && |asked| == |missing|
    && (forall k :: k in asked <==> k in missing)
    && (forall i, j :: 0 <= i < j < |asked| ==> asked[i] < asked[j])
  }

  lemma ListsCons(k: SeqNum, rest: seq<SeqNum>, missing: set<SeqNum>)
    requires k in missing && (forall j :: j in missing ==> k <= j)
    requires Lists(rest, missing - {k})
    ensures Lists([k] + rest, missing)
  {
    var asked := [k] + rest;
    assert forall j :: j in asked <==> j == k || j in rest;
    forall i | 0 <= i < |rest| ensures k < rest[i] {
      assert rest[i] in rest;
      assert rest[i] in missing - {k};
    }
  }

  /** The buffers a resend loop ends with: the missing ones filled from the client. */
  ghost predicate Filled(before: map<SeqNum, Data>, after: map<SeqNum, Data>, missing: set<SeqNum>, supply: SeqNum -> Data) {
    && after.Keys == before.Keys + missing
    && (forall k :: k in before ==> after[k] == before[k])
    && (forall k :: k in missing ==> after[k] == supply(k))
  }

  /** The loop asks for every missing number exactly once, in increasing order, and then
      COMMIT n is ready with the missing buffers filled and the others untouched. */
  lemma {:induction false} ResendLoopAsksEachMissingOnce(txn: Txn, id: TxnId, n: SeqNum, supply: SeqNum -> Data, now: Time)
    requires txn.maxSeq <= n
    ensures var (final, asked) := ResendLoop(txn, id, n, supply, now);
            && CommitBody(final, id, n, now).1 == None
            && Lists(asked, Missing(txn, n))
            && Filled(txn.buffers, final.buffers, Missing(txn, n), supply)
    decreases |Missing(txn, n)|
  {
    hide CommitBody, WriteBody, Missing, Lists, Filled, FirstMissing;
    var (t, answer) := CommitBody(txn, id, n, now);
    ResendRound(txn, id, n, "", now);
    if answer.Some? {
      var k := answer.value.seqNum;
      ResendRound(txn, id, n, supply(k), now);
      var t' := WriteBody(t, id, k, supply(k), now).0;
      ResendLoopAsksEachMissingOnce(t', id, n, supply, now);
      ListsCons(k, ResendLoop(t', id, n, supply, now).1, Missing(txn, n));
      FilledCons(txn, n, k, ResendLoop(t', id, n, supply, now).0.buffers, supply);
    } else {
      NothingListed(txn.buffers, supply);
    }
  }

  lemma FilledCons(txn: Txn, n: SeqNum, k: SeqNum, after: map<SeqNum, Data>, supply: SeqNum -> Data)
    requires k in Missing(txn, n)
    requires Filled(txn.buffers[k := supply(k)], after, Missing(txn, n) - {k}, supply)
    ensures Filled(txn.buffers, after, Missing(txn, n), supply)
  {
    assert forall j :: j in Missing(txn, n) && j != k ==> j in Missing(txn, n) - {k};
    assert after[k] == supply(k);
  }

  lemma NothingListed(buffers: map<SeqNum, Data>, supply: SeqNum -> Data)
    ensures Lists([], {}) && Filled(buffers, buffers, {}, supply)
  {
  }
}
