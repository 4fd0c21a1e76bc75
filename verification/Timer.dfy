/** A transaction's timer: sleep until the held stamp plus the timeout, look at the current
    stamp, and either remove the transaction, or hold the newer stamp and sleep again. */
module Timer {
  import opened Basics
  import opened Transactions

  // ---------------------------------------------------------------- the moving stamp

  /** The stamps a transaction ever carries: its creation, then one per body that ran. */
  function Stamps(created: Time, ops: seq<Op>): (s: seq<Time>)
    ensures |s| == |ops| + 1
  {
    [created] + seq(|ops|, i requires 0 <= i < |ops| => ops[i].now)
  }

  /** Every WRITE and COMMIT that reaches its body moves the stamp, refused or not. */
  lemma {:induction false} EveryBodyStamps(attr: nat, created: Time, ops: seq<Op>, k: nat)
    requires k <= |ops|
    ensures RunOps(NewTxn(attr, created), ops[..k]).stamp == Stamps(created, ops)[k]
  {
    if k > 0 {
      assert ops[..k][..k - 1] == ops[..k - 1];
      EveryBodyStamps(attr, created, ops, k - 1);
    }
  }

  ghost predicate Ordered(stamps: seq<Time>) {
    stamps != [] && forall i, j :: 0 <= i < j < |stamps| ==> stamps[i] <= stamps[j]
  }

  /** Index of the stamp in force at a moment that is not before the first one. */
  function InForce(stamps: seq<Time>, now: Time): (k: nat)
    requires Ordered(stamps) && stamps[0] <= now
    ensures k < |stamps| && stamps[k] <= now
    ensures forall j :: k < j < |stamps| ==> now < stamps[j]
  {
    if stamps[|stamps| - 1] <= now then |stamps| - 1
    else InForce(stamps[..|stamps| - 1], now)
  }

  /** No later stamp follows stamp j within the timeout. */
  predicate Idle(stamps: seq<Time>, j: nat)
    requires j < |stamps|
  {
    j + 1 < |stamps| ==> stamps[j + 1] > stamps[j] + TRANSACTION_TIMEOUT_SECONDS
  }

  function FirstIdle(stamps: seq<Time>, from: nat): (j: nat)
    requires from < |stamps|
    ensures from <= j < |stamps| && Idle(stamps, j)
    ensures forall i :: from <= i < j ==> !Idle(stamps, i)
    decreases |stamps| - from
  {
    if Idle(stamps, from) then from else FirstIdle(stamps, from + 1)
  }

  // ---------------------------------------------------------------- the loop

  /** `late(i)` is how long after its deadline wake-up i looks; `gone` is when the transaction
      ends by other means. The loop ends because the held stamp gets newer every time. */
  method RunTimer(stamps: seq<Time>, gone: Option<Time>, late: nat -> nat)
    returns (removed: bool, at: Time, wakeups: nat)
    requires Ordered(stamps)
    ensures stamps[0] <= at
    ensures removed <==> !(gone.Some? && gone.value <= at)
    // never while a stamp is younger than the timeout
    ensures removed ==> forall j :: 0 <= j < |stamps| && stamps[j] <= at ==> stamps[j] + TRANSACTION_TIMEOUT_SECONDS <= at
    // the deadline it slept to was at most the newest stamp plus the timeout
    ensures wakeups > 0 && at <= stamps[InForce(stamps, at)] + TRANSACTION_TIMEOUT_SECONDS + late(wakeups - 1)
    // one wake-up, and one more for each time it found a newer stamp
    ensures wakeups <= 1 + InForce(stamps, at)
    // a punctual timer removes at the first idle moment
    ensures removed && (forall i :: late(i) == 0) ==> at == stamps[FirstIdle(stamps, 0)] + TRANSACTION_TIMEOUT_SECONDS
  {
    ghost var held := 0;
    var latest := stamps[0];
    wakeups := 0;
    while true
      invariant held < |stamps| && latest == stamps[held] && stamps[0] <= latest
      invariant wakeups <= held
      invariant (forall i :: late(i) == 0) ==> forall j :: 0 <= j < held ==> !Idle(stamps, j)
      decreases |stamps| - held
    {
      at := latest + TRANSACTION_TIMEOUT_SECONDS + late(wakeups); // sleep_until
      wakeups := wakeups + 1;
      ghost var k := InForce(stamps, at);
      HeldIsOlder(stamps, held, at);
      if gone.Some? && gone.value <= at {
        return false, at, wakeups;
      }
      var current := stamps[InForce(stamps, at)];
      if at >= current + TRANSACTION_TIMEOUT_SECONDS {
        if forall i :: late(i) == 0 {
          PunctualExpiry(stamps, held, at);
        }
        return true, at, wakeups;
      }
      if forall i :: late(i) == 0 {
        PunctualRenewal(stamps, held, at);
      }
      latest := current;
      held := k;
    }
  }

  lemma HeldIsOlder(stamps: seq<Time>, held: nat, at: Time)
    requires Ordered(stamps) && held < |stamps| && stamps[held] <= at
    ensures held <= InForce(stamps, at) && stamps[held] <= stamps[InForce(stamps, at)]
  {
  }

  /** A punctual wake-up that removes found the stamp it was sleeping for, and nothing newer. */
  lemma PunctualExpiry(stamps: seq<Time>, held: nat, at: Time)
    requires Ordered(stamps) && held < |stamps| && at == stamps[held] + TRANSACTION_TIMEOUT_SECONDS
    requires at >= stamps[InForce(stamps, at)] + TRANSACTION_TIMEOUT_SECONDS
    requires forall j :: 0 <= j < held ==> !Idle(stamps, j)
    ensures at == stamps[FirstIdle(stamps, 0)] + TRANSACTION_TIMEOUT_SECONDS
  {
    var k := InForce(stamps, at);
    HeldIsOlder(stamps, held, at);
    assert stamps[k] == stamps[held];
    assert Idle(stamps, k);
    var j := FirstIdle(stamps, 0);
    assert held <= j <= k;
    if j < k { assert stamps[j + 1] <= stamps[k]; }
  }

  /** A punctual wake-up that renews passes over no idle moment. */
  lemma PunctualRenewal(stamps: seq<Time>, held: nat, at: Time)
    requires Ordered(stamps) && held < |stamps| && at == stamps[held] + TRANSACTION_TIMEOUT_SECONDS
    requires forall j :: 0 <= j < held ==> !Idle(stamps, j)
    ensures forall j :: 0 <= j < InForce(stamps, at) ==> !Idle(stamps, j)
  {
    var k := InForce(stamps, at);
    HeldIsOlder(stamps, held, at);
    forall j | held <= j < k ensures !Idle(stamps, j) {
      assert stamps[held] <= stamps[j] && stamps[j + 1] <= stamps[k];
    }
  }

  /** Whatever the delays, a removal that respects the age of every stamp so far happens at an
      idle moment, and never before the first one. */
  lemma NeverTooEarly(stamps: seq<Time>, at: Time)
    requires Ordered(stamps) && stamps[0] <= at
    requires forall j :: 0 <= j < |stamps| && stamps[j] <= at ==> stamps[j] + TRANSACTION_TIMEOUT_SECONDS <= at
    ensures at >= stamps[FirstIdle(stamps, 0)] + TRANSACTION_TIMEOUT_SECONDS
    ensures Idle(stamps, InForce(stamps, at))
  {
    var k := InForce(stamps, at);
    assert Idle(stamps, k);
    assert FirstIdle(stamps, 0) <= k;
  }
}
