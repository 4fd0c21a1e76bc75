/** When the timer strikes. A transaction's stamp is the time of the last look any request took at
    it, or of its creation or its reopening; the timer removes it 15 seconds after that and
    leaves it alone before. */
module Deadlines {
  import opened Basics
  import opened Transactions
  import opened Stores
  import opened LogText
  import opened Machine
  import opened MachineLocks
  import opened MachineSafety
  import opened MachineFrames
  import opened MachineRecords
  import opened Recovery
  import opened Crash
  import opened Bodies
  import opened Timer
  import Effects

  /** The last time a body ran on it, or its beginning. */
  function LastLook(tale: Tale): Time {
    if tale.ops == [] then tale.stamp else tale.ops[|tale.ops| - 1].now
  }

  lemma StampIsLastLook(tale: Tale)
    ensures Told(tale).stamp == LastLook(tale)
  {
    EveryBodyStamps(tale.attr, tale.stamp, tale.ops, |tale.ops|);
    assert tale.ops[..|tale.ops|] == tale.ops;
    hide RunOps;
  }

  /** The timer in the concurrent machine, through any interleaving and any crashes: a wake-up removes
      a live transaction iff 15 seconds have passed since the last look at it. It changes no file
      and no other transaction, and nothing at all if it does not remove this one. */
  lemma TimerStrikesIff(s: State, es: seq<Event>, tale: Option<Tale>, t: Tid, c: Choice)
    requires Safe(s) && SafeLife(s, es) && Life(s, es).Some?
    requires var s' := Life(s, es).value;
             t in s'.threads && s'.threads[t].pc == Expire && TaleOk(s.store, s'.threads[t].id, tale)
    ensures var s' := Life(s, es).value; var id := s'.threads[t].id;
            && Step(s', t, c).Some?
            && var after := Step(s', t, c).value.store;
               && (id !in s'.store.live ==> after == s'.store)
               && (id in s'.store.live ==>
                     && Story(s, es, id, tale).Some?
                     && (id !in after.live <==> LastLook(Story(s, es, id, tale).value) + 15 <= c.now)
                     && (id in after.live ==> after == s'.store))
               && after.files == s'.store.files && after.live == s'.store.live - (if id in after.live then {} else {id})
  {
    var s' := Life(s, es).value;
    var id := s'.threads[t].id;
    LivesAreBodies(s, es, id, tale);
    if id in s'.store.live { StampIsLastLook(Story(s, es, id, tale).value); }
    hide Life, SafeLife, Story, Told, LastLook, Step;
    assert s'.store.live - {} == s'.store.live;
    StrikesOnTime(s', t, c);
    hide Safe;
  }

  lemma StrikesOnTime(s: State, t: Tid, c: Choice)
    requires Safe(s) && t in s.threads && s.threads[t].pc == Expire
    ensures Step(s, t, c).Some?
    ensures var id, after := s.threads[t].id, Step(s, t, c).value.store;
            && after.files == s.store.files
            && if id in s.store.live && s.store.live[id].stamp + 15 <= c.now then after.live == s.store.live - {id}
               else after == s.store
  {
    SafeParts(s);
    LiveAttrs(s.store);
    StepOfMaps(s, t, c);
    EvictTouches(s.store, s.threads[t].id);
    hide Safe, LocksOk, IndexOk, Step, Evict;
  }

  /** What a restart reopens is safe from its timer for 15 seconds. */
  lemma ReopenedHasFifteenSeconds(st: Store, restart: Time, st': Store, id: TxnId, now: Time)
    requires RecoveredAt(st, restart, st') && now < restart + 15
    ensures IndexOk(st') && Effects.ExpireEffect(st', id, now) == st'
  {
    RecoveredIndex(st, st');
    hide Recovered, IndexOk;
    Effects.NothingExpiresEarly(st', id, restart, now);
  }
}
