/** Restart: replaying the four logs, truncating the files and re-entering the transactions
    that were still open. */
module Recovery {
  import opened Basics
  import opened Text
  import opened Transactions
  import opened Stores
  import opened LogText

  /** What the replay loop accumulates: the largest size logged per file, and the ids toggled
      in an odd number of times with the file name of their last toggle. */
  datatype Replay = Replay(sizes: map<FileName, int>, open: map<TxnId, FileName>)

  const NOTHING := Replay(map[], map[])

  function ReplayRecord(p: Replay, r: Record): Replay {
    Replay(
      if r.name !in p.sizes || r.size > p.sizes[r.name] then p.sizes[r.name := r.size] else p.sizes,
      if r.id !in p.open then p.open[r.id := r.name] else p.open - {r.id})
  }

  function ReplayAll(rs: seq<Record>): Replay {
    if rs == [] then NOTHING else ReplayRecord(ReplayAll(rs[..|rs| - 1]), rs[|rs| - 1])
  }

  /** The transaction log first: the others prune what it opens. */
  function AllRecords(logs: PerLog<string>): seq<Record> {
    Parse(logs.transactions) + Parse(logs.timeouts) + Parse(logs.commits) + Parse(logs.aborts)
  }

  /** truncateFiles: cut a mentioned file to its size; a size of 0 deletes it. */
  function TruncateFiles(files: map<FileName, Data>, sizes: map<FileName, int>): map<FileName, Data> {
    map name | name in files && (name in sizes ==> 0 < sizes[name]) ::
      if name in sizes then Resized(files[name], sizes[name]) else files[name]
  }

  // ---------------------------------------------------------------- what the replay computes

  function Occurrences(rs: seq<Record>, id: TxnId): nat {
    if rs == [] then 0
    else Occurrences(rs[..|rs| - 1], id) + if rs[|rs| - 1].id == id then 1 else 0
  }

  /** The toggle loop in general: an id is left open iff it occurs an odd number of times. */
  lemma {:induction false} OpenIffOdd(rs: seq<Record>, id: TxnId)
    ensures id in ReplayAll(rs).open <==> Occurrences(rs, id) % 2 == 1
  {
    if rs != [] { OpenIffOdd(rs[..|rs| - 1], id); }
  }

  /** The sizes loop in general: exactly the files mentioned, each with its largest size. */
  lemma {:induction false} SizesAreMaxima(rs: seq<Record>, name: FileName)
    ensures name in ReplayAll(rs).sizes <==> exists j :: 0 <= j < |rs| && rs[j].name == name
    ensures name in ReplayAll(rs).sizes ==>
              && (exists j :: 0 <= j < |rs| && rs[j].name == name && rs[j].size == ReplayAll(rs).sizes[name])
              && (forall j :: 0 <= j < |rs| && rs[j].name == name ==> rs[j].size <= ReplayAll(rs).sizes[name])
  {
    if rs != [] {
      var front, last := rs[..|rs| - 1], rs[|rs| - 1];
      SizesAreMaxima(front, name);
      assert forall j :: 0 <= j < |front| ==> rs[j] == front[j];
      var sizes, sizes' := ReplayAll(front).sizes, ReplayAll(rs).sizes;
      if last.name == name {
        assert rs[|rs| - 1].name == name;
      }
      if name in sizes {
        var j :| 0 <= j < |front| && front[j].name == name && front[j].size == sizes[name];
        assert rs[j].name == name && rs[j].size == sizes[name];
      }
    }
  }

  ghost predicate Distinct(rs: seq<Record>) {
    forall i, j :: 0 <= i < j < |rs| ==> rs[i].id != rs[j].id
  }

  predicate Mentions(rs: seq<Record>, id: TxnId) {
    exists j :: 0 <= j < |rs| && rs[j].id == id
  }

  lemma {:induction false} DistinctCreations(rs: seq<Record>)
    requires Distinct(rs)
    ensures forall id :: id in ReplayAll(rs).open <==> Mentions(rs, id)
    ensures forall j :: 0 <= j < |rs| ==> rs[j].id in ReplayAll(rs).open && ReplayAll(rs).open[rs[j].id] == rs[j].name
  {
    if rs != [] {
      var front, last := rs[..|rs| - 1], rs[|rs| - 1];
      assert forall j :: 0 <= j < |front| ==> rs[j] == front[j];
      assert Distinct(front);
      DistinctCreations(front);
      assert !Mentions(front, last.id);
      forall id ensures Mentions(rs, id) <==> Mentions(front, id) || id == last.id {
        if Mentions(front, id) {
          var j :| 0 <= j < |front| && front[j].id == id;
          assert rs[j].id == id;
        }
        assert rs[|rs| - 1].id == last.id;
      }
    }
  }

  /** Replay refines set difference: with distinct creations and distinct ends of created ids,
      what is left open is exactly what was created and never ended, under its file name. */
  lemma {:induction false} ReplayIsSetDifference(created: seq<Record>, ended: seq<Record>)
    requires Distinct(created) && Distinct(ended)
    requires forall j :: 0 <= j < |ended| ==> Mentions(created, ended[j].id)
    ensures var open := ReplayAll(created + ended).open;
            && (forall id :: id in open <==> Mentions(created, id) && !Mentions(ended, id))
            && (forall j :: 0 <= j < |created| && created[j].id in open ==> open[created[j].id] == created[j].name)
  {
    if ended == [] {
      assert created + ended == created;
      DistinctCreations(created);
    } else {
      var front, last := ended[..|ended| - 1], ended[|ended| - 1];
      assert (created + ended)[..|created + ended| - 1] == created + front;
      assert forall j :: 0 <= j < |front| ==> ended[j] == front[j];
      assert Distinct(front);
      ReplayIsSetDifference(created, front);
      assert !Mentions(front, last.id);
      assert Mentions(created, last.id) by { assert ended[|ended| - 1] == last; }
      forall id ensures Mentions(ended, id) <==> Mentions(front, id) || id == last.id {
        if Mentions(front, id) {
          var j :| 0 <= j < |front| && front[j].id == id;
          assert ended[j].id == id;
        }
        assert ended[|ended| - 1].id == last.id;
      }
    }
  }

  // ---------------------------------------------------------------- the recovered store

  /** `rs` has one record for each open transaction, in whatever order the hash map gave. */
  ghost predicate Relogs(rs: seq<Record>, open: map<TxnId, FileName>, files: map<FileName, Data>) {
    && Distinct(rs)
    && (forall id :: Mentions(rs, id) <==> id in open)
    && (forall j :: 0 <= j < |rs| ==> rs[j].id in open && rs[j].name == open[rs[j].id] && rs[j].size == FileSize(files, rs[j].name))
  }

  /** st' is a possible outcome of initializeTransactions on the disk of st. */
  ghost predicate Recovered(st: Store, st': Store) {
    var p := ReplayAll(AllRecords(st.logs));
    && st'.files == TruncateFiles(st.files, p.sizes)
    && IndexOk(st') && st'.commits == {}
    && st'.live.Keys == p.open.Keys
    && (forall id :: id in st'.live ==>
          && NameOf(st', id) == p.open[id]
          && st'.live[id].buffers == map[] && st'.live[id].maxSeq == INITIAL_SEQ_NUM + 1)
    && (forall a :: a in st'.attrs ==> st'.attrs[a].size == FileSize(st'.files, st'.attrs[a].name))
    && st'.logs.timeouts == "" && st'.logs.commits == "" && st'.logs.aborts == ""
    && (exists rs :: Relogs(rs, p.open, st'.files) && st'.logs.transactions == RenderAll(rs))
  }

  /** A recovered file is there iff it was, and some record gives it a size or none mentions it: one
      that is only mentioned with size 0 is gone, not empty. */
  lemma RecoveredFileIsThereIff(st: Store, st': Store, name: FileName)
    requires Recovered(st, st')
    ensures var rs := AllRecords(st.logs);
            name in st'.files <==>
              && name in st.files
              && ((forall j :: 0 <= j < |rs| ==> rs[j].name != name) || exists j :: 0 <= j < |rs| && rs[j].name == name && rs[j].size > 0)
  {
    var rs := AllRecords(st.logs);
    SizesAreMaxima(rs, name);
    hide AllRecords, ReplayAll, IndexOk;
  }

  /** The same at a known time: every transaction that comes back has its 15 seconds ahead of it. */
  ghost predicate RecoveredAt(st: Store, now: Time, st': Store) {
    Recovered(st, st') && forall id :: id in st'.live ==> st'.live[id].stamp == now
  }

  // ---------------------------------------------------------------- idempotence

  lemma ParseNothing()
    ensures Parse("") == []
  {
    NothingToRead("");
  }

  lemma ParseRelogged(rs: seq<Record>)
    requires AllReadable(rs)
    ensures Parse(RenderAll(rs)) == rs
  {
    ParseNothing();
    ParsePrefix(rs, "");
    assert RenderAll(rs) + "" == RenderAll(rs);
    assert rs + [] == rs;
  }

  lemma RelogRecords(logs: PerLog<string>, rs: seq<Record>)
    requires AllReadable(rs) && logs == PerLog(RenderAll(rs), "", "", "")
    ensures AllRecords(logs) == rs
  {
    ParseRelogged(rs);
    ParseNothing();
    hide Parse, RenderAll, AllReadable;
    assert rs + [] + [] + [] == rs;
  }

  /** The file names of a replay's open transactions are readable when its records are. */
  lemma {:induction false} OpenNamesReadable(rs: seq<Record>)
    requires AllReadable(rs)
    ensures forall id :: id in ReplayAll(rs).open ==> IsWord(ReplayAll(rs).open[id])
  {
    if rs != [] {
      var front := rs[..|rs| - 1];
      assert AllReadable(front);
      OpenNamesReadable(front);
    }
  }

  lemma {:induction false} ParsedAreReadable(text: string)
    ensures AllReadable(Parse(text))
    decreases |text|
  {
    match ReadRecord(text)
    case None =>
    case Some((r, rest)) => ParsedAreReadable(rest);
  }

  lemma RecordsAreReadable(logs: PerLog<string>)
    ensures AllReadable(AllRecords(logs))
  {
    ParsedAreReadable(logs.transactions);
    ParsedAreReadable(logs.timeouts);
    ParsedAreReadable(logs.commits);
    ParsedAreReadable(logs.aborts);
  }

  /** Cutting files to sizes they already have changes no contents. */
  lemma TruncateToOwnSizes(files: map<FileName, Data>, sizes: map<FileName, int>, name: FileName)
    requires forall n :: n in sizes ==> sizes[n] == FileSize(files, n)
    ensures Content(TruncateFiles(files, sizes), name) == Content(files, name)
  {
    if name in files && name in sizes {
      assert files[name][..|files[name]|] == files[name];
    }
  }

  /** Replaying the re-entered transactions reproduces them, and sizes the files already have. */
  lemma ReplayOfRelog(rs: seq<Record>, open: map<TxnId, FileName>, files: map<FileName, Data>)
    requires Relogs(rs, open, files)
    ensures ReplayAll(rs).open == open
    ensures forall name :: name in ReplayAll(rs).sizes ==> ReplayAll(rs).sizes[name] == FileSize(files, name)
  {
    DistinctCreations(rs);
    hide ReplayAll, FileSize;
    var p: Replay := ReplayAll(rs);
    forall id | id in open ensures id in p.open && p.open[id] == open[id] {
      assert Mentions(rs, id);
      var j :| 0 <= j < |rs| && rs[j].id == id;
      assert p.open[rs[j].id] == rs[j].name;
    }
    assert forall id :: id in p.open <==> id in open;
    assert p.open == open;
    forall name | name in p.sizes ensures p.sizes[name] == FileSize(files, name) {
      SizesAreMaxima(rs, name);
    }
  }

  lemma RelogOf(st: Store, st1: Store) returns (rs: seq<Record>)
    requires Recovered(st, st1)
    ensures Relogs(rs, ReplayAll(AllRecords(st.logs)).open, st1.files) && AllRecords(st1.logs) == rs
  {
    var open := ReplayAll(AllRecords(st.logs)).open;
    rs :| Relogs(rs, open, st1.files) && st1.logs.transactions == RenderAll(rs);
    RecordsAreReadable(st.logs);
    OpenNamesReadable(AllRecords(st.logs));
    assert AllReadable(rs) by { hide ReplayAll, AllRecords; }
    RelogRecords(st1.logs, rs);
  }

  /** Recovery is idempotent: a crash right after recovery and a second recovery give the same
      file contents, live ids and file names, for any disk whatever. */
  lemma RecoveryIsIdempotent(st: Store, st1: Store, st2: Store)
    requires Recovered(st, st1) && Recovered(st1, st2)
    ensures forall name :: Content(st2.files, name) == Content(st1.files, name)
    ensures st2.live.Keys == st1.live.Keys
    ensures forall id :: id in st1.live ==> NameOf(st2, id) == NameOf(st1, id)
  {
    var rs := RelogOf(st, st1);
    ReplayOfRelog(rs, ReplayAll(AllRecords(st.logs)).open, st1.files);
    hide ReplayAll, AllRecords, IndexOk;
    forall name ensures Content(st2.files, name) == Content(st1.files, name) {
      TruncateToOwnSizes(st1.files, ReplayAll(rs).sizes, name);
    }
  }
}
