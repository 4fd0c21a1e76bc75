/** A crash inside recovery itself. Start-up reads and deletes the four logs one after the other,
    then cuts the files, then re-enters the open transactions; nothing marks how far it came. What
    the next start-up makes of each point, and exactly when that is what it should be. */
module Restarts {
  import opened Basics
  import opened Text
  import opened Transactions
  import opened Stores
  import opened LogText
  import opened Machine
  import MachineLocks
  import opened MachineEnds
  import opened MachineLogs
  import opened MachineFiles
  import opened MachineRecords
  import opened MachineSizes
  import opened Recovery
  import opened Crash

  /** The first j logs are read and deleted. */
  function Without(logs: PerLog<string>, j: nat): PerLog<string> {
    PerLog(if j >= 1 then "" else logs.transactions, if j >= 2 then "" else logs.timeouts,
           if j >= 3 then "" else logs.commits, if j >= 4 then "" else logs.aborts)
  }

  /** The sizes an undisturbed recovery cuts to. */
  function Sizes(st: Store): map<FileName, int> {
    ReplayAll(AllRecords(st.logs)).sizes
  }

  /** Some of the files are cut already. */
  function CutSome(files: map<FileName, Data>, sizes: map<FileName, int>, cut: set<FileName>): map<FileName, Data> {
    TruncateFiles(files, map name | name in sizes && name in cut :: sizes[name])
  }

  /** The disk when the process dies with j logs deleted and the files `cut` cut. Files are cut only
      once all logs are gone. */
  function Interrupted(st: Store, j: nat, cut: set<FileName>): Store {
    st.(logs := Without(st.logs, j), files := CutSome(st.files, Sizes(st), cut))
  }

  ghost predicate PartWay(st: Store, j: nat, cut: set<FileName>) {
    j <= 4 && cut <= Sizes(st).Keys && (cut != {} ==> j == 4)
  }

  /** The size the next recovery leaves a file with: it deletes files whose size is not positive. */
  function SizeNext(st: Store, j: nat, cut: set<FileName>, name: FileName): int {
    var left := ReplayAll(AllRecords(Without(st.logs, j))).sizes;
    if name in cut && name in Sizes(st) then Sizes(st)[name]
    else if name !in left then FileSize(st.files, name)
    else if left[name] < 0 then 0
    else left[name]
  }

  // ---------------------------------------------------------------- what is left to read

  lemma NothingDeleted(s: State)
    requires Good(s)
    ensures AllRecords(s.store.logs) == Created(s.hist) + EndRecords(s.hist)
  {
    assert TextsOk(s) && RecordsOk(s) && MachineLocks.LocksOk(s);
    hide Good, TextsOk, RecordsOk, MachineLocks.LocksOk, AllRecords, Created, EndRecords;
    LogsReadBack(s);
  }

  /** With at least one log gone, what is left is the end of the end records. */
  lemma OnlyEndsAreLeft(s: State, j: nat) returns (k: nat)
    requires Good(s) && 1 <= j <= 4
    ensures k <= |EndRecords(s.hist)| && AllRecords(Without(s.store.logs, j)) == EndRecords(s.hist)[k..]
  {
    assert TextsOk(s) && RecordsOk(s) && MachineLocks.LocksOk(s);
    hide Good, TextsOk, RecordsOk, MachineLocks.LocksOk, Records, Parse;
    LogReadsBack(s, TimeoutLog);
    LogReadsBack(s, CommitLog);
    LogReadsBack(s, AbortLog);
    hide *;
    k := LeftText(s.store.logs, j, Records(s.hist, TimeoutLog), Records(s.hist, CommitLog), Records(s.hist, AbortLog));
    EndRecordsAre(s.hist);
  }

  lemma EndRecordsAre(h: History)
    ensures EndRecords(h) == Records(h, TimeoutLog) + Records(h, CommitLog) + Records(h, AbortLog)
  {
    hide Records;
  }

  lemma LeftText(logs: PerLog<string>, j: nat, a: seq<Record>, b: seq<Record>, c: seq<Record>) returns (k: nat)
    requires 1 <= j <= 4 && Parse(logs.Get(TimeoutLog)) == a && Parse(logs.Get(CommitLog)) == b && Parse(logs.Get(AbortLog)) == c
    ensures k <= |a + b + c| && AllRecords(Without(logs, j)) == (a + b + c)[k..]
  {
    ParseNothing();
    hide Parse;
    if j == 1 {
      k := 0;
    } else if j == 2 {
      k := |a|;
      assert (a + b + c)[|a|..] == b + c;
    } else if j == 3 {
      k := |a + b|;
    } else {
      k := |a + b + c|;
    }
  }

  lemma LeftIsLogged(s: State, j: nat, r: Record)
    requires Good(s) && j <= 4 && r in AllRecords(Without(s.store.logs, j))
    ensures r in Created(s.hist) + EndRecords(s.hist)
  {
    if j == 0 {
      NothingDeleted(s);
    } else {
      hide Good, AllRecords, EndRecords, Created;
      var k := OnlyEndsAreLeft(s, j);
    }
  }

  /** No size left is larger than the committed length, and only files with a size have one left. */
  lemma LeftSizes(s: State, j: nat, name: FileName)
    requires Good(s) && j <= 4 && name in ReplayAll(AllRecords(Without(s.store.logs, j))).sizes
    ensures name in Sizes(s.store) && ReplayAll(AllRecords(Without(s.store.logs, j))).sizes[name] <= |Base(s.hist, name)|
  {
    var left := AllRecords(Without(s.store.logs, j));
    assert SizesLogged(s.hist);
    hide Good, AllRecords, ReplayAll, Created, EndRecords, Base, SizesLogged;
    SizesAreMaxima(left, name);
    var i :| 0 <= i < |left| && left[i].name == name && left[i].size == ReplayAll(left).sizes[name];
    LeftIsLogged(s, j, left[i]);
    LoggedSizes(s.hist, left[i]);
    NothingDeleted(s);
    var all := Created(s.hist) + EndRecords(s.hist);
    var m :| 0 <= m < |all| && all[m] == left[i];
    SizesAreMaxima(all, name);
  }

  // ---------------------------------------------------------------- contents

  lemma CutContent(files: map<FileName, Data>, sizes: map<FileName, int>, name: FileName, base: Data, extra: Data)
    requires Content(files, name) == base + extra && name in sizes && sizes[name] <= |base|
    ensures Content(TruncateFiles(files, sizes), name) == base <==> (if sizes[name] < 0 then 0 else sizes[name]) == |base|
  {
    if name in files && 0 < sizes[name] {
      assert Content(TruncateFiles(files, sizes), name) == (base + extra)[..sizes[name]];
      assert (base + extra)[..|base|] == base;
    }
  }

  lemma UncutContent(files: map<FileName, Data>, sizes: map<FileName, int>, name: FileName)
    requires name !in sizes
    ensures Content(TruncateFiles(files, sizes), name) == Content(files, name)
  {
  }

  lemma NoLogsNoSizes()
    ensures ReplayAll(AllRecords(NO_LOGS)).sizes == map[]
  {
    ParseNothing();
  }

  /** A crash inside recovery, contents: whatever was deleted and cut, the next recovery leaves a
      file with its committed data iff the size it leaves it with is the one the undisturbed
      recovery would have cut it to. */
  lemma InterruptedContentsIff(s: State, j: nat, cut: set<FileName>, st': Store, name: FileName)
    requires Good(s) && PartWay(s.store, j, cut) && Recovered(Interrupted(s.store, j, cut), st')
    ensures Content(st'.files, name) == Base(s.hist, name)
            <==> (name in Sizes(s.store) ==> SizeNext(s.store, j, cut, name) == Sizes(s.store)[name])
  {
    var base, extra := Base(s.hist, name), PendingBytes(s.hist, name);
    var left := ReplayAll(AllRecords(Without(s.store.logs, j))).sizes;
    var files := CutSome(s.store.files, Sizes(s.store), cut);
    assert Content(s.store.files, name) == base + extra by { assert FilesOk(s); hide Good, Base; ContentsAt(s, name); }
    SizesAreCommitted(s, name);
    if name in left { LeftSizes(s, j, name); }
    if cut != {} { NoLogsNoSizes(); }
    hide Good, Base, AllRecords, ReplayAll, TruncateFiles;
    assert st'.files == TruncateFiles(files, left) by { FilesNext(Interrupted(s.store, j, cut), st'); }
    hide Recovered, PendingBytes;
    NextContent(s.store.files, Sizes(s.store), cut, left, name, base, extra);
  }

  lemma FilesNext(st: Store, st': Store)
    requires Recovered(st, st')
    ensures st'.files == TruncateFiles(st.files, ReplayAll(AllRecords(st.logs)).sizes)
  {
    hide ReplayAll, AllRecords, TruncateFiles, IndexOk;
  }

  lemma NextContent(files: map<FileName, Data>, sizes: map<FileName, int>, cut: set<FileName>, left: map<FileName, int>,
                    name: FileName, base: Data, extra: Data)
    requires Content(files, name) == base + extra && cut <= sizes.Keys && (cut != {} ==> left == map[])
    requires name in sizes ==> sizes[name] == |base|
    requires name !in sizes ==> extra == ""
    requires name in left ==> name in sizes && left[name] <= |base|
    ensures var next := if name in cut then sizes[name] else if name !in left then FileSize(files, name)
                        else if left[name] < 0 then 0 else left[name];
            Content(TruncateFiles(CutSome(files, sizes, cut), left), name) == base <==> (name in sizes ==> next == sizes[name])
  {
    var now := map n | n in sizes && n in cut :: sizes[n];
    var files' := CutSome(files, sizes, cut);
    if name in cut {
      CutContent(files, now, name, base, extra);
      UncutContent(files', left, name);
    } else {
      UncutContent(files, now, name);
      if name in left {
        CutContent(files', left, name, base, extra);
      } else {
        UncutContent(files', left, name);
        assert |base + extra| == |base| ==> base + extra == base;
      }
    }
  }

  // ---------------------------------------------------------------- transactions

  lemma SuffixIsDistinct(rs: seq<Record>, k: nat)
    requires Distinct(rs) && k <= |rs|
    ensures Distinct(rs[k..]) && forall id :: Mentions(rs[k..], id) ==> Mentions(rs, id)
  {
    forall id | Mentions(rs[k..], id) ensures Mentions(rs, id) {
      var j :| 0 <= j < |rs[k..]| && rs[k..][j].id == id;
      assert rs[k + j].id == id;
    }
  }

  /** A crash inside recovery, transactions: once a log is gone, every transaction that comes back
      is one that had ended, and the right ones come back iff none should and no end is left. */
  lemma InterruptedIdsIff(s: State, j: nat, cut: set<FileName>, st': Store)
    requires Good(s) && PartWay(s.store, j, cut) && 1 <= j && Recovered(Interrupted(s.store, j, cut), st')
    ensures forall id :: id in st'.live ==> HasEnded(s.hist, id)
    ensures (forall id :: id in st'.live <==> IsCreated(s.hist, id) && !HasEnded(s.hist, id))
            <==> AllRecords(Without(s.store.logs, j)) == [] && forall id :: IsCreated(s.hist, id) ==> HasEnded(s.hist, id)
  {
    var left := AllRecords(Without(s.store.logs, j));
    assert HistoryOk(s.hist) && EndsOnce(s.hist);
    EndRecordFacts(s.hist);
    var k := OnlyEndsAreLeft(s, j);
    hide Good, HistoryOk, EndsOnce, EndRecords, AllRecords, ReplayAll, Recovered, IsCreated, HasEnded;
    SuffixIsDistinct(EndRecords(s.hist), k);
    DistinctCreations(left);
    RecoveredNames(Interrupted(s.store, j, cut), st');
    assert forall id :: id in st'.live <==> Mentions(left, id);
    if left != [] { assert Mentions(left, left[0].id); }
  }

  // ---------------------------------------------------------------- re-entering

  /** Records of some of the open transactions. */
  ghost predicate Reenters(rs: seq<Record>, open: map<TxnId, FileName>, files: map<FileName, Data>) {
    && Distinct(rs)
    && forall j :: 0 <= j < |rs| ==> rs[j].id in open && rs[j].name == open[rs[j].id] && rs[j].size == FileSize(files, rs[j].name)
  }

  lemma NamesOfOpen(st: Store, rs: seq<Record>, files: map<FileName, Data>)
    requires Reenters(rs, ReplayAll(AllRecords(st.logs)).open, files)
    ensures AllReadable(rs)
  {
    RecordsAreReadable(st.logs);
    OpenNamesReadable(AllRecords(st.logs));
    hide ReplayAll, AllRecords, FileSize;
  }

  lemma ReplayOfSome(rs: seq<Record>, open: map<TxnId, FileName>, files: map<FileName, Data>)
    requires Reenters(rs, open, files)
    ensures var p := ReplayAll(rs);
            && (forall id :: id in p.open <==> Mentions(rs, id))
            && (forall id :: id in p.open ==> id in open && p.open[id] == open[id])
            && (forall name :: name in p.sizes ==> p.sizes[name] == FileSize(files, name))
  {
    DistinctCreations(rs);
    hide ReplayAll, FileSize;
    var p: Replay := ReplayAll(rs);
    forall id | id in p.open ensures id in open && p.open[id] == open[id] {
      var j :| 0 <= j < |rs| && rs[j].id == id;
    }
    forall name | name in p.sizes ensures p.sizes[name] == FileSize(files, name) {
      SizesAreMaxima(rs, name);
    }
  }

  /** A crash while the open transactions are re-entered, on any disk: the contents stay as
      recovered, and exactly the transactions whose record was complete come back. */
  lemma ReenteringKeepsOnlyTheReentered(st: Store, files: map<FileName, Data>, rs: seq<Record>, r: Record, p: nat, st': Store)
    requires files == TruncateFiles(st.files, Sizes(st)) && p <= PIECES
    requires Reenters(rs + [r], ReplayAll(AllRecords(st.logs)).open, files)
    requires Recovered(st.(files := files, logs := PerLog(RenderAll(rs) + Torn(r, p), "", "", "")), st')
    ensures forall name :: Content(st'.files, name) == Content(files, name)
    ensures forall id :: id in st'.live <==> Mentions(rs + if p > SIZE_PIECE then [r] else [], id)
    ensures IndexOk(st') && forall id :: id in st'.live ==>
              id in ReplayAll(AllRecords(st.logs)).open && NameOf(st', id) == ReplayAll(AllRecords(st.logs)).open[id]
  {
    var st1 := st.(files := files, logs := PerLog(RenderAll(rs) + Torn(r, p), "", "", ""));
    var open := ReplayAll(AllRecords(st.logs)).open;
    var kept := rs + if p > SIZE_PIECE then [r] else [];
    NamesOfOpen(st, rs + [r], files);
    KeptReenters(rs, r, p, open, files);
    ReentryReads(rs, r, p, st1.logs);
    hide *;
    ReplayOfSome(kept, open, files);
    RecoveredNames(st1, st');
    FilesNext(st1, st');
    forall name ensures Content(st'.files, name) == Content(files, name) {
      TruncateToOwnSizes(files, ReplayAll(kept).sizes, name);
    }
  }

  lemma KeptReenters(rs: seq<Record>, r: Record, p: nat, open: map<TxnId, FileName>, files: map<FileName, Data>)
    requires Reenters(rs + [r], open, files)
    ensures Reenters(rs + if p > SIZE_PIECE then [r] else [], open, files)
  {
    hide FileSize;
    assert forall j :: 0 <= j < |rs| ==> (rs + [r])[j] == rs[j];
  }

  lemma ReentryReads(rs: seq<Record>, r: Record, p: nat, logs: PerLog<string>)
    requires AllReadable(rs + [r]) && p <= PIECES && logs == PerLog(RenderAll(rs) + Torn(r, p), "", "", "")
    ensures AllRecords(logs) == rs + if p > SIZE_PIECE then [r] else []
  {
    assert (rs + [r])[|rs|] == r && forall j :: 0 <= j < |rs| ==> (rs + [r])[j] == rs[j];
    ParsePrinted(rs, r, p);
    ParseNothing();
    hide Parse, RenderAll, Torn;
  }
}
