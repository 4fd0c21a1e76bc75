/** The state every handler shares: the live transactions, the commit set, the file index with
    its shared, reference-counted file attributes, the data files and the four log files. */
module Stores {
  import opened Basics
  import opened Transactions

  type Address = nat // of an allocated FileAttributes object

  datatype FileAttributes = FileAttributes(name: FileName, size: nat, refs: nat)

  datatype LogKind = TransactionLog | TimeoutLog | CommitLog | AbortLog

  /** One value per log file, in the order recovery reads them. */
  datatype PerLog<T> = PerLog(transactions: T, timeouts: T, commits: T, aborts: T) {
    function Get(kind: LogKind): T {
      match kind
      case TransactionLog => transactions
      case TimeoutLog => timeouts
      case CommitLog => commits
      case AbortLog => aborts
    }

    function Put(kind: LogKind, value: T): PerLog<T> {
      match kind
      case TransactionLog => this.(transactions := value)
      case TimeoutLog => this.(timeouts := value)
      case CommitLog => this.(commits := value)
      case AbortLog => this.(aborts := value)
    }
  }

  const NO_LOGS := PerLog("", "", "", "")

  /** `logs` holds the text of each log; a log that does not exist is "". */
  datatype Store = Store(
    live: map<TxnId, Txn>,
    commits: set<TxnId>,
    index: map<FileName, Address>,
    attrs: map<Address, FileAttributes>,
    nextAddress: Address,
    files: map<FileName, Data>,
    logs: PerLog<string>)

  function Content(files: map<FileName, Data>, name: FileName): Data {
    if name in files then files[name] else ""
  }

  /** File::getFileSize: a missing file has size 0. */
  function FileSize(files: map<FileName, Data>, name: FileName): nat {
    |Content(files, name)|
  }

  function Zeros(n: nat): Data {
    seq(n, _ => '\0')
  }

  /** truncate(2): cut, or extend with NUL bytes. */
  function Resized(data: Data, size: nat): Data {
    if size <= |data| then data[..size] else data + Zeros(size - |data|)
  }

  /** truncate(2): shorter by cutting the end off, longer by NUL bytes. */
  lemma ResizedIs(data: Data, size: nat)
    ensures |Resized(data, size)| == size
    ensures forall i :: 0 <= i < size ==> Resized(data, size)[i] == if i < |data| then data[i] else '\0'
  {
  }

  function Truncate(files: map<FileName, Data>, name: FileName, size: nat): map<FileName, Data> {
    if name in files then files[name := Resized(files[name], size)] else files
  }

  // ---------------------------------------------------------------- live map and file index

  /** addNewTransaction without its log record: join the file's attributes or create them. */
  function Enroll(st: Store, id: TxnId, name: FileName, now: Time): Store {
    if name in st.index && st.index[name] in st.attrs then
      var a := st.index[name];
      st.(attrs := st.attrs[a := st.attrs[a].(refs := st.attrs[a].refs + 1)],
          live := st.live[id := Transactions.NewTxn(a, now)])
    else
      var a := st.nextAddress;
      st.(attrs := st.attrs[a := FileAttributes(name, FileSize(st.files, name), 1)],
          index := st.index[name := a],
          nextAddress := a + 1,
          live := st.live[id := Transactions.NewTxn(a, now)])
  }

  /** removeTransaction: the last reference deletes the attributes and their index entry. */
  function Evict(st: Store, id: TxnId): Store {
    if id !in st.live then st
    else
      var a := st.live[id].attr;
      var st' := st.(live := st.live - {id});
      if a !in st.attrs then st'
      else if st.attrs[a].refs <= 1 then
        st'.(attrs := st.attrs - {a}, index := st.index - {st.attrs[a].name})
      else
        st'.(attrs := st.attrs[a := st.attrs[a].(refs := st.attrs[a].refs - 1)])
  }

  ghost function Users(live: map<TxnId, Txn>, a: Address): set<TxnId> {
    set id | id in live && live[id].attr == a
  }

  /** Every live transaction points to allocated attributes, which are the indexed ones for
      their name; an entry's reference count is the number of its live transactions. */
  ghost predicate IndexOk(st: Store) {
    && (forall id :: id in st.live ==> st.live[id].attr in st.attrs)
    && (forall a :: a in st.attrs ==>
          && a < st.nextAddress
          && st.attrs[a].name in st.index && st.index[st.attrs[a].name] == a
          && st.attrs[a].refs == |Users(st.live, a)| > 0)
    && (forall name :: name in st.index ==> st.index[name] in st.attrs && st.attrs[st.index[name]].name == name)
  }

  function NameOf(st: Store, id: TxnId): FileName
    requires id in st.live && st.live[id].attr in st.attrs
  {
    st.attrs[st.live[id].attr].name
  }

  /** File index invariant: the index has an entry for a name iff some live transaction is on
      that file, and the entry's reference count is the number of such transactions. */
  lemma IndexCountsLiveTransactions(st: Store, name: FileName)
    requires IndexOk(st)
    ensures name in st.index <==> exists id :: id in st.live && NameOf(st, id) == name
    ensures name in st.index ==>
              st.attrs[st.index[name]].refs == |set id | id in st.live && NameOf(st, id) == name|
  {
    if name in st.index {
      var a := st.index[name];
      var users := Users(st.live, a);
      var id := SomeElement(users);
      assert NameOf(st, id) == name;
      assert users == set id | id in st.live && NameOf(st, id) == name;
    }
  }

  lemma UsersAfterAdd(live: map<TxnId, Txn>, id: TxnId, txn: Txn, a: Address)
    requires id !in live
    ensures Users(live[id := txn], a) == if txn.attr == a then Users(live, a) + {id} else Users(live, a)
    ensures |Users(live[id := txn], a)| == |Users(live, a)| + if txn.attr == a then 1 else 0
  {
    if txn.attr == a {
      assert Users(live[id := txn], a) == Users(live, a) + {id};
    } else {
      assert Users(live[id := txn], a) == Users(live, a);
    }
  }

  lemma NoUsers(st: Store, a: Address)
    requires IndexOk(st) && a !in st.attrs
    ensures Users(st.live, a) == {}
  {
    forall i | i in st.live ensures st.live[i].attr != a {
      assert st.live[i].attr in st.attrs;
    }
  }

  lemma EnrollKeepsIndex(st: Store, id: TxnId, name: FileName, now: Time)
    requires IndexOk(st) && id !in st.live
    ensures IndexOk(Enroll(st, id, name, now))
    ensures NameOf(Enroll(st, id, name, now), id) == name
  {
    var st' := Enroll(st, id, name, now);
    var mine := st'.live[id].attr;
    if name !in st.index {
      NoUsers(st, mine);
    }
    forall a | a in st'.attrs
      ensures st'.attrs[a].refs == |Users(st'.live, a)| > 0
    {
      UsersAfterAdd(st.live, id, Transactions.NewTxn(mine, now), a);
    }
  }

  lemma UsersAfterRemove(live: map<TxnId, Txn>, id: TxnId, a: Address)
    requires id in live
    ensures Users(live - {id}, a) == Users(live, a) - {id}
    ensures |Users(live - {id}, a)| == |Users(live, a)| - if live[id].attr == a then 1 else 0
  {
    assert Users(live - {id}, a) == Users(live, a) - {id};
    if live[id].attr != a {
      assert Users(live - {id}, a) == Users(live, a);
    }
  }

  lemma OtherUsersKeepAttributes(st: Store, id: TxnId, i: TxnId)
    requires IndexOk(st) && id in st.live && i in st.live && i != id && st.live[i].attr == st.live[id].attr
    ensures st.attrs[st.live[id].attr].refs >= 2
  {
    var users := Users(st.live, st.live[id].attr);
    assert {i, id} <= users;
    assert |{i, id}| == 2;
    assert |users - {i, id}| == |users| - 2;
  }

  lemma EvictKeepsIndex(st: Store, id: TxnId)
    requires IndexOk(st)
    ensures IndexOk(Evict(st, id))
    ensures forall i :: i in st.live && i != id ==> i in Evict(st, id).live && NameOf(Evict(st, id), i) == NameOf(st, i)
  {
    if id in st.live {
      var st' := Evict(st, id);
      forall i | i in st'.live
        ensures st'.live[i].attr in st'.attrs && NameOf(st', i) == NameOf(st, i)
      {
        if st.live[i].attr == st.live[id].attr {
          OtherUsersKeepAttributes(st, id, i);
        }
      }
      forall a | a in st'.attrs
        ensures st'.attrs[a].refs == |Users(st'.live, a)| > 0
      {
        UsersAfterRemove(st.live, id, a);
      }
    }
  }

  /** Two live transactions on one file share one attributes object, hence one mutex. */
  lemma SameFileSameAttributes(st: Store, i: TxnId, j: TxnId)
    requires IndexOk(st) && i in st.live && j in st.live
    ensures st.live[i].attr == st.live[j].attr <==> NameOf(st, i) == NameOf(st, j)
  {
    assert st.index[NameOf(st, i)] == st.live[i].attr;
    assert st.index[NameOf(st, j)] == st.live[j].attr;
  }

  /** Leaving undoes joining: nothing remains of a transaction but the address it used up. */
  lemma EvictUndoesEnroll(st: Store, id: TxnId, name: FileName, now: Time)
    requires IndexOk(st) && id !in st.live
    ensures Evict(Enroll(st, id, name, now), id) == st.(nextAddress := Enroll(st, id, name, now).nextAddress)
  {
    var st1 := Enroll(st, id, name, now);
    var a := st1.live[id].attr;
    assert st1.live - {id} == st.live;
    if name in st.index {
      assert st.attrs[a].refs > 0;
      assert st1.attrs[a := st.attrs[a]] == st.attrs;
    } else {
      assert a !in st.attrs;
      assert st1.attrs - {a} == st.attrs;
      assert st1.index - {name} == st.index;
    }
  }
}
