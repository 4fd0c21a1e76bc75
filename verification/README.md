# A model of the transactional file server

The server keeps files that clients write in transactions: `NEW_TXN` opens one on a file, `WRITE`
buffers numbered pieces, `COMMIT` appends pieces 1 to n to the file, `ABORT` and a 15 second timer
throw them away. Handlers run on many threads under three kinds of lock, four append-only text logs
record what happened, and a restarted process rebuilds its state from them. This project states what
that is for and proves it.

## How it is modelled

* `Transactions`: what the bodies of WRITE and COMMIT do to one transaction while they hold its
  mutex, and what any sequence of bodies leaves behind.
* `Bodies`: every life of the concurrent machine applies exactly such a sequence to each of its
  transactions; from there, what a WRITE's acknowledgement is worth.
* `Stores`: the live map, the commit set, the file index with its shared, counted file attributes
  (an explicit heap of addresses, so that a dangling reference can be expressed), files and logs.
* `Text`, `LogText`: `to_string`, stream extraction, log records written piece by piece and read back.
* `Machine`: every handler and timer wake-up as a program counter over lock owners. One step is one
  lock operation, one critical section, one `write(2)` call or one piece of a log record; any number of
  threads interleave. A step through a reference to something removed sets `fault`. A history no step
  reads records what happened.
* `MachineLocks`, `MachineSafety`, `MachineFrames`, `MachineEnds`, `MachineFiles`, `MachineLogs`,
  `MachineRecords`, `MachineSizes`, `MachineSerials`: invariants over every run, one concern each.
* `Recovery`, `Crash`, `Durability`: the replay, and lives of the server with crashes at any point.
* `Effects`, `Backend`, `Solo`: what each handler does to the store when nobody interferes; the
  imperative object whose methods are proved to do exactly that; and proofs that a handler run alone in
  the machine does exactly that too, so the two forms share one state and one meaning.
* `Timer`, `Wire`, `Framing`: the re-arming timer loop, the headers on both sides, and the
  connection loop over a stream that arrives in pieces of any size.
* `Requests`, `Uploads`: the backend as one function of a request, put behind the connection loop; what
  a client's bytes do to its file, from end to end.
* `Answers`, `Meanings`, `Deadlines`: every case of every command with the state it leaves and the reply as
  it is sent; what an answer of the concurrent machine is worth; when its timer strikes.
* `Limits`, `Interleaving`, `Rollbacks`, `Restarts`, `ShortWrites`: for each premise below, exactly when
  the step it restricts does no harm.
* `Witnesses`, `TwoCommits`: runs of ordinary requests from a first start on an empty directory that end
  in each of these harms, and what is lost.

## Premises

The theorems about runs say which of these they need; each is a condition on single steps. The code does
not enforce them, and each of them is needed: the table names the exact condition and a run that fails.
A server used one request at a time needs only fresh ids and readable names (`Limits.SequentialUseIsPolite`).

| premise | exact condition | run from a first start |
|---|---|---|
| `MachineSafety.FreshId` | `Limits.ReuseKeepsTheFileIff` | `Witnesses.ReusedIdReopensTheWrongFile` |
| `MachineSafety.TimeoutQuiet` | `Limits.ExpiryIsSafeIff` | `Witnesses.ExpiryCatchesAWrite` |
| `MachineFiles.RollbackQuiet` | `Rollbacks.TakingTheFileIsSafeIff`, `Rollbacks.HarmlessIff` | `Witnesses.AcknowledgedCommitIsCutAway` |
| `MachineLogs.CommitLogQuiet` | `Limits.BeginningARecordIsSafeIff`, `Interleaving.InterleavedRecords` | `TwoCommits.AcknowledgedCommitIsForgotten` |
| `MachineLogs.RecordQuiet` | `Limits.RecordDuringCommitIff` | `Witnesses.UncommittedDataSurvives` |
| `MachineLogs.NameReadable` | `LogText.ReadableIff` | `Witnesses.UnreadableNameIsForgotten` |
| no crash inside recovery | `Restarts.InterruptedContentsIff`, `Restarts.InterruptedIdsIff` | `Witnesses.CommittedFileIsDestroyed` |
| a log piece is one call | `ShortWrites.CutShortMisleadsIff` | on the text only |

* The server runs in its own directory: a bare name and `m_directory + name` are the same file, and
  no data file is named like a log.
* `MachineSafety.FreshId`: NEW_TXN draws an id not used since the last recovery. The code only checks the live map.
* `MachineSafety.TimeoutQuiet`: the timer does not expire a transaction that a handler is past its
  re-check on. The timer takes only the member mutex.
* `MachineFiles.RollbackQuiet`: no commit takes the mutex of a file whose failed commit is still to be
  truncated. COMMIT truncates in its catch block, after that mutex is released.
* `MachineLogs.CommitLogQuiet`: no commit record is begun while another is unfinished. Commits to
  different files hold no common lock while they append to the one commit log.
* `MachineLogs.RecordQuiet`: NEW_TXN, ABORT and the timer log no size of a file with uncommitted bytes.
* `MachineLogs.NameReadable`: file names are non-empty and have no white space.
* Writes to the logs succeed (their failures are swallowed), each piece of a record in one call, and the
  process does not die inside recovery.
* A process crash keeps what was written, in program order.

Deadlock freedom, mutual exclusion, the log format, recovery's idempotence, the codec, framing and the
timer need none of the premises on steps.

## Where the code and its descriptions differ

The model follows the code.

* server-backend.h (136-139) and README.md suggest that a successful COMMIT ends the connection; only
  errors and ABORT clear the flag (`Backend.ServerBackend.ProcessRequest`).
* README.md asks for WRITE numbers above 0; other numbers are accepted, buffered and never committed.
* README.md promises durability. Acknowledged WRITEs are only in memory and are gone after a restart
  (`Recovery.Recovered` reopens transactions empty). A COMMIT answered at the end of its handler is durable
  under the premises (`Durability.AcknowledgedIsDurable`), and then so is every WRITE before it
  (`Bodies.AcknowledgedWriteIsInTheFile`); one answered from the commit set is so iff the first COMMIT's
  record is complete (`Durability.EarlyAcknowledgementIff`, reached in `Witnesses.AcknowledgedTooEarly`).
* Without the premises it is not. Two clients that commit to two files at the same time mix their
  records in the one commit log. No call fails and both are acknowledged, but one record is no longer in
  the log, and the next start-up deletes its file (`TwoCommits.AcknowledgedCommitIsForgotten`).
* A second crash while start-up reads and deletes the logs one by one can delete a committed file and bring
  an aborted transaction back (`Witnesses.CommittedFileIsDestroyed`).
* README.md promises isolation of commits to one file; a failed commit's truncation can cut another,
  acknowledged one away (`Witnesses.AcknowledgedCommitIsCutAway`), and a failed commit's bytes can stay in the
  file for good. Which of these, for every place the truncation can fall: `Rollbacks.WhereverTheTruncationFalls`.

## Model

| member | source | states |
|---|---|---|
| Transactions.FirstMissing | Server/Server/server-backend.cpp:397-403 | the number COMMIT asks for is the least one of 1..n that is not buffered |
| Transactions.AcknowledgedWritesAreKept | Server/Server/server-backend.cpp:331-346 | after any sequence of bodies the buffer of k holds exactly the data of the first WRITE k, and is absent iff there was none |
| Transactions.MaxSeqIsLeastBound | Server/Server/server-backend.cpp:337-341 | max_seq_num is the least bound of 1 and of every number any WRITE or COMMIT named, so it bounds all keys and never decreases |
| Transactions.CommitReadyIff | Server/Server/server-backend.cpp:382-403 | COMMIT n goes to disk iff n is positive, no request named a larger number and every number 1..n was written; COMMIT 0 never does |
| Transactions.CommitRefusedIff | Server/Server/server-backend.cpp:382-403 | after any requests, COMMIT n is refused with CommitWithInvalidSequenceNumber iff n is below 1 or some request named a larger number, and then changes nothing but the stamp; else, if not ready, it asks for the least number not written |
| Transactions.WriteAnswers | Server/Server/server-backend.cpp:331-346 | after any requests, WRITE k is acknowledged iff it is the first of its number; a repeat is refused with RepeatedSequenceNumber and changes nothing but the stamp |
| Transactions.ReadyBuffersAreExact | Server/Server/server-backend.cpp:382-414 | when COMMIT n is ready the positive buffered numbers are exactly 1..n |
| Transactions.AssembleIsFirstWrites | Server/Server/server-backend.cpp:411-414 | what COMMIT appends is the first acknowledged data of 1, 2, ..., n, in that order |
| Transactions.ResendRound | Server/Server/server-backend.cpp:382-403 | COMMIT n is ready iff nothing is missing; else it asks for the least missing number, and writing it leaves exactly one fewer |
| Transactions.ResendLoopAsksEachMissingOnce | Server/Server/server-backend.cpp:382-403 | a client that answers every ASK_RESEND is asked for each missing number once, in increasing order, and then COMMIT is ready |
| Bodies.LivesAreBodies | Server/Server/server-backend.cpp:300-441 | in every interleaving and through crashes, each live transaction is exactly what the bodies that ran on its id since it was drawn or reopened make of a new transaction; other transactions, threads, refusals and timeouts leave no trace in it |
| Bodies.CommitsWhatWasWritten | Server/Server/server-backend.cpp:405-421 | what a COMMIT past its decision appends is the first WRITE of each of 1..n among those bodies, in the order of the numbers, and no larger number was written |
| Bodies.OrderIndependence | Server/Server/server-backend.cpp:331-414 | two commits, in any two lives of the machine, whose transactions first wrote the same data under every positive number append the same bytes, whatever the orders, repeats and other requests |
| Bodies.AcknowledgedWriteIsInTheFile | Server/Server/server-backend.cpp:331-440 | a WRITE acknowledged by the machine and followed by a COMMIT of its transaction acknowledged at the end of its handler is in the file after any later requests, crashes and recoveries: behind the earlier commits and at its own place |
| Stores.IndexCountsLiveTransactions | Server/Server/server-backend.cpp:152-205 | the index has a file iff a live transaction names it, and the entry's count is the number of such transactions |
| Stores.EnrollKeepsIndex | Server/Server/server-backend.cpp:181-200 | entering a transaction keeps the index right and puts it on the named file |
| Stores.EvictKeepsIndex | Server/Server/server-backend.cpp:651-657 | removing one keeps the index right and leaves the others on their files |
| Stores.SameFileSameAttributes | Server/Server/server-backend.cpp:152-205 | two live transactions share one attributes object, hence one file mutex, iff they name the same file |
| Stores.EvictUndoesEnroll | Server/Server/server-backend.cpp:163-168 | leaving undoes entering, including the creation of attributes and index entry |
| LogText.ParsePrinted | Server/Server/server-backend.cpp:555-615 | any list of records followed by a record cut between two of its writes reads back as the list, plus the last record iff its size is there |
| LogText.ParseTorn | Server/Server/server-backend.cpp:601-615 | the same for one cut record alone |
| LogText.ReadableIff | Server/Server/server-backend.cpp:563 | a record reads back as itself iff its file name is a non-empty word |
| Interleaving.WholeRecordAfterTorn | Server/Server/server-backend.cpp:418 | a record written whole after p writes of another thread's record reads back iff p is 0 or 6, or only an id 0 had been written |
| Interleaving.InterleavedRecords | Server/Server/server-backend.cpp:599-616 | a record written whole between writes p and p+1 of another, which is then finished: both read back iff p is 0 or 6, or p is 4 and the second record looks like the end of the first |
| ShortWrites.CutIsRead | Server/Server/server-backend.cpp:605-615 | a record cut inside any one of its writes is read as absent before its size and as complete after it; inside the size it is read with the digits that are there |
| ShortWrites.CutShortMisleadsIff | ClientServerShared/read-write-helper.h:64-85 | such a record is read as what it is or not at all iff not some but not all digits of its size are there; else its size is too small |
| MachineLocks.RunKeepsLocks | Server/Server/server-backend.cpp:300-488 | in every run, under any environment, the locks a thread holds are those of its program counter, and each lock has one owner |
| MachineLocks.WaitingRespectsRank | Server/Server/server-backend.cpp:302-438 | a waiting thread holds only locks of smaller rank than the one it wants |
| MachineLocks.RunsNeverDeadlock | Server/Server/file.cpp:26-67 | with no premise at all: in every run, whenever a handler is unfinished some thread can take a step that moves it or meets a dangling reference, counting the process-wide mutex of opening and closing files |
| MachineSafety.HandlersGoOn | Server/Server/server-backend.cpp:207-488 | in every state reached under fresh ids and quiet timeouts, whenever a handler is unfinished some thread can take a step that moves it, keeps these premises and follows no dangling reference |
| MachineSafety.RecheckFindsQuiet | Server/Server/server-backend.cpp:465-479 | the argument of ABORT's comment: a thread whose re-check succeeds finds no other thread with references into the transaction |
| MachineSafety.NextIsSafe | Server/Server/server-backend.cpp:300-488 | every step of every handler keeps all references sound, one thread past its re-check per transaction, and every buffer a commit is going to write present |
| MachineSafety.NoUseAfterRemoval | Server/Server/server-backend.cpp:300-488 | in every interleaving no step follows a reference to a removed transaction or to deleted file attributes |
| MachineEnds.OthersArePendingElsewhere | Server/Server/server-backend.cpp:416-418 | when an end record becomes complete no other thread can still be working towards one for that transaction |
| MachineEnds.TransactionsEndOnce | Server/Server/server-backend.cpp:416-485 | in every run a transaction gets at most one record in the commit, abort and timeout logs together |
| MachineEnds.LosersChangeNothing | Server/Server/server-backend.cpp:355-376 | a handler turned away at its first look or its re-check leaves the store as it was and answers an error, or ACK to a repeated COMMIT |
| MachineFiles.RollbackKeepsFiles | Server/Server/server-backend.cpp:426-431 | truncating after a failed commit keeps every file at its committed contents |
| MachineFiles.RollbackSize | Server/Server/server-backend.h:114-120 | the remembered size a rollback cuts to is the committed length of the file |
| MachineFiles.NextKeepsFiles | Server/Server/server-backend.cpp:405-431 | every step keeps each file at initial contents, then committed transactions, then one writer's bytes, and each remembered size at the committed length outside the window after a record |
| MachineFiles.SerialCommits | Server/Server/server-backend.cpp:395-421 | in every run a file is its first contents, then whole transactions in commit order, then at most a part of what one single thread has appended |
| MachineLogs.PieceInTurn | Server/Server/server-backend.cpp:605-615 | a thread about to write piece q of a record finds its log with exactly q pieces of that record at the end |
| MachineRecords.NextKeepsTexts | Server/Server/server-backend.cpp:599-616 | every step keeps each log's text as complete records and at most one torn one |
| MachineRecords.NextKeepsRecords | Server/Server/server-backend.cpp:202-485 | every step keeps the records true: live transactions were created under their names, no id twice, ended ones were created, end records are the ends |
| MachineSizes.NextKeepsSizes | Server/Server/server-backend.cpp:418-420 | every step keeps the largest size logged for a file equal to its committed length |
| MachineSizes.RunIsGood | Server/Server/server-backend.cpp:300-488 | all of these invariants over every run that respects the premises |
| MachineSerials.NextKeepsSerials | Server/Server/server-backend.cpp:416-418 | every step keeps it that no transaction, told apart by creation number, is committed twice |
| MachineSerials.RepeatedCommitsAreAcknowledged | Server/Server/server-backend.cpp:355-357 | once a transaction is in the commit set every later COMMIT on it in that server run is answered ACK and leaves the store alone |
| Recovery.OpenIffOdd | Server/Server/server-backend.cpp:578-587 | the toggle loop leaves an id open iff it occurs an odd number of times |
| Recovery.SizesAreMaxima | Server/Server/server-backend.cpp:565-576 | the size map has exactly the files mentioned, each with its largest logged size |
| Recovery.ReplayIsSetDifference | Server/Server/server-backend.cpp:537-597 | with distinct creations and distinct ends the replay returns exactly the ids created and never ended, under their file names |
| Recovery.RecoveryIsIdempotent | Server/Server/server-backend.cpp:493-516 | for any disk, recovering again right after recovery gives the same contents, live ids and file names |
| Crash.LogReadsBack | Server/Server/server-backend.cpp:545-563 | at whatever point the process dies each log reads back as its complete records |
| Crash.ReopensUnended | Server/Server/server-backend.cpp:578-587 | the replay opens exactly the transactions created and never ended |
| Crash.SizesAreCommitted | Server/Server/server-backend.cpp:565-576 | the sizes recovery truncates to are the committed lengths, and a file without one has no uncommitted bytes |
| Crash.CrashAtomicity | Server/Server/server-backend.cpp:405-421 | wherever the process dies, also between two writes of a commit or before its record, recovery leaves each file with exactly the committed data |
| Crash.RestartIsGood | Server/Server/server-backend.cpp:493-516 | a recovered server satisfies every invariant again |
| Crash.BootIsGood | Server/Server/server-backend.cpp:518-535 | so does a first start on any files without logs |
| Crash.DurableAndAtomic | Server/Server/server-backend.cpp:493-597 | over every life with any number of requests, crashes and restarts, a recovered file is its first contents and then the data of exactly the transactions with a complete commit record, in order, none twice; the others that were not ended are live again; the commit log names the last of the committed ones, those since the last recovery, one by one |
| Durability.StepKeepsDurable | Server/Server/server-backend.cpp:416-438 | every step keeps it that a COMMIT past its record has its transaction committed with the buffers it has now |
| Durability.AcknowledgedIsDurable | Server/Server/server-backend.cpp:436-440 | a COMMIT at the end of its handler is answered ACK and has its data 1..n in the file after any later requests, crashes and recoveries, once |
| Durability.EarlyAcknowledgementIff | Server/Server/server-backend.cpp:355-357 | a COMMIT acknowledged from the commit set is lost in a crash right then iff the first COMMIT's record is not complete |
| Effects.WriteCalls | ClientServerShared/read-write-helper.h:64-85 | whatever the short writes, what got out is a prefix, all of it iff no call failed |
| Effects.WritingFailsIff | ClientServerShared/read-write-helper.h:64-85 | writing fails iff some call does while bytes are left for it, and the file then has what the calls before it wrote |
| Effects.WritesArePrefix | Server/Server/server-backend.cpp:411-414 | the same for the loop over the buffers: a prefix of data k..n in order |
| Effects.FailureLeavesBytes | Server/Server/server-backend.cpp:411-428 | a call can fail only while bytes are left, and leaves that many from the front |
| Effects.CutRestoresIff | Server/Server/server-backend.cpp:428 | truncating after a partial append restores a file iff the size is its old length |
| Effects.RollbackUndoes | Server/Server/server-backend.cpp:405-431 | a failed commit leaves every file's contents as they were iff the remembered size was right, and the transaction live, with its buffers and ready to commit again |
| Effects.CommitAppends | Server/Server/server-backend.cpp:405-440 | a successful commit appends data 1..n to its own file only, logs the new length, and moves the id from the live map to the commit set |
| Effects.EffectsKeepIndex | Server/Server/server-backend.cpp:152-205 | every handler and timeout keeps the file index right |
| Effects.ExpireExactly | Server/Server/server-backend.cpp:219-241 | a timer wake-up 15 seconds or more after the stamp removes the transaction, changes no file and no other, and appends one line to the timeout log; an earlier one changes nothing |
| Solo.NewAlone | Server/Server/server-backend.cpp:269-298 | NEW_TXN alone in the machine does exactly what the sequential handler does |
| Solo.WriteAlone | Server/Server/server-backend.cpp:300-347 | so does WRITE, with every refusal |
| Solo.AbortAlone | Server/Server/server-backend.cpp:443-488 | so does ABORT |
| Solo.ExpireAlone | Server/Server/server-backend.cpp:215-241 | so does a timer wake-up |
| Solo.CommitAlone | Server/Server/server-backend.cpp:349-441 | so does COMMIT, for every refusal and for a disk that cannot open, fails after any number of bytes, or works |
| Backend.ServerBackend.constructor | Server/Server/server-backend.cpp:53-57 | a new process has the disk's files and logs and nothing in memory |
| Backend.ServerBackend.LogTransaction | Server/Server/server-backend.cpp:599-616 | the six writes append exactly one record with the file's size and change nothing else |
| Backend.ServerBackend.AddNewTransaction | Server/Server/server-backend.cpp:181-205 | enters the transaction on shared or new attributes and logs it; the index stays right |
| Backend.ServerBackend.RemoveTransaction | Server/Server/server-backend.cpp:651-657 | leaves the live map, and deletes the attributes iff this was their last user |
| Backend.ServerBackend.NewTransaction | Server/Server/server-backend.cpp:269-298 | a nonzero number is refused; else the first drawn id that is not live is entered, logged and acknowledged |
| Backend.ServerBackend.Write | Server/Server/server-backend.cpp:300-347 | new state and answer are those of the sequential WRITE |
| Backend.ServerBackend.Abort | Server/Server/server-backend.cpp:443-488 | new state and answer are those of the sequential ABORT |
| Backend.ServerBackend.Expire | Server/Server/server-backend.cpp:219-241 | removes and logs the transaction iff its stamp is 15 seconds old |
| Backend.ServerBackend.Commit | Server/Server/server-backend.cpp:349-441 | new state and answer are those of the sequential COMMIT for whatever the operating system answers |
| Backend.ServerBackend.WriteToDisk | Server/Server/server-backend.cpp:405-440 | all calls succeed: appended, committed, logged, removed; one fails: cut back, everything else untouched |
| Backend.ServerBackend.AppendBuffers | Server/Server/server-backend.cpp:409-414 | the writing loop puts exactly the bytes of the successful calls at the end of the file |
| Backend.FindMissing | Server/Server/server-backend.cpp:397-403 | the verification loop returns the least missing number, and none iff all of 1..n are there |
| Backend.ServerBackend.Read | Server/Server/server-backend.cpp:245-267 | READ answers the contents up to a NUL, or the error for a file that cannot be opened or read |
| Backend.ServerBackend.ProcessRequest | Server/Server/server-backend.cpp:637-649 | state, reply and whether the connection goes on are those of `Requests.Process` for every command, known or not, for whatever the operating system answers, with the first drawn id that is free |
| Requests.GoesOnIff | Server/Server/server-backend.cpp:637-649 | a connection goes on, also after a commit, iff the reply is no error and the request was no ABORT |
| Answers.UnknownIsRefused | Server/Server/server-backend.cpp:637-649 | an unknown command changes nothing, is answered ERROR 200 InvalidCommand, and ends the connection |
| Answers.ReadIsAnswered | Server/Server/server-backend.cpp:245-267 | READ changes nothing and is answered ACK with the bytes up to the first NUL, ERROR 206 or ERROR 207 |
| Answers.NewIsAnswered | Server/Server/server-backend.cpp:269-298 | NEW_TXN 0 is answered ACK with the drawn id, which is then live on the file, empty and stamped now, with its line in the transaction log and everything else as it was; another number is answered ERROR 204 and changes nothing |
| Answers.WriteIsAnswered | Server/Server/server-backend.cpp:300-347 | WRITE of a number not yet buffered on a live id is answered ACK and buffers the data; a repeated number gets ERROR 205, a committed id 202, an unknown id 201, and nothing is buffered |
| Answers.CommitIsAnswered | Server/Server/server-backend.cpp:349-441 | COMMIT gets ACK for a committed id, 201 for an unknown one, 210 below the largest number named, ASK_RESEND with the least missing number, 206 or 208 when the file cannot be opened or written and then leaves all files and the transaction, or ACK with the data at the end of the file, its line in the commit log, the new size remembered, and the id in the commit set |
| Answers.AcknowledgedIsCommitted | Server/Server/server-backend.cpp:355-440 | COMMIT is answered ACK iff the id was committed, or it is live, no larger number was named, nothing is missing and every system call succeeds; and then it is in the commit set |
| Answers.AbortIsAnswered | Server/Server/server-backend.cpp:443-488 | ABORT of a live id is answered ACK, removes it alone, touches no file and appends its line to the abort log; a committed id gets ERROR 202, an unknown one 201 |
| Answers.ErrorTable | ClientServerShared/errors.h:29-55 | every error is sent with the number and the text of the table |
| Meanings.AnswersMeanWhatTheySay | Server/Server/server-backend.cpp:300-488 | in the concurrent machine, whatever the other threads do, the step that answers means what it says: an ACK that the thing is done (written, committed, aborted with its record, created), each error its reason, ASK_RESEND the least missing number |
| Meanings.HowItEnded | Server/Server/server-backend.cpp:365-376 | at a re-check, TransactionAlreadyCommitted is answered only when the commit record is complete, and TransactionAborted only when an abort or timeout record is |
| Meanings.AcknowledgedCommitIsCommitted | Server/Server/server-backend.cpp:355-440 | in every run without a dangling reference, whatever ids are drawn and whatever times out, a COMMIT answered ACK is in the commit set |
| Meanings.RefusedOnArrival | Server/Server/server-backend.cpp:269-297 | NEW_TXN with a number other than 0 is refused at once and changes nothing |
| Meanings.LifeAccounts | Server/Server/server-backend.cpp:207-488 | over every life, an id that was drawn is live, or has a record that says how it ended, or its timer is writing one; the commit set is exactly the ids with a commit record or about to get one |
| Backend.ReplayLog | Server/Server/server-backend.cpp:563-588 | the extraction loop over one log continues a replay with exactly that log's records |
| Backend.ServerBackend.LoadFilesAndTransactions | Server/Server/server-backend.cpp:537-597 | gives the replay of all records of the four logs in order and deletes them |
| Backend.ServerBackend.TruncateAll | Server/Server/server-backend.cpp:659-685 | cuts every mentioned file to its size, deletes those of size 0, touches no other, in any order |
| Backend.ServerBackend.InitializeTransactions | Server/Server/server-backend.cpp:493-516 | for any files and logs, in any hash order, the outcome is a recovered store whose transactions all carry the time of the restart |
| Recovery.RecoveredFileIsThereIff | Server/Server/server-backend.cpp:659-685 | after a restart a file exists iff it did before and some record gives it a positive size or none mentions it |
| Timer.EveryBodyStamps | Server/Server/server-backend.cpp:329 | the stamp after k bodies is the time of the k-th, refused or not |
| Timer.RunTimer | Server/Server/server-backend.cpp:209-243 | never removes a transaction with a stamp under 15 s old, never sleeps past the newest stamp plus 15 s, wakes at most once more than it finds newer stamps; a punctual timer removes at the first idle moment |
| Timer.NeverTooEarly | Server/Server/server-backend.cpp:225-236 | with any delays, a removal happens at an idle moment and not before the first |
| Deadlines.TimerStrikesIff | Server/Server/server-backend.cpp:215-236 | in the concurrent machine and through crashes, a timer wake-up removes a live transaction iff 15 seconds have passed since the last request that looked at it, its creation or its reopening; it changes no file and no other transaction |
| Deadlines.ReopenedHasFifteenSeconds | Server/Server/server-backend.cpp:512-515 | no wake-up less than 15 seconds after a restart changes anything about what the restart reopened |
| Wire.ScanIsFormat | ClientServerShared/constants.h:53-67 | the recogniser accepts exactly the language of the header formats |
| Wire.AcceptedIsExtracted | ClientServerShared/wire-protocol.h:89-101 | every accepted request header is taken apart, with a length that is not negative |
| Wire.HeaderSays | ClientServerShared/wire-protocol.h:89-101 | any header in the format is taken apart into its command and the numbers its fields stand for, also with leading zeros, signs or less padding |
| Wire.RequestLayout | ClientServerTest/ClientServerTest/client.cpp:147-170 | a request is its command, id, number and length with single blanks, padded to 64 bytes by a blank and zeros, then the data |
| Wire.ReplyLayout | Server/Server/server-backend.cpp:99-131 | a reply is its command, id, number, error code and length, padded likewise to 128 bytes, then the data |
| Wire.CStringIff | Server/Server/server-backend.cpp:145 | a payload survives the C-string interface iff it has no NUL |
| Wire.HeaderRoundTrip | ClientServerTest/ClientServerTest/client.cpp:153-160 | a printed header has the width, is in the format and reads back |
| Wire.RequestRoundTrip | Server/Server/server-backend.cpp:133-150 | the server accepts the client's header, asks for exactly the payload, and gets the same request iff the data has no NUL |
| Wire.ReplyRoundTrip | ClientServerTest/ClientServerTest/client.cpp:35-74 | the client accepts the server's header and gets the same response iff the data has no NUL |
| Wire.AnswersReadBack | Server/Server/server-backend.cpp:99-131 | every ACK, ASK_RESEND and ERROR with int fields fits its header and reaches the client as that very command with its id, number, code and text |
| Wire.AnswersDiffer | ClientServerShared/errors.h:29-55 | different answers never look the same to the client |
| Framing.Socket.ReadExact | ClientServerShared/read-write-helper.h:29-62 | fills exactly the bytes asked for, or fails, for any split into short reads |
| Framing.Socket.WriteAll | ClientServerShared/read-write-helper.h:64-85 | sends exactly the text for any split into short writes, or a front part of it once a call has failed |
| Framing.ServeConnection | Server/Server/server-dispatcher.h:257-321 | the connection loop's final state depends on the bytes alone, not on how they were cut or on replies that could not be written; so does its output unless a write failed |
| Framing.MalformedIsRefused | Server/Server/server-backend.cpp:59-76 | 64 bytes that are not a header in the format are answered ERROR -1 -1 199 InvalidMessageFormat, nothing is handled and the connection ends, whatever the handler and the state |
| Framing.AcceptedIsServed | Server/Server/server-backend.cpp:133-150 | 64 bytes in the format and their payload are handled as the request their fields say, then the rest of the stream, unless the connection ends |
| Framing.ShortHeaderIsDropped | Server/Server/server-dispatcher.h:270-318 | a stream that ends inside a header is dropped unanswered |
| Framing.ShortPayloadIsDropped | Server/Server/server-dispatcher.h:296-318 | so is one that ends inside a payload |
| Framing.RequestsAreHeard | Server/Server/server-dispatcher.h:270-321 | requests sent back to back are decoded as sent, in order, each answered once, up to the first that stops the connection |
| Framing.OneReplyEach | Server/Server/server-dispatcher.h:301-321 | reply i answers request i in the state the earlier requests left; only the last of a stopped conversation stops it |
| Framing.RepliesAreHeard | ClientServerTest/ClientServerTest/client.cpp:35-74 | the client reads exactly the replies that were sent |
| Framing.ConversationEndToEnd | Server/Server/server-dispatcher.h:257-321 | requests over a stream leave any handler as if handled one by one, and the client hears one reply for each, if the replies given fit their headers and have no NUL |
| Requests.AnswerIsAudible | Server/Server/server-backend.cpp:99-131 | every reply of the backend to a sendable request fits its header and has no NUL, while drawn ids and sizes of read files are ints |
| Requests.ServerEndToEnd | Server/Server/server-dispatcher.h:257-321 | hence for the backend itself: whatever sendable requests a client sends back to back, the server ends as if they were handled one by one and the client makes out every reply |
| Uploads.UploadEndToEnd | Server/Server/server-backend.cpp:300-441 | the pieces 1..n of a file sent in any order and followed by COMMIT n, as bytes on a connection: the client makes out an ACK of each, the file has gained them in the order of their numbers, and no other file has changed |
| Limits.SequentialUseIsPolite | Server/Server/server-backend.cpp:207-488 | with at most one unfinished handler a step meets every premise iff its id is fresh and its file name readable |
| Limits.SequentialRunIsGood | Server/Server/server-backend.cpp:207-488 | a run in which no request arrives before the last is answered meets the premises and keeps all invariants |
| Limits.ReuseKeepsTheOpenIds | Server/Server/server-backend.cpp:578-587 | even with reused ids the toggle loop leaves open exactly the ids whose last life was not ended |
| Limits.ReuseKeepsTheFileIff | Server/Server/server-backend.cpp:541-587 | such an id comes back on its file iff no earlier life ended, or the end read last was on that file |
| Limits.ExpiryIsSafeIff | Server/Server/server-backend.cpp:215-231 | expiring a transaction keeps all references sound iff no handler is past its re-check on it |
| Limits.RecordDuringCommitIff | Server/Server/server-backend.cpp:613 | after a creation, abort or timeout record and a crash, a file recovers to its committed contents iff no commit had put bytes into it |
| Limits.BeginningARecordIsSafeIff | Server/Server/server-backend.cpp:416-418 | beginning a commit record keeps the log readable iff no other commit record is unfinished |
| Rollbacks.TakingTheFileIsSafeIff | Server/Server/server-backend.cpp:405-431 | taking the mutex of a file keeps every file's contents accounted for iff no thread is still to truncate that file |
| Rollbacks.WhereverTheTruncationFalls | Server/Server/server-backend.cpp:405-440 | whenever a ready commit slips in before another's truncation, and wherever that falls (after any number of bytes, after the record, after the new size is stored), there is a run that ends both handlers as usual, and its file contents and logged size are these |
| Rollbacks.HarmlessIff | Server/Server/server-backend.cpp:426-428 | the file then holds what it held before and the whole second commit iff the truncation came before its first byte, or had nothing to cut |
| Restarts.InterruptedContentsIff | Server/Server/server-backend.cpp:537-597 | after a crash inside recovery, at any log or any file, the next one leaves a file with its committed data iff the size it leaves it with is the one an undisturbed recovery would have cut it to |
| Restarts.InterruptedIdsIff | Server/Server/server-backend.cpp:578-596 | once a log is deleted every transaction that comes back had ended, and the right ones come back iff none should and no end record is left |
| Restarts.ReenteringKeepsOnlyTheReentered | Server/Server/server-backend.cpp:512-515 | a crash while transactions are re-entered leaves all contents right and loses exactly the transactions whose record was not complete |
| TwoCommits.AcknowledgedCommitIsForgotten | Server/Server/server-backend.cpp:405-421 | from a first start: two commits to two files at the same time, no failure, both acknowledged with their data in the files; every recovery leaves one of the files empty |
| Witnesses.AcknowledgedCommitIsCutAway | Server/Server/server-backend.cpp:426-428 | from a first start: a write fails, another commit to the file is acknowledged with its record complete, and the file ends without a byte of it |
| Witnesses.ExpiryCatchesAWrite | Server/Server/server-backend.cpp:215-231 | from a first start: the timer removes a transaction under a WRITE past its re-check, which then follows a dangling reference |
| Witnesses.UncommittedDataSurvives | Server/Server/server-backend.cpp:613 | from a first start: an ABORT logs the size of a file in mid-commit, and every recovery keeps the uncommitted bytes |
| Witnesses.AcknowledgedTooEarly | Server/Server/server-backend.cpp:355-357 | from a first start: a repeated COMMIT is acknowledged before the first one's record, and every recovery brings the transaction back open with its data gone |
| Witnesses.ReusedIdReopensTheWrongFile | Server/Server/server-backend.cpp:279 | from a first start: an id committed on f and drawn again on g: a COMMIT on g is acknowledged with nothing written, and every recovery reopens it on f |
| Witnesses.CommittedFileIsDestroyed | Server/Server/server-backend.cpp:589-594 | from a first start: an acknowledged commit, a crash, and a second one when start-up has deleted three logs; every recovery then deletes the file and brings an aborted transaction back |
| Witnesses.UnreadableNameIsForgotten | Server/Server/server-backend.cpp:555-563 | from a first start: a transaction on a name that is empty or has white space is acknowledged, and no recovery brings it back on that file |

## Left out

- Sockets, `select`, `accept`, timeouts of connections, descriptor locks and the notifier thread: a connection is a byte stream; a timeout is its end. A write to a peer that is gone is a failing call; that its signal may end the process is the crash the lives allow anywhere.
- `fsync` and power loss: the file destructor runs after the commit record is closed, so program order on disk is all the code can rest on.
- Memory-level effects: unlocked access to the commit set and to stamps, the by-value `move`, stack arrays; each access is one atomic step on values.
- READ during a running commit: documented to prefer availability; `Backend.ServerBackend.Read` reads one moment.
- Failing log writes: swallowed by the code; excluded by premise. A piece of a record is one step of the machine; what a piece cut short by a crash would read as is in `ShortWrites`.
- Header numbers outside int: extraction would fail or saturate; round trips are stated for messages whose numbers are ints.
- Regular expression engine: replaced by a recogniser proved equal to the format.
- Double-checked start-up (`initializeFunctionsAndTransactions`), command line, console and signal handling.
- Error codes 203 and 209: the first is never used, the second cannot occur under the member mutex.
- Termination of the id draw when every int is live: `NewTransaction` needs one draw that is free, and `Requests.Draw` leaves open what is drawn then.
- Effects.CutRestoresIff: sizes beyond the contents extend a file with NUL bytes, as truncate does; the clause covers them by length.
- Requests.ServerEndToEnd: for stores with fewer live transactions than ints and READs of files whose size is an int; larger ones do not fit the header.
- Bodies.AcknowledgedWriteIsInTheFile: under all premises, and for numbers from 1 on; the code acknowledges smaller numbers and never writes them (`Bodies.CommitsWhatWasWritten`).
- Bodies.OrderIndependence: says nothing about which of the two commits gets that far; that is `Transactions.CommitReadyIff`.
- MachineSafety.NoUseAfterRemoval: under fresh ids and quiet timeouts; without the latter it is false (`Witnesses.ExpiryCatchesAWrite`) and `Limits.ExpiryIsSafeIff` is exact.
- MachineSafety.HandlersGoOn: under the same two premises.
- Meanings.AnswersMeanWhatTheySay: under the same two premises; `Meanings.AcknowledgedCommitIsCommitted` needs neither.
- MachineLocks.RunsNeverDeadlock: without premises the step may be one that follows a dangling reference; `MachineSafety.HandlersGoOn` rules that out under the two above.
- MachineEnds.TransactionsEndOnce: under fresh ids and quiet timeouts; an id drawn again is a second transaction with the same name in the logs (`Limits.ReuseKeepsTheOpenIds`).
- MachineFiles.SerialCommits: under `RollbackQuiet` as well; without it it is false (`Witnesses.AcknowledgedCommitIsCutAway`) and `Rollbacks.TakingTheFileIsSafeIff` is exact.
- Crash.DurableAndAtomic: under all premises; each is needed, as the table under Premises shows.
- Durability.AcknowledgedIsDurable: under all premises; two commits at the same time to two files already break the promise (`TwoCommits.AcknowledgedCommitIsForgotten`).
- Backend.ServerBackend.InitializeTransactions: one clock reading for all transactions it reopens; the code takes one for each.
- Timer.RunTimer: one clock reading per wake-up; the code reads it once in the comparison and stamps are not locked.
- Solo.CommitAlone: a failing call needs bytes left to write, as in the writing loop; `Effects.FailureLeavesBytes` shows the method's outcomes meet this.
