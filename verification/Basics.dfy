/** Vocabulary shared by every part of the model: identifiers, requests' error codes and
    the responses a handler can give. */
module Basics {

  datatype Option<+T> = None | Some(value: T)

  type TxnId = int
  type SeqNum = int
  type Time = int
  type Data = string
  type FileName = string

  const INITIAL_SEQ_NUM: SeqNum := 0
  const TRANSACTION_TIMEOUT_SECONDS: Time := 15

  datatype ErrorCode =
    | InvalidMessageFormat
    | InvalidCommand
    | InvalidTransactionId
    | InvalidOperation
    | InvalidSequenceNumber
    | RepeatedSequenceNumber
    | ErrorOpeningFile
    | ErrorReadingFile
    | ErrorWritingFile
    | CommitWithInvalidSequenceNumber
    | TransactionAlreadyCommitted
    | TransactionAborted

  datatype Response =
    | Ack(id: TxnId, seqNum: SeqNum)
    | AskResend(id: TxnId, seqNum: SeqNum)
    | Error(id: TxnId, seqNum: SeqNum, code: ErrorCode)
    | Silent // a timer wake-up answers nobody

  lemma SomeElement<T>(s: set<T>) returns (x: T)
    requires s != {}
    ensures x in s
  {
    x :| x in s;
  }
}
