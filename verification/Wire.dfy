/** The wire protocol: fixed-width headers, printed by one side, recognised and taken apart by
    the other. Bytes are characters; a header or payload is handled as a C string, so it ends
    at its first NUL. */
module Wire {
  import opened Basics
  import opened Text

  const REQUEST_HEADER_LEN: nat := 64
  const RESPONSE_HEADER_LEN: nat := 128
  const DEFAULT_TXN_ID: TxnId := -1
  const ERROR_SEQ_NUM: SeqNum := -1

  datatype Message = Message(command: string, id: TxnId, seqNum: SeqNum, data: Data)
  datatype Reply = Reply(command: string, id: TxnId, seqNum: SeqNum, code: nat, data: Data)

  /** A command and the numbers that follow it. */
  datatype Header = Header(command: string, numbers: seq<int>)

  // ---------------------------------------------------------------- C strings

  function CString(bytes: string): (s: string)
    ensures '\0' !in s
    ensures '\0' !in bytes ==> s == bytes
    ensures s <= bytes && (|s| < |bytes| ==> bytes[|s|] == '\0')
  {
    if bytes == "" || bytes[0] == '\0' then "" else [bytes[0]] + CString(bytes[1..])
  }

  /** A byte string survives the C-string interface iff it has no NUL. */
  lemma CStringIff(bytes: string)
    ensures CString(bytes) == bytes <==> '\0' !in bytes
  {
  }

  // ---------------------------------------------------------------- printing

  /** Each number after one delimiter. */
  function Fields(numbers: seq<int>): string {
    if numbers == [] then "" else " " + IntText(numbers[0]) + Fields(numbers[1..])
  }

  function ZeroDigits(n: nat): (s: string)
    ensures |s| == n && forall i :: 0 <= i < n ==> s[i] == '0'
  {
    seq(n, _ => '0')
  }

  /** What follows the last field: a delimiter if there is room, then padding. */
  function Padding(used: nat, width: nat): (s: string)
    requires used <= width
    ensures |s| == width - used
  {
    if used < width then " " + ZeroDigits(width - used - 1) else ""
  }

  function HeaderText(h: Header): string {
    h.command + Fields(h.numbers)
  }

  function PrintHeader(h: Header, width: nat): (s: string)
    requires |HeaderText(h)| <= width
    ensures |s| == width
  {
    HeaderText(h) + Padding(|HeaderText(h)|, width)
  }

  function RequestHeader(m: Message): Header {
    Header(m.command, [m.id, m.seqNum, |m.data|])
  }

  function ReplyHeader(r: Reply): Header {
    Header(r.command, [r.id, r.seqNum, r.code, |r.data|])
  }

  // ---------------------------------------------------------------- the format, as a language

  predicate IsUpper(c: char) {
    'A' <= c <= 'Z' || c == '_'
  }

  /** [A-Z_]+ */
  predicate IsCommand(s: string) {
    s != "" && forall i :: 0 <= i < |s| ==> IsUpper(s[i])
  }

  /** [0-9]+ */
  predicate IsNumber(s: string) {
    s != "" && forall i :: 0 <= i < |s| ==> IsDigit(s[i])
  }

  /** [0-9]+ or, for a signed field, [-]?[0-9]+ */
  predicate IsField(s: string, signed: bool) {
    IsNumber(s) || (signed && s != "" && s[0] == '-' && IsNumber(s[1..]))
  }

  /** ([ ]0*)? */
  predicate IsPadding(s: string) {
    s == "" || (s[0] == ' ' && forall i :: 1 <= i < |s| ==> s[i] == '0')
  }

  /** The language of a header: some way to cut it into a command, then for each flag one
      delimited field, signed iff the flag says so, then padding. */
  ghost predicate Matches(s: string, signs: seq<bool>) {
    exists k :: 0 <= k <= |s| && IsCommand(s[..k]) && MatchesFields(s[k..], signs)
  }

  ghost predicate MatchesFields(s: string, signs: seq<bool>)
    decreases |signs|
  {
    if signs == [] then IsPadding(s)
    else exists k :: 1 <= k <= |s| && CutAt(s, k, signs[0]) && MatchesFields(s[k..], signs[1..])
  }

  predicate CutAt(s: string, k: int, signed: bool)
    requires 1 <= k <= |s|
  {
    s[0] == ' ' && IsField(s[1..k], signed)
  }

  const REQUEST_SIGNS: seq<bool> := [true, true, false]
  const RESPONSE_SIGNS: seq<bool> := [true, true, false, false]

  // ---------------------------------------------------------------- the recogniser

  function CommandRun(s: string): (k: nat)
    ensures k <= |s|
    ensures forall i :: 0 <= i < k ==> IsUpper(s[i])
    ensures k < |s| ==> !IsUpper(s[k])
  {
    if s != "" && IsUpper(s[0]) then 1 + CommandRun(s[1..]) else 0
  }

  /** Where the first field ends, or 0. */
  function FieldEnd(s: string, signed: bool): (k: nat)
    ensures k <= |s|
  {
    if s == "" || s[0] != ' ' then 0
    else
      var from := if signed && 1 < |s| && s[1] == '-' then 2 else 1;
      var k := DigitRun(s[from..]);
      if k == 0 then 0 else from + k
  }

  predicate ScanFields(s: string, signs: seq<bool>)
    decreases |signs|
  {
    if signs == [] then IsPadding(s)
    else
      var k := FieldEnd(s, signs[0]);
      k > 0 && ScanFields(s[k..], signs[1..])
  }

  predicate Scan(s: string, signs: seq<bool>) {
    var k := CommandRun(s);
    k > 0 && ScanFields(s[k..], signs)
  }

  /** isValidRequestFormat and isValidResponseFormat: the whole C string has the width. */
  predicate IsRequestHeader(bytes: string) {
    |CString(bytes)| == REQUEST_HEADER_LEN && Scan(CString(bytes), REQUEST_SIGNS)
  }

  predicate IsResponseHeader(bytes: string) {
    |CString(bytes)| == RESPONSE_HEADER_LEN && Scan(CString(bytes), RESPONSE_SIGNS)
  }

  // ---------------------------------------------------------------- the recogniser is the language

  /** The recogniser cuts where the format allows. */
  lemma FieldEndCuts(s: string, signed: bool)
    ensures FieldEnd(s, signed) > 0 ==> CutAt(s, FieldEnd(s, signed), signed)
  {
    var k := FieldEnd(s, signed);
    if k > 0 {
      var from := if signed && 1 < |s| && s[1] == '-' then 2 else 1;
      var digits := s[from..];
      assert forall i :: from <= i < k ==> s[i] == digits[i - from];
      if from == 2 {
        assert s[1..k][1..] == s[2..k];
      }
    }
  }

  /** A field is followed by a delimiter or the end, so it is the longest run of digits. */
  lemma CutIsFieldEnd(s: string, k: int, signed: bool)
    requires 1 <= k <= |s| && CutAt(s, k, signed) && (k == |s| || s[k] == ' ')
    ensures FieldEnd(s, signed) == k
  {
    var field := s[1..k];
    var from := if IsNumber(field) then 1 else 2;
    var number := s[from..k];
    assert number == if from == 1 then field else field[1..];
    assert s[1] == field[0];
    assert s[from..] == number + s[k..];
    DigitRunOf(number, s[k..]);
    hide DigitRun;
  }

  lemma StartsWithDelimiter(s: string, signs: seq<bool>)
    requires MatchesFields(s, signs)
    ensures s == "" || s[0] == ' '
  {
  }

  lemma {:induction false} FieldsScan(s: string, signs: seq<bool>)
    ensures ScanFields(s, signs) <==> MatchesFields(s, signs)
    decreases |signs|
  {
    hide FieldEnd, CutAt;
    if signs != [] {
      var e := FieldEnd(s, signs[0]);
      FieldEndCuts(s, signs[0]);
      FieldsScan(s[e..], signs[1..]);
      if MatchesFields(s, signs) {
        var k :| 1 <= k <= |s| && CutAt(s, k, signs[0]) && MatchesFields(s[k..], signs[1..]);
        StartsWithDelimiter(s[k..], signs[1..]);
        assert k < |s| ==> s[k..][0] == s[k];
        CutIsFieldEnd(s, k, signs[0]);
      }
    }
  }

  /** The recogniser accepts exactly the format. */
  lemma ScanIsFormat(s: string, signs: seq<bool>)
    ensures Scan(s, signs) <==> Matches(s, signs)
  {
    hide ScanFields, MatchesFields;
    var e := CommandRun(s);
    FieldsScan(s[e..], signs);
    if Matches(s, signs) {
      var k :| 0 <= k <= |s| && IsCommand(s[..k]) && MatchesFields(s[k..], signs);
      StartsWithDelimiter(s[k..], signs);
      assert k < |s| ==> s[k..][0] == s[k];
      assert forall i :: 0 <= i < k ==> s[i] == s[..k][i];
      assert e == k;
    }
  }

  // ---------------------------------------------------------------- extraction

  function ReadInts(text: string, n: nat): (r: Option<seq<int>>)
    ensures r.Some? ==> |r.value| == n
    decreases n
  {
    if n == 0 then Some([])
    else
      match ReadInt(text)
      case None => None
      case Some((i, rest)) =>
        match ReadInts(rest, n - 1)
        case None => None
        case Some(more) => Some([i] + more)
  }

  /** extractHeaderFields: a word, then the numbers. */
  function Extract(bytes: string, n: nat): (h: Option<Header>)
    ensures h.Some? ==> |h.value.numbers| == n
  {
    match ReadWord(CString(bytes))
    case None => None
    case Some((command, rest)) =>
      match ReadInts(rest, n)
      case None => None
      case Some(numbers) => Some(Header(command, numbers))
  }

  // ---------------------------------------------------------------- round trips

  predicate Signed(numbers: seq<int>, signs: seq<bool>) {
    |numbers| == |signs| && forall i :: 0 <= i < |signs| ==> signs[i] || 0 <= numbers[i]
  }

  lemma IntTextShape(i: int)
    ensures IsField(IntText(i), true) && (0 <= i ==> IsField(IntText(i), false))
    ensures forall j :: 0 <= j < |IntText(i)| ==> IntText(i)[j] == '-' || IsDigit(IntText(i)[j])
  {
    if i < 0 { assert IntText(i)[1..] == Digits(-i); }
  }

  lemma {:induction false} PrintedFieldsMatch(numbers: seq<int>, signs: seq<bool>, pad: string)
    requires Signed(numbers, signs) && IsPadding(pad)
    ensures MatchesFields(Fields(numbers) + pad, signs)
    decreases |numbers|
  {
    hide IntText, IsField, IsPadding;
    var s := Fields(numbers) + pad;
    if numbers == [] {
      assert s == pad;
    } else {
      var field, rest := IntText(numbers[0]), Fields(numbers[1..]) + pad;
      PrintedFieldsMatch(numbers[1..], signs[1..], pad);
      IntTextShape(numbers[0]);
      var k := 1 + |field|;
      assert s == " " + field + rest by { Assoc(" " + field, Fields(numbers[1..]), pad); }
      assert s[1..k] == field && s[k..] == rest;
      assert CutAt(s, k, signs[0]);
    }
  }

  /** Numbers printed with delimiters read back; what follows must not extend the last one. */
  lemma {:induction false} ReadIntsBack(numbers: seq<int>, pad: string)
    requires IsPadding(pad)
    ensures ReadInts(Fields(numbers) + pad, |numbers|) == Some(numbers)
    decreases |numbers|
  {
    hide ReadInt, IntText;
    if numbers != [] {
      var rest := Fields(numbers[1..]) + pad;
      assert Fields(numbers) + pad == " " + (IntText(numbers[0]) + rest) by {
        Assoc(" ", IntText(numbers[0]), Fields(numbers[1..]));
        Assoc(" ", IntText(numbers[0]) + Fields(numbers[1..]), pad);
        Assoc(IntText(numbers[0]), Fields(numbers[1..]), pad);
      }
      assert rest == "" || rest[0] == ' ';
      ReadIntAfterSpace(numbers[0], rest);
      ReadIntsBack(numbers[1..], pad);
      assert [numbers[0]] + numbers[1..] == numbers;
    }
  }

  lemma PaddingIsPadding(used: nat, width: nat)
    requires used <= width
    ensures IsPadding(Padding(used, width)) && '\0' !in Padding(used, width)
  {
  }

  lemma {:induction false} FieldsHaveNoNul(numbers: seq<int>)
    ensures '\0' !in Fields(numbers)
    decreases |numbers|
  {
    if numbers != [] {
      FieldsHaveNoNul(numbers[1..]);
      IntTextShape(numbers[0]);
    }
  }

  lemma CommandHasNoNulOrSpace(command: string)
    requires IsCommand(command)
    ensures '\0' !in command && IsWord(command)
  {
  }

  /** Header round trip: a printed header has the width, is in the format, and reads back. */
  lemma HeaderRoundTrip(h: Header, width: nat, signs: seq<bool>)
    requires IsCommand(h.command) && Signed(h.numbers, signs) && |HeaderText(h)| <= width
    ensures var s := PrintHeader(h, width);
            |s| == width && CString(s) == s && Scan(s, signs) && Extract(s, |h.numbers|) == Some(h)
  {
    var s := PrintHeader(h, width);
    var pad := Padding(|HeaderText(h)|, width);
    var rest := Fields(h.numbers) + pad;
    PaddingIsPadding(|HeaderText(h)|, width);
    FieldsHaveNoNul(h.numbers);
    CommandHasNoNulOrSpace(h.command);
    assert s == h.command + rest by { Assoc(h.command, Fields(h.numbers), pad); }
    assert CString(s) == s;
    hide IsCommand, Fields, Padding, IsPadding, Scan, MatchesFields, ReadWord, ReadInts, CString, HeaderText, PrintHeader, Signed;
    PrintedFieldsMatch(h.numbers, signs, pad);
    assert Matches(s, signs) by {
      var k := |h.command|;
      assert s[..k] == h.command && s[k..] == rest;
    }
    ScanIsFormat(s, signs);
    StartsWithDelimiter(rest, signs);
    ReadWordText(h.command, rest);
    ReadIntsBack(h.numbers, pad);
  }

  /** An int as the source has it. */
  predicate IsInt(i: int) {
    -0x8000_0000 <= i < 0x8000_0000
  }

  lemma {:induction false} DigitsLength(n: nat, k: nat, bound: nat)
    requires n < bound && 1 <= k && bound == Power10(k)
    ensures |Digits(n)| <= k
    decreases k
  {
    if 10 <= n { DigitsLength(n / 10, k - 1, Power10(k - 1)); }
  }

  function Power10(k: nat): nat {
    if k == 0 then 1 else 10 * Power10(k - 1)
  }

  lemma IntTextLength(i: int)
    requires IsInt(i)
    ensures |IntText(i)| <= 11
  {
    assert Power10(10) == 10000000000 by { assert Power10(5) == 100000; }
    DigitsLength(if i < 0 then -i else i, 10, 10000000000);
  }

  lemma {:induction false} FieldsLength(numbers: seq<int>)
    requires forall i :: 0 <= i < |numbers| ==> IsInt(numbers[i])
    ensures |Fields(numbers)| <= 12 * |numbers|
    decreases |numbers|
  {
    if numbers != [] {
      IntTextLength(numbers[0]);
      FieldsLength(numbers[1..]);
    }
  }

  // ---------------------------------------------------------------- whole messages

  function EncodeRequest(m: Message): (s: string)
    requires |HeaderText(RequestHeader(m))| <= REQUEST_HEADER_LEN
  {
    PrintHeader(RequestHeader(m), REQUEST_HEADER_LEN) + m.data
  }

  function EncodeReply(r: Reply): (s: string)
    requires |HeaderText(ReplyHeader(r))| <= RESPONSE_HEADER_LEN
  {
    PrintHeader(ReplyHeader(r), RESPONSE_HEADER_LEN) + r.data
  }

  /** getContentLength: -1 for a header that is not in the format. */
  function ContentLength(header: string): (n: int)
  {
    if !IsRequestHeader(header) then -1
    else match Extract(header, 3)
         case None => -1
         case Some(h) => h.numbers[2]
  }

  /** getClientRequestAsTuple, for a header that was accepted. */
  function DecodeRequest(header: string, payload: string): Option<Message> {
    match Extract(header, 3)
    case None => None
    case Some(h) => Some(Message(h.command, h.numbers[0], h.numbers[1], CString(payload)))
  }

  /** The client's content length. */
  function ReplyLength(header: string): int {
    match Extract(header, 4)
    case None => -1
    case Some(h) => h.numbers[3]
  }

  function DecodeReply(header: string, payload: string): Option<Reply> {
    match Extract(header, 4)
    case None => None
    case Some(h) => if h.numbers[2] < 0 then None
                    else Some(Reply(h.command, h.numbers[0], h.numbers[1], h.numbers[2], CString(payload)))
  }

  /** A header the recogniser accepts is always taken apart, with a length that is not negative. */
  lemma AcceptedIsExtracted(header: string)
    requires IsRequestHeader(header)
    ensures Extract(header, 3).Some? && ContentLength(header) >= 0
  {
    var s := CString(header);
    ScanIsFormat(s, REQUEST_SIGNS);
    FormatIsExtracted(s, REQUEST_SIGNS);
  }

  lemma FormatIsExtracted(s: string, signs: seq<bool>)
    requires CString(s) == s && Matches(s, signs)
    ensures Extract(s, |signs|).Some?
    ensures forall i :: 0 <= i < |signs| && !signs[i] ==> Extract(s, |signs|).value.numbers[i] >= 0
  {
    hide MatchesFields, ReadInts, ReadWord, CString;
    var k :| 0 <= k <= |s| && IsCommand(s[..k]) && MatchesFields(s[k..], signs);
    StartsWithDelimiter(s[k..], signs);
    CommandHasNoNulOrSpace(s[..k]);
    ReadWordText(s[..k], s[k..]);
    assert s[..k] + s[k..] == s;
    MatchedAreRead(s[k..], signs);
  }

  lemma ReadCutField(s: string, k: int, signed: bool)
    requires 1 <= k <= |s| && CutAt(s, k, signed) && (k == |s| || s[k] == ' ')
    ensures ReadInt(s).Some? && ReadInt(s).value.1 == s[k..]
    ensures !signed ==> ReadInt(s).value.0 >= 0
  {
    hide ReadInt, IsNumber;
    var field, rest := s[1..k], s[k..];
    CutText(s, k);
    ReadPastSpace(' ', field + rest);
    assert rest == "" || rest[0] == ' ';
    if IsNumber(field) {
      ReadNumber(field, rest);
    } else {
      var number := field[1..];
      assert field == "-" + number;
      Assoc("-", number, rest);
      ReadNegated(number, rest);
    }
  }

  lemma CutText(s: string, k: int)
    requires 1 <= k <= |s| && s[0] == ' '
    ensures s == [' '] + (s[1..k] + s[k..])
  {
  }

  lemma ReadNumber(field: string, rest: string)
    requires IsNumber(field) && (rest == "" || rest[0] == ' ')
    ensures ReadInt(field + rest).Some? && ReadInt(field + rest).value.1 == rest && ReadInt(field + rest).value.0 >= 0
  {
    var text := field + rest;
    assert text[0] == field[0];
    DigitRunOf(field, rest);
    ReadUnsigned(text, |field|);
    assert text[|field|..] == rest;
    hide ReadInt;
  }

  lemma ReadNegated(number: string, rest: string)
    requires IsNumber(number) && (rest == "" || rest[0] == ' ')
    ensures ReadInt("-" + (number + rest)).Some? && ReadInt("-" + (number + rest)).value.1 == rest
  {
    hide ReadInt;
    DigitRunOf(number, rest);
    ReadAfterMinus(number + rest);
    assert (number + rest)[|number|..] == rest;
  }

  lemma ReadUnsigned(text: string, k: nat)
    requires DigitRun(text) == k > 0 && IsDigit(text[0])
    ensures ReadInt(text) == Some((Value(text[..k]) as int, text[k..]))
  {
    StartsWithoutSpace(text);
    hide DigitRun, Value, SkipSpace;
  }

  lemma {:induction false} MatchedAreRead(s: string, signs: seq<bool>)
    requires MatchesFields(s, signs)
    ensures ReadInts(s, |signs|).Some?
    ensures forall i :: 0 <= i < |signs| && !signs[i] ==> ReadInts(s, |signs|).value[i] >= 0
    decreases |signs|
  {
    hide CutAt, ReadInt;
    if signs != [] {
      var k :| 1 <= k <= |s| && CutAt(s, k, signs[0]) && MatchesFields(s[k..], signs[1..]);
      StartsWithDelimiter(s[k..], signs[1..]);
      assert k < |s| ==> s[k..][0] == s[k];
      ReadCutField(s, k, signs[0]);
      MatchedAreRead(s[k..], signs[1..]);
    }
  }

  // ---------------------------------------------------------------- what an accepted header says

  /** The number a field stands for. */
  function Number(field: string): int
    requires IsField(field, true)
  {
    if IsNumber(field) then Value(field)
    else
      var n: int := Value(field[1..]);
      -n
  }

  lemma ReadField(field: string, rest: string)
    requires IsField(field, true) && (rest == "" || rest[0] == ' ')
    ensures ReadInt(" " + (field + rest)) == Some((Number(field), rest))
  {
    ReadPastSpace(' ', field + rest);
    assert [' '] + (field + rest) == " " + (field + rest);
    hide ReadInt, Value;
    if IsNumber(field) { ReadDigitText(field, rest); } else { ReadMinus(field, rest); }
  }

  lemma ReadMinus(field: string, rest: string)
    requires IsField(field, true) && !IsNumber(field) && (rest == "" || rest[0] == ' ')
    ensures ReadInt(field + rest) == Some((Number(field), rest))
  {
    var number := field[1..];
    assert field == "-" + number;
    Assoc("-", number, rest);
    DigitRunOf(number, rest);
    hide DigitRun, ReadInt, Value, IsDigit;
    ReadAfterMinus(number + rest);
    assert (number + rest)[..|number|] == number && (number + rest)[|number|..] == rest;
  }

  /** Fields, each after one delimiter, with anything that can follow the last. */
  function Spaced(fields: seq<string>, pad: string): string {
    if fields == [] then pad else " " + (fields[0] + Spaced(fields[1..], pad))
  }

  ghost predicate AllFields(fields: seq<string>) {
    forall i :: 0 <= i < |fields| ==> IsField(fields[i], true)
  }

  function Numbers(fields: seq<string>): seq<int>
    requires AllFields(fields)
  {
    if fields == [] then [] else [Number(fields[0])] + Numbers(fields[1..])
  }

  lemma {:induction false} SpacedAreRead(fields: seq<string>, pad: string)
    requires AllFields(fields) && (pad == "" || pad[0] == ' ')
    ensures ReadInts(Spaced(fields, pad), |fields|) == Some(Numbers(fields))
    decreases |fields|
  {
    hide ReadInt, Number, IsField;
    if fields != [] {
      var rest := Spaced(fields[1..], pad);
      assert rest == "" || rest[0] == ' ';
      ReadField(fields[0], rest);
      SpacedAreRead(fields[1..], pad);
    }
  }

  /** Any accepted header, printed by whatever client: leading zeros, minus signs and short padding
      included, it is taken apart into its command and the numbers its fields stand for. */
  lemma HeaderSays(command: string, fields: seq<string>, pad: string)
    requires IsCommand(command) && AllFields(fields) && IsPadding(pad) && '\0' !in command + Spaced(fields, pad)
    ensures Extract(command + Spaced(fields, pad), |fields|) == Some(Header(command, Numbers(fields)))
  {
    var rest := Spaced(fields, pad);
    CStringIff(command + rest);
    CommandHasNoNulOrSpace(command);
    assert rest == "" || rest[0] == ' ';
    hide IsCommand, IsPadding, CString, Numbers, AllFields, ReadInts, ReadWord;
    ReadWordText(command, rest);
    SpacedAreRead(fields, pad);
  }

  ghost predicate FieldsFit(fields: seq<string>, signs: seq<bool>) {
    |fields| == |signs| && forall i :: 0 <= i < |fields| ==> IsField(fields[i], signs[i])
  }

  lemma {:induction false} SpacedMatch(fields: seq<string>, signs: seq<bool>, pad: string)
    requires FieldsFit(fields, signs) && IsPadding(pad)
    ensures MatchesFields(Spaced(fields, pad), signs) && '\0' !in Spaced(fields, pad)
    decreases |fields|
  {
    if fields != [] {
      var field, rest := fields[0], Spaced(fields[1..], pad);
      assert FieldsFit(fields[1..], signs[1..]);
      SpacedMatch(fields[1..], signs[1..], pad);
      FieldHasNoNul(field, signs[0]);
      hide IsField, IsPadding;
      var s, k := Spaced(fields, pad), 1 + |field|;
      assert s[1..k] == field && s[k..] == rest;
      assert CutAt(s, k, signs[0]);
    }
  }

  lemma FieldHasNoNul(field: string, signed: bool)
    requires IsField(field, signed)
    ensures '\0' !in field
  {
    if !IsNumber(field) { assert forall i :: 1 <= i < |field| ==> field[i] == field[1..][i - 1]; }
  }

  /** A header cut into fields is in the format. */
  lemma SpacedIsInFormat(command: string, fields: seq<string>, pad: string, signs: seq<bool>)
    requires IsCommand(command) && FieldsFit(fields, signs) && IsPadding(pad)
    ensures Matches(command + Spaced(fields, pad), signs) && '\0' !in command + Spaced(fields, pad)
  {
    var s := command + Spaced(fields, pad);
    SpacedMatch(fields, signs, pad);
    CommandHasNoNulOrSpace(command);
    assert s[..|command|] == command && s[|command|..] == Spaced(fields, pad);
    hide IsCommand, MatchesFields, Spaced, FieldsFit;
  }

  /** A message whose numbers are ints and whose command is not absurdly long fits its header. */
  predicate Fits(h: Header, width: nat) {
    && IsCommand(h.command) && |h.command| + 12 * |h.numbers| <= width
    && forall i :: 0 <= i < |h.numbers| ==> IsInt(h.numbers[i])
  }

  lemma FittingHeader(h: Header, width: nat)
    requires Fits(h, width)
    ensures |HeaderText(h)| <= width
  {
    FieldsLength(h.numbers);
  }

  predicate RequestFits(m: Message)
    ensures RequestFits(m) ==> |HeaderText(RequestHeader(m))| <= REQUEST_HEADER_LEN
  {
    var fits := Fits(RequestHeader(m), REQUEST_HEADER_LEN);
    if fits then FittingHeader(RequestHeader(m), REQUEST_HEADER_LEN); true else false
  }

  predicate ReplyFits(r: Reply)
    ensures ReplyFits(r) ==> |HeaderText(ReplyHeader(r))| <= RESPONSE_HEADER_LEN
  {
    var fits := Fits(ReplyHeader(r), RESPONSE_HEADER_LEN);
    if fits then FittingHeader(ReplyHeader(r), RESPONSE_HEADER_LEN); true else false
  }

  /** Request round trip: the server accepts the client's header, asks for exactly the payload,
      and gets the same request back iff the data has no NUL. */
  lemma RequestRoundTrip(m: Message)
    requires RequestFits(m)
    ensures var s := EncodeRequest(m); var header := s[..REQUEST_HEADER_LEN]; var payload := s[REQUEST_HEADER_LEN..];
            && |header| == REQUEST_HEADER_LEN && payload == m.data
            && IsRequestHeader(header) && ContentLength(header) == |m.data|
            && (DecodeRequest(header, payload) == Some(m) <==> '\0' !in m.data)
            && DecodeRequest(header, payload) == Some(m.(data := CString(m.data)))
  {
    var h := RequestHeader(m);
    HeaderRoundTrip(h, REQUEST_HEADER_LEN, REQUEST_SIGNS);
    CStringIff(m.data);
    var s := EncodeRequest(m);
    hide Scan, Extract, CString, PrintHeader, IsCommand;
    assert s[..REQUEST_HEADER_LEN] == PrintHeader(h, REQUEST_HEADER_LEN);
    assert s[REQUEST_HEADER_LEN..] == m.data;
  }

  /** Response round trip, on the client. */
  lemma ReplyRoundTrip(r: Reply)
    requires ReplyFits(r)
    ensures var s := EncodeReply(r); var header := s[..RESPONSE_HEADER_LEN]; var payload := s[RESPONSE_HEADER_LEN..];
            && |header| == RESPONSE_HEADER_LEN && payload == r.data
            && IsResponseHeader(header) && ReplyLength(header) == |r.data|
            && (DecodeReply(header, payload) == Some(r) <==> '\0' !in r.data)
  {
    var h := ReplyHeader(r);
    HeaderRoundTrip(h, RESPONSE_HEADER_LEN, RESPONSE_SIGNS);
    CStringIff(r.data);
    var s := EncodeReply(r);
    hide Scan, Extract, CString, PrintHeader, IsCommand;
    assert s[..RESPONSE_HEADER_LEN] == PrintHeader(h, RESPONSE_HEADER_LEN);
    assert s[RESPONSE_HEADER_LEN..] == r.data;
  }

  // ---------------------------------------------------------------- the bytes, in full

  lemma PaddingText(used: nat, width: nat)
    requires used <= width
    ensures IsPadding(Padding(used, width)) && |Padding(used, width)| == width - used
  {
  }

  lemma ThreeFieldsText(a: int, b: int, c: int)
    ensures Fields([a, b, c]) == " " + IntText(a) + " " + IntText(b) + " " + IntText(c)
  {
    hide IntText;
    assert [a, b, c][1..] == [b, c] && [b, c][1..] == [c] && [c][1..] == [];
    var (x, y, z) := (IntText(a), IntText(b), IntText(c));
    assert Fields([c]) == " " + z + "" == " " + z;
    Assoc(" " + x, " " + y, " " + z);
    assert " " + x + " " + y == " " + x + (" " + y) && " " + x + " " + y + " " + z == " " + x + " " + y + (" " + z);
  }

  /** A request on the wire: four fields with one blank between them, padded to 64 bytes with a blank
      and zeros, then the data. */
  lemma RequestLayout(m: Message) returns (pad: string)
    requires RequestFits(m)
    ensures IsPadding(pad)
    ensures var header := m.command + (" " + IntText(m.id) + " " + IntText(m.seqNum) + " " + IntText(|m.data|)) + pad;
            |header| == 64 && EncodeRequest(m) == header + m.data
  {
    var text := HeaderText(RequestHeader(m));
    pad := Padding(|text|, REQUEST_HEADER_LEN);
    PaddingText(|text|, REQUEST_HEADER_LEN);
    ThreeFieldsText(m.id, m.seqNum, |m.data|);
    hide Fields, IntText, Padding;
  }

  /** A reply on the wire: five fields, padded to 128 bytes, then the data. */
  lemma ReplyLayout(r: Reply) returns (pad: string)
    requires ReplyFits(r)
    ensures IsPadding(pad)
    ensures var header := r.command + (" " + IntText(r.id) + " " + IntText(r.seqNum) + " " + IntText(r.code) + " "
            + IntText(|r.data|)) + pad;
            |header| == 128 && EncodeReply(r) == header + r.data
  {
    var text := HeaderText(ReplyHeader(r));
    pad := Padding(|text|, RESPONSE_HEADER_LEN);
    PaddingText(|text|, RESPONSE_HEADER_LEN);
    ThreeFieldsText(r.seqNum, r.code, |r.data|);
    var numbers := [r.id, r.seqNum, r.code, |r.data|];
    assert numbers[1..] == [r.seqNum, r.code, |r.data|];
    assert Fields(numbers) == " " + IntText(r.id) + Fields(numbers[1..]);
    hide Fields, IntText, Padding;
    FourJoined(IntText(r.id), IntText(r.seqNum), IntText(r.code), IntText(|r.data|));
  }

  lemma FourJoined(a: string, b: string, c: string, d: string)
    ensures " " + a + (" " + b + " " + c + " " + d) == " " + a + " " + b + " " + c + " " + d
  {
    Assoc(" " + a, " " + b + " " + c, " " + d);
    Assoc(" " + a, " " + b, " " + c);
  }

  // ---------------------------------------------------------------- the server's answers

  function ErrorNumber(code: ErrorCode): nat {
    match code
    case InvalidMessageFormat => 199
    case InvalidCommand => 200
    case InvalidTransactionId => 201
    case InvalidOperation => 202
    case InvalidSequenceNumber => 204
    case RepeatedSequenceNumber => 205
    case ErrorOpeningFile => 206
    case ErrorReadingFile => 207
    case ErrorWritingFile => 208
    case CommitWithInvalidSequenceNumber => 210
    case TransactionAlreadyCommitted => 211
    case TransactionAborted => 212
  }

  function ErrorText(code: ErrorCode): string {
    match code
    case InvalidMessageFormat => "InvalidMessageFormat"
    case InvalidCommand => "InvalidCommand"
    case InvalidTransactionId => "InvalidTransactionId"
    case InvalidOperation => "InvalidOperation"
    case InvalidSequenceNumber => "New transactions must " + "start with sequence number 0"
    case RepeatedSequenceNumber => "RepeatedSequenceNumber"
    case ErrorOpeningFile => "ErrorOpeningFile"
    case ErrorReadingFile => "Error reading file"
    case ErrorWritingFile => "Error writing file"
    case CommitWithInvalidSequenceNumber => "Requested commit with " + "sequence number less than " + "maximum sequence number received"
    case TransactionAlreadyCommitted => "TransactionAlreadyCommitted"
    case TransactionAborted => "TransactionAborted"
  }

  /** generateResponse for everything but READ. */
  function ReplyOf(resp: Response): Reply
    requires !resp.Silent?
  {
    match resp
    case Ack(id, seqNum) => Reply("ACK", id, seqNum, 0, "")
    case AskResend(id, seqNum) => Reply("ASK_RESEND", id, seqNum, 0, "")
    case Error(id, seqNum, code) => Reply("ERROR", id, seqNum, ErrorNumber(code), ErrorText(code))
  }

  predicate IntResponse(resp: Response) {
    resp.Silent? || (IsInt(resp.id) && IsInt(resp.seqNum))
  }

  predicate IsShortText(s: string) {
    '\0' !in s && |s| < 100
  }

  lemma ErrorTextsAreText(code: ErrorCode)
    ensures IsShortText(ErrorText(code)) && IsInt(ErrorNumber(code))
  {
    hide ErrorText;
    match code
    case InvalidSequenceNumber => SequenceText();
    case CommitWithInvalidSequenceNumber => CommitText();
    case _ => PlainTexts(code);
  }

  lemma SequenceText()
    ensures IsShortText(ErrorText(InvalidSequenceNumber))
  {
    assert IsShortText("New transactions must ") && IsShortText("start with sequence number 0");
  }

  lemma CommitText()
    ensures IsShortText(ErrorText(CommitWithInvalidSequenceNumber))
  {
    assert IsShortText("Requested commit with ");
    assert IsShortText("sequence number less than ");
    assert IsShortText("maximum sequence number received");
  }

  lemma PlainTexts(code: ErrorCode)
    requires code != InvalidSequenceNumber && code != CommitWithInvalidSequenceNumber
    ensures IsShortText(ErrorText(code))
  {
    match code
    case InvalidMessageFormat => assert IsShortText("InvalidMessageFormat");
    case InvalidTransactionId => assert IsShortText("InvalidTransactionId");
    case RepeatedSequenceNumber => assert IsShortText("RepeatedSequenceNumber");
    case TransactionAlreadyCommitted => assert IsShortText("TransactionAlreadyCommitted");
    case _ =>
  }

  lemma AnswersFit(resp: Response)
    requires !resp.Silent? && IntResponse(resp)
    ensures ReplyFits(ReplyOf(resp)) && '\0' !in ReplyOf(resp).data
  {
    if resp.Error? { ErrorTextsAreText(resp.code); }
    hide ErrorText, ErrorNumber;
    assert IsCommand("ACK") && IsCommand("ASK_RESEND") && IsCommand("ERROR");
  }

  /** Every answer fits its header and reaches the client unchanged. */
  lemma AnswersReadBack(resp: Response)
    requires !resp.Silent? && IntResponse(resp)
    ensures ReplyFits(ReplyOf(resp))
    ensures DecodeReply(EncodeReply(ReplyOf(resp))[..RESPONSE_HEADER_LEN], EncodeReply(ReplyOf(resp))[RESPONSE_HEADER_LEN..])
            == Some(match resp
                    case Ack(id, n) => Reply("ACK", id, n, 0, "")
                    case AskResend(id, n) => Reply("ASK_RESEND", id, n, 0, "")
                    case Error(id, n, code) => Reply("ERROR", id, n, ErrorNumber(code), ErrorText(code)))
  {
    hide ReplyFits, DecodeReply, EncodeReply, ErrorNumber, ErrorText;
    AnswersFit(resp);
    ReplyRoundTrip(ReplyOf(resp));
  }

  /** Two different answers never look the same to the client. */
  lemma AnswersDiffer(resp: Response, other: Response)
    requires !resp.Silent? && !other.Silent? && ReplyOf(resp) == ReplyOf(other)
    ensures resp == other
  {
    hide ErrorText;
    assert |"ACK"| == 3 && |"ASK_RESEND"| == 10 && |"ERROR"| == 5;
  }
}
