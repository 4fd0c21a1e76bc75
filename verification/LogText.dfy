/** The text of a log file: how records are printed piece by piece and read back. */
module LogText {
  import opened Basics
  import opened Text

  datatype Record = Record(id: TxnId, name: FileName, size: int)

  const PIECES: nat := 6
  const SIZE_PIECE: nat := 4

  /** The separate writes that make up one record. */
  function Piece(r: Record, p: nat): string {
    match p
    case 0 => IntText(r.id)
    case 1 => " "
    case 2 => r.name
    case 3 => " "
    case 4 => IntText(r.size)
    case 5 => "\n"
    case _ => ""
  }

  /** The first p writes of a record. */
  function Torn(r: Record, p: nat): string {
    if p == 0 then "" else Torn(r, p - 1) + Piece(r, p - 1)
  }

  /** Writes p to q - 1 of a record. */
  function Pieces(r: Record, p: nat, q: nat): string
    requires p <= q
  {
    if p == q then "" else Pieces(r, p, q - 1) + Piece(r, q - 1)
  }

  function Render(r: Record): string {
    Torn(r, PIECES)
  }

  function RenderAll(rs: seq<Record>): string {
    if rs == [] then "" else RenderAll(rs[..|rs| - 1]) + Render(rs[|rs| - 1])
  }

  /** The extraction loop of the replay: stops at the first field it cannot read. */
  function Parse(text: string): (rs: seq<Record>)
    decreases |text|
  {
    match ReadRecord(text)
    case None => []
    case Some((r, rest)) => [r] + Parse(rest)
  }

  function ReadRecord(text: string): (r: Option<(Record, string)>)
    ensures r.Some? ==> |r.value.1| < |text|
  {
    match ReadInt(text)
    case None => None
    case Some((id, rest)) =>
      match ReadWord(rest)
      case None => None
      case Some((name, rest)) =>
        match ReadInt(rest)
        case None => None
        case Some((size, rest)) => Some((Record(id, name, size), rest))
  }

  predicate Readable(r: Record) {
    IsWord(r.name)
  }

  ghost predicate AllReadable(rs: seq<Record>) {
    forall i :: 0 <= i < |rs| ==> Readable(rs[i])
  }

  // ---------------------------------------------------------------- lemmas

  lemma TornText(r: Record)
    ensures Torn(r, 0) == ""
    ensures Torn(r, 1) == IntText(r.id)
    ensures Torn(r, 2) == IntText(r.id) + " "
    ensures Torn(r, 3) == IntText(r.id) + " " + r.name
    ensures Torn(r, 4) == IntText(r.id) + " " + r.name + " "
    ensures Torn(r, 5) == IntText(r.id) + " " + r.name + " " + IntText(r.size)
    ensures Torn(r, 6) == IntText(r.id) + " " + r.name + " " + IntText(r.size) + "\n" == Render(r)
  {
    assert Torn(r, 1) == Torn(r, 0) + Piece(r, 0) == IntText(r.id);
    assert Torn(r, 2) == Torn(r, 1) + Piece(r, 1);
    assert Torn(r, 3) == Torn(r, 2) + Piece(r, 2);
    assert Torn(r, 4) == Torn(r, 3) + Piece(r, 3);
    assert Torn(r, 5) == Torn(r, 4) + Piece(r, 4);
    assert Torn(r, 6) == Torn(r, 5) + Piece(r, 5);
  }

  lemma {:induction false} TornThenPieces(r: Record, p: nat, q: nat)
    requires p <= q
    ensures Torn(r, p) + Pieces(r, p, q) == Torn(r, q)
    decreases q
  {
    if p == q {
      assert Torn(r, p) + "" == Torn(r, p);
    } else {
      TornThenPieces(r, p, q - 1);
      Assoc(Torn(r, p), Pieces(r, p, q - 1), Piece(r, q - 1));
    }
  }

  /** The text of a record up to its size, nested the way it is read. */
  function Fields(r: Record, tail: string): string {
    IntText(r.id) + (" " + (r.name + (" " + (IntText(r.size) + tail))))
  }

  lemma TornIsFields(r: Record, tail: string)
    ensures Torn(r, 5) + tail == Fields(r, tail)
    ensures Render(r) + tail == Fields(r, "\n" + tail)
  {
    TornText(r);
    Regroup(IntText(r.id), r.name, IntText(r.size), tail);
    Regroup(IntText(r.id), r.name, IntText(r.size), "\n" + tail);
    Assoc(Torn(r, 5), "\n", tail);
  }

  lemma Regroup(id: string, name: string, size: string, tail: string)
    ensures id + " " + name + " " + size + tail == id + (" " + (name + (" " + (size + tail))))
  {
    Assoc(id + " " + name + " ", size, tail);
    Assoc(id + " " + name, " ", size + tail);
    Assoc(id + " ", name, " " + (size + tail));
    Assoc(id, " ", name + (" " + (size + tail)));
  }

  lemma ReadFields(r: Record, tail: string)
    requires Readable(r) && (tail == "" || IsSpace(tail[0]))
    ensures ReadRecord(Fields(r, tail)) == Some((r, tail))
  {
    var size := " " + (IntText(r.size) + tail);
    var name := " " + (r.name + size);
    assert ReadInt(IntText(r.id) + name) == Some((r.id, name)) by { ReadIntText(r.id, name); }
    assert ReadWord(name) == Some((r.name, size)) by { ReadWordAfterSpace(r.name, size); }
    assert ReadInt(size) == Some((r.size, tail)) by { ReadIntAfterSpace(r.size, tail); }
  }

  lemma ReadRecordPastSpace(c: char, text: string)
    requires IsSpace(c)
    ensures ReadRecord([c] + text) == ReadRecord(text)
    ensures Parse([c] + text) == Parse(text)
  {
    ReadPastSpace(c, text);
  }

  /** A whole record in front reads back as itself. */
  lemma ParseRecord(r: Record, rest: string)
    requires Readable(r)
    ensures Parse(Render(r) + rest) == [r] + Parse(rest)
  {
    TornIsFields(r, rest);
    ReadFields(r, "\n" + rest);
    assert "\n" + rest == ['\n'] + rest;
    ReadRecordPastSpace('\n', rest);
  }

  /** A torn record reads back iff its size was written. */
  lemma ParseTorn(r: Record, p: nat)
    requires Readable(r) && p <= PIECES
    ensures Parse(Torn(r, p)) == if p > SIZE_PIECE then [r] else []
  {
    TornText(r);
    assert Parse("") == [] by { NothingToRead(""); }
    if p > SIZE_PIECE {
      var tail := if p == 5 then "" else "\n";
      TornIsFields(r, tail);
      assert Torn(r, p) == Torn(r, 5) + tail;
      ReadFields(r, tail);
      NothingToRead(tail);
    } else if p > 0 {
      ReadTornPrefix(r, p);
    }
  }

  lemma ReadTornPrefix(r: Record, p: nat)
    requires Readable(r) && 0 < p <= SIZE_PIECE
    ensures ReadRecord(Torn(r, p)) == None
  {
    TornText(r);
    var end := if p == 4 then " " else "";
    var after := if p == 1 then "" else if p == 2 then " " else " " + (r.name + end);
    assert Torn(r, p) == IntText(r.id) + after by {
      Assoc(IntText(r.id), " ", r.name);
      Assoc(IntText(r.id) + " ", r.name, " ");
      Assoc(IntText(r.id), " ", r.name + " ");
    }
    assert ReadInt(IntText(r.id) + after) == Some((r.id, after)) by { ReadIntText(r.id, after); }
    if p <= 2 {
      NothingToRead(after);
    } else {
      assert ReadWord(after) == Some((r.name, end)) by { ReadWordAfterSpace(r.name, end); }
      NothingToRead(end);
    }
  }

  /** Printing any list of readable records and then part of one more, cut at any boundary
      between its writes, reads back the list plus the last record iff its size is there. */
  lemma {:induction false} ParsePrinted(rs: seq<Record>, r: Record, p: nat)
    requires AllReadable(rs) && Readable(r) && p <= PIECES
    ensures Parse(RenderAll(rs) + Torn(r, p)) == rs + if p > SIZE_PIECE then [r] else []
  {
    ParsePrefix(rs, Torn(r, p));
    ParseTorn(r, p);
  }

  lemma {:induction false} ParsePrefix(rs: seq<Record>, rest: string)
    requires AllReadable(rs)
    ensures Parse(RenderAll(rs) + rest) == rs + Parse(rest)
  {
    if rs == [] {
      assert RenderAll(rs) + rest == rest;
    } else {
      var front, last := rs[..|rs| - 1], rs[|rs| - 1];
      var text := Render(last);
      assert AllReadable(front) && RenderAll(rs) == RenderAll(front) + text;
      hide Parse, Render, RenderAll;
      Assoc(RenderAll(front), text, rest);
      ParsePrefix(front, text + rest);
      ParseRecord(last, rest);
      Regroup4(rs, front, last, Parse(rest));
    }
  }

  lemma Regroup4(rs: seq<Record>, front: seq<Record>, last: Record, tail: seq<Record>)
    requires rs == front + [last]
    ensures front + ([last] + tail) == rs + tail
  {
  }

  /** The first record of a log reads back iff its file name is a non-empty word. */
  lemma ReadableIff(r: Record, rest: string)
    ensures (exists tail :: ReadRecord(Render(r) + rest) == Some((r, tail))) <==> Readable(r)
  {
    if Readable(r) {
      TornIsFields(r, rest);
      ReadFields(r, "\n" + rest);
    }
  }
}
