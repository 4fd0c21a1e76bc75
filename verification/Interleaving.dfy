/** Two COMMITs on different files write their records to one log under no common lock. When the
    mixed text still reads back, exactly. */
module Interleaving {
  import opened Basics
  import opened Text
  import opened LogText

  /** The first record read has the id that is in front. */
  lemma FrontIdIsRead(id: TxnId, rest: string)
    requires rest == "" || !IsDigit(rest[0])
    ensures Parse(IntText(id) + rest) == [] || Parse(IntText(id) + rest)[0].id == id
  {
    ReadIntText(id, rest);
    hide ReadInt;
  }

  lemma ReadIntTakesNoSpace(text: string)
    requires ReadInt(text).Some?
    ensures var s, rest := SkipSpace(text), ReadInt(text).value.1; var j := |s| - |rest|;
            && 1 <= j <= |s| && s[j..] == rest && (forall i :: 0 <= i < j ==> !IsSpace(s[i]))
            && (rest == "" || !IsDigit(rest[0]))
  {
    SkipSpaceShortens(text);
    hide Value, SkipSpace, DigitRun, IsDigit;
    var s := SkipSpace(text);
    var signed := s != "" && (s[0] == '-' || s[0] == '+');
    var body := if signed then s[1..] else s;
    var k := DigitRun(body);
    var j := if signed then k + 1 else k;
    assert ReadInt(text).value.1 == body[k..] == s[j..];
    hide ReadInt;
    assert forall i :: 0 <= i < k ==> s[if signed then i + 1 else i] == body[i];
    forall i | 0 <= i < j ensures !IsSpace(s[i]) {
      if !(signed && i == 0) { DigitIsNoSpace(body[if signed then i - 1 else i]); }
    }
  }

  lemma DigitIsNoSpace(c: char)
    requires IsDigit(c)
    ensures !IsSpace(c)
  {
  }

  /** A record without its id, and something after it. */
  function Headless(r: Record, tail: string): string {
    " " + (r.name + (" " + (IntText(r.size) + tail)))
  }

  /** Reading an id where the name stands takes part of the name, at most all of it. */
  lemma IdFromName(r: Record, tail: string) returns (j: nat)
    requires Readable(r) && ReadInt(Headless(r, tail)).Some?
    ensures 1 <= j <= |r.name|
    ensures ReadInt(Headless(r, tail)).value.1 == r.name[j..] + (" " + (IntText(r.size) + tail))
    ensures j < |r.name| ==> !IsDigit(r.name[j])
  {
    hide IntText, ReadInt;
    var after := " " + (IntText(r.size) + tail);
    var text := " " + (r.name + after);
    var s := r.name + after;
    assert text[1..] == s && s[0] == r.name[0];
    assert SkipSpace(text) == SkipSpace(s) == s;
    hide SkipSpace;
    ReadIntTakesNoSpace(text);
    var rest := ReadInt(text).value.1;
    j := |s| - |rest|;
    assert IsSpace(s[|r.name|]);
    assert j < |r.name| ==> rest[0] == r.name[j];
  }

  lemma WordFromName(r: Record, j: nat, tail: string)
    requires Readable(r) && 1 <= j <= |r.name| && tail != "" && IsSpace(tail[0])
    ensures var rest := r.name[j..] + (" " + (IntText(r.size) + tail));
            && (j < |r.name| ==> ReadWord(rest).Some? && |ReadWord(rest).value.0| < |r.name|)
            && (j == |r.name| ==> ReadWord(rest) == Some((IntText(r.size), tail)))
  {
    var after := " " + (IntText(r.size) + tail);
    if j < |r.name| {
      ReadWordText(r.name[j..], after);
    } else {
      assert r.name[j..] + after == after;
      NumberIsWord(r.size);
      ReadWordAfterSpace(IntText(r.size), tail);
    }
  }

  /** What is left of a record without its id is not read as a record of that name. */
  lemma HeadlessIsNotTheRecord(r: Record, tail: string)
    requires Readable(r) && tail != "" && forall i :: 0 <= i < |tail| ==> IsSpace(tail[i])
    ensures Parse(Headless(r, tail)) == [] || Parse(Headless(r, tail))[0].name != r.name
  {
    hide IntText, ReadInt, ReadWord, Headless;
    NothingToRead(tail);
    if ReadInt(Headless(r, tail)).Some? {
      var j := IdFromName(r, tail);
      WordFromName(r, j, tail);
    }
  }

  lemma NumberIsWord(i: int)
    ensures IsWord(IntText(i))
  {
    if i < 0 { assert forall k :: 1 <= k < |IntText(i)| ==> IntText(i)[k] == Digits(-i)[k - 1]; }
  }

  /** Two records in one log with no lock between their writers: a record written whole when p
      writes of another one are in the log. It reads back, after whatever part of the other is
      complete, iff the other had not begun, was finished, or had only written an id of 0. */
  lemma WholeRecordAfterTorn(rs: seq<Record>, r: Record, p: nat, r2: Record)
    requires AllReadable(rs) && Readable(r) && Readable(r2) && p <= PIECES
    requires 0 <= r.id && 0 <= r2.id && r.id != r2.id && 0 <= r.size
    ensures Parse(RenderAll(rs) + (Torn(r, p) + Render(r2))) == rs + (if p > SIZE_PIECE then [r] else []) + [r2]
            <==> p == 0 || p == PIECES || (p == 1 && r.id == 0)
  {
    var text := Torn(r, p) + Render(r2);
    var mine := if p > SIZE_PIECE then [r] else [];
    ParsePrefix(rs, text);
    Cancel(rs, Parse(text), mine, [r2]);
    TornText(r);
    assert Parse(Render(r2)) == [r2] by { ParseTorn(r2, PIECES); TornText(r2); }
    hide Parse, Torn, Render, RenderAll, AllReadable;
    if p == 0 {
      assert text == Render(r2);
    } else if p == PIECES {
      ParseRecord(r, Render(r2));
      assert [r] + [r2] == mine + [r2];
    } else if p == 1 {
      IdsRunTogether(r, r2);
    } else if p <= SIZE_PIECE {
      FrontIdWins(r, p, r2);
    } else {
      SizeAndIdRunTogether(r, r2);
    }
  }

  lemma Cancel(rs: seq<Record>, a: seq<Record>, mine: seq<Record>, b: seq<Record>)
    ensures rs + a == rs + mine + b <==> a == mine + b
  {
    assert rs + mine + b == rs + (mine + b);
    assert (rs + a)[|rs|..] == a && (rs + (mine + b))[|rs|..] == mine + b;
  }

  lemma TextOf(r: Record)
    ensures Render(r) == IntText(r.id) + (" " + (r.name + (" " + (IntText(r.size) + "\n"))))
  {
    TornIsFields(r, "");
    assert Render(r) + "" == Render(r) && "\n" + "" == "\n";
  }

  lemma IdsRunTogether(r: Record, r2: Record)
    requires Readable(r2) && 0 <= r.id && 0 <= r2.id
    ensures Parse(Torn(r, 1) + Render(r2)) == [r2] <==> r.id == 0
  {
    hide Parse, Torn, Render, Value, Digits;
    var digits := Digits(r.id) + Digits(r2.id);
    TornText(r);
    TextOf(r2);
    Assoc(Digits(r.id), Digits(r2.id), " " + (r2.name + (" " + (IntText(r2.size) + "\n"))));
    MergedIdIsRead(digits, r2);
    ValueAfterDigits(Digits(r.id), Digits(r2.id));
    ValueOfDigits(r.id);
    ValueOfDigits(r2.id);
  }

  lemma MergedIdIsRead(digits: string, r: Record)
    requires Readable(r) && digits != "" && forall i :: 0 <= i < |digits| ==> IsDigit(digits[i])
    ensures Parse(digits + (" " + (r.name + (" " + (IntText(r.size) + "\n"))))) == [Record(Value(digits), r.name, r.size)]
  {
    assert Parse("\n") == [] by { NothingToRead("\n"); }
    hide Parse, IntText, Value, IsDigit;
    MergedIdThen(digits, r, "\n");
  }

  lemma ReadRestOfFields(r: Record, tail: string)
    requires Readable(r) && (tail == "" || IsSpace(tail[0]))
    ensures var size := " " + (IntText(r.size) + tail);
            ReadWord(" " + (r.name + size)) == Some((r.name, size)) && ReadInt(size) == Some((r.size, tail))
  {
    ReadWordAfterSpace(r.name, " " + (IntText(r.size) + tail));
    ReadIntAfterSpace(r.size, tail);
  }

  lemma FrontIdWins(r: Record, p: nat, r2: Record)
    requires 2 <= p <= SIZE_PIECE && r.id != r2.id
    ensures Parse(Torn(r, p) + Render(r2)) != [r2]
  {
    TornText(r);
    hide Parse, Render, Torn, IntText;
    var id := IntText(r.id);
    var middle := if p == 2 then " " else if p == 3 then " " + r.name else " " + r.name + " ";
    assert Torn(r, p) == id + middle by {
      Assoc(id, " ", r.name);
      Assoc(id, " " + r.name, " ");
    }
    Assoc(id, middle, Render(r2));
    assert (middle + Render(r2))[0] == ' ';
    FrontIdIsRead(r.id, middle + Render(r2));
  }

  lemma SizeAndIdRunTogether(r: Record, r2: Record)
    requires Readable(r) && Readable(r2) && 0 <= r.size && 0 <= r2.id
    ensures Parse(Torn(r, 5) + Render(r2)) != [r] + [r2]
  {
    var digits := Digits(r.size) + Digits(r2.id);
    var after := " " + (r2.name + (" " + (IntText(r2.size) + "\n")));
    var merged := Record(r.id, r.name, Value(digits));
    TornIsFields(r, Render(r2));
    TextOf(r2);
    Assoc(Digits(r.size), Digits(r2.id), after);
    ReadDigitText(digits, after);
    ReadPastSpace(' ', digits + after);
    HeadlessIsNotTheRecord(r2, "\n");
    assert after == Headless(r2, "\n");
    hide ReadInt, ReadWord, Digits, Torn, Render, Value, IntText, Headless, Parse;
    MergedIsRead(r, digits, after);
    assert ([merged] + Parse(after))[1..] == Parse(after);
    assert ([r] + [r2])[1..] == [r2];
  }

  lemma MergedIsRead(r: Record, digits: string, after: string)
    requires Readable(r) && digits != "" && (forall i :: 0 <= i < |digits| ==> IsDigit(digits[i])) && after != "" && after[0] == ' '
    ensures Parse(IntText(r.id) + (" " + (r.name + (" " + (digits + after))))) == [Record(r.id, r.name, Value(digits))] + Parse(after)
  {
    var size := " " + (digits + after);
    var name := " " + (r.name + size);
    hide ReadInt, ReadWord, IntText, Value;
    ReadIntText(r.id, name);
    ReadWordAfterSpace(r.name, size);
    assert ReadInt(size) == Some((Value(digits) as int, after)) by {
      ReadDigitText(digits, after);
      ReadPastSpace(' ', digits + after);
      assert [' '] + (digits + after) == size;
    }
    assert ReadRecord(IntText(r.id) + name) == Some((Record(r.id, r.name, Value(digits)), after));
    hide ReadRecord, IsDigit, IsWord;
  }

  // ---------------------------------------------------------------- both records finished

  /** Both records read back, in one order or the other, after what was there before. */
  ghost predicate ReadsBoth(all: seq<Record>, rs: seq<Record>, r: Record, r2: Record) {
    all == rs + [r, r2] || all == rs + [r2, r]
  }

  /** A record that happens to look like the end of the other one. */
  predicate Lookalike(r: Record, r2: Record) {
    r2.id == r2.size == r.size && r2.name == IntText(r2.id)
  }

  /** The finished log: r2 is written whole after p writes of r, whose other writes follow. Both
      read back iff they did not interleave at all, or r2 is a lookalike and p is 4. */
  lemma InterleavedRecords(rs: seq<Record>, r: Record, p: nat, r2: Record)
    requires AllReadable(rs) && Readable(r) && Readable(r2) && p <= PIECES
    requires 0 <= r.id && 0 <= r2.id && r.id != r2.id && r.name != r2.name && 0 <= r.size && 0 <= r2.size
    ensures ReadsBoth(Parse(RenderAll(rs) + (Torn(r, p) + (Render(r2) + Pieces(r, p, PIECES)))), rs, r, r2)
            <==> p == 0 || p == PIECES || (p == SIZE_PIECE && Lookalike(r, r2))
  {
    var rest := Pieces(r, p, PIECES);
    var text := Torn(r, p) + (Render(r2) + rest);
    ParsePrefix(rs, text);
    CancelBoth(rs, Parse(text), r, r2);
    TornThenPieces(r, p, PIECES);
    hide Parse, Torn, Render, RenderAll, AllReadable, Pieces, Lookalike;
    if p == 0 || p == PIECES {
      WholeRecordsRead(r, p, r2);
    } else if p == 1 {
      BothIdsFirst(r, r2);
    } else if p == 2 {
      IdInsideRecord(r, r2);
    } else if p == 3 {
      NameAndIdRunTogether(r, r2);
    } else if p == SIZE_PIECE {
      SizeComesLast(r, r2);
    } else {
      SizeAndIdMerge(r, r2);
    }
  }

  lemma CancelBoth(rs: seq<Record>, a: seq<Record>, r: Record, r2: Record)
    ensures ReadsBoth(rs + a, rs, r, r2) <==> a == [r, r2] || a == [r2, r]
  {
    assert (rs + a)[|rs|..] == a && (rs + [r, r2])[|rs|..] == [r, r2] && (rs + [r2, r])[|rs|..] == [r2, r];
  }

  lemma LastPieces(r: Record)
    ensures Pieces(r, 1, 6) == " " + (r.name + (" " + (IntText(r.size) + "\n")))
    ensures Pieces(r, 2, 6) == r.name + (" " + (IntText(r.size) + "\n"))
    ensures Pieces(r, 3, 6) == " " + (IntText(r.size) + "\n")
    ensures Pieces(r, 4, 6) == IntText(r.size) + "\n"
    ensures Pieces(r, 5, 6) == "\n"
    ensures Pieces(r, 6, 6) == ""
  {
    hide IntText;
    PiecesFront(r, 5);
    PiecesFront(r, 4);
    PiecesFront(r, 3);
    PiecesFront(r, 2);
    PiecesFront(r, 1);
    assert Pieces(r, 6, 6) == "" && "\n" + "" == "\n";
  }

  lemma PiecesFront(r: Record, p: nat)
    requires p < PIECES
    ensures Pieces(r, p, PIECES) == Piece(r, p) + Pieces(r, p + 1, PIECES)
  {
    PiecesFrontTo(r, p, PIECES);
  }

  lemma {:induction false} PiecesFrontTo(r: Record, p: nat, q: nat)
    requires p < q
    ensures Pieces(r, p, q) == Piece(r, p) + Pieces(r, p + 1, q)
    decreases q
  {
    if p + 1 == q {
      assert Pieces(r, p, p) == "" && "" + Piece(r, p) == Piece(r, p) == Piece(r, p) + "";
    } else {
      PiecesFrontTo(r, p, q - 1);
      Assoc(Piece(r, p), Pieces(r, p + 1, q - 1), Piece(r, q - 1));
    }
  }

  lemma WholeRecordsRead(r: Record, p: nat, r2: Record)
    requires Readable(r) && Readable(r2) && (p == 0 || p == PIECES)
    ensures Parse(Torn(r, p) + (Render(r2) + Pieces(r, p, PIECES))) == if p == 0 then [r2, r] else [r, r2]
  {
    hide Parse, Torn, Render, Pieces;
    assert Torn(r, 0) == "" && Torn(r, PIECES) == Render(r) by { TornText(r); }
    TornThenPieces(r, p, PIECES);
    if p == 0 {
      assert "" + Pieces(r, 0, PIECES) == Pieces(r, 0, PIECES);
      assert "" + (Render(r2) + Render(r)) == Render(r2) + Render(r);
      TwoRecordsRead(r2, r);
    } else {
      LastPieces(r);
      assert Render(r2) + "" == Render(r2);
      TwoRecordsRead(r, r2);
    }
  }

  lemma TwoRecordsRead(a: Record, b: Record)
    requires Readable(a) && Readable(b)
    ensures Parse(Render(a) + Render(b)) == [a, b]
  {
    assert Parse("") == [] by { NothingToRead(""); }
    hide Parse, Render;
    ParseRecord(a, Render(b));
    ParseRecord(b, "");
    assert Render(b) + "" == Render(b);
  }

  /** p = 1: the two ids become one number in front of the whole record. */
  lemma BothIdsFirst(r: Record, r2: Record)
    requires Readable(r) && Readable(r2) && 0 <= r.id && 0 <= r2.id && r.name != r2.name
    ensures var all := Parse(Torn(r, 1) + (Render(r2) + Pieces(r, 1, 6))); all != [r, r2] && all != [r2, r]
    ensures Parse(Torn(r, 1) + (Render(r2) + Pieces(r, 1, 6)))
            == [Record(Value(Digits(r.id) + Digits(r2.id)), r2.name, r2.size)] + Parse(Headless(r, "\n"))
  {
    var digits := Digits(r.id) + Digits(r2.id);
    var merged := Record(Value(digits), r2.name, r2.size);
    var tail := Pieces(r, 1, 6);
    TornText(r);
    TextWith(r2, tail);
    LastPieces(r);
    assert tail == Headless(r, "\n");
    HeadlessIsNotTheRecord(r, "\n");
    ReadRecordPastSpace('\n', tail);
    hide Parse, Torn, Render, Value, Digits, Pieces;
    assert ['\n'] + tail == "\n" + tail;
    Assoc(Digits(r.id), Digits(r2.id), " " + (r2.name + (" " + (IntText(r2.size) + ("\n" + tail)))));
    MergedIdThen(digits, r2, "\n" + tail);
    assert ([merged] + Parse(tail))[1..] == Parse(tail) && [r2, r][1..] == [r] && [r, r2][0] == r;
  }

  lemma TextWith(r: Record, tail: string)
    ensures Render(r) + tail == IntText(r.id) + (" " + (r.name + (" " + (IntText(r.size) + ("\n" + tail)))))
  {
    TornIsFields(r, tail);
  }

  lemma MergedIdThen(digits: string, r: Record, tail: string)
    requires Readable(r) && digits != "" && (forall i :: 0 <= i < |digits| ==> IsDigit(digits[i])) && tail != "" && IsSpace(tail[0])
    ensures Parse(digits + (" " + (r.name + (" " + (IntText(r.size) + tail))))) == [Record(Value(digits), r.name, r.size)] + Parse(tail)
  {
    hide ReadInt, ReadWord, IntText, Value;
    ReadDigitText(digits, " " + (r.name + (" " + (IntText(r.size) + tail))));
    ReadRestOfFields(r, tail);
  }

  /** p = 2: the other record's id is read as the file name. */
  lemma IdInsideRecord(r: Record, r2: Record)
    requires Readable(r) && Readable(r2) && r.id != r2.id && r.name != r2.name && 0 <= r2.size
    ensures var all := Parse(Torn(r, 2) + (Render(r2) + Pieces(r, 2, 6))); all != [r, r2] && all != [r2, r]
  {
    var tail := "\n" + Pieces(r, 2, 6);
    var text := IntText(r.id) + (" " + (IntText(r2.id) + Headless(r2, tail)));
    TornText(r);
    LastPieces(r);
    TextWith(r2, Pieces(r, 2, 6));
    assert Torn(r, 2) + (Render(r2) + Pieces(r, 2, 6)) == text by {
      hide Pieces, Render, Torn, IntText;
      Assoc(IntText(r.id), " ", IntText(r2.id) + Headless(r2, tail));
    }
    ReadIntText(r.id, " " + (IntText(r2.id) + Headless(r2, tail)));
    NumberIsWord(r2.id);
    ReadWordAfterSpace(IntText(r2.id), Headless(r2, tail));
    hide ReadInt, ReadWord, IntText, Headless, Render, Torn, Pieces;
    if ReadInt(Headless(r2, tail)).Some? {
      var j := IdFromName(r2, tail);
      NextAfterName(r2, j, r);
      var rest := ReadInt(Headless(r2, tail)).value.1;
      assert Parse(text) == [Record(r.id, IntText(r2.id), ReadInt(Headless(r2, tail)).value.0)] + Parse(rest);
      assert Parse(text)[1..] == Parse(rest) && [r, r2][1..] == [r2];
      assert [r2, r][0].id != r.id;
    }
  }

  /** After part of the file name was read as a size, no record with that name follows. */
  lemma NextAfterName(r2: Record, j: nat, r: Record)
    requires Readable(r) && Readable(r2) && 1 <= j <= |r2.name| && (j < |r2.name| ==> !IsDigit(r2.name[j])) && r.name != r2.name
             && 0 <= r2.size
    ensures var rest := r2.name[j..] + (" " + (IntText(r2.size) + ("\n" + Pieces(r, 2, 6))));
            Parse(rest) != [r2]
  {
    if j == |r2.name| {
      AfterWholeName(r2, r);
    } else {
      AfterPartOfName(r2, j, "\n" + Pieces(r, 2, 6));
    }
  }

  lemma OtherNameRead(text: string, r: Record)
    requires ReadRecord(text).Some? ==> ReadRecord(text).value.0.name != r.name
    ensures Parse(text) != [r]
  {
    hide ReadRecord;
    assert ReadRecord(text).Some? ==> Parse(text)[0] == ReadRecord(text).value.0;
  }

  lemma AfterWholeName(r2: Record, r: Record)
    requires Readable(r) && r.name != r2.name
    ensures Parse(r2.name[|r2.name|..] + (" " + (IntText(r2.size) + ("\n" + Pieces(r, 2, 6))))) != [r2]
  {
    hide ReadInt, ReadWord, IntText;
    var tail := "\n" + Pieces(r, 2, 6);
    assert r2.name[|r2.name|..] + (" " + (IntText(r2.size) + tail)) == " " + (IntText(r2.size) + tail);
    ReadIntAfterSpace(r2.size, tail);
    LastPieces(r);
    hide Pieces;
    ReadWordText(r.name, " " + (IntText(r.size) + "\n"));
    ReadPastSpace('\n', Pieces(r, 2, 6));
    assert ['\n'] + Pieces(r, 2, 6) == tail;
    OtherNameRead(" " + (IntText(r2.size) + tail), r2);
  }

  lemma AfterPartOfName(r2: Record, j: nat, tail: string)
    requires Readable(r2) && 1 <= j < |r2.name| && !IsDigit(r2.name[j]) && 0 <= r2.size && tail != "" && IsSpace(tail[0])
    ensures Parse(r2.name[j..] + (" " + (IntText(r2.size) + tail))) != [r2]
  {
    hide ReadInt, ReadWord;
    var rest := r2.name[j..] + (" " + (IntText(r2.size) + tail));
    assert r2.name != IntText(r2.size) by { assert forall k :: 0 <= k < |IntText(r2.size)| ==> IsDigit(IntText(r2.size)[k]); }
    hide IntText, IsDigit;
    if ReadInt(rest).Some? {
      var i := IdInName(r2, j, tail);
      WordFromName(r2, i, tail);
    }
    OtherNameRead(rest, r2);
  }

  /** Reading an id from inside the name. */
  lemma IdInName(r: Record, j: nat, tail: string) returns (i: nat)
    requires Readable(r) && j < |r.name| && ReadInt(r.name[j..] + (" " + (IntText(r.size) + tail))).Some?
    ensures j < i <= |r.name|
    ensures ReadInt(r.name[j..] + (" " + (IntText(r.size) + tail))).value.1 == r.name[i..] + (" " + (IntText(r.size) + tail))
  {
    hide IntText, ReadInt;
    var after := " " + (IntText(r.size) + tail);
    var s := r.name[j..] + after;
    assert s[0] == r.name[j];
    StartsWithoutSpace(s);
    hide SkipSpace;
    ReadIntTakesNoSpace(s);
    var k := |s| - |ReadInt(s).value.1|;
    assert IsSpace(s[|r.name| - j]);
    i := j + k;
    assert s[k..] == r.name[i..] + after;
  }

  /** p = 3: the other record's id becomes part of the file name. */
  lemma NameAndIdRunTogether(r: Record, r2: Record)
    requires Readable(r) && Readable(r2) && r.id != r2.id
    ensures var all := Parse(Torn(r, 3) + (Render(r2) + Pieces(r, 3, 6))); all != [r, r2] && all != [r2, r]
  {
    var tail := "\n" + Pieces(r, 3, 6);
    var word := r.name + IntText(r2.id);
    var text := IntText(r.id) + (" " + (word + Headless(r2, tail)));
    TornText(r);
    TextWith(r2, Pieces(r, 3, 6));
    assert Torn(r, 3) + (Render(r2) + Pieces(r, 3, 6)) == text by {
      hide Pieces, Render, Torn, IntText;
      Assoc(r.name, IntText(r2.id), Headless(r2, tail));
      Assoc(IntText(r.id) + " ", r.name, IntText(r2.id) + Headless(r2, tail));
      Assoc(IntText(r.id), " ", word + Headless(r2, tail));
    }
    ReadIntText(r.id, " " + (word + Headless(r2, tail)));
    NumberIsWord(r2.id);
    ReadWordAfterSpace(word, Headless(r2, tail));
    hide ReadInt, ReadWord, IntText, Headless, Render, Torn, Pieces;
    assert |word| > |r.name|;
    assert [r2, r][0].id != r.id && [r, r2][0].name != word;
  }

  /** p = 4: the other record's id is read as the size. */
  lemma SizeComesLast(r: Record, r2: Record)
    requires Readable(r) && Readable(r2) && r.id != r2.id && 0 <= r2.size && 0 <= r2.id
    ensures var all := Parse(Torn(r, 4) + (Render(r2) + Pieces(r, 4, 6)));
            all != [r2, r] && (all == [r, r2] <==> Lookalike(r, r2))
  {
    var tail := "\n" + Pieces(r, 4, 6);
    var size := IntText(r2.id) + Headless(r2, tail);
    var text := IntText(r.id) + (" " + (r.name + (" " + size)));
    var first := Record(r.id, r.name, r2.id);
    TornText(r);
    LastPieces(r);
    TextWith(r2, Pieces(r, 4, 6));
    assert Torn(r, 4) + (Render(r2) + Pieces(r, 4, 6)) == text by {
      hide Pieces, Render, Torn, IntText;
      Assoc(IntText(r.id) + " " + r.name, " ", size);
      Assoc(IntText(r.id) + " ", r.name, " " + size);
      Assoc(IntText(r.id), " ", r.name + (" " + size));
    }
    ReadIntText(r.id, " " + (r.name + (" " + size)));
    ReadWordAfterSpace(r.name, " " + size);
    ReadIntAfterSpace(r2.id, Headless(r2, tail));
    hide ReadInt, ReadWord, IntText, Headless, Render, Torn, Pieces, Lookalike;
    assert Parse(text) == [first] + Parse(Headless(r2, tail));
    ShiftedRecord(r2, r.size);
    assert Parse(text)[1..] == Parse(Headless(r2, tail)) && [r, r2][1..] == [r2];
    LookalikeParts(r, r2);
    assert [r2, r][0].id != r.id;
  }

  lemma LookalikeParts(r: Record, r2: Record)
    ensures Lookalike(r, r2) <==> r.size == r2.id && r2.id == r2.size && r2.size == r.size && r2.name == IntText(r2.size)
  {
    hide IntText;
  }

  /** Fields shifted by one: name as id, size as name, the other's size as size. */
  lemma ShiftedRecord(r: Record, m: int)
    requires Readable(r) && 0 <= r.size
    ensures Parse(Headless(r, "\n" + (IntText(m) + "\n"))) == [r] <==> r.name == IntText(r.size) && r.id == r.size && r.size == m
  {
    var tail := "\n" + (IntText(m) + "\n");
    hide ReadInt, ReadWord, IntText;
    if r.name == IntText(r.size) {
      NumberAsName(r, m);
    } else {
      if ReadInt(Headless(r, tail)).Some? {
        var j := IdFromName(r, tail);
        WordFromName(r, j, tail);
        hide Headless;
      }
      OtherNameRead(Headless(r, tail), r);
    }
  }

  lemma NumberAsName(r: Record, m: int)
    requires Readable(r) && r.name == IntText(r.size)
    ensures Parse(Headless(r, "\n" + (IntText(m) + "\n"))) == [Record(r.size, r.name, m)]
  {
    hide ReadInt, ReadWord, IntText;
    var tail := "\n" + (IntText(m) + "\n");
    assert Parse("\n") == [] by { NothingToRead("\n"); }
    assert ReadInt(tail) == Some((m, "\n")) by {
      ReadIntText(m, "\n");
      ReadPastSpace('\n', IntText(m) + "\n");
      assert ['\n'] + (IntText(m) + "\n") == tail;
    }
    ReadIntAfterSpace(r.size, " " + (IntText(r.size) + tail));
    NumberIsWord(r.size);
    ReadWordAfterSpace(IntText(r.size), tail);
  }

  /** p = 5: size and id become one number. */
  lemma SizeAndIdMerge(r: Record, r2: Record)
    requires Readable(r) && Readable(r2) && 0 <= r.size && 0 <= r2.id && r.id != r2.id
    ensures var all := Parse(Torn(r, 5) + (Render(r2) + Pieces(r, 5, 6))); all != [r, r2] && all != [r2, r]
  {
    var digits := Digits(r.size) + Digits(r2.id);
    var after := Headless(r2, "\n" + "\n");
    var merged := Record(r.id, r.name, Value(digits));
    LastPieces(r);
    TextWith(r2, "\n");
    TornIsFields(r, Render(r2) + "\n");
    HeadlessIsNotTheRecord(r2, "\n" + "\n");
    Assoc(Digits(r.size), Digits(r2.id), after);
    hide Digits, Torn, Render, Value, Parse, Pieces;
    MergedIsRead(r, digits, after);
    assert ([merged] + Parse(after))[1..] == Parse(after) && [r, r2][1..] == [r2];
    assert [r2, r][0].id != r.id;
  }
}
