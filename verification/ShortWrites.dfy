/** A log piece that write(2) takes only in part before the process dies: what recovery reads. */
module ShortWrites {
  import opened Basics
  import opened Text
  import opened LogText

  /** p whole writes of a record and k characters of the next. */
  function CutShort(r: Record, p: nat, k: nat): string
    requires p < PIECES && k <= |Piece(r, p)|
  {
    Torn(r, p) + Piece(r, p)[..k]
  }

  /** What is read of it: nothing before the size, and of the size the digits that are there. */
  function Reads(r: Record, p: nat, k: nat): seq<Record>
    requires 0 <= r.size && p < PIECES && k <= |Piece(r, p)|
  {
    if p < SIZE_PIECE || (p == SIZE_PIECE && k == 0) then []
    else if p == SIZE_PIECE then [r.(size := Value(Digits(r.size)[..k]))]
    else [r]
  }

  lemma CutIsRead(rs: seq<Record>, r: Record, p: nat, k: nat)
    requires AllReadable(rs) && Readable(r) && 0 <= r.size && p < PIECES && k <= |Piece(r, p)|
    ensures Parse(RenderAll(rs) + CutShort(r, p, k)) == rs + Reads(r, p, k)
  {
    ParsePrefix(rs, CutShort(r, p, k));
    hide Parse, RenderAll, Torn, Readable;
    var piece := Piece(r, p);
    if k == 0 || k == |piece| {
      WholeIsRead(r, p, k);
    } else if p == 0 {
      assert Torn(r, 0) == "" by { TornText(r); }
      assert CutShort(r, p, k) == IntText(r.id)[..k];
      IdCutShort(r.id, k);
    } else if p == 2 {
      NameCutShort(r, k);
    } else {
      assert p == SIZE_PIECE;
      SizeCutShort(r, k);
    }
  }

  lemma WholeIsRead(r: Record, p: nat, k: nat)
    requires Readable(r) && 0 <= r.size && p < PIECES && (k == 0 || k == |Piece(r, p)|)
    ensures Parse(CutShort(r, p, k)) == Reads(r, p, k)
  {
    var piece := Piece(r, p);
    hide Parse, Torn, Readable, Piece;
    if k == 0 && (p != SIZE_PIECE || piece != "") {
      assert piece[..0] == "" && Torn(r, p) + "" == Torn(r, p);
      ParseTorn(r, p);
    } else {
      assert piece[..k] == piece;
      assert Torn(r, p + 1) == Torn(r, p) + piece by { hide *; TornNext(r, p); }
      ParseTorn(r, p + 1);
    }
    PieceLengths(r, p);
  }

  lemma TornNext(r: Record, p: nat)
    ensures Torn(r, p + 1) == Torn(r, p) + Piece(r, p)
  {
  }

  lemma PieceLengths(r: Record, p: nat)
    requires 0 <= r.size && p < PIECES
    ensures p == SIZE_PIECE ==> Piece(r, p) == Digits(r.size) && Value(Digits(r.size)[..|Digits(r.size)|]) == r.size
    ensures (p == 1 || p == 3 || p == 5) ==> |Piece(r, p)| == 1
    ensures p == 0 ==> Piece(r, p) == IntText(r.id)
    ensures p == 2 ==> Piece(r, p) == r.name
  {
    ValueOfDigits(r.size);
    assert Digits(r.size)[..|Digits(r.size)|] == Digits(r.size);
    hide Digits, Value;
  }

  /** Part of an id: no file name follows. */
  lemma IdCutShort(id: TxnId, k: nat)
    requires 0 < k <= |IntText(id)|
    ensures Parse(IntText(id)[..k]) == []
  {
    var text := IntText(id)[..k];
    var digits := if id < 0 then text[1..] else text;
    assert forall i :: 0 <= i < |digits| ==> IsDigit(digits[i]);
    assert ReadWord("") == None by { NothingToRead(""); }
    if digits == "" {
      assert text == "-" && ReadInt("-") == None by { hide ReadWord; }
    } else if id < 0 {
      assert text == "-" + digits && digits + "" == digits;
      DigitRunOf(digits, "");
      ReadAfterMinus(digits);
      assert digits[|digits|..] == "";
      hide ReadInt;
    } else {
      assert digits + "" == digits;
      ReadDigitText(digits, "");
      hide ReadInt;
    }
    hide ReadWord;
  }

  /** Part of a file name: no size follows. */
  lemma NameCutShort(r: Record, k: nat)
    requires Readable(r) && 0 < k <= |r.name|
    ensures Parse(CutShort(r, 2, k)) == []
  {
    var word := r.name[..k];
    var after := " " + word;
    assert CutShort(r, 2, k) == IntText(r.id) + after by {
      TornText(r);
      Assoc(IntText(r.id), " ", word);
    }
    assert word + "" == word;
    ReadIntText(r.id, after);
    ReadWordAfterSpace(word, "");
    NothingToRead("");
    hide ReadInt, ReadWord, Torn, IntText;
  }

  /** Part of a size: a smaller size. */
  lemma SizeCutShort(r: Record, k: nat)
    requires Readable(r) && 0 <= r.size && 0 < k <= |Digits(r.size)|
    ensures Parse(CutShort(r, SIZE_PIECE, k)) == [r.(size := Value(Digits(r.size)[..k]))]
  {
    var digits := Digits(r.size)[..k];
    var size := " " + (digits + "");
    var after := " " + (r.name + size);
    assert digits + "" == digits;
    assert CutShort(r, SIZE_PIECE, k) == IntText(r.id) + after by {
      TornText(r);
      Assoc(IntText(r.id) + " " + r.name, " ", digits);
      Assoc(IntText(r.id) + " ", r.name, size);
      Assoc(IntText(r.id), " ", r.name + size);
    }
    NothingToRead("");
    ReadIntText(r.id, after);
    ReadWordAfterSpace(r.name, size);
    ReadDigitText(digits, "");
    ReadPastSpace(' ', digits + "");
    assert [' '] + (digits + "") == size;
    hide ReadInt, ReadWord, Torn, IntText, Value, Digits;
    assert ReadRecord(IntText(r.id) + after) == Some((r.(size := Value(digits)), ""));
  }

  /** Fewer digits, a smaller number. */
  lemma {:induction false} FewerDigits(n: nat, k: nat)
    requires k < |Digits(n)|
    ensures Value(Digits(n)[..k]) < n || n == 0
  {
    var s := Digits(n);
    if n >= 10 {
      var front := Digits(n / 10);
      assert s[..|s| - 1] == front && s[..k] == front[..k];
      if k < |front| {
        FewerDigits(n / 10, k);
      } else {
        assert front[..k] == front;
        ValueOfDigits(n / 10);
      }
    } else {
      assert s[..k] == "";
    }
  }

  /** The condition each log write is made under: cut short anywhere, the record reads as absent or
      as itself, unless some but not all digits of its size are there; then it reads as complete
      with too small a size. */
  lemma CutShortMisleadsIff(rs: seq<Record>, r: Record, p: nat, k: nat)
    requires AllReadable(rs) && Readable(r) && 0 <= r.size && p < PIECES && k <= |Piece(r, p)|
    ensures var all := Parse(RenderAll(rs) + CutShort(r, p, k));
            && (all == rs || all == rs + [r] <==> !(p == SIZE_PIECE && 0 < k < |Digits(r.size)|))
            && (p == SIZE_PIECE && 0 < k < |Digits(r.size)| ==>
                  |all| == |rs| + 1 && all[..|rs|] == rs && all[|rs|].id == r.id && all[|rs|].name == r.name && all[|rs|].size < r.size)
  {
    hide Parse, RenderAll, Readable, Value, Digits, CutShort, Piece;
    CutIsRead(rs, r, p, k);
    PieceLengths(r, p);
    assert rs + [] == rs;
    if p == SIZE_PIECE && 0 < k < |Digits(r.size)| {
      FewerDigits(r.size, k);
      ManyDigits(r.size);
      assert (rs + Reads(r, p, k))[|rs|] == Reads(r, p, k)[0];
    }
  }

  lemma ManyDigits(n: nat)
    ensures |Digits(n)| > 1 ==> n > 0
  {
  }
}
