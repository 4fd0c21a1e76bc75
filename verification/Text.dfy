/** Decimal printing and the formatted stream extraction (`>>`) that the log replay and the
    wire protocol both read with: leading white space is skipped, an integer is the longest
    run of digits after an optional sign, a word ends at white space. */
module Text {
  import opened Basics

  predicate IsSpace(c: char) {
    c == ' ' || c == '\t' || c == '\n' || c == '\U{000B}' || c == '\U{000C}' || c == '\r'
  }

  predicate IsDigit(c: char) {
    '0' <= c <= '9'
  }

  // ---------------------------------------------------------------- printing

  function DigitChar(d: nat): (c: char)
    requires d < 10
    ensures IsDigit(c) && DigitValue(c) == d
  {
    ['0', '1', '2', '3', '4', '5', '6', '7', '8', '9'][d]
  }

  function DigitValue(c: char): nat
    requires IsDigit(c)
  {
    (c as int) - ('0' as int)
  }

  /** std::to_string of a non-negative number. */
  function Digits(n: nat): (s: string)
    ensures s != "" && forall i :: 0 <= i < |s| ==> IsDigit(s[i])
    ensures n < 10 ==> |s| == 1
  {
    if n < 10 then [DigitChar(n)] else Digits(n / 10) + [DigitChar(n % 10)]
  }

  function IntText(i: int): string {
    if i < 0 then "-" + Digits(-i) else Digits(i)
  }

  // ---------------------------------------------------------------- reading

  function SkipSpace(s: string): string {
    if s != "" && IsSpace(s[0]) then SkipSpace(s[1..]) else s
  }

  function DigitRun(s: string): (k: nat)
    ensures k <= |s|
    ensures forall i :: 0 <= i < k ==> IsDigit(s[i])
    ensures k < |s| ==> !IsDigit(s[k])
  {
    if s != "" && IsDigit(s[0]) then 1 + DigitRun(s[1..]) else 0
  }

  function WordRun(s: string): (k: nat)
    ensures k <= |s|
    ensures forall i :: 0 <= i < k ==> !IsSpace(s[i])
    ensures k < |s| ==> IsSpace(s[k])
  {
    if s != "" && !IsSpace(s[0]) then 1 + WordRun(s[1..]) else 0
  }

  function Value(s: string): nat
    requires forall i :: 0 <= i < |s| ==> IsDigit(s[i])
  {
    if s == "" then 0 else 10 * Value(s[..|s| - 1]) + DigitValue(s[|s| - 1])
  }

  /** `stream >> int`: the number and what is left, or None when the extraction fails. */
  function ReadInt(text: string): (r: Option<(int, string)>)
    ensures r.Some? ==> |r.value.1| < |text|
  {
    var s := SkipSpace(text);
    SkipSpaceShortens(text);
    var signed := s != "" && (s[0] == '-' || s[0] == '+');
    var body := if signed then s[1..] else s;
    var k := DigitRun(body);
    if k == 0 then None
    else
      var n: int := Value(body[..k]);
      Some((if signed && s[0] == '-' then -n else n, body[k..]))
  }

  /** `stream >> string`. */
  function ReadWord(text: string): (r: Option<(string, string)>)
    ensures r.Some? ==> |r.value.1| < |text|
    ensures r.Some? ==> IsWord(r.value.0)
  {
    var s := SkipSpace(text);
    SkipSpaceShortens(text);
    var k := WordRun(s);
    if k == 0 then None else Some((s[..k], s[k..]))
  }

  /** What `>>` can read back as one string. */
  predicate IsWord(s: string) {
    s != "" && forall i :: 0 <= i < |s| ==> !IsSpace(s[i])
  }

  // ---------------------------------------------------------------- lemmas

  lemma Assoc(a: string, b: string, c: string)
    ensures (a + b) + c == a + (b + c)
  {
  }

  lemma {:induction false} SkipSpaceShortens(s: string)
    ensures |SkipSpace(s)| <= |s|
    ensures SkipSpace(s) != "" ==> !IsSpace(SkipSpace(s)[0])
  {
    if s != "" && IsSpace(s[0]) { SkipSpaceShortens(s[1..]); }
  }

  lemma {:induction false} ValueOfDigits(n: nat)
    ensures Value(Digits(n)) == n
  {
    if 10 <= n {
      ValueOfDigits(n / 10);
      var s := Digits(n);
      assert s[..|s| - 1] == Digits(n / 10);
    } else {
      var s := Digits(n);
      assert s[..|s| - 1] == "";
    }
  }

  lemma {:induction false} DigitRunOf(s: string, rest: string)
    requires forall i :: 0 <= i < |s| ==> IsDigit(s[i])
    requires rest == "" || !IsDigit(rest[0])
    ensures DigitRun(s + rest) == |s|
  {
    assert forall i :: 0 <= i < |s| ==> (s + rest)[i] == s[i];
    assert rest != "" ==> (s + rest)[|s|] == rest[0];
  }

  lemma WordRunOf(s: string, rest: string)
    requires forall i :: 0 <= i < |s| ==> !IsSpace(s[i])
    requires rest == "" || IsSpace(rest[0])
    ensures WordRun(s + rest) == |s|
  {
    assert forall i :: 0 <= i < |s| ==> (s + rest)[i] == s[i];
    assert rest != "" ==> (s + rest)[|s|] == rest[0];
  }

  lemma ReadDigits(n: nat, rest: string)
    requires rest == "" || !IsDigit(rest[0])
    ensures var body := Digits(n) + rest; var k := DigitRun(body);
            k == |Digits(n)| && body[k..] == rest && Value(body[..k]) == n
  {
    DigitRunOf(Digits(n), rest);
    ValueOfDigits(n);
    assert (Digits(n) + rest)[..|Digits(n)|] == Digits(n);
  }

  lemma StartsWithoutSpace(text: string)
    requires text != "" && !IsSpace(text[0])
    ensures SkipSpace(text) == text
  {
  }

  lemma ReadNatText(n: int, rest: string)
    requires 0 <= n
    requires rest == "" || !IsDigit(rest[0])
    ensures ReadInt(Digits(n) + rest) == Some((n, rest))
  {
    var body := Digits(n) + rest;
    ReadDigits(n, rest);
    assert IsDigit(body[0]) by { assert body[0] == Digits(n)[0]; }
    hide Digits, DigitRun, Value, SkipSpace;
    StartsWithoutSpace(body);
  }

  /** Any run of digits, not only one that to_string could have printed. */
  lemma ReadDigitText(digits: string, rest: string)
    requires digits != "" && forall i :: 0 <= i < |digits| ==> IsDigit(digits[i])
    requires rest == "" || !IsDigit(rest[0])
    ensures ReadInt(digits + rest) == Some((Value(digits) as int, rest))
  {
    var body := digits + rest;
    DigitRunOf(digits, rest);
    assert body[0] == digits[0] && body[..|digits|] == digits && body[|digits|..] == rest;
    hide DigitRun, Value, SkipSpace;
    StartsWithoutSpace(body);
  }

  /** Digits written in front of a number change it, unless they are worth nothing. */
  lemma {:induction false} ValueAfterDigits(front: string, back: string)
    requires forall i :: 0 <= i < |front| ==> IsDigit(front[i])
    requires forall i :: 0 <= i < |back| ==> IsDigit(back[i])
    ensures Value(front + back) >= Value(back) && (Value(front + back) == Value(back) <==> Value(front) == 0)
  {
    var all := front + back;
    if back == "" {
      assert all == front;
    } else {
      assert all[..|all| - 1] == front + back[..|back| - 1];
      ValueAfterDigits(front, back[..|back| - 1]);
    }
  }

  lemma ReadNegatedText(n: int, rest: string)
    requires 0 <= n
    requires rest == "" || !IsDigit(rest[0])
    ensures ReadInt("-" + (Digits(n) + rest)) == Some((-n, rest))
  {
    var body := Digits(n) + rest;
    ReadDigits(n, rest);
    hide Digits, DigitRun, Value, ReadInt;
    ReadAfterMinus(body);
  }

  lemma ReadAfterMinus(body: string)
    requires DigitRun(body) > 0
    ensures ReadInt("-" + body) == Some((-(Value(body[..DigitRun(body)]) as int), body[DigitRun(body)..]))
  {
    hide DigitRun, Value, SkipSpace, IsDigit;
    StartsWithoutSpace("-" + body);
    assert ("-" + body)[1..] == body;
  }

  /** An integer printed by to_string reads back, whatever non-digit follows. */
  lemma ReadIntText(i: int, rest: string)
    requires rest == "" || !IsDigit(rest[0])
    ensures ReadInt(IntText(i) + rest) == Some((i, rest))
  {
    hide ReadInt, Digits;
    if i < 0 {
      ReadNegatedText(-i, rest);
      Assoc("-", Digits(-i), rest);
    } else {
      ReadNatText(i, rest);
    }
  }

  lemma ReadWordText(word: string, rest: string)
    requires IsWord(word)
    requires rest == "" || IsSpace(rest[0])
    ensures ReadWord(word + rest) == Some((word, rest))
  {
    var text := word + rest;
    assert text[0] == word[0];
    assert SkipSpace(text) == text;
    WordRunOf(word, rest);
    assert text[..|word|] == word;
    assert text[|word|..] == rest;
  }

  lemma ReadPastSpace(c: char, text: string)
    requires IsSpace(c)
    ensures SkipSpace([c] + text) == SkipSpace(text)
    ensures ReadInt([c] + text) == ReadInt(text)
    ensures ReadWord([c] + text) == ReadWord(text)
  {
    assert ([c] + text)[1..] == text;
  }

  lemma ReadIntAfterSpace(i: int, rest: string)
    requires rest == "" || !IsDigit(rest[0])
    ensures ReadInt(" " + (IntText(i) + rest)) == Some((i, rest))
  {
    ReadIntText(i, rest);
    ReadPastSpace(' ', IntText(i) + rest);
  }

  lemma ReadWordAfterSpace(word: string, rest: string)
    requires IsWord(word)
    requires rest == "" || IsSpace(rest[0])
    ensures ReadWord(" " + (word + rest)) == Some((word, rest))
  {
    ReadWordText(word, rest);
    ReadPastSpace(' ', word + rest);
  }

  lemma NothingToRead(text: string)
    requires forall i :: 0 <= i < |text| ==> IsSpace(text[i])
    ensures ReadInt(text) == None && ReadWord(text) == None
  {
    if text != "" { NothingToRead(text[1..]); }
  }
}
