/** Which notes tell of a usage and what they say, word by word, told without the reader. */
module NoteGrammar {
  import opened Tables
  import opened Text
  import opened Usage

  // ---- Words ----

  /** Words with the gaps around them. */
  function Spread(gaps: seq<string>, words: seq<string>): string
    requires |gaps| == |words| + 1
  {
    if words == [] then gaps[0] else gaps[0] + (words[0] + Spread(gaps[1..], words[1..]))
  }

  /** Gaps of white space, none of them empty but the first and the last. */
  predicate AreGaps(gaps: seq<string>) {
    && gaps != []
    && (forall i :: 0 <= i < |gaps| ==> AllSpace(gaps[i]))
    && (forall i :: 1 <= i < |gaps| - 1 ==> gaps[i] != "")
  }

  lemma {:induction false} WordsSkip(gap: string, s: string)
    requires AllSpace(gap)
    ensures Words(gap + s) == Words(s)
    decreases |gap|
  {
    if gap == "" {
      assert gap + s == s;
    } else {
      WordsSkip(gap[1..], s);
      assert (gap + s)[1..] == gap[1..] + s;
    }
  }

  /** The words of a text are what stands between its white space. */
  lemma {:induction false} WordsMean(gaps: seq<string>, words: seq<string>)
    requires |gaps| == |words| + 1 && AreGaps(gaps) && forall i :: 0 <= i < |words| ==> IsWord(words[i])
    ensures Words(Spread(gaps, words)) == words
    decreases |words|
  {
    if words == [] {
      WordsSkip(gaps[0], "");
      assert gaps[0] + "" == gaps[0];
    } else {
      var rest := Spread(gaps[1..], words[1..]);
      assert forall i :: 0 <= i < |gaps[1..]| ==> gaps[1..][i] == gaps[i + 1];
      if |words| == 1 {
        assert rest == gaps[1];
      } else {
        assert rest[0] == gaps[1][0];
      }
      WordsMean(gaps[1..], words[1..]);
      WordsSkip(gaps[0], words[0] + rest);
      WordsOff(words[0], rest);
      assert words == [words[0]] + words[1..];
    }
  }

  /** A text with its words taken apart. */
  predicate Apart(s: string, gaps: seq<string>, words: seq<string>) {
    && |gaps| == |words| + 1 && AreGaps(gaps) && Spread(gaps, words) == s
    && (forall i :: 0 <= i < |words| ==> IsWord(words[i]))
    && (s != "" ==> (gaps[0] != "" <==> IsSpace(s[0])))
  }

  lemma ApartAfterSpace(c: char, s: string, rest: seq<string>, words: seq<string>)
    requires IsSpace(c) && Apart(s, rest, words)
    ensures Apart([c] + s, [[c] + rest[0]] + rest[1..], words)
  {
    var gaps := [[c] + rest[0]] + rest[1..];
    assert gaps[1..] == rest[1..];
    if words != [] {
      Reassociate([c], rest[0], words[0] + Spread(rest[1..], words[1..]));
    }
  }

  lemma ApartAfterWord(w: string, s: string, rest: seq<string>, words: seq<string>)
    requires IsWord(w) && Apart(s, rest, words) && (s != "" ==> IsSpace(s[0]))
    ensures Apart(w + s, [""] + rest, [w] + words)
  {
    assert ([""] + rest)[1..] == rest && ([w] + words)[1..] == words;
    assert "" + (w + s) == w + s;
    if words != [] {
      assert s == rest[0] + (words[0] + Spread(rest[1..], words[1..]));
    }
  }

  lemma {:induction false} WordsApart(s: string) returns (gaps: seq<string>)
    ensures Apart(s, gaps, Words(s))
    decreases |s|
  {
    if s == "" {
      gaps := [""];
    } else if IsSpace(s[0]) {
      var rest := WordsApart(s[1..]);
      ApartAfterSpace(s[0], s[1..], rest, Words(s[1..]));
      gaps := [[s[0]] + rest[0]] + rest[1..];
      assert s == [s[0]] + s[1..];
    } else {
      WordEndIs(s);
      var n := WordEnd(s);
      var rest := WordsApart(s[n..]);
      ApartAfterWord(s[..n], s[n..], rest, Words(s[n..]));
      gaps := [""] + rest;
      assert IsWord(s[..n]) && s == s[..n] + s[n..];
    }
  }

  // ---- Numbers ----

  predicate AllZeros(s: string) {
    forall i :: 0 <= i < |s| ==> s[i] == '0'
  }

  /** The text is `n` in decimal, with zeros before it and a sign or none; a negative number has its sign. */
  predicate IsNumeral(s: string, sign: string, zeros: string, n: int) {
    && s == sign + zeros + Decimal(if n < 0 then 0 - n else n)
    && AllZeros(zeros)
    && (sign == "-" || sign == "+" || sign == "")
    && (n < 0 ==> sign == "-") && (n > 0 ==> sign != "-")
  }

  lemma {:induction false} ZerosValue(zeros: string, digits: string)
    requires AllZeros(zeros) && AllDigits(digits)
    ensures AllDigits(zeros + digits) && DigitsValue(zeros + digits) == DigitsValue(digits)
    decreases |zeros| + |digits|
  {
    var s := zeros + digits;
    if digits != "" {
      ZerosValue(zeros, digits[..|digits| - 1]);
      assert s[..|s| - 1] == zeros + digits[..|digits| - 1];
    } else if zeros != "" {
      ZerosValue(zeros[..|zeros| - 1], "");
      assert s[..|s| - 1] == zeros[..|zeros| - 1] + "";
    }
  }

  /** Digits are zeros and then the number that they are. */
  lemma {:induction false} DigitsAre(s: string) returns (zeros: string)
    requires s != "" && AllDigits(s)
    ensures AllZeros(zeros) && s == zeros + Decimal(DigitsValue(s))
    decreases |s|
  {
    var last := s[|s| - 1];
    var d := last as int - '0' as int;
    assert s == s[..|s| - 1] + [last];
    if |s| == 1 {
      assert s[..0] == "" && DigitsValue(s) == d;
      zeros := "";
    } else {
      var init := s[..|s| - 1];
      zeros := DigitsAre(init);
      var n := DigitsValue(init);
      assert DigitsValue(s) == n * 10 + d;
      if n == 0 {
        zeros := zeros + "0";
        assert Decimal(0) == "0";
        assert s == zeros + [last];
      } else {
        assert (n * 10 + d) / 10 == n && (n * 10 + d) % 10 == d;
        assert Decimal(n * 10 + d) == Decimal(n) + [last];
        assert s == zeros + (Decimal(n) + [last]);
      }
    }
  }

  /** Exactly the numerals are read as numbers, if they fit 64 bits: decimal digits, leading zeros and a sign allowed. */
  lemma ParseIntMeans(s: string, n: Int64)
    ensures ParseInt(s) == Some(n) <==> exists sign, zeros :: IsNumeral(s, sign, zeros, n)
  {
    if ParseInt(s) == Some(n) {
      NumberIsNumeral(s, n);
    }
    if sign, zeros :| IsNumeral(s, sign, zeros, n) {
      NumeralIsNumber(s, sign, zeros, n);
    }
  }

  lemma ParsesPlus(digits: string)
    requires digits != "" && AllDigits(digits) && DigitsValue(digits) <= MAX_INT64
    ensures ParseInt("+" + digits) == Some(DigitsValue(digits))
  {
    assert ("+" + digits)[1..] == digits;
  }

  lemma NumeralIsNumber(s: string, sign: string, zeros: string, n: Int64)
    requires IsNumeral(s, sign, zeros, n)
    ensures ParseInt(s) == Some(n)
  {
    var m: nat := if n < 0 then 0 - n else n;
    var digits := zeros + Decimal(m);
    ZerosValue(zeros, Decimal(m));
    DecimalValue(m);
    assert s == sign + digits;
    SignedNumber(sign, digits, n);
  }

  lemma SignedNumber(sign: string, digits: string, n: Int64)
    requires digits != "" && AllDigits(digits) && DigitsValue(digits) == (if n < 0 then 0 - n else n)
    requires (sign == "-" || sign == "+" || sign == "") && (n < 0 ==> sign == "-") && (n > 0 ==> sign != "-")
    ensures ParseInt(sign + digits) == Some(n)
  {
    if sign == "+" {
      ParsesPlus(digits);
    } else {
      ParsesSigned(digits);
      assert "" + digits == digits;
    }
  }

  lemma NumberHasSign(s: string, n: Int64) returns (sign: string, digits: string)
    requires ParseInt(s) == Some(n)
    ensures s == sign + digits && digits != "" && AllDigits(digits)
    ensures DigitsValue(digits) == if n < 0 then 0 - n else n
    ensures (sign == "-" || sign == "+" || sign == "") && (n < 0 ==> sign == "-") && (n > 0 ==> sign != "-")
  {
    if s != "" && (s[0] == '-' || s[0] == '+') {
      sign, digits := s[..1], s[1..];
    } else {
      sign, digits := "", s;
    }
  }

  lemma NumberIsNumeral(s: string, n: Int64)
    requires ParseInt(s) == Some(n)
    ensures exists sign, zeros :: IsNumeral(s, sign, zeros, n)
  {
    var sign, digits := NumberHasSign(s, n);
    var zeros := DigitsAre(digits);
    Reassociate(sign, zeros, Decimal(DigitsValue(digits)));
    assert IsNumeral(s, sign, zeros, n);
  }

  // ---- Notes ----

  /** A word, cut at its first `=`; or one without any. */
  datatype Field = Bare | Field(key: string, value: string)

  function FieldOf(word: string): Field {
    match IndexOf(word, '=')
    case None => Bare
    case Some(c) => Field(word[..c], word[c + 1..])
  }

  /** What is wrong with a word, if anything is. */
  function WordError(codec: Codec, word: string): Option<NoteError> {
    match FieldOf(word)
    case Bare => Some(MalformedField(word))
    case Field(key, value) =>
      if key == "harness" then None
      else if key == "tokens" then
        if ParseInt(value).None? || ParseInt(value).value < 0 then Some(InvalidTokens(value)) else None
      else if key == "cost" then
        if codec.parse(value).None? then Some(InvalidCost(value)) else None
      else Some(UnknownField(key))
  }

  /** Word `i` is the last one with this key, and gives it this value. */
  predicate IsLast(words: seq<string>, i: int, key: string, value: string) {
    && 0 <= i < |words| && FieldOf(words[i]) == Field(key, value)
    && forall j :: i < j < |words| ==> !(FieldOf(words[j]).Field? && FieldOf(words[j]).key == key)
  }

  function LastValue(words: seq<string>, key: string): (v: Option<string>)
    ensures v.Some? ==> exists i :: IsLast(words, i, key, v.value)
    ensures v.None? ==> forall i :: 0 <= i < |words| ==> !(FieldOf(words[i]).Field? && FieldOf(words[i]).key == key)
  {
    if words == [] then None
    else
      var rest := LastValue(words[1..], key);
      if rest.Some? then
        assert exists i :: IsLast(words, i, key, rest.value) by {
          var i :| IsLast(words[1..], i, key, rest.value);
          assert forall j :: i + 1 < j < |words| ==> words[j] == words[1..][j - 1];
          assert IsLast(words, i + 1, key, rest.value);
        }
        rest
      else
        assert forall j :: 1 <= j < |words| ==> words[j] == words[1..][j - 1];
        var field := FieldOf(words[0]);
        if field.Field? && field.key == key then
          assert IsLast(words, 0, key, field.value);
          Some(field.value)
        else None
  }

  predicate NothingWrong(codec: Codec, words: seq<string>) {
    forall i :: 0 <= i < |words| ==> WordError(codec, words[i]).None?
  }

  predicate FirstBad(codec: Codec, words: seq<string>, i: int, e: NoteError) {
    0 <= i < |words| && WordError(codec, words[i]) == Some(e) && forall j :: 0 <= j < i ==> WordError(codec, words[j]).None?
  }

  ghost predicate HasFirstBad(codec: Codec, words: seq<string>, e: NoteError) {
    exists i :: FirstBad(codec, words, i, e)
  }

  /** The words say this usage: nothing is wrong with any, and each part is what its last word says. */
  predicate SaysUsage(codec: Codec, words: seq<string>, u: Used) {
    && NothingWrong(codec, words)
    && LastValue(words, "harness") == Some(u.harness) && u.harness != ""
    && LastValue(words, "tokens").Some? && ParseInt(LastValue(words, "tokens").value) == Some(u.tokens)
    && u.cost == (if LastValue(words, "cost").Some? then codec.parse(LastValue(words, "cost").value) else None)
  }

  predicate LacksHarness(words: seq<string>) {
    LastValue(words, "harness").None? || LastValue(words, "harness").value == ""
  }

  /** The words fail in this way: the first that is wrong, or else the first part that is missing. */
  ghost predicate FailsWith(codec: Codec, words: seq<string>, e: NoteError) {
    match e
    case MissingHarness => NothingWrong(codec, words) && LacksHarness(words)
    case MissingTokens => NothingWrong(codec, words) && !LacksHarness(words) && LastValue(words, "tokens").None?
    case _ => HasFirstBad(codec, words, e)
  }

  /** What has been read after words with nothing wrong. */
  predicate Gathered(codec: Codec, p: Partial, words: seq<string>, p': Partial) {
    && p'.harness == (if LastValue(words, "harness").Some? then LastValue(words, "harness") else p.harness)
    && p'.tokens == (if LastValue(words, "tokens").Some? then ParseInt(LastValue(words, "tokens").value) else p.tokens)
    && p'.cost == (if LastValue(words, "cost").Some? then codec.parse(LastValue(words, "cost").value) else p.cost)
  }

  /** What one word with nothing wrong adds. */
  function Entered(codec: Codec, p: Partial, word: string): Partial
    requires WordError(codec, word).None?
  {
    var f := FieldOf(word);
    if f.key == "harness" then p.(harness := Some(f.value))
    else if f.key == "tokens" then p.(tokens := ParseInt(f.value))
    else p.(cost := codec.parse(f.value))
  }

  lemma WordRead(codec: Codec, p: Partial, word: string)
    ensures ReadField(codec, p, word)
         == if WordError(codec, word).Some? then Err(WordError(codec, word).value) else Ok(Entered(codec, p, word))
  {
  }

  lemma WordGathered(codec: Codec, p: Partial, word: string)
    requires WordError(codec, word).None?
    ensures Gathered(codec, p, [word], Entered(codec, p, word))
  {
  }

  lemma GatheredThen(codec: Codec, p: Partial, word: string, rest: seq<string>, p1: Partial, p2: Partial)
    requires Gathered(codec, p, [word], p1) && Gathered(codec, p1, rest, p2)
    ensures Gathered(codec, p, [word] + rest, p2)
  {
    assert ([word] + rest)[1..] == rest && [word][1..] == [];
  }

  lemma FirstBadShifts(codec: Codec, words: seq<string>, i: int, e: NoteError)
    requires words != [] && WordError(codec, words[0]).None? && FirstBad(codec, words[1..], i, e)
    ensures FirstBad(codec, words, i + 1, e)
  {
    var rest := words[1..];
    forall j | 0 <= j < i + 1 ensures WordError(codec, words[j]).None? {
      if j > 0 {
        assert WordError(codec, rest[j - 1]).None?;
      }
    }
  }

  lemma {:induction false} WordsRead(codec: Codec, p: Partial, words: seq<string>)
    ensures var r := ReadFields(codec, p, words);
      if r.Ok? then NothingWrong(codec, words) && Gathered(codec, p, words, r.value) else HasFirstBad(codec, words, r.error)
    decreases |words|
  {
    if words != [] {
      var word, rest := words[0], words[1..];
      WordRead(codec, p, word);
      assert words == [word] + rest;
      if WordError(codec, word).Some? {
        assert FirstBad(codec, words, 0, WordError(codec, word).value);
      } else {
        var p1 := Entered(codec, p, word);
        WordsRead(codec, p1, rest);
        var r := ReadFields(codec, p1, rest);
        if r.Ok? {
          WordGathered(codec, p, word);
          GatheredThen(codec, p, word, rest, p1, r.value);
        } else {
          var i :| FirstBad(codec, rest, i, r.error);
          FirstBadShifts(codec, words, i, r.error);
        }
      }
    }
  }

  lemma TokensAreRead(codec: Codec, words: seq<string>)
    requires NothingWrong(codec, words) && LastValue(words, "tokens").Some?
    ensures ParseInt(LastValue(words, "tokens").value).Some?
  {
    var i :| IsLast(words, i, "tokens", LastValue(words, "tokens").value);
    assert WordError(codec, words[i]).None?;
  }

  /** What a note is read as is what its words say, or the reason for which they say nothing. */
  lemma NoteSays(codec: Codec, note: string)
    ensures var r := ParseNote(codec, note);
      if r.Ok? then SaysUsage(codec, Words(note), r.value) else FailsWith(codec, Words(note), r.error)
  {
    var words, p0 := Words(note), Partial(None, None, None);
    WordsRead(codec, p0, words);
    var r := ReadFields(codec, p0, words);
    if r.Ok? {
      CompleteSays(codec, words, r.value);
    } else {
      BadFails(codec, words, r.error);
    }
  }

  lemma CompleteSays(codec: Codec, words: seq<string>, p: Partial)
    requires NothingWrong(codec, words) && Gathered(codec, Partial(None, None, None), words, p)
    ensures var r := Complete(p);
      if r.Ok? then SaysUsage(codec, words, r.value) else FailsWith(codec, words, r.error)
  {
    if LastValue(words, "tokens").Some? {
      TokensAreRead(codec, words);
    }
  }

  lemma BadFails(codec: Codec, words: seq<string>, e: NoteError)
    requires HasFirstBad(codec, words, e)
    ensures FailsWith(codec, words, e)
  {
    var i :| FirstBad(codec, words, i, e);
    assert !e.MissingHarness? && !e.MissingTokens?;
  }

  /** A note is read as `u` if and only if its words say `u`. */
  lemma NoteMeans(codec: Codec, note: string, u: Used)
    ensures ParseNote(codec, note) == Ok(u) <==> SaysUsage(codec, Words(note), u)
  {
    NoteSays(codec, note);
    var r := ParseNote(codec, note);
    if SaysUsage(codec, Words(note), u) && r.Err? {
      SaysOrFails(codec, Words(note), u, r.error);
    }
  }

  /** And each other note is refused for the reason that its words give. */
  lemma NoteFailsFor(codec: Codec, note: string, e: NoteError)
    ensures ParseNote(codec, note) == Err(e) <==> FailsWith(codec, Words(note), e)
  {
    NoteSays(codec, note);
    var r := ParseNote(codec, note);
    if FailsWith(codec, Words(note), e) {
      if r.Ok? {
        SaysOrFails(codec, Words(note), r.value, e);
      } else {
        FailsOneWay(codec, Words(note), e, r.error);
      }
    }
  }

  lemma SaysOrFails(codec: Codec, words: seq<string>, u: Used, e: NoteError)
    requires SaysUsage(codec, words, u)
    ensures !FailsWith(codec, words, e)
  {
  }

  lemma FailsOneWay(codec: Codec, words: seq<string>, d: NoteError, e: NoteError)
    requires FailsWith(codec, words, d) && FailsWith(codec, words, e)
    ensures d == e
  {
  }

  /** The written note, letter by letter. */
  lemma WrittenNote(codec: Codec, u: Used)
    ensures FormatNote(codec, u) == "harness=" + u.harness + " tokens=" + PrintInt(u.tokens)
      + if u.cost.Some? then " cost=" + codec.show(u.cost.value) else ""
  {
  }
}
