/** The one-line notes in which resource usage is logged. */
module Usage {
  import opened Tables
  import opened Text

  // ---- Numbers ----

  predicate IsDigit(c: char) {
    '0' <= c <= '9'
  }

  predicate AllDigits(s: string) {
    forall i :: 0 <= i < |s| ==> IsDigit(s[i])
  }

  function Digit(n: nat): char
    requires n < 10
  {
    (n + '0' as int) as char
  }

  function Decimal(n: nat): (s: string)
    ensures s != "" && AllDigits(s)
  {
    if n < 10 then [Digit(n)] else Decimal(n / 10) + [Digit(n % 10)]
  }

  function PrintInt(n: int): string {
    if n < 0 then "-" + Decimal(0 - n) else Decimal(n)
  }

  function DigitsValue(s: string): nat
    requires AllDigits(s)
  {
    if s == "" then 0 else DigitsValue(s[..|s| - 1]) * 10 + (s[|s| - 1] as int - '0' as int)
  }

  /** A signed decimal number that fits 64 bits. */
  function ParseInt(s: string): Option<Int64> {
    var negative := s != "" && s[0] == '-';
    var digits := if s != "" && (s[0] == '-' || s[0] == '+') then s[1..] else s;
    if digits == "" || !AllDigits(digits) then None
    else
      var n := if negative then 0 - DigitsValue(digits) else DigitsValue(digits);
      if -MAX_INT64 - 1 <= n <= MAX_INT64 then Some(n) else None
  }

  lemma {:induction false} DecimalValue(n: nat)
    ensures DigitsValue(Decimal(n)) == n
  {
    if n < 10 {
      assert Decimal(n)[..0] == "";
    } else {
      DecimalValue(n / 10);
      assert Decimal(n)[..|Decimal(n)| - 1] == Decimal(n / 10);
    }
  }

  lemma ParsesSigned(digits: string)
    requires digits != "" && AllDigits(digits) && DigitsValue(digits) <= MAX_INT64 + 1
    ensures ParseInt("-" + digits) == Some(0 - DigitsValue(digits))
    ensures DigitsValue(digits) <= MAX_INT64 ==> ParseInt(digits) == Some(DigitsValue(digits))
  {
    assert ("-" + digits)[1..] == digits;
    assert IsDigit(digits[0]);
  }

  lemma ParsesPrinted(n: Int64)
    ensures ParseInt(PrintInt(n)) == Some(n)
  {
    var m: nat := if n < 0 then 0 - n else n;
    DecimalValue(m);
    ParsesSigned(Decimal(m));
  }

  // ---- Notes ----

  /** A cost, as the bits of a 64-bit floating point number. */
  type Cost = bits: int | 0 <= bits < TWO_64

  /** The library's printing and reading of costs. */
  datatype Codec = Codec(show: Cost -> string, parse: string -> Option<Cost>) {
    /** This cost comes back from its text. */
    predicate Exact(c: Cost) {
      parse(show(c)) == Some(c)
    }

    /** Costs are printed without white space, and what can be read can be printed exactly. */
    ghost predicate Lawful() {
      && (forall c :: IsWord(show(c)))
      && (forall s :: parse(s).Some? ==> Exact(parse(s).value))
    }
  }

  datatype Used = Used(harness: string, tokens: Int64, cost: Option<Cost>)

  datatype NoteError =
    | MalformedField(field: string)
    | InvalidTokens(value: string)
    | InvalidCost(value: string)
    | UnknownField(key: string)
    | MissingHarness
    | MissingTokens

  /** What has been read so far; a field not yet seen is `None`. */
  datatype Partial = Partial(harness: Option<string>, tokens: Option<Int64>, cost: Option<Cost>)

  predicate IsWord(s: string) {
    s != "" && forall i :: 0 <= i < |s| ==> !IsSpace(s[i])
  }

  function WordEnd(s: string): nat
  {
    if s == "" || IsSpace(s[0]) then 0 else 1 + WordEnd(s[1..])
  }

  lemma {:induction false} WordEndIs(s: string)
    ensures WordEnd(s) <= |s|
    ensures forall i :: 0 <= i < WordEnd(s) ==> !IsSpace(s[i])
    ensures WordEnd(s) < |s| ==> IsSpace(s[WordEnd(s)])
  {
    if s != "" && !IsSpace(s[0]) {
      WordEndIs(s[1..]);
    }
  }

  /** The words of `s` between runs of white space. */
  function Words(s: string): seq<string>
    decreases |s|
  {
    if s == "" then []
    else if IsSpace(s[0]) then Words(s[1..])
    else
      WordEndIs(s);
      var n := WordEnd(s);
      [s[..n]] + Words(s[n..])
  }

  lemma {:induction false} WordsAreWords(s: string)
    ensures forall i :: 0 <= i < |Words(s)| ==> IsWord(Words(s)[i])
    decreases |s|
  {
    if s != "" {
      if IsSpace(s[0]) {
        WordsAreWords(s[1..]);
      } else {
        WordEndIs(s);
        var n := WordEnd(s);
        WordsAreWords(s[n..]);
        assert IsWord(s[..n]);
      }
    }
  }

  lemma {:induction false} WordEndsAtSpace(w: string, rest: string)
    requires IsWord(w) && (rest == "" || IsSpace(rest[0]))
    ensures WordEnd(w + rest) == |w|
  {
    assert (w + rest)[1..] == w[1..] + rest;
    if |w| > 1 {
      WordEndsAtSpace(w[1..], rest);
    } else {
      assert w[1..] + rest == rest;
    }
  }

  lemma WordsOff(w: string, rest: string)
    requires IsWord(w) && (rest == "" || IsSpace(rest[0]))
    ensures Words(w + rest) == [w] + Words(rest)
  {
    WordEndsAtSpace(w, rest);
    WordEndIs(w + rest);
    assert (w + rest)[..|w|] == w && (w + rest)[|w|..] == rest;
  }

  function CostText(codec: Codec, cost: Option<Cost>): string {
    if cost.None? then "" else " cost=" + codec.show(cost.value)
  }

  function FormatNote(codec: Codec, u: Used): string {
    "harness=" + u.harness + (" tokens=" + PrintInt(u.tokens) + CostText(codec, u.cost))
  }

  datatype NoteKey = HarnessKey | TokensKey | CostKey

  function NoteKeyOf(word: string): Option<NoteKey> {
    if word == "harness" then Some(HarnessKey)
    else if word == "tokens" then Some(TokensKey)
    else if word == "cost" then Some(CostKey)
    else None
  }

  function SetField(codec: Codec, p: Partial, key: NoteKey, value: string): Parsed<Partial, NoteError> {
    match key
    case HarnessKey => Ok(p.(harness := Some(value)))
    case TokensKey =>
      var n := ParseInt(value);
      if n.None? || n.value < 0 then Err(InvalidTokens(value)) else Ok(p.(tokens := n))
    case CostKey =>
      var c := codec.parse(value);
      if c.None? then Err(InvalidCost(value)) else Ok(p.(cost := c))
  }

  function ReadField(codec: Codec, p: Partial, field: string): Parsed<Partial, NoteError> {
    var eq := IndexOf(field, '=');
    if eq.None? then Err(MalformedField(field))
    else
      var key := NoteKeyOf(field[..eq.value]);
      if key.None? then Err(UnknownField(field[..eq.value]))
      else SetField(codec, p, key.value, field[eq.value + 1..])
  }

  function ReadFields(codec: Codec, p: Partial, fields: seq<string>): Parsed<Partial, NoteError>
    decreases |fields|
  {
    if fields == [] then Ok(p)
    else
      match ReadField(codec, p, fields[0])
      case Ok(p') => ReadFields(codec, p', fields[1..])
      case Err(e) => Err(e)
  }

  function Complete(p: Partial): Parsed<Used, NoteError> {
    if p.harness.None? || p.harness.value == "" then Err(MissingHarness)
    else if p.tokens.None? then Err(MissingTokens)
    else Ok(Used(p.harness.value, p.tokens.value, p.cost))
  }

  function ParseNote(codec: Codec, note: string): Parsed<Used, NoteError> {
    match ReadFields(codec, Partial(None, None, None), Words(note))
    case Ok(p) => Complete(p)
    case Err(e) => Err(e)
  }

  /** The usages that a note can carry. */
  predicate Noteable(codec: Codec, u: Used) {
    && IsWord(u.harness) && u.tokens >= 0
    && (u.cost.Some? ==> codec.Exact(u.cost.value))
  }

  predicate PartialOk(codec: Codec, p: Partial) {
    && (p.harness.Some? && p.harness.value != "" ==> IsWord(p.harness.value))
    && (p.tokens.Some? ==> p.tokens.value >= 0)
    && (p.cost.Some? ==> codec.Exact(p.cost.value))
  }

  lemma {:induction false} ReadFieldsOk(codec: Codec, p: Partial, fields: seq<string>)
    requires codec.Lawful() && PartialOk(codec, p) && forall i :: 0 <= i < |fields| ==> IsWord(fields[i])
    requires ReadFields(codec, p, fields).Ok?
    ensures PartialOk(codec, ReadFields(codec, p, fields).value)
    decreases |fields|
  {
    if fields != [] {
      ReadFieldsOk(codec, ReadField(codec, p, fields[0]).value, fields[1..]);
    }
  }

  lemma ParsedIsNoteable(codec: Codec, note: string)
    requires codec.Lawful() && ParseNote(codec, note).Ok?
    ensures Noteable(codec, ParseNote(codec, note).value)
  {
    WordsAreWords(note);
    ReadFieldsOk(codec, Partial(None, None, None), Words(note));
  }

  lemma ReadsPair(codec: Codec, p: Partial, key: string, value: string)
    requires '=' !in key && NoteKeyOf(key).Some?
    ensures ReadField(codec, p, key + "=" + value) == SetField(codec, p, NoteKeyOf(key).value, value)
  {
    var field := key + "=" + value;
    assert field[|key|] == '=' && field[..|key|] == key && field[|key| + 1..] == value;
    var eq := IndexOf(field, '=');
    assert eq.Some? && eq.value == |key|;
  }

  lemma PrintedIsWord(n: Int64)
    requires n >= 0
    ensures IsWord(PrintInt(n))
  {
    var s := PrintInt(n);
    forall i | 0 <= i < |s| ensures !IsSpace(s[i]) {
      assert IsDigit(s[i]);
    }
  }

  lemma CostWords(codec: Codec, cost: Option<Cost>)
    requires codec.Lawful()
    ensures var c := CostText(codec, cost);
      && (c != "" ==> IsSpace(c[0]))
      && Words(c) == if cost.None? then [] else ["cost=" + codec.show(cost.value)]
  {
    if cost.Some? {
      var w := "cost=" + codec.show(cost.value);
      assert IsWord(codec.show(cost.value)) && IsWord(w);
      var c := CostText(codec, cost);
      assert c == " " + w && c[1..] == w && w + "" == w;
      WordsOff(w, "");
    }
  }

  lemma WordsAfterSpace(w: string, rest: string)
    requires IsWord(w) && (rest == "" || IsSpace(rest[0]))
    ensures Words(" " + (w + rest)) == [w] + Words(rest)
  {
    assert (" " + (w + rest))[1..] == w + rest;
    WordsOff(w, rest);
  }

  lemma FormattedWords(codec: Codec, u: Used)
    requires codec.Lawful() && Noteable(codec, u)
    ensures Words(FormatNote(codec, u)) == ["harness=" + u.harness] + (["tokens=" + PrintInt(u.tokens)]
      + if u.cost.None? then [] else ["cost=" + codec.show(u.cost.value)])
  {
    PrintedIsWord(u.tokens);
    var h, t, c := "harness=" + u.harness, "tokens=" + PrintInt(u.tokens), CostText(codec, u.cost);
    assert IsWord(t) && IsWord(h);
    assert " tokens=" + PrintInt(u.tokens) + c == " " + (t + c);
    CostWords(codec, u.cost);
    WordsAfterSpace(t, c);
    WordsOff(h, " " + (t + c));
  }

  lemma ReadsHarness(codec: Codec, p: Partial, value: string)
    ensures ReadField(codec, p, "harness=" + value) == Ok(p.(harness := Some(value)))
  {
    assert "harness=" + value == "harness" + "=" + value;
    ReadsPair(codec, p, "harness", value);
  }

  lemma ReadsTokens(codec: Codec, p: Partial, n: Int64)
    requires n >= 0
    ensures ReadField(codec, p, "tokens=" + PrintInt(n)) == Ok(p.(tokens := Some(n)))
  {
    assert "tokens=" + PrintInt(n) == "tokens" + "=" + PrintInt(n);
    ReadsPair(codec, p, "tokens", PrintInt(n));
    ParsesPrinted(n);
  }

  lemma ReadsCost(codec: Codec, p: Partial, c: Cost)
    requires codec.Exact(c)
    ensures ReadField(codec, p, "cost=" + codec.show(c)) == Ok(p.(cost := Some(c)))
  {
    assert "cost=" + codec.show(c) == "cost" + "=" + codec.show(c);
    ReadsPair(codec, p, "cost", codec.show(c));
  }

  lemma ReadsOne(codec: Codec, p: Partial, field: string, rest: seq<string>)
    ensures var r := ReadField(codec, p, field);
      ReadFields(codec, p, [field] + rest) == if r.Ok? then ReadFields(codec, r.value, rest) else Err(r.error)
  {
    assert ([field] + rest)[1..] == rest;
  }

  lemma FormattedReads(codec: Codec, u: Used)
    requires codec.Lawful() && Noteable(codec, u)
    ensures ParseNote(codec, FormatNote(codec, u)) == Ok(u)
  {
    FormattedWords(codec, u);
    var h, t := "harness=" + u.harness, "tokens=" + PrintInt(u.tokens);
    var cs := if u.cost.None? then [] else ["cost=" + codec.show(u.cost.value)];
    var p0 := Partial(None, None, None);
    var p1 := p0.(harness := Some(u.harness));
    var p2 := p1.(tokens := Some(u.tokens));
    ReadsHarness(codec, p0, u.harness);
    ReadsTokens(codec, p1, u.tokens);
    ReadsOne(codec, p0, h, [t] + cs);
    ReadsOne(codec, p1, t, cs);
    if u.cost.Some? {
      ReadsCost(codec, p2, u.cost.value);
      assert cs == cs + [];
      ReadsOne(codec, p2, cs[0], []);
    }
  }

  /** A usage comes back from its note exactly when its harness is a word, its tokens are
      not negative, and its cost is one that its text tells. */
  lemma NoteRoundTrip(codec: Codec, u: Used)
    requires codec.Lawful()
    ensures ParseNote(codec, FormatNote(codec, u)) == Ok(u) <==> Noteable(codec, u)
  {
    if Noteable(codec, u) {
      FormattedReads(codec, u);
    } else if ParseNote(codec, FormatNote(codec, u)) == Ok(u) {
      ParsedIsNoteable(codec, FormatNote(codec, u));
    }
  }

  /** Writing an accepted note anew changes nothing that is read from it. */
  lemma NoteNormalForm(codec: Codec, note: string)
    requires codec.Lawful() && ParseNote(codec, note).Ok?
    ensures ParseNote(codec, FormatNote(codec, ParseNote(codec, note).value)) == ParseNote(codec, note)
  {
    ParsedIsNoteable(codec, note);
    FormattedReads(codec, ParseNote(codec, note).value);
  }

  method ParseResourceUsageNote(codec: Codec, note: string) returns (r: Parsed<Used, NoteError>)
    ensures r == ParseNote(codec, note)
  {
    var p := Partial(None, None, None);
    var fields := Words(note);
    for i := 0 to |fields|
      invariant ReadFields(codec, Partial(None, None, None), fields) == ReadFields(codec, p, fields[i..])
    {
      assert fields[i..][0] == fields[i] && fields[i..][1..] == fields[i + 1..];
      var eq := IndexOf(fields[i], '=');
      if eq.None? {
        return Err(MalformedField(fields[i]));
      }
      var key, value := NoteKeyOf(fields[i][..eq.value]), fields[i][eq.value + 1..];
      match key {
        case Some(HarnessKey) => p := p.(harness := Some(value));
        case Some(TokensKey) =>
          var n := ParseInt(value);
          if n.None? || n.value < 0 {
            return Err(InvalidTokens(value));
          }
          p := p.(tokens := n);
        case Some(CostKey) =>
          var c := codec.parse(value);
          if c.None? {
            return Err(InvalidCost(value));
          }
          p := p.(cost := c);
        case None =>
          return Err(UnknownField(fields[i][..eq.value]));
      }
    }
    if p.harness.None? || p.harness.value == "" {
      return Err(MissingHarness);
    }
    if p.tokens.None? {
      return Err(MissingTokens);
    }
    return Ok(Used(p.harness.value, p.tokens.value, p.cost));
  }
}
