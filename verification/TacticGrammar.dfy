/** Which texts are tactic files and what they say, line by line, told without the reader. */
module TacticGrammar {
  import opened Tables
  import opened Text
  import opened TacticFile

  /** A line of the block: white space, a key and a value around the first colon, or neither. */
  datatype Line = Blank | Bad | Pair(key: string, value: string)

  function LineOf(raw: string): Line {
    if AllSpace(raw) then Blank
    else
      match IndexOf(raw, ':')
      case None => Bad
      case Some(c) => Pair(Trim(raw[..c]), Trim(raw[c + 1..]))
  }

  /** The value of the last line with this key. */
  function LastValue(block: seq<string>, key: string): (v: Option<string>)
    ensures v.Some? ==> exists i :: IsLast(block, i, key, v.value)
    ensures v.None? ==> forall i :: 0 <= i < |block| ==> !(LineOf(block[i]).Pair? && LineOf(block[i]).key == key)
  {
    if block == [] then None
    else
      var rest := LastValue(block[1..], key);
      if rest.Some? then
        assert exists i :: IsLast(block, i, key, rest.value) by {
          var i :| IsLast(block[1..], i, key, rest.value);
          assert forall j :: i + 1 < j < |block| ==> block[j] == block[1..][j - 1];
          assert IsLast(block, i + 1, key, rest.value);
        }
        rest
      else
        assert forall j :: 1 <= j < |block| ==> block[j] == block[1..][j - 1];
        var line := LineOf(block[0]);
        if line.Pair? && line.key == key then
          assert IsLast(block, 0, key, line.value);
          Some(line.value)
        else None
  }

  predicate IsLast(block: seq<string>, i: int, key: string, value: string) {
    && 0 <= i < |block| && LineOf(block[i]) == Pair(key, value)
    && forall j :: i < j < |block| ==> !(LineOf(block[j]).Pair? && LineOf(block[j]).key == key)
  }

  predicate Bracketed(value: string) {
    |value| >= 2 && value[0] == '[' && value[|value| - 1] == ']'
  }

  /** What stands between the brackets and the commas. */
  function Entries(value: string): seq<string>
    requires Bracketed(value)
  {
    Split(Trim(value[1..|value| - 1]), ',')
  }

  function AllTrimmed(parts: seq<string>): (r: seq<string>)
    ensures |r| == |parts| && forall i :: 0 <= i < |r| ==> r[i] == Trim(parts[i])
  {
    seq(|parts|, i requires 0 <= i < |parts| => Trim(parts[i]))
  }

  predicate HasBlank(parts: seq<string>) {
    exists i :: 0 <= i < |parts| && AllSpace(parts[i])
  }

  /** The tools that a bracketed list without empty entries names. */
  predicate NamesTools(value: string, tools: seq<string>) {
    && Bracketed(value)
    && |tools| == |Entries(value)|
    && forall i :: 0 <= i < |tools| ==> tools[i] == Trim(Entries(value)[i]) != ""
  }

  /** What is wrong with a line, if anything is. */
  function LineError(raw: string): Option<ParseError> {
    match LineOf(raw)
    case Blank => None
    case Bad => Some(MalformedLine(raw))
    case Pair(key, value) =>
      if key != "tools" then None
      else if !Bracketed(value) then Some(ToolsNotList)
      else if AllSpace(value[1..|value| - 1]) then Some(ToolsEmpty)
      else if HasBlank(Entries(value)) then Some(EmptyTool)
      else None
  }

  // ---- One line ----

  /** What stands around a colon does not depend on white space around the line. */
  lemma CutBetween(left: string, line: string, right: string, c: nat)
    requires AllSpace(left) && AllSpace(right) && c < |line| && line[c] == ':' && ':' !in line[..c]
    ensures var raw := left + line + right;
      && IndexOf(raw, ':') == Some(|left| + c)
      && Trim(raw[..|left| + c]) == Trim(line[..c]) && Trim(raw[|left| + c + 1..]) == Trim(line[c + 1..])
  {
    var raw := left + line + right;
    assert raw[|left| + c] == ':' && raw[..|left| + c] == left + line[..c] + "";
    assert raw[|left| + c + 1..] == "" + line[c + 1..] + right;
    TrimBetween(left, line[..c], "");
    TrimBetween("", line[c + 1..], right);
    assert ':' !in raw[..|left| + c];
    FirstColon(raw, |left| + c);
  }

  lemma FirstColon(raw: string, c: nat)
    requires c < |raw| && raw[c] == ':' && ':' !in raw[..c]
    ensures IndexOf(raw, ':') == Some(c)
  {
  }

  /** A line, cut at its first colon as it is. */
  function CutAt(line: string): Line {
    match IndexOf(line, ':')
    case None => Bad
    case Some(c) => Pair(Trim(line[..c]), Trim(line[c + 1..]))
  }

  lemma CutSpaced(left: string, line: string, right: string)
    requires AllSpace(left) && AllSpace(right)
    ensures CutAt(left + line + right) == CutAt(line)
  {
    var raw := left + line + right;
    match IndexOf(line, ':')
    case None =>
      assert ':' !in left && ':' !in right && ':' !in raw;
    case Some(c) =>
      CutBetween(left, line, right, c);
  }

  /** White space around a line makes no difference to what stands around its first colon. */
  lemma CutTrimmed(raw: string)
    requires !AllSpace(raw)
    ensures Trim(raw) != "" && LineOf(raw) == CutAt(Trim(raw))
  {
    AllSpaceTrims(raw);
    var i := TrimIsPart(raw);
    var left, line, right := raw[..i], Trim(raw), raw[i + |Trim(raw)|..];
    assert raw == left + line + right;
    CutSpaced(left, line, right);
    assert LineOf(raw) == CutAt(raw);
  }

  /** The draft after a line with nothing wrong. */
  function Entered(f: Draft, raw: string): Draft
    requires LineError(raw).None?
  {
    match LineOf(raw)
    case Pair(key, value) =>
      if key == "name" then f.(name := value)
      else if key == "capability" then f.(capability := value)
      else if key == "harness" then f.(harness := value)
      else if key == "tools" then f.(tools := Some(AllTrimmed(Entries(value))))
      else f
    case _ => f
  }

  lemma {:induction false} TrimAllMeans(parts: seq<string>)
    ensures TrimAll(parts) == if HasBlank(parts) then None else Some(AllTrimmed(parts))
  {
    if parts != [] {
      TrimAllMeans(parts[1..]);
      AllSpaceTrims(parts[0]);
      assert forall i :: 0 <= i < |parts[1..]| ==> parts[1..][i] == parts[i + 1];
      if HasBlank(parts) {
        var i :| 0 <= i < |parts| && AllSpace(parts[i]);
        assert i > 0 ==> AllSpace(parts[1..][i - 1]);
      } else {
        assert !HasBlank(parts[1..]);
        assert AllTrimmed(parts) == [Trim(parts[0])] + AllTrimmed(parts[1..]);
      }
    }
  }

  lemma ToolsRead(value: string)
    ensures ParseTools(value) ==
      if !Bracketed(value) then Err(ToolsNotList)
      else if AllSpace(value[1..|value| - 1]) then Err(ToolsEmpty)
      else if HasBlank(Entries(value)) then Err(EmptyTool)
      else Ok(AllTrimmed(Entries(value)))
  {
    if Bracketed(value) {
      AllSpaceTrims(value[1..|value| - 1]);
      TrimAllMeans(Entries(value));
    }
  }

  /** What the reader does with a key and its value. */
  function Assigned(f: Draft, key: string, value: string): Parsed<Draft, ParseError> {
    var known := KeyOf(key);
    if known.None? then Ok(f) else Assign(f, known.value, value)
  }

  lemma PairAssigned(f: Draft, raw: string)
    requires LineOf(raw).Pair?
    ensures Assigned(f, LineOf(raw).key, LineOf(raw).value)
         == if LineError(raw).Some? then Err(LineError(raw).value) else Ok(Entered(f, raw))
  {
    if LineOf(raw).key == "tools" {
      ToolsRead(LineOf(raw).value);
    }
  }

  lemma PairRead(f: Draft, raw: string)
    requires LineOf(raw).Pair?
    ensures ReadLine(f, raw) == Assigned(f, LineOf(raw).key, LineOf(raw).value)
  {
    CutTrimmed(raw);
  }

  lemma LineRead(f: Draft, raw: string)
    ensures ReadLine(f, raw) == if LineError(raw).Some? then Err(LineError(raw).value) else Ok(Entered(f, raw))
  {
    AllSpaceTrims(raw);
    if LineOf(raw).Pair? {
      PairRead(f, raw);
      PairAssigned(f, raw);
    } else if !AllSpace(raw) {
      CutTrimmed(raw);
    }
  }

  // ---- The block ----

  /** Line `i` is the first with something wrong, which is `e`. */
  predicate FirstBad(block: seq<string>, i: int, e: ParseError) {
    0 <= i < |block| && LineError(block[i]) == Some(e) && forall j :: 0 <= j < i ==> LineError(block[j]).None?
  }

  predicate NothingWrong(block: seq<string>) {
    forall i :: 0 <= i < |block| ==> LineError(block[i]).None?
  }

  function Or(v: Option<string>, s: string): string {
    if v.Some? then v.value else s
  }

  /** The draft after a block with nothing wrong: each field is the last value given for it. */
  predicate Gathered(f: Draft, block: seq<string>, f': Draft) {
    && f'.name == Or(LastValue(block, "name"), f.name)
    && f'.capability == Or(LastValue(block, "capability"), f.capability)
    && f'.harness == Or(LastValue(block, "harness"), f.harness)
    && match LastValue(block, "tools")
       case None => f'.tools == f.tools
       case Some(value) => f'.tools.Some? && NamesTools(value, f'.tools.value)
  }

  lemma BlankTrims(parts: seq<string>)
    requires !HasBlank(parts)
    ensures forall i :: 0 <= i < |parts| ==> Trim(parts[i]) != ""
  {
    forall i | 0 <= i < |parts| ensures Trim(parts[i]) != "" {
      AllSpaceTrims(parts[i]);
    }
  }

  lemma LineGathered(f: Draft, raw: string)
    requires LineError(raw).None?
    ensures Gathered(f, [raw], Entered(f, raw))
  {
    if LineOf(raw).Pair? && LineOf(raw).key == "tools" {
      BlankTrims(Entries(LineOf(raw).value));
    }
  }

  lemma GatheredThen(f: Draft, raw: string, rest: seq<string>, f1: Draft, f2: Draft)
    requires Gathered(f, [raw], f1) && Gathered(f1, rest, f2)
    ensures Gathered(f, [raw] + rest, f2)
  {
    assert ([raw] + rest)[1..] == rest && [raw][1..] == [];
  }

  ghost predicate HasFirstBad(block: seq<string>, e: ParseError) {
    exists i :: FirstBad(block, i, e)
  }

  lemma FirstBadLater(raw: string, rest: seq<string>, e: ParseError)
    requires LineError(raw).None? && HasFirstBad(rest, e)
    ensures HasFirstBad([raw] + rest, e)
  {
    var i :| FirstBad(rest, i, e);
    FirstBadShifts([raw] + rest, i, e);
  }

  lemma FirstBadShifts(block: seq<string>, i: int, e: ParseError)
    requires block != [] && LineError(block[0]).None? && FirstBad(block[1..], i, e)
    ensures FirstBad(block, i + 1, e)
  {
    var rest := block[1..];
    forall j | 0 <= j < i + 1 ensures LineError(block[j]).None? {
      if j > 0 {
        assert LineError(rest[j - 1]).None?;
      }
    }
  }

  lemma {:induction false} BlockRead(f: Draft, block: seq<string>)
    ensures var r := ReadLines(f, block);
      if r.Ok? then NothingWrong(block) && Gathered(f, block, r.value) else HasFirstBad(block, r.error)
    decreases |block|
  {
    if block != [] {
      var raw, rest := block[0], block[1..];
      LineRead(f, raw);
      assert block == [raw] + rest;
      if LineError(raw).Some? {
        assert FirstBad(block, 0, LineError(raw).value);
      } else {
        var f1 := Entered(f, raw);
        BlockRead(f1, rest);
        var r := ReadLines(f1, rest);
        if r.Ok? {
          LineGathered(f, raw);
          GatheredThen(f, raw, rest, f1, r.value);
        } else {
          FirstBadLater(raw, rest, r.error);
        }
      }
    }
  }

  // ---- The file ----

  /** The block lies between the first line and line `n`, the next delimiter. */
  predicate Closes(lines: seq<string>, n: int) {
    && |lines| > 0 && Trim(lines[0]) == "---"
    && 1 <= n < |lines| && Trim(lines[n]) == "---"
    && forall j :: 1 <= j < n ==> Trim(lines[j]) != "---"
  }

  /** The key has a last value, which is `v` and not empty. */
  predicate Gives(block: seq<string>, key: string, v: string) {
    LastValue(block, key) == Some(v) && v != ""
  }

  /** The block says this header: nothing is wrong in it, and each field is what its last line says. */
  predicate SaysHeader(block: seq<string>, f: Tactic) {
    && NothingWrong(block)
    && Gives(block, "name", f.name) && Gives(block, "capability", f.capability) && Gives(block, "harness", f.harness)
    && LastValue(block, "tools").Some? && NamesTools(LastValue(block, "tools").value, f.tools)
  }

  /** The lines say this tactic. */
  ghost predicate SaysTactic(lines: seq<string>, f: Tactic) {
    exists n :: Closes(lines, n) && SaysHeader(lines[1..n], f) && f.body == Trim(Join(lines[n + 1..], "\n"))
  }

  predicate Lacks(block: seq<string>, key: string) {
    LastValue(block, key).None? || LastValue(block, key).value == ""
  }

  /** The block fails in this way: the first line with something wrong, or else the first field that is missing. */
  ghost predicate BlockFails(block: seq<string>, e: ParseError) {
    match e
    case MissingField(key) =>
      && NothingWrong(block)
      && (if Lacks(block, "name") then key == "name"
          else if Lacks(block, "capability") then key == "capability"
          else if Lacks(block, "harness") then key == "harness"
          else key == "tools" && LastValue(block, "tools").None?)
    case MissingOpening => false
    case MissingClosing => false
    case _ => HasFirstBad(block, e)
  }

  /** The lines are no tactic, for this reason. */
  ghost predicate FailsWith(lines: seq<string>, e: ParseError)
    requires |lines| > 0
  {
    if Trim(lines[0]) != "---" then e == MissingOpening
    else if forall j :: 1 <= j < |lines| ==> Trim(lines[j]) != "---" then e == MissingClosing
    else exists n :: Closes(lines, n) && BlockFails(lines[1..n], e)
  }

  lemma ClosesOnce(lines: seq<string>, m: int, n: int)
    requires Closes(lines, m) && Closes(lines, n)
    ensures m == n
  {
  }

  /** What the reader gives for a block and a body. */
  function BlockGives(block: seq<string>, body: string): Parsed<Tactic, ParseError> {
    var r := ReadLines(NO_DRAFT, block);
    if r.Ok? then Finish(r.value, body) else Err(r.error)
  }

  lemma BlockMeans(block: seq<string>, body: string)
    ensures var r := BlockGives(block, body);
      if r.Ok? then SaysHeader(block, r.value) && r.value.body == body else BlockFails(block, r.error)
  {
    BlockRead(NO_DRAFT, block);
    var r := ReadLines(NO_DRAFT, block);
    if r.Err? {
      var i :| FirstBad(block, i, r.error);
      assert !r.error.MissingField? && !r.error.MissingOpening? && !r.error.MissingClosing?;
    }
  }

  lemma HeaderSaysOne(block: seq<string>, f: Tactic, g: Tactic)
    requires SaysHeader(block, f) && SaysHeader(block, g) && f.body == g.body
    ensures f == g
  {
    assert f.tools == g.tools;
  }

  lemma FailsOneWay(block: seq<string>, d: ParseError, e: ParseError)
    requires BlockFails(block, d) && BlockFails(block, e)
    ensures d == e
  {
  }

  lemma SaysOrFails(block: seq<string>, f: Tactic, e: ParseError)
    requires SaysHeader(block, f)
    ensures !BlockFails(block, e)
  {
  }

  lemma ParseGives(lines: seq<string>, n: int)
    requires Closes(lines, n)
    ensures ParseLines(lines) == BlockGives(lines[1..n], Trim(Join(lines[n + 1..], "\n")))
  {
    ClosesAt(lines, n);
  }

  lemma ParseDoesNotClose(lines: seq<string>)
    requires lines != [] && forall n :: !Closes(lines, n)
    ensures
      if Trim(lines[0]) != "---" then ParseLines(lines) == Err(MissingOpening)
      else ParseLines(lines) == Err(MissingClosing) && forall j :: 1 <= j < |lines| ==> Trim(lines[j]) != "---"
  {
    var close := CloseIndex(lines, 1);
    if Trim(lines[0]) == "---" && close.Some? {
      assert Closes(lines, close.value);
    }
  }

  /** Which texts are tactic files, and what each says: a text is read as `f` if and only if its lines say `f`. */
  lemma ParseMeans(data: string, f: Tactic)
    ensures Parse(data) == Ok(f) <==> SaysTactic(Split(Normalize(data), '\n'), f)
  {
    var lines := Split(Normalize(data), '\n');
    if n :| Closes(lines, n) {
      ParseGives(lines, n);
      ClosedMeans(lines, n, f);
    } else {
      ParseDoesNotClose(lines);
    }
  }

  lemma ClosedMeans(lines: seq<string>, n: int, f: Tactic)
    requires Closes(lines, n)
    ensures BlockGives(lines[1..n], Trim(Join(lines[n + 1..], "\n"))) == Ok(f) <==> SaysTactic(lines, f)
  {
    var block, body := lines[1..n], Trim(Join(lines[n + 1..], "\n"));
    BlockMeans(block, body);
    if SaysTactic(lines, f) {
      var m :| Closes(lines, m) && SaysHeader(lines[1..m], f) && f.body == Trim(Join(lines[m + 1..], "\n"));
      ClosesOnce(lines, m, n);
      var r := BlockGives(block, body);
      if r.Ok? {
        HeaderSaysOne(block, f, r.value);
      } else {
        SaysOrFails(block, f, r.error);
      }
    }
  }

  /** And each other text is refused for the reason that its lines give. */
  lemma ParseFailsFor(data: string, e: ParseError)
    ensures Parse(data) == Err(e) <==> FailsWith(Split(Normalize(data), '\n'), e)
  {
    var lines := Split(Normalize(data), '\n');
    if n :| Closes(lines, n) {
      ParseGives(lines, n);
      ClosedFails(lines, n, e);
    } else {
      ParseDoesNotClose(lines);
    }
  }

  lemma ClosedFails(lines: seq<string>, n: int, e: ParseError)
    requires Closes(lines, n)
    ensures BlockGives(lines[1..n], Trim(Join(lines[n + 1..], "\n"))) == Err(e) <==> FailsWith(lines, e)
  {
    var block, body := lines[1..n], Trim(Join(lines[n + 1..], "\n"));
    BlockMeans(block, body);
    if FailsWith(lines, e) {
      var m :| Closes(lines, m) && BlockFails(lines[1..m], e);
      ClosesOnce(lines, m, n);
      var r := BlockGives(block, body);
      if r.Err? {
        FailsOneWay(block, e, r.error);
      } else {
        SaysOrFails(block, r.value, e);
      }
    }
  }

  // ---- Lines that do not matter ----

  /** A line of white space, or with a colon and a key that means nothing here. */
  predicate SaysNothing(raw: string) {
    || AllSpace(raw)
    || (LineOf(raw).Pair? && LineOf(raw).key !in {"name", "capability", "harness", "tools"})
  }

  lemma NothingIsNoDelimiter(raw: string)
    requires SaysNothing(raw)
    ensures Trim(raw) != "---"
  {
    AllSpaceTrims(raw);
    if !AllSpace(raw) {
      CutTrimmed(raw);
    }
  }

  lemma {:induction false} NothingIsSkipped(f: Draft, a: seq<string>, raw: string, b: seq<string>)
    requires SaysNothing(raw)
    ensures ReadLines(f, a + [raw] + b) == ReadLines(f, a + b)
    decreases |a|
  {
    LineRead(f, raw);
    if a == [] {
      assert ([] + [raw] + b)[1..] == b && [] + b == b;
    } else {
      assert (a + [raw] + b)[1..] == a[1..] + [raw] + b && (a + b)[1..] == a[1..] + b;
      var r := ReadLine(f, a[0]);
      if r.Ok? {
        NothingIsSkipped(r.value, a[1..], raw, b);
      }
    }
  }

  /** A line that says nothing here, put anywhere between the delimiters, leaves what the text is read as unchanged,
      errors included. */
  lemma NothingChanges(data: string, data': string, a: seq<string>, raw: string, b: seq<string>)
    requires a != [] && Split(Normalize(data), '\n') == a + b && Split(Normalize(data'), '\n') == a + [raw] + b
    requires SaysNothing(raw) && forall j :: 1 <= j < |a| ==> Trim(a[j]) != "---"
    ensures Parse(data') == Parse(data)
  {
    NothingChangesLines(a, raw, b);
  }

  lemma NothingChangesLines(a: seq<string>, raw: string, b: seq<string>)
    requires a != [] && SaysNothing(raw) && forall j :: 1 <= j < |a| ==> Trim(a[j]) != "---"
    ensures ParseLines(a + [raw] + b) == ParseLines(a + b)
  {
    var lines, lines' := a + b, a + [raw] + b;
    NothingIsNoDelimiter(raw);
    if n :| Closes(lines, n) {
      ClosedAlike(a, raw, b, n);
    } else {
      ClosesAlike(a, raw, b);
      ParseDoesNotClose(lines);
      ParseDoesNotClose(lines');
      assert a[0] == lines[0] == lines'[0];
    }
  }

  lemma ClosedAlike(a: seq<string>, raw: string, b: seq<string>, n: int)
    requires a != [] && SaysNothing(raw) && Trim(raw) != "---" && forall j :: 1 <= j < |a| ==> Trim(a[j]) != "---"
    requires Closes(a + b, n)
    ensures ParseLines(a + [raw] + b) == ParseLines(a + b)
  {
    InsertedCloses(a, raw, b, n);
    InsertedBlock(a, raw, b, n);
    ParseGives(a + b, n);
    ParseGives(a + [raw] + b, n + 1);
    SameBlockGives(a[1..], raw, b[..n - |a|], Trim(Join((a + b)[n + 1..], "\n")));
  }

  lemma ClosesAlike(a: seq<string>, raw: string, b: seq<string>)
    requires a != [] && Trim(raw) != "---" && (forall j :: 1 <= j < |a| ==> Trim(a[j]) != "---")
    ensures (exists n :: Closes(a + [raw] + b, n)) ==> exists n :: Closes(a + b, n)
  {
    if n :| Closes(a + [raw] + b, n) {
      RemovedCloses(a, raw, b, n);
    }
  }

  lemma SameBlockGives(a: seq<string>, raw: string, b: seq<string>, body: string)
    requires SaysNothing(raw)
    ensures BlockGives(a + [raw] + b, body) == BlockGives(a + b, body)
  {
    NothingIsSkipped(NO_DRAFT, a, raw, b);
  }

  lemma InsertedBlock(a: seq<string>, raw: string, b: seq<string>, n: int)
    requires a != [] && |a| <= n < |a| + |b|
    ensures (a + b)[1..n] == a[1..] + b[..n - |a|]
    ensures (a + [raw] + b)[1..n + 1] == a[1..] + [raw] + b[..n - |a|]
    ensures (a + [raw] + b)[n + 2..] == (a + b)[n + 1..]
  {
  }

  lemma InsertedCloses(a: seq<string>, raw: string, b: seq<string>, n: int)
    requires a != [] && Trim(raw) != "---" && (forall j :: 1 <= j < |a| ==> Trim(a[j]) != "---") && Closes(a + b, n)
    ensures n >= |a| && Closes(a + [raw] + b, n + 1)
  {
    var lines, lines' := a + b, a + [raw] + b;
    assert forall j :: 0 <= j < |a| ==> lines[j] == a[j];
    assert n >= |a|;
    forall j | 1 <= j < n + 1 ensures Trim(lines'[j]) != "---" {
      if j < |a| {
        assert lines'[j] == a[j];
      } else if j > |a| {
        assert lines'[j] == lines[j - 1];
      }
    }
    assert lines'[n + 1] == lines[n] && lines'[0] == lines[0];
  }

  lemma RemovedCloses(a: seq<string>, raw: string, b: seq<string>, n: int)
    requires a != [] && Trim(raw) != "---" && (forall j :: 1 <= j < |a| ==> Trim(a[j]) != "---")
    requires Closes(a + [raw] + b, n)
    ensures Closes(a + b, n - 1)
  {
    var lines, lines' := a + b, a + [raw] + b;
    assert lines'[|a|] == raw && forall j :: 0 <= j < |a| ==> lines'[j] == a[j];
    assert n > |a|;
    forall j | 1 <= j < n - 1 ensures Trim(lines[j]) != "---" {
      if j < |a| {
        assert lines[j] == a[j];
      } else {
        assert lines[j] == lines'[j + 1];
      }
    }
    assert lines[n - 1] == lines'[n] && lines[0] == lines'[0];
  }
}
