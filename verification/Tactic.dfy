/** Tactic files: a block of `key: value` lines between two `---` lines, then prose. */
module TacticFile {
  import opened Tables
  import opened Text

  datatype Tactic = Tactic(
    name: string,
    capability: string,
    harness: string,
    tools: seq<string>,
    body: string)

  datatype ParseError =
    | MissingOpening
    | MissingClosing
    | MalformedLine(raw: string)
    | ToolsNotList
    | ToolsEmpty
    | EmptyTool
    | MissingField(key: string)

  /** A tactic under construction; `None` tools have not been read. */
  datatype Draft = Draft(name: string, capability: string, harness: string, tools: Option<seq<string>>)

  const NO_DRAFT := Draft("", "", "", None)

  predicate IsDelimiter(line: string) {
    Trim(line) == "---"
  }

  /** The first delimiter at `from` or later. */
  function CloseIndex(lines: seq<string>, from: nat): (i: Option<nat>)
    ensures i.Some? ==> from <= i.value < |lines| && IsDelimiter(lines[i.value])
    ensures i.Some? ==> forall j :: from <= j < i.value ==> !IsDelimiter(lines[j])
    ensures i.None? ==> forall j :: from <= j < |lines| ==> !IsDelimiter(lines[j])
    decreases |lines| - from
  {
    if from >= |lines| then None else if IsDelimiter(lines[from]) then Some(from) else CloseIndex(lines, from + 1)
  }

  /** The trimmed pieces, unless one is empty. */
  function TrimAll(parts: seq<string>): Option<seq<string>> {
    if parts == [] then Some([])
    else
      var t := Trim(parts[0]);
      var rest := TrimAll(parts[1..]);
      if t == "" || rest.None? then None else Some([t] + rest.value)
  }

  function ParseTools(value: string): Parsed<seq<string>, ParseError> {
    if value == "" || value[0] != '[' || value[|value| - 1] != ']' then Err(ToolsNotList)
    else
      var inner := Trim(value[1..|value| - 1]);
      if inner == "" then Err(ToolsEmpty)
      else
        var tools := TrimAll(Split(inner, ','));
        if tools.None? then Err(EmptyTool) else Ok(tools.value)
  }

  datatype Key = Name | Capability | Harness | Tools

  /** The key that a word names, if it names one. */
  function KeyOf(word: string): Option<Key> {
    if word == "name" then Some(Name)
    else if word == "capability" then Some(Capability)
    else if word == "harness" then Some(Harness)
    else if word == "tools" then Some(Tools)
    else None
  }

  /** Later values override earlier ones. */
  function Assign(f: Draft, key: Key, value: string): Parsed<Draft, ParseError> {
    match key
    case Name => Ok(f.(name := value))
    case Capability => Ok(f.(capability := value))
    case Harness => Ok(f.(harness := value))
    case Tools =>
      (match ParseTools(value)
       case Ok(tools) => Ok(f.(tools := Some(tools)))
       case Err(e) => Err(e))
  }

  /** One line of the block; lines with unknown keys are skipped. */
  function ReadLine(f: Draft, raw: string): Parsed<Draft, ParseError> {
    var line := Trim(raw);
    if line == "" then Ok(f)
    else
      var colon := IndexOf(line, ':');
      if colon.None? then Err(MalformedLine(raw))
      else
        var key := KeyOf(Trim(line[..colon.value]));
        if key.None? then Ok(f) else Assign(f, key.value, Trim(line[colon.value + 1..]))
  }

  function ReadLines(f: Draft, lines: seq<string>): Parsed<Draft, ParseError>
    decreases |lines|
  {
    if lines == [] then Ok(f)
    else
      match ReadLine(f, lines[0])
      case Ok(f') => ReadLines(f', lines[1..])
      case Err(e) => Err(e)
  }

  function Finish(f: Draft, body: string): Parsed<Tactic, ParseError> {
    if f.name == "" then Err(MissingField("name"))
    else if f.capability == "" then Err(MissingField("capability"))
    else if f.harness == "" then Err(MissingField("harness"))
    else if f.tools.None? then Err(MissingField("tools"))
    else Ok(Tactic(f.name, f.capability, f.harness, f.tools.value, body))
  }

  function ParseLines(lines: seq<string>): Parsed<Tactic, ParseError>
    requires |lines| > 0
  {
    if !IsDelimiter(lines[0]) then Err(MissingOpening)
    else
      var close := CloseIndex(lines, 1);
      if close.None? then Err(MissingClosing)
      else
        match ReadLines(NO_DRAFT, lines[1..close.value])
        case Ok(f) => Finish(f, Trim(Join(lines[close.value + 1..], "\n")))
        case Err(e) => Err(e)
  }

  function Parse(data: string): Parsed<Tactic, ParseError> {
    ParseLines(Split(Normalize(data), '\n'))
  }

  /** The keys as they are written. */
  function KeyText(key: Key): string {
    match key
    case Name => "name"
    case Capability => "capability"
    case Harness => "harness"
    case Tools => "tools"
  }

  datatype Field = Field(key: Key, value: string)

  function FieldLine(field: Field): string {
    KeyText(field.key) + ": " + field.value
  }

  function FieldsOf(f: Tactic): seq<Field> {
    [Field(Name, f.name), Field(Capability, f.capability), Field(Harness, f.harness),
     Field(Tools, "[" + Join(f.tools, ", ") + "]")]
  }

  /** One line per field, and then `tail`. */
  function Block(fields: seq<Field>, tail: string): string {
    if fields == [] then tail else FieldLine(fields[0]) + "\n" + Block(fields[1..], tail)
  }

  /** What follows the fields. */
  function TailOf(f: Tactic): string {
    "---" + "\n" + ("" + "\n" + (f.body + "\n"))
  }

  function Render(f: Tactic): string {
    "---" + "\n" + Block(FieldsOf(f), TailOf(f))
  }

  // ---- What is parsed ----

  /** A value that fits on the rest of a line. */
  predicate Scalar(s: string) {
    s != "" && Trimmed(s) && '\n' !in s
  }

  predicate ToolsOk(tools: seq<string>) {
    tools != [] && forall i :: 0 <= i < |tools| ==> Scalar(tools[i]) && ',' !in tools[i]
  }

  predicate HeaderOk(f: Tactic) {
    Scalar(f.name) && Scalar(f.capability) && Scalar(f.harness) && ToolsOk(f.tools)
  }

  predicate WellFormed(f: Tactic) {
    HeaderOk(f) && Trimmed(f.body) && NoCrlf(f.body)
  }

  predicate DraftOk(f: Draft) {
    && Trimmed(f.name) && '\n' !in f.name
    && Trimmed(f.capability) && '\n' !in f.capability
    && Trimmed(f.harness) && '\n' !in f.harness
    && (f.tools.Some? ==> ToolsOk(f.tools.value))
  }

  lemma TrimKeepsOut(s: string, c: char)
    requires c !in s
    ensures c !in Trim(s) && Trimmed(Trim(s))
  {
    var i := TrimIsPart(s);
  }

  lemma {:induction false} TrimAllOk(parts: seq<string>)
    requires forall i :: 0 <= i < |parts| ==> '\n' !in parts[i] && ',' !in parts[i]
    requires parts != [] && TrimAll(parts).Some?
    ensures ToolsOk(TrimAll(parts).value)
  {
    TrimKeepsOut(parts[0], '\n');
    TrimKeepsOut(parts[0], ',');
    if |parts| > 1 {
      TrimAllOk(parts[1..]);
    }
  }

  lemma {:induction false} SplitKeepsOut(s: string, sep: char, c: char)
    requires c !in s
    ensures forall i :: 0 <= i < |Split(s, sep)| ==> c !in Split(s, sep)[i]
  {
    if s != "" {
      SplitKeepsOut(s[1..], sep, c);
    }
  }

  lemma ParseToolsOk(value: string)
    requires '\n' !in value && ParseTools(value).Ok?
    ensures ToolsOk(ParseTools(value).value)
  {
    var middle := value[1..|value| - 1];
    TrimKeepsOut(middle, '\n');
    SplitKeepsOut(Trim(middle), ',', '\n');
    TrimAllOk(Split(Trim(middle), ','));
  }

  lemma AssignOk(f: Draft, key: Key, value: string)
    requires DraftOk(f) && Trimmed(value) && '\n' !in value && Assign(f, key, value).Ok?
    ensures DraftOk(Assign(f, key, value).value)
  {
    if key.Tools? {
      ParseToolsOk(value);
    }
  }

  lemma ReadLineOk(f: Draft, raw: string)
    requires DraftOk(f) && '\n' !in raw && ReadLine(f, raw).Ok?
    ensures DraftOk(ReadLine(f, raw).value)
  {
    var line := Trim(raw);
    TrimKeepsOut(raw, '\n');
    var colon := IndexOf(line, ':');
    if line != "" && colon.Some? {
      TrimKeepsOut(line[colon.value + 1..], '\n');
      var key := KeyOf(Trim(line[..colon.value]));
      if key.Some? {
        AssignOk(f, key.value, Trim(line[colon.value + 1..]));
      }
    }
  }

  lemma {:induction false} ReadLinesOk(f: Draft, lines: seq<string>)
    requires DraftOk(f) && ReadLines(f, lines).Ok?
    requires forall i :: 0 <= i < |lines| ==> '\n' !in lines[i]
    ensures DraftOk(ReadLines(f, lines).value)
    decreases |lines|
  {
    if lines != [] {
      ReadLineOk(f, lines[0]);
      ReadLinesOk(ReadLine(f, lines[0]).value, lines[1..]);
    }
  }

  /** Whatever is accepted has a header that can be written out, and a trimmed body. */
  lemma ParsedIsWritable(data: string)
    requires Parse(data).Ok?
    ensures HeaderOk(Parse(data).value) && Trimmed(Parse(data).value.body)
  {
    var lines := Split(Normalize(data), '\n');
    var close := CloseIndex(lines, 1);
    ReadLinesOk(NO_DRAFT, lines[1..close.value]);
    var _ := TrimIsPart(Join(lines[close.value + 1..], "\n"));
  }

  // ---- What is rendered ----

  predicate FieldOk(field: Field) {
    Scalar(field.value)
  }

  lemma KeyTextOk(key: Key)
    ensures Scalar(KeyText(key)) && ':' !in KeyText(key) && KeyText(key)[0] != '-' && KeyOf(KeyText(key)) == Some(key)
  {
  }

  lemma ColonAfter(key: string, rest: string)
    requires ':' !in key
    ensures IndexOf(key + ":" + rest, ':') == Some(|key|)
  {
    var line := key + ":" + rest;
    assert line[|key|] == ':' && line[..|key|] == key;
  }

  /** A line of key and value is trimmed, and is read as that value of that key. */
  lemma ReadsLine(f: Draft, key: string, value: string)
    requires Scalar(key) && ':' !in key && KeyOf(key).Some? && Scalar(value)
    ensures ReadLine(f, key + ": " + value) == Assign(f, KeyOf(key).value, value)
    ensures Trim(key + ": " + value) == key + ": " + value
  {
    var line := key + ": " + value;
    assert line[0] == key[0] && line[|line| - 1] == value[|value| - 1];
    TrimOfTrimmed(line);
    ColonAfter(key, " " + value);
    assert line == key + ":" + (" " + value);
    assert line[..|key|] == key;
    TrimOfTrimmed(key);
    assert line[|key| + 1..] == " " + value + "";
    TrimsTo(" ", value, "");
  }

  lemma ReadsField(f: Draft, field: Field)
    requires FieldOk(field)
    ensures ReadLine(f, FieldLine(field)) == Assign(f, field.key, field.value)
    ensures var line := FieldLine(field);
      '\n' !in line && line != "" && line[|line| - 1] != '\r' && !IsDelimiter(line)
  {
    KeyTextOk(field.key);
    ReadsLine(f, KeyText(field.key), field.value);
    assert FieldLine(field)[0] == KeyText(field.key)[0];
    assert FieldLine(field)[|FieldLine(field)| - 1] == field.value[|field.value| - 1];
  }

  lemma NormalizeLine(line: string, rest: string)
    requires '\n' !in line && (line == "" || line[|line| - 1] != '\r')
    ensures Split(Normalize(line + "\n" + rest), '\n') == [line] + Split(Normalize(rest), '\n')
  {
    NormalizeConcat(line + "\n", rest);
    NormalizeConcat(line, "\n");
    NormalizeShortens(line);
    NormalizeShortens("\n");
    assert Normalize(line + "\n" + rest) == line + ['\n'] + Normalize(rest);
    SplitOff(line, Normalize(rest), '\n');
  }

  function LinesOf(fields: seq<Field>): (lines: seq<string>)
    ensures |lines| == |fields|
  {
    if fields == [] then [] else [FieldLine(fields[0])] + LinesOf(fields[1..])
  }

  /** A block of fields is split into a line per field, none of them a delimiter. */
  lemma {:induction false} BlockLines(fields: seq<Field>, tail: string)
    requires forall i :: 0 <= i < |fields| ==> FieldOk(fields[i])
    ensures Split(Normalize(Block(fields, tail)), '\n') == LinesOf(fields) + Split(Normalize(tail), '\n')
    ensures forall i :: 0 <= i < |fields| ==> !IsDelimiter(LinesOf(fields)[i])
  {
    if fields != [] {
      ReadsField(NO_DRAFT, fields[0]);
      BlockLines(fields[1..], tail);
      NormalizeLine(FieldLine(fields[0]), Block(fields[1..], tail));
    }
  }

  function AssignAll(f: Draft, fields: seq<Field>): Parsed<Draft, ParseError>
    decreases |fields|
  {
    if fields == [] then Ok(f)
    else
      match Assign(f, fields[0].key, fields[0].value)
      case Ok(f') => AssignAll(f', fields[1..])
      case Err(e) => Err(e)
  }

  lemma {:induction false} ReadsBlock(f: Draft, fields: seq<Field>)
    requires forall i :: 0 <= i < |fields| ==> FieldOk(fields[i])
    ensures ReadLines(f, LinesOf(fields)) == AssignAll(f, fields)
    decreases |fields|
  {
    if fields != [] {
      ReadsField(f, fields[0]);
      assert LinesOf(fields)[1..] == LinesOf(fields[1..]);
      var r := Assign(f, fields[0].key, fields[0].value);
      if r.Ok? {
        ReadsBlock(r.value, fields[1..]);
      }
    }
  }

  /** The tools after the first, each with the blank that follows its comma. */
  function Spaced(tools: seq<string>): seq<string> {
    if tools == [] then [] else [" " + tools[0]] + Spaced(tools[1..])
  }

  lemma {:induction false} SplitTools(first: string, tools: seq<string>, all: seq<string>)
    requires ',' !in first && forall i :: 0 <= i < |tools| ==> ',' !in tools[i]
    requires all == [first] + tools
    ensures Split(Join(all, ", "), ',') == [first] + Spaced(tools)
    decreases |tools|
  {
    if tools == [] {
      SplitNone(first, ',');
    } else {
      var rest := [" " + tools[0]] + tools[1..];
      SplitTools(" " + tools[0], tools[1..], rest);
      assert all[1..] == tools;
      assert Join(rest, ", ") == " " + Join(tools, ", ") by {
        if |tools| > 1 {
          assert rest[1..] == tools[1..];
          assert (" " + tools[0]) + ", " + Join(tools[1..], ", ") == " " + (tools[0] + ", " + Join(tools[1..], ", "));
        }
      }
      assert Join(all, ", ") == first + [','] + Join(rest, ", ");
      SplitOff(first, Join(rest, ", "), ',');
    }
  }

  lemma {:induction false} TrimSpaced(tools: seq<string>)
    requires forall i :: 0 <= i < |tools| ==> Scalar(tools[i])
    ensures TrimAll(Spaced(tools)) == Some(tools)
  {
    if tools != [] {
      TrimSpaced(tools[1..]);
      assert Spaced(tools)[1..] == Spaced(tools[1..]);
      SpacedTrims(tools[0]);
      assert tools == [tools[0]] + tools[1..];
    }
  }

  lemma SpacedTrims(tool: string)
    requires Scalar(tool)
    ensures Trim(" " + tool) == tool
  {
    assert " " + tool == " " + tool + "";
    TrimsTo(" ", tool, "");
  }

  lemma {:induction false} JoinedTools(tools: seq<string>)
    requires ToolsOk(tools)
    ensures var text := Join(tools, ", ");
      Scalar(text) && text[0] == tools[0][0]
  {
    if |tools| > 1 {
      JoinedTools(tools[1..]);
      var rest := Join(tools[1..], ", ");
      var text := tools[0] + ", " + rest;
      assert text[|text| - 1] == rest[|rest| - 1];
    }
  }

  lemma ParsesTools(tools: seq<string>)
    requires ToolsOk(tools)
    ensures ParseTools("[" + Join(tools, ", ") + "]") == Ok(tools)
  {
    JoinedTools(tools);
    var text := Join(tools, ", ");
    var value := "[" + text + "]";
    assert value[1..|value| - 1] == text;
    TrimOfTrimmed(text);
    assert tools == [tools[0]] + tools[1..];
    SplitTools(tools[0], tools[1..], tools);
    TrimSpaced(tools[1..]);
    TrimOfTrimmed(tools[0]);
    var parts := [tools[0]] + Spaced(tools[1..]);
    assert parts[1..] == Spaced(tools[1..]);
    assert TrimAll(parts) == Some([tools[0]] + tools[1..]);
  }

  lemma FieldsOk(f: Tactic)
    requires HeaderOk(f)
    ensures forall i :: 0 <= i < 4 ==> FieldOk(FieldsOf(f)[i])
    ensures AssignAll(NO_DRAFT, FieldsOf(f)) == Ok(Draft(f.name, f.capability, f.harness, Some(f.tools)))
  {
    JoinedTools(f.tools);
    ParsesTools(f.tools);
    var fields := FieldsOf(f);
    var d1 := NO_DRAFT.(name := f.name);
    var d2 := d1.(capability := f.capability);
    var d3 := d2.(harness := f.harness);
    assert fields[1..][1..][1..] == [fields[3]] && fields[1..][1..] == [fields[2], fields[3]];
    assert AssignAll(d3, [fields[3]]) == Ok(d3.(tools := Some(f.tools)));
    assert AssignAll(d2, fields[1..][1..]) == AssignAll(d3, [fields[3]]);
    assert AssignAll(d1, fields[1..]) == AssignAll(d2, fields[1..][1..]);
  }

  lemma ClosesAt(lines: seq<string>, n: nat)
    requires 1 <= n < |lines| && IsDelimiter(lines[n])
    requires forall j :: 1 <= j < n ==> !IsDelimiter(lines[j])
    ensures CloseIndex(lines, 1) == Some(n)
  {
  }

  /** Lines between two delimiters are read as fields, and what follows them as the body. */
  lemma ParsesBlock(block: seq<string>, rest: seq<string>)
    requires forall i :: 0 <= i < |block| ==> !IsDelimiter(block[i])
    ensures var r := ReadLines(NO_DRAFT, block);
      ParseLines(["---"] + (block + (["---"] + rest)))
      == if r.Ok? then Finish(r.value, Trim(Join(rest, "\n"))) else Err(r.error)
  {
    var lines := ["---"] + (block + (["---"] + rest));
    var n := |block| + 1;
    TrimOfTrimmed("---");
    assert lines[n] == "---";
    forall j | 1 <= j < n ensures !IsDelimiter(lines[j]) {
      assert lines[j] == block[j - 1];
    }
    ClosesAt(lines, n);
    assert lines[1..n] == block;
    assert lines[n + 1..] == rest;
  }

  lemma TrimSkips(left: string, s: string)
    requires AllSpace(left)
    ensures Trim(left + s) == Trim(s)
  {
    var i := TrimIsPart(s);
    var t := Trim(s);
    assert left + s == (left + s[..i]) + t + s[i + |t|..];
    TrimsTo(left + s[..i], t, s[i + |t|..]);
  }

  /** What the lines of a rendered tactic are. */
  lemma RenderedLines(f: Tactic)
    requires HeaderOk(f)
    ensures Split(Normalize(Render(f)), '\n')
         == ["---"] + (LinesOf(FieldsOf(f)) + (["---"] + ([""] + Split(Normalize(f.body + "\n"), '\n'))))
    ensures forall i :: 0 <= i < |LinesOf(FieldsOf(f))| ==> !IsDelimiter(LinesOf(FieldsOf(f))[i])
  {
    var fields, tail := FieldsOf(f), "" + "\n" + (f.body + "\n");
    FieldsOk(f);
    NormalizeLine("", f.body + "\n");
    NormalizeLine("---", tail);
    BlockLines(fields, "---" + "\n" + tail);
    NormalizeLine("---", Block(fields, "---" + "\n" + tail));
  }

  /** Reading back what was rendered from a sound header changes only the body. */
  lemma RenderParses(f: Tactic)
    requires HeaderOk(f)
    ensures Parse(Render(f)) == Ok(f.(body := Trim(Normalize(f.body + "\n"))))
  {
    var fields, text := FieldsOf(f), Normalize(f.body + "\n");
    FieldsOk(f);
    RenderedLines(f);
    var rest := [""] + Split(text, '\n');
    ParsesBlock(LinesOf(fields), rest);
    ReadsBlock(NO_DRAFT, fields);
    assert rest[1..] == Split(text, '\n');
    JoinSplit(text, '\n');
    assert Join(rest, "\n") == "\n" + text;
    TrimSkips("\n", text);
  }

  /** The last line end of the body is trimmed away. */
  lemma TrimLosesLineEnd(s: string)
    ensures |Trim(s + "\n")| <= |s|
  {
    var i := TrimIsPart(s + "\n");
    assert (s + "\n")[|s|] == '\n' && IsSpace('\n');
  }

  lemma BodySurvives(body: string)
    requires Trimmed(body) && NoCrlf(body)
    ensures Trim(Normalize(body + "\n")) == body
  {
    NormalizeConcat(body, "\n");
    NormalizeShortens(body);
    NormalizeShortens("\n");
    assert "" + body + "\n" == body + "\n";
    TrimsTo("", body, "\n");
  }

  lemma BodyShrinks(body: string)
    requires Trimmed(body) && !NoCrlf(body)
    ensures |Trim(Normalize(body + "\n"))| < |body|
  {
    NormalizeConcat(body, "\n");
    NormalizeShortens(body);
    NormalizeShortens("\n");
    TrimLosesLineEnd(Normalize(body));
  }

  /** Exactly the well-formed tactics survive being rendered and parsed. */
  lemma RoundTrip(f: Tactic)
    ensures Parse(Render(f)) == Ok(f) <==> WellFormed(f)
  {
    if WellFormed(f) {
      RenderParses(f);
      BodySurvives(f.body);
    } else if Parse(Render(f)) == Ok(f) {
      ParsedIsWritable(Render(f));
      RenderParses(f);
      BodyShrinks(f.body);
    }
  }

  /** An accepted text reads the same after rendering exactly when its body keeps no `\r\n`. */
  lemma NormalForm(data: string)
    requires Parse(data).Ok?
    ensures var f := Parse(data).value; Parse(Render(f)) == Ok(f) <==> NoCrlf(f.body)
  {
    ParsedIsWritable(data);
    RoundTrip(Parse(data).value);
  }

  lemma {:induction false} JoinSuffix(parts: seq<string>, sep: string, k: nat) returns (i: nat)
    requires k < |parts|
    ensures i <= |Join(parts, sep)| && Join(parts[k..], sep) == Join(parts, sep)[i..]
    decreases k
  {
    if k == 0 {
      i := 0;
      assert parts[0..] == parts;
    } else {
      i := JoinSuffix(parts[1..], sep, k - 1);
      assert parts[1..][k - 1..] == parts[k..];
      i := |parts[0]| + |sep| + i;
    }
  }

  lemma BodyIsPart(lines: seq<string>, k: nat)
    requires k < |lines| && NoCrlf(Join(lines, "\n"))
    ensures NoCrlf(Trim(Join(lines[k + 1..], "\n")))
  {
    var rest := Join(lines[k + 1..], "\n");
    if k + 1 < |lines| {
      var i := JoinSuffix(lines, "\n", k + 1);
    }
    assert NoCrlf(rest);
    var j := TrimIsPart(rest);
  }

  /** A text without `\r\n` once normalized, such as one without `\r\r\n`, is in that case. */
  lemma NormalizedOnceIsEnough(data: string)
    requires Parse(data).Ok? && NoCrlf(Normalize(data))
    ensures Parse(Render(Parse(data).value)) == Parse(data)
  {
    var lines := Split(Normalize(data), '\n');
    JoinSplit(Normalize(data), '\n');
    BodyIsPart(lines, CloseIndex(lines, 1).value);
    NormalForm(data);
  }

  lemma NormalizeDoubledReturn()
    ensures Normalize("a\r\r\nb\n") == "a\r\nb\n"
  {
    var s := "a\r\r\nb\n";
    assert s[1..] == "\r\r\nb\n" && s[2..] == "\r\nb\n" && s[4..] == "b\n";
    NormalizeShortens(s[4..]);
    assert s[2..][2..] == s[4..] && s[1..][1..] == s[2..];
    assert Normalize(s[2..]) == "\n" + s[4..];
    assert Normalize(s[1..]) == "\r" + ("\n" + s[4..]);
  }

  /** A body with `\r\r\n` is accepted, keeps a `\r\n`, and loses it on the way back. */
  lemma DoubledReturnIsNotStable(f: Tactic)
    requires HeaderOk(f)
    ensures var data := Render(f.(body := "a\r\r\nb"));
      && Parse(data) == Ok(f.(body := "a\r\nb"))
      && Parse(Render(f.(body := "a\r\nb"))) != Parse(data)
  {
    var g := f.(body := "a\r\r\nb");
    RenderParses(g);
    DoubledReturnBody();
    RoundTrip(f.(body := "a\r\nb"));
  }

  lemma DoubledReturnBody()
    ensures Trim(Normalize("a\r\r\nb" + "\n")) == "a\r\nb"
    ensures Trimmed("a\r\nb") && !NoCrlf("a\r\nb")
  {
    NormalizeDoubledReturn();
    assert "a\r\r\nb" + "\n" == "a\r\r\nb\n";
    assert "a\r\nb\n" == "" + "a\r\nb" + "\n";
    TrimsTo("", "a\r\nb", "\n");
    assert "a\r\nb"[1] == '\r' && "a\r\nb"[2] == '\n';
  }

  // ---- As the program does it ----

  function Prepended(tools: seq<string>, rest: Option<seq<string>>): Option<seq<string>> {
    if rest.None? then None else Some(tools + rest.value)
  }

  lemma PrependedStep(tools: seq<string>, parts: seq<string>, i: nat)
    requires i < |parts|
    ensures var t := Trim(parts[i]);
      Prepended(tools, TrimAll(parts[i..]))
      == if t == "" then None else Prepended(tools + [t], TrimAll(parts[i + 1..]))
  {
    assert parts[i..][1..] == parts[i + 1..];
    var rest := TrimAll(parts[i + 1..]);
    if rest.Some? {
      assert tools + ([Trim(parts[i])] + rest.value) == (tools + [Trim(parts[i])]) + rest.value;
    }
  }

  lemma PrependedEnds(tools: seq<string>, parts: seq<string>)
    ensures Prepended([], TrimAll(parts[0..])) == TrimAll(parts)
    ensures Prepended(tools, TrimAll(parts[|parts|..])) == Some(tools)
  {
    assert parts[0..] == parts;
    assert parts[|parts|..] == [] && tools + [] == tools;
    var all := TrimAll(parts);
    if all.Some? {
      assert [] + all.value == all.value;
    }
  }

  method ParseToolsList(value: string) returns (r: Parsed<seq<string>, ParseError>)
    ensures r == ParseTools(value)
  {
    if !("[" <= value && value[|value| - 1] == ']') {
      return Err(ToolsNotList);
    }
    var inner := Trim(value[1..|value| - 1]);
    if inner == "" {
      return Err(ToolsEmpty);
    }
    var parts := Split(inner, ',');
    var tools := [];
    PrependedEnds([], parts);
    for i := 0 to |parts|
      invariant TrimAll(parts) == Prepended(tools, TrimAll(parts[i..]))
    {
      var t := Trim(parts[i]);
      PrependedStep(tools, parts, i);
      if t == "" {
        return Err(EmptyTool);
      }
      tools := tools + [t];
    }
    PrependedEnds(tools, parts);
    return Ok(tools);
  }

  method ParseLine(draft: Draft, raw: string) returns (r: Parsed<Draft, ParseError>)
    ensures r == ReadLine(draft, raw)
  {
    var f := draft;
    var line := Trim(raw);
    if line == "" {
      return Ok(f);
    }
    var colon := IndexOf(line, ':');
    if colon.None? {
      return Err(MalformedLine(raw));
    }
    var key, value := KeyOf(Trim(line[..colon.value])), Trim(line[colon.value + 1..]);
    match key {
      case Some(Name) => f := f.(name := value);
      case Some(Capability) => f := f.(capability := value);
      case Some(Harness) => f := f.(harness := value);
      case Some(Tools) =>
        var tools := ParseToolsList(value);
        if tools.Err? {
          return Err(tools.error);
        }
        f := f.(tools := Some(tools.value));
      case None =>
    }
    return Ok(f);
  }

  method ParseTactic(data: string) returns (r: Parsed<Tactic, ParseError>)
    ensures r == Parse(data)
  {
    var lines := Split(Normalize(data), '\n');
    if Trim(lines[0]) != "---" {
      return Err(MissingOpening);
    }
    var closeIdx := -1;
    for i := 1 to |lines|
      invariant closeIdx == -1
      invariant forall j :: 1 <= j < i ==> !IsDelimiter(lines[j])
    {
      if Trim(lines[i]) == "---" {
        closeIdx := i;
        break;
      }
    }
    if closeIdx == -1 {
      return Err(MissingClosing);
    }
    ClosesAt(lines, closeIdx);
    var block := lines[1..closeIdx];
    var f := NO_DRAFT;
    assert block[0..] == block;
    for i := 0 to |block|
      invariant ReadLines(NO_DRAFT, block) == ReadLines(f, block[i..])
    {
      assert block[i..][0] == block[i] && block[i..][1..] == block[i + 1..];
      var read := ParseLine(f, block[i]);
      if read.Err? {
        return Err(read.error);
      }
      f := read.value;
    }
    if f.name == "" {
      return Err(MissingField("name"));
    }
    if f.capability == "" {
      return Err(MissingField("capability"));
    }
    if f.harness == "" {
      return Err(MissingField("harness"));
    }
    if f.tools.None? {
      return Err(MissingField("tools"));
    }
    return Ok(Tactic(f.name, f.capability, f.harness, f.tools.value, Trim(Join(lines[closeIdx + 1..], "\n"))));
  }

  lemma WritesField(text: string, fields: seq<Field>, tail: string)
    requires fields != []
    ensures text + Block(fields, tail) == (text + FieldLine(fields[0]) + "\n") + Block(fields[1..], tail)
  {
  }

  lemma WritesTail(text: string, f: Tactic)
    ensures text + "---\n\n" + f.body + "\n" == text + TailOf(f)
  {
  }

  lemma LineTexts(f: Tactic)
    ensures FieldLine(FieldsOf(f)[0]) == "name: " + f.name && FieldLine(FieldsOf(f)[1]) == "capability: " + f.capability
    ensures FieldLine(FieldsOf(f)[2]) == "harness: " + f.harness
    ensures FieldLine(FieldsOf(f)[3]) == "tools: [" + Join(f.tools, ", ") + "]"
  {
    assert "name" + ": " == "name: " && "capability" + ": " == "capability: " && "harness" + ": " == "harness: ";
    assert "tools" + ": " + ("[" + Join(f.tools, ", ") + "]") == "tools: [" + Join(f.tools, ", ") + "]";
  }

  lemma FourFields(text: string, fields: seq<Field>, tail: string)
    requires |fields| == 4
    ensures text + Block(fields, tail)
         == text + FieldLine(fields[0]) + "\n" + FieldLine(fields[1]) + "\n" + FieldLine(fields[2]) + "\n"
            + FieldLine(fields[3]) + "\n" + tail
  {
    var t1 := text + FieldLine(fields[0]) + "\n";
    var t2 := t1 + FieldLine(fields[1]) + "\n";
    var t3 := t2 + FieldLine(fields[2]) + "\n";
    assert fields[1..][1..] == fields[2..] && fields[2..][1..] == fields[3..] && fields[3..][1..] == [];
    WritesField(text, fields, tail);
    WritesField(t1, fields[1..], tail);
    WritesField(t2, fields[2..], tail);
    WritesField(t3, fields[3..], tail);
  }

  /** The rendered text, letter by letter. */
  lemma RenderedText(f: Tactic)
    ensures Render(f)
         == "---\n" + ("name: " + f.name) + "\n" + ("capability: " + f.capability) + "\n" + ("harness: " + f.harness) + "\n"
            + ("tools: [" + Join(f.tools, ", ") + "]") + "\n" + "---\n\n" + f.body + "\n"
  {
    LineTexts(f);
    FourFields("---\n", FieldsOf(f), TailOf(f));
    var t := "---\n" + ("name: " + f.name) + "\n" + ("capability: " + f.capability) + "\n" + ("harness: " + f.harness) + "\n"
      + ("tools: [" + Join(f.tools, ", ") + "]") + "\n";
    WritesTail(t, f);
    assert "---" + "\n" == "---\n";
  }

  method RenderTactic(f: Tactic) returns (text: string)
    ensures text == Render(f)
  {
    ghost var fields := FieldsOf(f);
    ghost var tail := TailOf(f);
    text := "---\n";
    assert Render(f) == text + Block(fields, tail);
    WritesField(text, fields, tail);
    text := text + FieldLine(Field(Name, f.name)) + "\n";
    WritesField(text, fields[1..], tail);
    text := text + FieldLine(Field(Capability, f.capability)) + "\n";
    WritesField(text, fields[2..], tail);
    text := text + FieldLine(Field(Harness, f.harness)) + "\n";
    WritesField(text, fields[3..], tail);
    text := text + FieldLine(Field(Tools, "[" + Join(f.tools, ", ") + "]")) + "\n";
    assert fields[1..][1..] == fields[2..] && fields[2..][1..] == fields[3..] && fields[3..][1..] == [];
    assert Render(f) == text + tail;
    WritesTail(text, f);
    text := text + "---\n\n";
    text := text + f.body;
    text := text + "\n";
  }
}
