/** The string functions that the file and note formats are made of. */
module Text {
  import opened Tables

  /** What a reader makes of a text: a value, or the first thing wrong with it. */
  datatype Parsed<+T, +E> = Ok(value: T) | Err(error: E)

  /** White space as the trimming and field-splitting functions know it. */
  predicate IsSpace(c: char) {
    var n := c as int;
    || 9 <= n <= 13 || n == 0x20 || n == 0x85 || n == 0xA0
    || n == 0x1680 || 0x2000 <= n <= 0x200A || n == 0x2028 || n == 0x2029
    || n == 0x202F || n == 0x205F || n == 0x3000
  }

  predicate AllSpace(s: string) {
    forall i :: 0 <= i < |s| ==> IsSpace(s[i])
  }

  /** No white space at either end. */
  predicate Trimmed(s: string) {
    s == "" || (!IsSpace(s[0]) && !IsSpace(s[|s| - 1]))
  }

  function TrimLeft(s: string): string {
    if s == "" then "" else if IsSpace(s[0]) then TrimLeft(s[1..]) else s
  }

  function TrimRight(s: string): string {
    if s == "" then "" else if IsSpace(s[|s| - 1]) then TrimRight(s[..|s| - 1]) else s
  }

  function Trim(s: string): string {
    TrimRight(TrimLeft(s))
  }

  lemma {:induction false} TrimLeftIsPart(s: string)
    ensures var t := TrimLeft(s);
      && |t| <= |s| && t == s[|s| - |t|..] && AllSpace(s[..|s| - |t|])
      && (t != "" ==> !IsSpace(t[0]))
  {
    if s != "" && IsSpace(s[0]) {
      TrimLeftIsPart(s[1..]);
      var t := TrimLeft(s);
      assert s[..|s| - |t|] == [s[0]] + s[1..][..|s| - 1 - |t|];
    }
  }

  lemma {:induction false} TrimRightIsPart(s: string)
    ensures var t := TrimRight(s);
      && |t| <= |s| && t == s[..|t|] && AllSpace(s[|t|..])
      && (t != "" ==> !IsSpace(t[|t| - 1]))
  {
    if s != "" && IsSpace(s[|s| - 1]) {
      TrimRightIsPart(s[..|s| - 1]);
      var t := TrimRight(s);
      assert s[|t|..] == s[..|s| - 1][|t|..] + [s[|s| - 1]];
    }
  }

  /** Trimming takes white space away and nothing else. */
  lemma TrimIsPart(s: string) returns (i: nat)
    ensures Trimmed(Trim(s))
    ensures i + |Trim(s)| <= |s| && Trim(s) == s[i..i + |Trim(s)|]
    ensures AllSpace(s[..i]) && AllSpace(s[i + |Trim(s)|..])
  {
    TrimLeftIsPart(s);
    var l := TrimLeft(s);
    TrimRightIsPart(l);
    i := |s| - |l|;
    assert s[i..] == l;
    assert s[i + |Trim(s)|..] == l[|Trim(s)|..];
    assert s[i..i + |Trim(s)|] == l[..|Trim(s)|];
  }

  /** What is left between white space is the only trimmed text there. */
  lemma TrimsTo(left: string, t: string, right: string)
    requires AllSpace(left) && AllSpace(right) && Trimmed(t)
    ensures Trim(left + t + right) == t
  {
    var s := left + t + right;
    var i := TrimIsPart(s);
    var u := Trim(s);
    forall m | 0 <= m < i ensures IsSpace(s[m]) {
      assert s[..i][m] == s[m];
    }
    forall m | i + |u| <= m < |s| ensures IsSpace(s[m]) {
      assert s[i + |u|..][m - i - |u|] == s[m];
    }
    if t != "" {
      assert s[|left|] == t[0] && s[|left| + |t| - 1] == t[|t| - 1];
      assert i <= |left| && |left| + |t| <= i + |u|;
    }
  }

  lemma TrimOfTrimmed(t: string)
    requires Trimmed(t)
    ensures Trim(t) == t
  {
    assert "" + t + "" == t;
    TrimsTo("", t, "");
  }

  /** The pieces of `s` between the occurrences of `sep`. */
  function Split(s: string, sep: char): (parts: seq<string>)
    ensures |parts| > 0
    ensures forall i :: 0 <= i < |parts| ==> sep !in parts[i]
  {
    if s == "" then [""]
    else if s[0] == sep then [""] + Split(s[1..], sep)
    else
      var rest := Split(s[1..], sep);
      [[s[0]] + rest[0]] + rest[1..]
  }

  function Join(parts: seq<string>, sep: string): string {
    if parts == [] then ""
    else if |parts| == 1 then parts[0]
    else parts[0] + sep + Join(parts[1..], sep)
  }

  lemma {:induction false} JoinSplit(s: string, sep: char)
    ensures Join(Split(s, sep), [sep]) == s
  {
    if s != "" {
      var rest := Split(s[1..], sep);
      JoinSplit(s[1..], sep);
      if s[0] == sep {
        assert ([""] + rest)[1..] == rest;
        assert s == "" + [sep] + s[1..];
      } else if |rest| == 1 {
        assert s == [s[0]] + s[1..];
      } else {
        assert ([[s[0]] + rest[0]] + rest[1..])[1..] == rest[1..];
        assert s == [s[0]] + s[1..];
        assert [s[0]] + (rest[0] + [sep] + Join(rest[1..], [sep])) == ([s[0]] + rest[0]) + [sep] + Join(rest[1..], [sep]);
      }
    }
  }

  /** A piece free of the separator comes off the front whole. */
  lemma {:induction false} SplitOff(piece: string, rest: string, sep: char)
    requires sep !in piece
    ensures Split(piece + [sep] + rest, sep) == [piece] + Split(rest, sep)
  {
    var s := piece + [sep] + rest;
    if piece == "" {
      assert s[1..] == rest;
    } else {
      SplitOff(piece[1..], rest, sep);
      assert s[1..] == piece[1..] + [sep] + rest;
      assert piece == [piece[0]] + piece[1..];
    }
  }

  lemma {:induction false} SplitNone(piece: string, sep: char)
    requires sep !in piece
    ensures Split(piece, sep) == [piece]
  {
    if piece != "" {
      SplitNone(piece[1..], sep);
      assert piece == [piece[0]] + piece[1..];
    }
  }

  /** Where `c` first stands in `s`. */
  function IndexOf(s: string, c: char): (i: Option<nat>)
    ensures i.Some? ==> i.value < |s| && s[i.value] == c && c !in s[..i.value]
    ensures i.None? ==> c !in s
  {
    if s == "" then None
    else if s[0] == c then Some(0)
    else
      var i := IndexOf(s[1..], c);
      if i.None? then None else assert s[..i.value + 1] == [s[0]] + s[1..][..i.value]; Some(i.value + 1)
  }

  predicate NoCrlf(s: string) {
    forall i :: 0 <= i < |s| - 1 ==> !(s[i] == '\r' && s[i + 1] == '\n')
  }

  /** Every `\r\n` replaced by `\n`, from the left. */
  function Normalize(s: string): string {
    if s == "" then ""
    else if |s| >= 2 && s[0] == '\r' && s[1] == '\n' then "\n" + Normalize(s[2..])
    else [s[0]] + Normalize(s[1..])
  }

  /** Normalizing changes nothing exactly when there is nothing to replace, and else it shortens. */
  lemma {:induction false} NormalizeShortens(s: string)
    ensures |Normalize(s)| <= |s|
    ensures NoCrlf(s) ==> Normalize(s) == s
    ensures !NoCrlf(s) ==> |Normalize(s)| < |s|
  {
    if s != "" {
      if |s| >= 2 && s[0] == '\r' && s[1] == '\n' {
        NormalizeShortens(s[2..]);
        assert !NoCrlf(s);
      } else {
        NormalizeShortens(s[1..]);
        assert s == [s[0]] + s[1..];
        if NoCrlf(s[1..]) {
          forall i | 0 <= i < |s| - 1 ensures !(s[i] == '\r' && s[i + 1] == '\n') {
            if i > 0 {
              assert s[1..][i - 1] == s[i] && s[1..][i] == s[i + 1];
            }
          }
        } else {
          var i :| 0 <= i < |s[1..]| - 1 && s[1..][i] == '\r' && s[1..][i + 1] == '\n';
          assert s[i + 1] == '\r' && s[i + 2] == '\n';
        }
      }
    }
  }

  /** The two sides of a cut that does not split a `\r\n` are normalized apart. */
  lemma {:induction false} NormalizeConcat(a: string, b: string)
    requires a == "" || b == "" || a[|a| - 1] != '\r' || b[0] != '\n'
    ensures Normalize(a + b) == Normalize(a) + Normalize(b)
    decreases |a|
  {
    if a == "" {
      assert a + b == b;
    } else if |a| >= 2 && a[0] == '\r' && a[1] == '\n' {
      NormalizeConcat(a[2..], b);
      assert (a + b)[2..] == a[2..] + b;
      Reassociate("\n", Normalize(a[2..]), Normalize(b));
    } else {
      NormalizeConcat(a[1..], b);
      assert (a + b)[1..] == a[1..] + b;
      Reassociate([a[0]], Normalize(a[1..]), Normalize(b));
    }
  }

  lemma NormalizePiece(piece: string, rest: string)
    requires NoCrlf(piece)
    ensures Normalize(piece + "\r\n" + rest) == piece + "\n" + Normalize(rest)
  {
    var tail := "\r\n" + rest;
    assert tail[2..] == rest;
    NormalizeShortens(piece);
    NormalizeConcat(piece, tail);
    assert piece + "\r\n" + rest == piece + tail;
    Reassociate(piece, "\n", Normalize(rest));
  }

  /** Normalizing puts a `\n` for each `\r\n` and keeps all between them. */
  lemma {:induction false} NormalizeMeans(pieces: seq<string>)
    requires pieces != [] && forall i :: 0 <= i < |pieces| ==> NoCrlf(pieces[i])
    ensures Normalize(Join(pieces, "\r\n")) == Join(pieces, "\n")
  {
    if |pieces| == 1 {
      NormalizeShortens(pieces[0]);
    } else {
      NormalizeMeans(pieces[1..]);
      NormalizePiece(pieces[0], Join(pieces[1..], "\r\n"));
    }
  }

  /** Every text is pieces without `\r\n` between those that it has. */
  lemma {:induction false} CrlfPieces(s: string) returns (pieces: seq<string>)
    ensures pieces != [] && forall i :: 0 <= i < |pieces| ==> NoCrlf(pieces[i])
    ensures Join(pieces, "\r\n") == s
    decreases |s|
  {
    if s == "" {
      pieces := [""];
    } else if |s| >= 2 && s[0] == '\r' && s[1] == '\n' {
      var rest := CrlfPieces(s[2..]);
      pieces := [""] + rest;
      assert pieces[1..] == rest;
      assert s == "" + "\r\n" + s[2..];
    } else {
      var rest := CrlfPieces(s[1..]);
      pieces := [[s[0]] + rest[0]] + rest[1..];
      JoinStarts(s[0], rest, "\r\n");
      JoinPrefix(rest, "\r\n");
      assert s == [s[0]] + s[1..];
      assert rest[0] != "" ==> rest[0][0] == s[1..][0];
      assert NoCrlf(pieces[0]) by {
        forall i | 0 <= i < |pieces[0]| - 1 ensures !(pieces[0][i] == '\r' && pieces[0][i + 1] == '\n') {
          if i > 0 {
            assert pieces[0][i] == rest[0][i - 1] && pieces[0][i + 1] == rest[0][i];
          }
        }
      }
    }
  }

  lemma JoinStarts(c: char, parts: seq<string>, sep: string)
    requires parts != []
    ensures Join([[c] + parts[0]] + parts[1..], sep) == [c] + Join(parts, sep)
  {
    var longer := [[c] + parts[0]] + parts[1..];
    if |parts| > 1 {
      assert longer[1..] == parts[1..];
      assert ([c] + parts[0]) + sep + Join(parts[1..], sep) == [c] + (parts[0] + sep + Join(parts[1..], sep));
    }
  }

  lemma JoinPrefix(parts: seq<string>, sep: string)
    requires parts != []
    ensures parts[0] <= Join(parts, sep)
  {
  }

  /** White space is these characters. */
  lemma SpacesAre(c: char)
    ensures IsSpace(c) <==> c in {
      '\t', '\n', '\U{0B}', '\U{0C}', '\r', ' ', '\U{85}', '\U{A0}', '\U{1680}',
      '\U{2000}', '\U{2001}', '\U{2002}', '\U{2003}', '\U{2004}', '\U{2005}', '\U{2006}', '\U{2007}',
      '\U{2008}', '\U{2009}', '\U{200A}', '\U{2028}', '\U{2029}', '\U{202F}', '\U{205F}', '\U{3000}'}
  {
  }

  lemma AllSpaceTrims(s: string)
    ensures Trim(s) == "" <==> AllSpace(s)
  {
    var i := TrimIsPart(s);
    if Trim(s) == "" {
      assert s == s[..i] + s[i..];
      forall m | 0 <= m < |s| ensures IsSpace(s[m]) {
        assert m < i ==> s[..i][m] == s[m];
        assert m >= i ==> s[i..][m - i] == s[m];
      }
    } else {
      assert Trim(s)[0] == s[i];
    }
  }

  /** White space at either end makes no difference to trimming. */
  lemma TrimBetween(left: string, s: string, right: string)
    requires AllSpace(left) && AllSpace(right)
    ensures Trim(left + s + right) == Trim(s)
  {
    var i := TrimIsPart(s);
    var t := Trim(s);
    assert left + s + right == (left + s[..i]) + t + (s[i + |t|..] + right);
    TrimsTo(left + s[..i], t, s[i + |t|..] + right);
  }

  lemma Reassociate<T>(a: seq<T>, b: seq<T>, c: seq<T>)
    ensures (a + b) + c == a + (b + c)
  {
  }
}
