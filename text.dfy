/**
 * The pieces of Go's `strings`, `bufio` and `strconv` packages that the
 * modelled code relies on, as functions on `string` (a sequence of runes).
 * Whitespace is the ASCII whitespace set; Unicode spaces are not modelled.
 */
module Text {

  // ---------------------------------------------------------------------
  // Whitespace and strings.TrimSpace

  /** unicode.IsSpace restricted to ASCII: '\t', '\n', '\v', '\f', '\r', ' '. */
  predicate IsSpace(c: char) {
    c == ' ' || c == '\t' || c == '\n' || c == '\r' || c == '\U{000B}' || c == '\U{000C}'
  }

  predicate IsBlank(s: string) {
    forall k :: 0 <= k < |s| ==> IsSpace(s[k])
  }

  /** Neither the first nor the last rune is whitespace. */
  predicate IsTrimmed(s: string) {
    s == [] || (!IsSpace(s[0]) && !IsSpace(s[|s| - 1]))
  }

  /**
   * strings.TrimSpace: the input with its leading and trailing whitespace cut,
   * one rune at a time, leading runes first.
   */
  function TrimSpace(s: string): (r: string)
    ensures IsTrimmed(r)
    ensures |r| <= |s|
    decreases |s|
  {
    if s != [] && IsSpace(s[0]) then TrimSpace(s[1..])
    else if s != [] && IsSpace(s[|s| - 1]) then TrimSpace(s[..|s| - 1])
    else s
  }

  lemma BlankConcat(a: string, b: string)
    requires IsBlank(a) && IsBlank(b)
    ensures IsBlank(a + b)
  {
    forall k | 0 <= k < |a + b| ensures IsSpace((a + b)[k]) {
      if k < |a| {
        assert (a + b)[k] == a[k];
      } else {
        assert (a + b)[k] == b[k - |a|];
      }
    }
  }

  /** `r` occurs in `s` at `i`, with only whitespace before and after it. */
  predicate CutAt(s: string, r: string, i: nat) {
    OccursAt(s, r, i) && IsBlank(s[..i]) && IsBlank(s[i + |r|..])
  }

  lemma CutAfterSpace(s: string, r: string, i: nat)
    requires s != [] && IsSpace(s[0]) && CutAt(s[1..], r, i)
    ensures CutAt(s, r, i + 1)
  {
    var t := s[1..];
    assert s[i + 1..i + 1 + |r|] == t[i..i + |r|];
    assert s[..i + 1] == [s[0]] + t[..i];
    BlankConcat([s[0]], t[..i]);
    assert s[i + 1 + |r|..] == t[i + |r|..];
  }

  lemma CutBeforeSpace(s: string, r: string, i: nat)
    requires s != [] && IsSpace(s[|s| - 1]) && CutAt(s[..|s| - 1], r, i)
    ensures CutAt(s, r, i)
  {
    var t := s[..|s| - 1];
    assert s[i..i + |r|] == t[i..i + |r|];
    assert s[..i] == t[..i];
    assert s[i + |r|..] == t[i + |r|..] + [s[|s| - 1]];
    BlankConcat(t[i + |r|..], [s[|s| - 1]]);
  }

  /** What TrimSpace keeps is a run of `s` between a blank prefix and a blank suffix. */
  lemma {:induction false} TrimSpaceCuts(s: string) returns (i: nat)
    ensures CutAt(s, TrimSpace(s), i)
    decreases |s|
  {
    if s != [] && IsSpace(s[0]) {
      var i' := TrimSpaceCuts(s[1..]);
      CutAfterSpace(s, TrimSpace(s), i');
      i := i' + 1;
    } else if s != [] && IsSpace(s[|s| - 1]) {
      i := TrimSpaceCuts(s[..|s| - 1]);
      CutBeforeSpace(s, TrimSpace(s), i);
    } else {
      i := 0;
      assert s[0..|s|] == s;
    }
  }

  /** Trimming yields the empty string exactly for blank input. */
  lemma {:induction false} TrimSpaceEmptyIffBlank(s: string)
    ensures TrimSpace(s) == [] <==> IsBlank(s)
    decreases |s|
  {
    if s != [] && IsSpace(s[0]) {
      TrimSpaceEmptyIffBlank(s[1..]);
      assert IsBlank(s) <==> IsBlank(s[1..]) by {
        assert forall k :: 0 < k < |s| ==> s[k] == s[1..][k - 1];
      }
    } else if s != [] && IsSpace(s[|s| - 1]) {
      var t := s[..|s| - 1];
      TrimSpaceEmptyIffBlank(t);
      assert IsBlank(s) <==> IsBlank(t) by {
        assert forall k :: 0 <= k < |t| ==> s[k] == t[k];
      }
    } else if s != [] {
      assert !IsSpace(s[0]);
    }
  }

  // ---------------------------------------------------------------------
  // Occurrences, strings.Index and strings.Contains

  /** `sub` occurs in `s` starting at index `i`. */
  predicate OccursAt(s: string, sub: string, i: int) {
    0 <= i && i + |sub| <= |s| && s[i..i + |sub|] == sub
  }

  predicate IsInfix(sub: string, s: string) {
    exists i :: 0 <= i <= |s| && OccursAt(s, sub, i)
  }

  function IndexFrom(s: string, sub: string, i: nat): (r: int)
    requires i <= |s|
    ensures r == -1 || (i <= r && OccursAt(s, sub, r))
    ensures r == -1 ==> forall j :: i <= j ==> !OccursAt(s, sub, j)
    ensures r >= 0 ==> forall j :: i <= j < r ==> !OccursAt(s, sub, j)
    decreases |s| - i
  {
    if i + |sub| > |s| then -1
    else if s[i..i + |sub|] == sub then i
    else IndexFrom(s, sub, i + 1)
  }

  /** strings.Index: the first index at which `sub` occurs, or -1. */
  function Index(s: string, sub: string): (r: int)
    ensures r == -1 <==> !IsInfix(sub, s)
    ensures r >= 0 ==> OccursAt(s, sub, r) && forall j :: 0 <= j < r ==> !OccursAt(s, sub, j)
  {
    IndexFrom(s, sub, 0)
  }

  /** The first occurrence is the one Index finds. */
  lemma IndexAtFirst(s: string, sub: string, i: nat)
    requires OccursAt(s, sub, i)
    requires forall j :: 0 <= j < i ==> !OccursAt(s, sub, j)
    ensures Index(s, sub) == i
  {
    assert IsInfix(sub, s);
    var r := Index(s, sub);
    assert r < i ==> !OccursAt(s, sub, r);
    assert i < r ==> !OccursAt(s, sub, i);
  }

  /** strings.Contains */
  function Contains(s: string, sub: string): (b: bool)
    ensures b <==> IsInfix(sub, s)
  {
    Index(s, sub) >= 0
  }

  // ---------------------------------------------------------------------
  // Prefixes and strings.TrimPrefix

  predicate HasPrefix(s: string, prefix: string) {
    |prefix| <= |s| && s[..|prefix|] == prefix
  }

  /** strings.TrimPrefix: removes one leading `prefix` if there is one. */
  function TrimPrefix(s: string, prefix: string): (r: string)
    ensures HasPrefix(s, prefix) ==> prefix + r == s
    ensures !HasPrefix(s, prefix) ==> r == s
  {
    if HasPrefix(s, prefix) then s[|prefix|..] else s
  }

  // ---------------------------------------------------------------------
  // strings.Split with a one-rune separator and strings.Join

  /** strings.Split(s, [sep]): the pieces between separators, at least one. */
  function Split(s: string, sep: char): (parts: seq<string>)
    ensures |parts| >= 1
    ensures forall k :: 0 <= k < |parts| ==> sep !in parts[k]
  {
    if s == [] then [""]
    else
      var rest := Split(s[1..], sep);
      if s[0] == sep then [""] + rest
      else [[s[0]] + rest[0]] + rest[1..]
  }

  /** strings.Join */
  function Join(parts: seq<string>, sep: string): string {
    if |parts| == 0 then ""
    else if |parts| == 1 then parts[0]
    else parts[0] + sep + Join(parts[1..], sep)
  }

  lemma {:induction false} JoinSnoc(parts: seq<string>, x: string, sep: string)
    requires parts != []
    ensures Join(parts + [x], sep) == Join(parts, sep) + sep + x
  {
    if |parts| == 1 {
      assert parts + [x] == [parts[0], x];
    } else {
      assert (parts + [x])[1..] == parts[1..] + [x];
      JoinSnoc(parts[1..], x, sep);
    }
  }

  /** Joining the pieces of a split with the separator restores the input. */
  lemma {:induction false} JoinSplit(s: string, sep: char)
    ensures Join(Split(s, sep), [sep]) == s
  {
    if s != [] {
      var rest := Split(s[1..], sep);
      JoinSplit(s[1..], sep);
      if s[0] == sep {
        assert ([""] + rest)[1..] == rest;
      } else if |rest| > 1 {
        assert ([[s[0]] + rest[0]] + rest[1..])[1..] == rest[1..];
      }
    }
  }

  /** A string with no separator splits into itself. */
  lemma {:induction false} SplitNoSep(s: string, sep: char)
    requires sep !in s
    ensures Split(s, sep) == [s]
  {
    if s != [] {
      assert sep !in s[1..];
      SplitNoSep(s[1..], sep);
      assert [s[0]] + s[1..] == s;
    }
  }

  /** Splitting distributes over a separator. */
  lemma {:induction false} SplitConcat(a: string, b: string, sep: char)
    ensures Split(a + [sep] + b, sep) == Split(a, sep) + Split(b, sep)
  {
    var s := a + [sep] + b;
    if a == [] {
      assert s[1..] == b;
    } else {
      assert s[1..] == a[1..] + [sep] + b;
      SplitConcat(a[1..], b, sep);
    }
  }

  /** Splitting a join of separator-free pieces gives the pieces back. */
  lemma {:induction false} SplitJoin(parts: seq<string>, sep: char)
    requires parts != []
    requires forall k :: 0 <= k < |parts| ==> sep !in parts[k]
    ensures Split(Join(parts, [sep]), sep) == parts
  {
    if |parts| == 1 {
      SplitNoSep(parts[0], sep);
    } else {
      SplitJoin(parts[1..], sep);
      SplitConcat(parts[0], Join(parts[1..], [sep]), sep);
      SplitNoSep(parts[0], sep);
    }
  }

  /** The lines, each followed by a newline. */
  function Terminated(lines: seq<string>): string {
    if lines == [] then "" else lines[0] + "\n" + Terminated(lines[1..])
  }

  /** Splitting newline-terminated lines gives the lines and a final empty piece. */
  lemma {:induction false} SplitTerminated(lines: seq<string>)
    requires forall k :: 0 <= k < |lines| ==> '\n' !in lines[k]
    ensures Split(Terminated(lines), '\n') == lines + [""]
  {
    if lines != [] {
      SplitTerminated(lines[1..]);
      SplitConcat(lines[0], Terminated(lines[1..]), '\n');
      SplitNoSep(lines[0], '\n');
      assert [lines[0]] + (lines[1..] + [""]) == lines + [""];
    }
  }

  lemma {:induction false} TerminatedAppend(a: seq<string>, b: seq<string>)
    ensures Terminated(a + b) == Terminated(a) + Terminated(b)
  {
    if a == [] {
      assert a + b == b;
    } else {
      assert (a + b)[0] == a[0];
      assert (a + b)[1..] == a[1..] + b;
      TerminatedAppend(a[1..], b);
    }
  }

  /** Every line appears, with its newline, in the terminated text. */
  lemma {:induction false} TerminatedHasLine(lines: seq<string>, k: nat)
    requires k < |lines|
    ensures OccursAt(Terminated(lines), lines[k] + "\n", |Terminated(lines[..k])|)
  {
    assert lines == lines[..k] + lines[k..];
    TerminatedAppend(lines[..k], lines[k..]);
    var t := Terminated(lines);
    var pre := Terminated(lines[..k]);
    var line := lines[k] + "\n";
    assert Terminated(lines[k..]) == line + Terminated(lines[k + 1..]) by {
      assert lines[k..][1..] == lines[k + 1..];
    }
    assert t == pre + line + Terminated(lines[k + 1..]);
    assert t[|pre|..|pre| + |line|] == line;
  }

  // ---------------------------------------------------------------------
  // strings.ReplaceAll

  /** strings.ReplaceAll: every non-overlapping occurrence of `pat`, left to right, becomes `rep`. */
  function ReplaceAll(s: string, pat: string, rep: string): string
    decreases |s|
  {
    if pat == [] then
      // An empty `pat` matches before every rune and at the end.
      if s == [] then rep else rep + [s[0]] + ReplaceAll(s[1..], pat, rep)
    else if |s| < |pat| then s
    else if s[..|pat|] == pat then rep + ReplaceAll(s[|pat|..], pat, rep)
    else [s[0]] + ReplaceAll(s[1..], pat, rep)
  }

  /** Deleting every occurrence of a non-empty `pat` never lengthens the string. */
  lemma {:induction false} ReplaceAllDeleteShrinks(s: string, pat: string)
    requires pat != []
    ensures |ReplaceAll(s, pat, "")| <= |s|
    decreases |s|
  {
    if |s| >= |pat| {
      if s[..|pat|] == pat {
        ReplaceAllDeleteShrinks(s[|pat|..], pat);
      } else {
        ReplaceAllDeleteShrinks(s[1..], pat);
      }
    }
  }

  /** With no occurrence of `pat`, nothing is replaced. */
  lemma {:induction false} ReplaceAllAbsent(s: string, pat: string, rep: string)
    requires pat != []
    requires !IsInfix(pat, s)
    ensures ReplaceAll(s, pat, rep) == s
  {
    if |s| >= |pat| {
      assert !OccursAt(s, pat, 0);
      forall j | 0 <= j <= |s[1..]| ensures !OccursAt(s[1..], pat, j) {
        assert !OccursAt(s, pat, j + 1);
        if j + |pat| <= |s[1..]| {
          assert s[1..][j..j + |pat|] == s[j + 1..j + 1 + |pat|];
        }
      }
      ReplaceAllAbsent(s[1..], pat, rep);
    }
  }

  /** The first occurrence is replaced and the text before it is kept. */
  lemma {:induction false} ReplaceAllFirst(a: string, pat: string, b: string, rep: string)
    requires pat != []
    requires forall j :: 0 <= j < |a| ==> !OccursAt(a + pat + b, pat, j)
    ensures ReplaceAll(a + pat + b, pat, rep) == a + rep + ReplaceAll(b, pat, rep)
  {
    var s := a + pat + b;
    if a == [] {
      assert s[..|pat|] == pat;
      assert s[|pat|..] == b;
    } else {
      assert !OccursAt(s, pat, 0);
      assert s[1..] == a[1..] + pat + b;
      forall j | 0 <= j < |a[1..]| ensures !OccursAt(a[1..] + pat + b, pat, j) {
        assert !OccursAt(s, pat, j + 1);
        if j + |pat| <= |s[1..]| {
          assert s[1..][j..j + |pat|] == s[j + 1..j + 1 + |pat|];
        }
      }
      ReplaceAllFirst(a[1..], pat, b, rep);
      assert a + rep + ReplaceAll(b, pat, rep) == [a[0]] + (a[1..] + rep + ReplaceAll(b, pat, rep));
    }
  }

  // ---------------------------------------------------------------------
  // bufio.ScanLines

  /** Drops one trailing carriage return. */
  function DropCR(line: string): (r: string)
    ensures r == line || (line == r + "\r")
  {
    if line != [] && line[|line| - 1] == '\r' then line[..|line| - 1] else line
  }

  function DropCREach(lines: seq<string>): (r: seq<string>)
    ensures |r| == |lines|
    ensures forall k :: 0 <= k < |r| ==> r[k] == DropCR(lines[k])
  {
    if lines == [] then [] else [DropCR(lines[0])] + DropCREach(lines[1..])
  }

  /**
   * The tokens a bufio.Scanner with ScanLines yields: the newline-separated
   * pieces, each without one trailing '\r', and no final empty piece after a
   * trailing newline.
   */
  function ScanLines(s: string): (lines: seq<string>)
    ensures lines == [] <==> s == []
    ensures forall k :: 0 <= k < |lines| ==> '\n' !in lines[k]
  {
    if s == [] then []
    else
      var pieces := Split(s, '\n');
      var kept := if pieces[|pieces| - 1] == "" then pieces[..|pieces| - 1] else pieces;
      assert kept != [] by {
        if |pieces| == 1 && pieces[0] == "" {
          JoinSplit(s, '\n');
        }
      }
      DropCREach(kept)
  }

  // ---------------------------------------------------------------------
  // strconv.Quote, as used by the %q verb

  const HexDigits := "0123456789abcdef"

  /** Runes that strconv.Quote writes unchanged (non-ASCII runes are taken as printable). */
  predicate IsPlain(c: char) {
    (' ' <= c <= '~' || c >= '\U{0080}') && c != '"' && c != '\\'
  }

  function EscapeRune(c: char): (r: string)
    ensures IsPlain(c) ==> r == [c]
  {
    if c == '"' || c == '\\' then ['\\', c]
    else if IsPlain(c) then [c]
    else if c == '\U{0007}' then "\\a"
    else if c == '\U{0008}' then "\\b"
    else if c == '\U{000C}' then "\\f"
    else if c == '\n' then "\\n"
    else if c == '\r' then "\\r"
    else if c == '\t' then "\\t"
    else if c == '\U{000B}' then "\\v"
    else "\\x" + [HexDigits[(c as int) / 16], HexDigits[(c as int) % 16]]
  }

  function Escape(s: string): string {
    if s == [] then "" else EscapeRune(s[0]) + Escape(s[1..])
  }

  /** strconv.Quote: a double-quoted Go string literal. */
  function Quote(s: string): string {
    "\"" + Escape(s) + "\""
  }

  /** A string of plain runes is quoted by wrapping it in double quotes. */
  lemma {:induction false} QuotePlain(s: string)
    requires forall k :: 0 <= k < |s| ==> IsPlain(s[k])
    ensures Quote(s) == "\"" + s + "\""
  {
    EscapePlain(s);
  }

  lemma {:induction false} EscapePlain(s: string)
    requires forall k :: 0 <= k < |s| ==> IsPlain(s[k])
    ensures Escape(s) == s
  {
    if s != [] {
      EscapePlain(s[1..]);
      assert [s[0]] + s[1..] == s;
    }
  }

  /** No single rune escapes to a raw newline. */
  lemma EscapeRuneHasNoNewline(c: char)
    ensures '\n' !in EscapeRune(c)
  {
    if !(c == '"' || c == '\\' || IsPlain(c)) && c != '\U{0007}' && c != '\U{0008}'
      && c != '\U{000C}' && c != '\n' && c != '\r' && c != '\t' && c != '\U{000B}' {
      assert c as int < 0x20 || c as int == 0x7F;
      assert '\n' !in HexDigits;
    }
  }

  /** A quoted string never contains a raw newline. */
  lemma {:induction false} EscapeHasNoNewline(s: string)
    ensures '\n' !in Escape(s)
  {
    if s != [] {
      EscapeHasNoNewline(s[1..]);
      EscapeRuneHasNoNewline(s[0]);
    }
  }
}
