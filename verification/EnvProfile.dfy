/**
 * Merging a committed profile into a shared .env file, deploy/apply-env-profile.py: the printer and the parser agree
 * on every input file whose profile has plain keys.
 */
module EnvProfile {
  import opened Basics

  /** A Python dict of settings, in insertion order. */
  type Settings = seq<Entry<string, string>>

  // ---- Characters and lines ----------------------------------------------------------------------------

  /** Where str.splitlines ends a line. */
  predicate IsBreak(c: char) {
    c in {'\n', '\r', '\U{b}', '\U{c}', '\U{1c}', '\U{1d}', '\U{1e}', '\U{85}', '\U{2028}', '\U{2029}'}
  }

  /** What str.strip removes. */
  predicate IsSpace(c: char) {
    || IsBreak(c) || c in {' ', '\t', '\U{1f}', '\U{a0}', '\U{1680}', '\U{202f}', '\U{205f}', '\U{3000}'}
    || '\U{2000}' <= c <= '\U{200a}'
  }

  /** The same by code point. */
  lemma BlanksByCodePoint(c: char)
    ensures IsBreak(c) <==> c as int in {10, 11, 12, 13, 28, 29, 30, 133, 8232, 8233}
    ensures IsSpace(c) <==>
            || 9 <= c as int <= 13 || 28 <= c as int <= 32 || 8192 <= c as int <= 8202
            || c as int in {133, 160, 5760, 8232, 8233, 8239, 8287, 12288}
  {}

  function RStrip(s: string): string {
    if s != "" && IsSpace(s[|s| - 1]) then RStrip(s[..|s| - 1]) else s
  }

  function LStrip(s: string): string {
    if s != "" && IsSpace(s[0]) then LStrip(s[1..]) else s
  }

  function Strip(s: string): string { LStrip(RStrip(s)) }

  /** Reading a file as text turns every line ending into a line feed. */
  function UniversalNewlines(s: string): string {
    if s == "" then ""
    else if s[0] == '\r' then "\n" + UniversalNewlines(if |s| > 1 && s[1] == '\n' then s[2..] else s[1..])
    else [s[0]] + UniversalNewlines(s[1..])
  }

  function LineEnd(s: string): (n: nat)
    ensures n <= |s| && (forall i :: 0 <= i < n ==> !IsBreak(s[i])) && (n < |s| ==> IsBreak(s[n]))
  {
    if s == "" || IsBreak(s[0]) then 0 else 1 + LineEnd(s[1..])
  }

  function SplitLines(s: string): seq<string> {
    if s == "" then []
    else
      var n := LineEnd(s);
      if n == |s| then [s] else [s[..n]] + SplitLines(s[n + 1..])
  }

  function ReadLines(text: string): seq<string> { SplitLines(UniversalNewlines(text)) }

  /** `"\n".join(lines)` */
  function Join(lines: seq<string>): string {
    if lines == [] then "" else if |lines| == 1 then lines[0] else lines[0] + "\n" + Join(lines[1..])
  }

  predicate NoBreaks(s: string) { forall c <- s :: !IsBreak(c) }

  predicate Trimmed(s: string) { s == "" || (!IsSpace(s[0]) && !IsSpace(s[|s| - 1])) }

  lemma {:induction false} RStripFacts(s: string)
    ensures RStrip(s) <= s
    ensures RStrip(s) != "" ==> !IsSpace(RStrip(s)[|RStrip(s)| - 1])
    ensures RStrip(RStrip(s)) == RStrip(s)
  {
    if s != "" && IsSpace(s[|s| - 1]) { RStripFacts(s[..|s| - 1]); }
  }

  lemma {:induction false} LStripFacts(s: string)
    ensures |LStrip(s)| <= |s| && LStrip(s) == s[|s| - |LStrip(s)|..]
    ensures LStrip(s) != "" ==> !IsSpace(LStrip(s)[0])
  {
    if s != "" && IsSpace(s[0]) { LStripFacts(s[1..]); }
  }

  lemma StripFacts(s: string)
    ensures Trimmed(Strip(s))
    ensures forall c <- Strip(s) :: c in s
    ensures Strip(RStrip(s)) == Strip(s)
  {
    RStripFacts(s);
    LStripFacts(RStrip(s));
  }

  lemma TrimmedIsFixed(s: string)
    requires Trimmed(s)
    ensures Strip(s) == s && RStrip(s) == s
  {}

  lemma {:induction false} UniversalIsIdentity(s: string)
    requires '\r' !in s
    ensures UniversalNewlines(s) == s
  {
    if s == "" {
    } else {
      assert s == [s[0]] + s[1..];
      UniversalIsIdentity(s[1..]);
    }
  }

  /** Lines that were read contain no line break. */
  lemma {:induction false} SplitLinesFacts(s: string)
    ensures forall l <- SplitLines(s) :: NoBreaks(l)
  {
    if s == "" {
    } else {
      var n := LineEnd(s);
      if n < |s| { SplitLinesFacts(s[n + 1..]); }
    }
  }

  /** A carriage return, alone or before a line feed, ends a line as a line feed does. */
  lemma LineEndingsAreEqual(line: string, rest: string)
    requires NoBreaks(line)
    ensures ReadLines(line + "\n" + rest) == [line] + ReadLines(rest)
    ensures ReadLines(line + "\r\n" + rest) == [line] + ReadLines(rest)
    ensures ("\n" <= rest) || ReadLines(line + "\r" + rest) == [line] + ReadLines(rest)
  {
    assert ("\n" + rest)[1..] == rest && ("\r\n" + rest)[2..] == rest && ("\r" + rest)[1..] == rest;
    OneEnding(line, "\n", rest);
    OneEnding(line, "\r\n", rest);
    if !("\n" <= rest) { OneEnding(line, "\r", rest); }
  }

  lemma OneEnding(line: string, ending: string, rest: string)
    requires NoBreaks(line) && UniversalNewlines(ending + rest) == "\n" + UniversalNewlines(rest)
    ensures ReadLines(line + ending + rest) == [line] + ReadLines(rest)
  {
    var read := UniversalNewlines(rest);
    UniversalBehind(line, ending + rest);
    LineEndAt(line, read);
    hide UniversalNewlines, NoBreaks;
    assert line + (ending + rest) == line + ending + rest;
    var s := line + "\n" + read;
    assert line + ("\n" + read) == s;
    assert s[..|line|] == line && s[|line| + 1..] == read;
  }

  lemma {:induction false} UniversalBehind(line: string, rest: string)
    requires NoBreaks(line)
    ensures UniversalNewlines(line + rest) == line + UniversalNewlines(rest)
  {
    if line == "" {
      assert line + rest == rest;
    } else {
      assert line[0] in line;
      assert (line + rest)[1..] == line[1..] + rest;
      UniversalBehind(line[1..], rest);
    }
  }

  lemma LineEndAt(line: string, rest: string)
    requires NoBreaks(line)
    ensures LineEnd(line + "\n" + rest) == |line|
  {
    var s := line + "\n" + rest;
    var n := LineEnd(s);
    assert s[|line|] == '\n';
    assert forall i :: 0 <= i < |line| ==> s[i] == line[i];
  }

  /** Writing lines one per row and splitting them again gives them back. */
  lemma {:induction false} SplitJoin(lines: seq<string>)
    requires lines != [] && forall l <- lines :: NoBreaks(l)
    ensures SplitLines(Join(lines) + "\n") == lines
  {
    var s := Join(lines) + "\n";
    if |lines| == 1 {
      LineEndAt(lines[0], "");
      assert s == lines[0] + "\n" + "";
      assert s[|lines[0]| + 1..] == "";
    } else {
      var rest := Join(lines[1..]) + "\n";
      assert s == lines[0] + "\n" + rest;
      LineEndAt(lines[0], rest);
      SplitJoin(lines[1..]);
      assert s[|lines[0]| + 1..] == rest && s[..|lines[0]|] == lines[0];
    }
  }

  // ---- Trailing blanks ---------------------------------------------------------------------------------

  /** The lines that remain when trailing whitespace is cut off the whole text. */
  function RStripLines(lines: seq<string>): seq<string> {
    if lines == [] then []
    else
      var n := |lines| - 1;
      if RStrip(lines[n]) == "" then RStripLines(lines[..n]) else lines[..n] + [RStrip(lines[n])]
  }

  lemma {:induction false} JoinAppend(lines: seq<string>, l: string)
    ensures Join(lines + [l]) == if lines == [] then l else Join(lines) + "\n" + l
  {
    if lines == [] {
      assert [] + [l] == [l];
    } else {
      assert (lines + [l])[1..] == lines[1..] + [l];
      JoinAppend(lines[1..], l);
      if |lines| > 1 {
        assert lines[0] + "\n" + (Join(lines[1..]) + "\n" + l) == lines[0] + "\n" + Join(lines[1..]) + "\n" + l;
      }
    }
  }

  lemma {:induction false} RStripConcat(a: string, b: string)
    ensures RStrip(a + b) == if RStrip(b) == "" then RStrip(a) else a + RStrip(b)
  {
    if b == "" {
      assert a + b == a;
    } else if IsSpace(b[|b| - 1]) {
      assert (a + b)[..|a + b| - 1] == a + b[..|b| - 1];
      RStripConcat(a, b[..|b| - 1]);
    }
  }

  lemma {:induction false} RStripJoin(lines: seq<string>)
    ensures RStrip(Join(lines)) == Join(RStripLines(lines))
  {
    if lines == [] {
    } else {
      var n := |lines| - 1;
      var l := lines[n];
      assert lines == lines[..n] + [l];
      JoinAppend(lines[..n], l);
      JoinAppend(lines[..n], RStrip(l));
      RStripJoin(lines[..n]);
      if n == 0 {
        assert lines[..n] == [];
      } else {
        RStripConcat(Join(lines[..n]) + "\n", l);
        RStripConcat(Join(lines[..n]), "\n");
        assert RStrip("\n") == RStrip("") == "";
      }
    }
  }

  lemma NoBreaksInPrefix(s: string, t: string)
    requires NoBreaks(s) && t <= s
    ensures NoBreaks(t)
  {
    assert forall c <- t :: c in s;
  }

  lemma {:induction false} RStripLinesNoBreaks(lines: seq<string>)
    requires forall l <- lines :: NoBreaks(l)
    ensures forall l <- RStripLines(lines) :: NoBreaks(l)
  {
    if lines == [] {
    } else {
      var n := |lines| - 1;
      RStripFacts(lines[n]);
      NoBreaksInPrefix(lines[n], RStrip(lines[n]));
      hide NoBreaks, RStrip;
      assert forall l <- lines[..n] :: l in lines;
      if RStrip(lines[n]) == "" { RStripLinesNoBreaks(lines[..n]); }
    }
  }

  lemma {:induction false} RStripLinesFacts(lines: seq<string>)
    ensures (forall l <- lines :: NoBreaks(l)) ==> forall l <- RStripLines(lines) :: NoBreaks(l)
    ensures |RStripLines(lines)| <= |lines|
    ensures RStripLines(RStripLines(lines)) == RStripLines(lines)
  {
    if forall l <- lines :: NoBreaks(l) { RStripLinesNoBreaks(lines); }
    hide NoBreaks;
    if lines == [] {
    } else {
      var n := |lines| - 1;
      if RStrip(lines[n]) == "" {
        RStripLinesFacts(lines[..n]);
      } else {
        RStripFacts(lines[n]);
        hide RStrip;
        assert RStripLines(lines)[..n] == lines[..n];
      }
    }
  }

  /** What a file that was written reads back as. */
  lemma WrittenReadsBack(lines: seq<string>)
    requires forall l <- lines :: NoBreaks(l)
    ensures var r := RStripLines(lines);
            ReadLines(RStrip(Join(lines)) + "\n") == if r == [] then [""] else r
  {
    var r := RStripLines(lines);
    RStripJoin(lines);
    RStripLinesFacts(lines);
    JoinHasNoReturn(r);
    UniversalIsIdentity(Join(r) + "\n");
    if r == [] {
      assert LineEnd("\n") == 0;
      assert "\n"[1..] == "";
    } else {
      SplitJoin(r);
    }
  }

  lemma {:induction false} JoinHasNoReturn(lines: seq<string>)
    requires forall l <- lines :: NoBreaks(l)
    ensures '\r' !in Join(lines)
  {
    if |lines| > 1 {
      assert NoBreaks(lines[0]);
      JoinHasNoReturn(lines[1..]);
    } else if |lines| == 1 {
      assert NoBreaks(lines[0]);
    }
  }

  // ---- Parsing -----------------------------------------------------------------------------------------

  const EXPORT := "export "

  predicate StartsWith(s: string, prefix: string) { prefix <= s }

  function IndexOfEquals(s: string): (n: nat)
    ensures n <= |s| && (forall i :: 0 <= i < n ==> s[i] != '=') && (n < |s| ==> s[n] == '=')
  {
    if s == "" || s[0] == '=' then 0 else 1 + IndexOfEquals(s[1..])
  }

  /** The setting of one raw line; comments, blank lines and lines without `=` have none. */
  function ParseLine(raw: string): Option<Entry<string, string>> {
    var line := Strip(raw);
    if line == "" || line[0] == '#' then None
    else
      var content := if StartsWith(line, EXPORT) then Strip(line[7..]) else line;
      var n := IndexOfEquals(content);
      if n == |content| then None else Some(Entry(Strip(content[..n]), Strip(content[n + 1..])))
  }

  function ParseLines(lines: seq<string>): Settings {
    if lines == [] then []
    else
      var n := |lines| - 1;
      var before := ParseLines(lines[..n]);
      match ParseLine(lines[n])
      case None => before
      case Some(e) => DictSet(before, e.key, e.value)
  }

  function ParseText(text: string): Settings { ParseLines(ReadLines(text)) }

  method ParseEnvFile(file: Option<string>) returns (values: Settings)
    ensures values == if file.Some? then ParseText(file.value) else []
  {
    hide Strip, IndexOfEquals, DictSet, ReadLines;
    values := [];
    if file.None? {
      return;
    }
    var rows := ReadLines(file.value);
    for i := 0 to |rows|
      invariant values == ParseLines(rows[..i])
    {
      assert rows[..i + 1][..i] == rows[..i];
      var line := Strip(rows[i]);
      if line == "" || line[0] == '#' {
        continue;
      }
      if StartsWith(line, EXPORT) {
        line := Strip(line[7..]);
      }
      var n := IndexOfEquals(line);
      if n == |line| {
        continue;
      }
      var key, value := line[..n], line[n + 1..];
      values := DictSet(values, Strip(key), Strip(value));
    }
    assert rows[..|rows|] == rows;
  }

  /** What any parsed key and value look like. */
  predicate PlainKey(k: string) { Trimmed(k) && NoBreaks(k) && '=' !in k }

  predicate PlainValue(v: string) { Trimmed(v) && NoBreaks(v) }

  /** Printed as `key=value`, such a key is read back: it starts no comment and no export. */
  predicate SafeKey(k: string) { !("#" <= k) && !("export " <= k) }

  function Print(e: Entry<string, string>): string { e.key + "=" + e.value }

  lemma EqualsAt(k: string, v: string)
    requires '=' !in k
    ensures IndexOfEquals(k + "=" + v) == |k|
  {
    var s := k + "=" + v;
    var n := IndexOfEquals(s);
    assert s[|k|] == '=';
    assert forall i :: 0 <= i < |k| ==> s[i] == k[i];
  }

  lemma PrintedShape(e: Entry<string, string>)
    requires PlainKey(e.key) && PlainValue(e.value)
    ensures Trimmed(Print(e)) && NoBreaks(Print(e)) && Print(e) != ""
    ensures Print(e)[0] == '#' <==> StartsWith(e.key, "#")
    ensures StartsWith(Print(e), EXPORT) <==> StartsWith(e.key, EXPORT)
  {
    var s := Print(e);
    assert s[|e.key|] == '=';
    assert forall c <- s :: c in e.key || c == '=' || c in e.value;
    assert |e.key| < 7 ==> EXPORT[|e.key|] != '=';
    if |e.key| >= 7 { assert s[..7] == e.key[..7]; }
  }

  lemma SafePrintIsParsed(e: Entry<string, string>)
    requires PlainKey(e.key) && PlainValue(e.value) && SafeKey(e.key)
    ensures ParseLine(Print(e)) == Some(e)
  {
    var s := Print(e);
    PrintedShape(e);
    TrimmedIsFixed(s);
    TrimmedIsFixed(e.key);
    TrimmedIsFixed(e.value);
    EqualsAt(e.key, e.value);
    assert s[..|e.key|] == e.key && s[|e.key| + 1..] == e.value;
    hide Strip, IndexOfEquals, Trimmed, NoBreaks;
  }

  /** Behind a printed `export ` the parser finds a shorter key than the one printed, or none. */
  lemma ExportedKeyShrinks(e: Entry<string, string>)
    requires PlainKey(e.key) && PlainValue(e.value) && StartsWith(e.key, EXPORT)
    ensures ParseLine(Print(e)).Some? ==> |ParseLine(Print(e)).value.key| < |e.key|
  {
    var s := Print(e);
    PrintedShape(e);
    TrimmedIsFixed(s);
    var rest := s[7..];
    var content := Strip(rest);
    var n := IndexOfEquals(content);
    assert rest == e.key[7..] + "=" + e.value;
    EqualsInSuffix(e.key[7..], e.value);
    StripIsShorter(content[..n]);
    hide Strip, Trimmed, NoBreaks;
  }

  lemma EqualsInSuffix(key: string, value: string)
    requires '=' !in key
    ensures IndexOfEquals(Strip(key + "=" + value)) <= |key|
  {
    var s := key + "=" + value;
    var stripped := RStrip(s);
    RStripConcat(key + "=", value);
    RStripFacts(key + "=");
    assert s == (key + "=") + value && !IsSpace('=');
    LStripFacts(stripped);
    assert stripped[|key|] == '=';
    hide RStrip, IsSpace;
    LStripStopsAt(stripped, |key|);
    var cut := |stripped| - |LStrip(stripped)|;
    assert LStrip(stripped)[|key| - cut] == '=';
  }

  lemma {:induction false} LStripStopsAt(s: string, i: nat)
    requires i < |s| && !IsSpace(s[i])
    ensures |s| - i <= |LStrip(s)|
  {
    if IsSpace(s[0]) { LStripStopsAt(s[1..], i - 1); }
  }

  lemma CommentedIsNone(e: Entry<string, string>)
    requires PlainKey(e.key) && PlainValue(e.value) && StartsWith(e.key, "#")
    ensures ParseLine(Print(e)) == None
  {
    PrintedShape(e);
    TrimmedIsFixed(Print(e));
  }

  /** The printer and the parser agree on a setting if and only if its key starts neither a comment nor an export. */
  lemma PrintedIsParsedExactlyWhen(e: Entry<string, string>)
    requires PlainKey(e.key) && PlainValue(e.value)
    ensures ParseLine(Print(e)) == Some(e) <==> SafeKey(e.key)
  {
    hide ParseLine, Print, PlainKey, PlainValue;
    if StartsWith(e.key, "#") {
      CommentedIsNone(e);
    } else if StartsWith(e.key, EXPORT) {
      ExportedKeyShrinks(e);
    } else {
      SafePrintIsParsed(e);
    }
  }

  lemma StripIsShorter(s: string)
    ensures |Strip(s)| <= |s|
  {
    RStripFacts(s);
    LStripFacts(RStrip(s));
  }

  lemma ParseLineShape(raw: string)
    requires NoBreaks(raw)
    ensures var p := ParseLine(raw); p.Some? ==> PlainKey(p.value.key) && PlainValue(p.value.value)
  {
    var line := Strip(raw);
    StripFacts(raw);
    if line != "" && line[0] != '#' {
      if StartsWith(line, EXPORT) { StripFacts(line[7..]); }
      var content := if StartsWith(line, EXPORT) then Strip(line[7..]) else line;
      var n := IndexOfEquals(content);
      assert forall c <- content :: c in raw;
      if n < |content| {
        StripFacts(content[..n]);
        StripFacts(content[n + 1..]);
        assert forall c <- content[..n] :: c != '=' && c in content;
        assert forall c <- content[n + 1..] :: c in content;
      }
    }
  }

  predicate Plain(d: Settings) { forall e <- d :: PlainKey(e.key) && PlainValue(e.value) }

  lemma {:induction false} ParseLinesShape(lines: seq<string>)
    requires forall l <- lines :: NoBreaks(l)
    ensures DistinctKeys(ParseLines(lines)) && Plain(ParseLines(lines))
  {
    if lines == [] {
    } else {
      var n := |lines| - 1;
      ParseLinesShape(lines[..n]);
      assert lines[n] in lines;
      ParseLineShape(lines[n]);
      var p := ParseLine(lines[n]);
      if p.Some? { DictSetFacts(ParseLines(lines[..n]), p.value.key, p.value.value, ""); }
    }
  }

  /** Every file parses to distinct trimmed keys without `=`, and trimmed values, all of them on one line. */
  lemma ParsedFileIsPlain(text: string)
    ensures DistinctKeys(ParseText(text)) && Plain(ParseText(text))
  {
    SplitLinesFacts(UniversalNewlines(text));
    ParseLinesShape(ReadLines(text));
  }

  // ---- Merging -----------------------------------------------------------------------------------------

  datatype Sheet = Sheet(lines: seq<string>, positions: map<string, nat>)

  predicate ValidSheet(s: Sheet) { forall k <- s.positions :: s.positions[k] < |s.lines| }

  /** For each key the last line that sets it. */
  function Positions(lines: seq<string>): (m: map<string, nat>)
    ensures forall k <- m :: m[k] < |lines|
  {
    if lines == [] then map[]
    else
      var n := |lines| - 1;
      var before := Positions(lines[..n]);
      match ParseLine(lines[n])
      case None => before
      case Some(e) => before[e.key := n]
  }

  function Upsert(s: Sheet, e: Entry<string, string>): (r: Sheet)
    requires ValidSheet(s)
    ensures ValidSheet(r)
  {
    if e.key in s.positions
    then s.(lines := s.lines[s.positions[e.key] := Print(e)])
    else Sheet(s.lines + [Print(e)], s.positions[e.key := |s.lines|])
  }

  function AddDefaults(s: Sheet, defaults: Settings): (r: Sheet)
    requires ValidSheet(s)
    ensures ValidSheet(r)
  {
    if defaults == [] then s
    else
      var n := |defaults| - 1;
      var before := AddDefaults(s, defaults[..n]);
      if defaults[n].key in before.positions then before else Upsert(before, defaults[n])
  }

  function SetRequired(s: Sheet, required: Settings): (r: Sheet)
    requires ValidSheet(s)
    ensures ValidSheet(r)
  {
    if required == [] then s else Upsert(SetRequired(s, required[..|required| - 1]), required[|required| - 1])
  }

  function TargetLines(target: Option<string>): seq<string> {
    if target.Some? then ReadLines(target.value) else []
  }

  function MergedSheet(target: Option<string>, required: Settings, defaults: Settings): (r: Sheet)
    ensures ValidSheet(r)
  {
    var lines := TargetLines(target);
    SetRequired(AddDefaults(Sheet(lines, Positions(lines)), defaults), required)
  }

  function MergedText(target: Option<string>, required: Settings, defaults: Settings): string {
    RStrip(Join(MergedSheet(target, required, defaults).lines)) + "\n"
  }

  method FindPositions(lines: seq<string>) returns (positions: map<string, nat>)
    ensures positions == Positions(lines)
  {
    positions := map[];
    for idx := 0 to |lines|
      invariant positions == Positions(lines[..idx])
    {
      assert lines[..idx + 1][..idx] == lines[..idx];
      var line := Strip(lines[idx]);
      if line == "" || line[0] == '#' {
        continue;
      }
      var content := if StartsWith(line, EXPORT) then Strip(line[7..]) else line;
      var n := IndexOfEquals(content);
      if n == |content| {
        continue;
      }
      positions := positions[Strip(content[..n]) := idx];
    }
    assert lines[..|lines|] == lines;
  }

  method UpsertLine(lines: seq<string>, positions: map<string, nat>, key: string, value: string)
    returns (newLines: seq<string>, newPositions: map<string, nat>)
    requires ValidSheet(Sheet(lines, positions))
    ensures Sheet(newLines, newPositions) == Upsert(Sheet(lines, positions), Entry(key, value))
  {
    var newLine := key + "=" + value;
    newLines, newPositions := lines, positions;
    if key !in positions {
      newPositions := newPositions[key := |lines|];
      newLines := newLines + [newLine];
    } else {
      newLines := newLines[positions[key] := newLine];
    }
  }

  method MergeIntoTarget(target: Option<string>, required: Settings, defaults: Settings) returns (text: string)
    ensures text == MergedText(target, required, defaults)
  {
    var lines := [];
    if target.Some? {
      lines := ReadLines(target.value);
    }
    var positions := FindPositions(lines);
    ghost var start := Sheet(lines, positions);
    for i := 0 to |defaults|
      invariant Sheet(lines, positions) == AddDefaults(start, defaults[..i])
    {
      assert defaults[..i + 1][..i] == defaults[..i];
      if defaults[i].key !in positions {
        lines, positions := UpsertLine(lines, positions, defaults[i].key, defaults[i].value);
      }
    }
    assert defaults[..|defaults|] == defaults;
    ghost var middle := Sheet(lines, positions);
    for i := 0 to |required|
      invariant Sheet(lines, positions) == SetRequired(middle, required[..i])
    {
      assert required[..i + 1][..i] == required[..i];
      lines, positions := UpsertLine(lines, positions, required[i].key, required[i].value);
    }
    assert required[..|required|] == required;
    text := RStrip(Join(lines)) + "\n";
  }

  method EnsureRequired(file: Option<string>, required: Settings) returns (missing: seq<string>, wrong: seq<string>)
    ensures var current := if file.Some? then ParseText(file.value) else [];
            && (forall k :: k in missing <==> exists e <- required :: e.key == k && Lookup(current, k).None?)
            && (forall k :: k in wrong <==> exists e <- required ::
                  e.key == k && Lookup(current, k).Some? && Lookup(current, k).value != e.value)
  {
    var current := ParseEnvFile(file);
    missing, wrong := [], [];
    for i := 0 to |required|
      invariant forall k :: k in missing <==> exists e <- required[..i] :: e.key == k && Lookup(current, k).None?
      invariant forall k :: k in wrong <==> exists e <- required[..i] ::
        e.key == k && Lookup(current, k).Some? && Lookup(current, k).value != e.value
    {
      assert required[..i + 1] == required[..i] + [required[i]];
      var found := Lookup(current, required[i].key);
      if found.None? {
        missing := missing + [required[i].key];
      } else if found.value != required[i].value {
        wrong := wrong + [required[i].key];
      }
    }
    assert required[..|required|] == required;
  }

  // ---- What one upsert does to the parse ---------------------------------------------------------------

  predicate Sets(line: string, k: string) { ParseLine(line).Some? && ParseLine(line).value.key == k }

  /** Line p is the last one that sets k. */
  predicate LastAt(lines: seq<string>, k: string, p: nat) {
    p < |lines| && Sets(lines[p], k) && forall j :: p < j < |lines| ==> !Sets(lines[j], k)
  }

  lemma {:induction false} LastLineDecides(lines: seq<string>, k: string)
    ensures DistinctKeys(ParseLines(lines))
    ensures k in Positions(lines) <==> Lookup(ParseLines(lines), k).Some?
    ensures k in Positions(lines) ==>
              && LastAt(lines, k, Positions(lines)[k])
              && ParseLine(lines[Positions(lines)[k]]) == Some(Entry(k, Lookup(ParseLines(lines), k).value))
    ensures k !in Positions(lines) ==> forall l <- lines :: !Sets(l, k)
  {
    hide ParseLine;
    if lines != [] {
      var n := |lines| - 1;
      LastLineDecides(lines[..n], k);
      var p := ParseLine(lines[n]);
      if p.None? {
        LastAtGrows(lines, k);
      } else {
        DictSetFacts(ParseLines(lines[..n]), p.value.key, p.value.value, k);
        hide DictSet, Lookup;
        if p.value.key != k { LastAtGrows(lines, k); }
      }
    }
  }

  lemma LastAtGrows(lines: seq<string>, k: string)
    requires lines != [] && !Sets(lines[|lines| - 1], k)
    ensures forall p: nat :: LastAt(lines[..|lines| - 1], k, p) ==> LastAt(lines, k, p)
    ensures (forall l <- lines[..|lines| - 1] :: !Sets(l, k)) ==> forall l <- lines :: !Sets(l, k)
  {
    hide Sets;
    assert lines == lines[..|lines| - 1] + [lines[|lines| - 1]];
  }

  lemma LastIsUnique(lines: seq<string>, k: string, p: nat)
    requires LastAt(lines, k, p)
    ensures k in Positions(lines) && Positions(lines)[k] == p
    ensures Lookup(ParseLines(lines), k) == Some(ParseLine(lines[p]).value.value)
  {
    LastLineDecides(lines, k);
  }

  ghost predicate Synced(s: Sheet) { s.positions == Positions(s.lines) && forall l <- s.lines :: NoBreaks(l) }

  predicate Printable(e: Entry<string, string>) { PlainKey(e.key) && PlainValue(e.value) && SafeKey(e.key) }

  /** How one upsert moves the last line that sets a key. */
  lemma UpsertLastAt(s: Sheet, e: Entry<string, string>, k: string)
    requires Synced(s) && ValidSheet(s) && ParseLine(Print(e)) == Some(e)
    ensures var r := Upsert(s, e);
            && (k == e.key ==> LastAt(r.lines, k, r.positions[k]) && r.lines[r.positions[k]] == Print(e))
            && (k != e.key && k in s.positions ==> LastAt(r.lines, k, s.positions[k])
                                                    && r.lines[s.positions[k]] == s.lines[s.positions[k]])
            && (k != e.key && k !in s.positions ==> forall l <- r.lines :: !Sets(l, k))
  {
    LastLineDecides(s.lines, k);
    LastLineDecides(s.lines, e.key);
    hide ParseLine, Print, Positions, ParseLines;
  }

  /** After an upsert the file parses as before, except that the key has the new value; the index stays right. */
  lemma UpsertFacts(s: Sheet, e: Entry<string, string>, k: string)
    requires Synced(s) && ValidSheet(s) && Printable(e)
    ensures Synced(Upsert(s, e))
    ensures Lookup(ParseLines(Upsert(s, e).lines), k)
            == if k == e.key then Some(e.value) else Lookup(ParseLines(s.lines), k)
  {
    var r := Upsert(s, e);
    PrintedIsParsedExactlyWhen(e);
    PrintedShape(e);
    hide ParseLine, Print;
    forall x ensures x in r.positions <==> x in Positions(r.lines)
    ensures x in r.positions ==> r.positions[x] == Positions(r.lines)[x] {
      UpsertPosition(s, e, x);
    }
    assert r.positions == Positions(r.lines);
    UpsertLookup(s, e, k);
  }

  lemma UpsertPosition(s: Sheet, e: Entry<string, string>, k: string)
    requires Synced(s) && ValidSheet(s) && ParseLine(Print(e)) == Some(e)
    ensures var r := Upsert(s, e);
            && (k in r.positions <==> k in Positions(r.lines))
            && (k in r.positions ==> r.positions[k] == Positions(r.lines)[k])
  {
    var r := Upsert(s, e);
    UpsertLastAt(s, e, k);
    LastLineDecides(r.lines, k);
    hide ParseLine, Print, Positions, ParseLines;
    if k in r.positions { LastIsUnique(r.lines, k, r.positions[k]); }
  }

  lemma UpsertLookup(s: Sheet, e: Entry<string, string>, k: string)
    requires Synced(s) && ValidSheet(s) && ParseLine(Print(e)) == Some(e)
    ensures Lookup(ParseLines(Upsert(s, e).lines), k)
            == if k == e.key then Some(e.value) else Lookup(ParseLines(s.lines), k)
  {
    var r := Upsert(s, e);
    UpsertLastAt(s, e, k);
    LastLineDecides(r.lines, k);
    LastLineDecides(s.lines, k);
    hide ParseLine, Print, Positions, ParseLines, Lookup;
    if k in r.positions { LastIsUnique(r.lines, k, r.positions[k]); }
    if k in s.positions { LastIsUnique(s.lines, k, s.positions[k]); }
  }

  predicate PrintableProfile(d: Settings) { DistinctKeys(d) && forall e <- d :: Printable(e) }

  lemma InitOf(d: Settings, k: string)
    requires PrintableProfile(d) && d != []
    ensures var n := |d| - 1;
            && PrintableProfile(d[..n]) && Printable(d[n])
            && Lookup(d[..n], d[n].key).None?
            && Lookup(d, k) == if k == d[n].key then Some(d[n].value) else Lookup(d[..n], k)
  {
    var n := |d| - 1;
    assert d == d[..n] + [d[n]];
    LookupInParts(d[..n], [d[n]], k);
    LookupMember(d[..n], d[n].key);
    assert forall e <- d[..n] :: e in d;
  }

  /** Defaults are added for absent keys only. */
  lemma {:induction false} DefaultsFacts(s: Sheet, defaults: Settings, k: string)
    requires Synced(s) && ValidSheet(s) && PrintableProfile(defaults)
    ensures Synced(AddDefaults(s, defaults))
    ensures Lookup(ParseLines(AddDefaults(s, defaults).lines), k)
            == if Lookup(ParseLines(s.lines), k).Some? then Lookup(ParseLines(s.lines), k) else Lookup(defaults, k)
  {
    if defaults == [] {
    } else {
      var n := |defaults| - 1;
      var before := AddDefaults(s, defaults[..n]);
      InitOf(defaults, k);
      DefaultsFacts(s, defaults[..n], k);
      LastLineDecides(before.lines, defaults[n].key);
      hide ParseLines, Positions, Upsert, Printable, Lookup;
      if defaults[n].key !in before.positions {
        UpsertFacts(before, defaults[n], k);
      }
    }
  }

  /** Required settings override whatever was there. */
  lemma {:induction false} RequiredFacts(s: Sheet, required: Settings, k: string)
    requires Synced(s) && ValidSheet(s) && PrintableProfile(required)
    ensures Synced(SetRequired(s, required))
    ensures Lookup(ParseLines(SetRequired(s, required).lines), k)
            == if Lookup(required, k).Some? then Lookup(required, k) else Lookup(ParseLines(s.lines), k)
  {
    if required == [] {
    } else {
      var n := |required| - 1;
      InitOf(required, k);
      RequiredFacts(s, required[..n], k);
      hide ParseLines, Positions, Upsert, Printable, Lookup;
      UpsertFacts(SetRequired(s, required[..n]), required[n], k);
    }
  }

  // ---- The merged file ---------------------------------------------------------------------------------

  /** Two last lines with the same setting do the same to a file. */
  lemma SameLastLine(before: seq<string>, l: string, m: string)
    requires ParseLine(l) == ParseLine(m)
    ensures ParseLines(before + [l]) == ParseLines(before + [m])
    ensures Positions(before + [l]) == Positions(before + [m])
  {
    hide ParseLine;
    assert (before + [l])[..|before|] == before && (before + [m])[..|before|] == before;
  }

  lemma NoLastSetting(before: seq<string>, l: string)
    requires ParseLine(l) == None
    ensures ParseLines(before + [l]) == ParseLines(before)
    ensures Positions(before + [l]) == Positions(before)
  {
    hide ParseLine;
    assert (before + [l])[..|before|] == before;
  }

  /** Cutting off trailing whitespace changes no setting and no position. */
  lemma {:induction false} RStripKeepsSettings(lines: seq<string>)
    ensures ParseLines(RStripLines(lines)) == ParseLines(lines)
    ensures Positions(RStripLines(lines)) == Positions(lines)
  {
    if lines == [] {
    } else {
      var n := |lines| - 1;
      RStripKeepsLine(lines[n]);
      assert lines == lines[..n] + [lines[n]];
      hide ParseLine, ParseLines, Positions, RStrip;
      if RStrip(lines[n]) == "" {
        RStripKeepsSettings(lines[..n]);
        NoLastSetting(lines[..n], lines[n]);
      } else {
        SameLastLine(lines[..n], lines[n], RStrip(lines[n]));
      }
    }
  }

  lemma RStripKeepsLine(line: string)
    ensures ParseLine(RStrip(line)) == ParseLine(line)
    ensures RStrip(line) == "" ==> ParseLine(line) == None
  {
    StripFacts(line);
    hide RStrip, IndexOfEquals;
  }

  lemma StartIsSynced(target: Option<string>)
    ensures var lines := TargetLines(target); Synced(Sheet(lines, Positions(lines)))
  {
    if target.Some? { SplitLinesFacts(UniversalNewlines(target.value)); }
  }

  lemma MergedSheetFacts(target: Option<string>, required: Settings, defaults: Settings, k: string)
    requires PrintableProfile(required) && PrintableProfile(defaults)
    ensures Synced(MergedSheet(target, required, defaults))
    ensures Lookup(ParseLines(MergedSheet(target, required, defaults).lines), k)
            == if Lookup(required, k).Some? then Lookup(required, k)
               else if Lookup(ParseLines(TargetLines(target)), k).Some? then Lookup(ParseLines(TargetLines(target)), k)
               else Lookup(defaults, k)
  {
    var lines := TargetLines(target);
    var s := Sheet(lines, Positions(lines));
    StartIsSynced(target);
    DefaultsFacts(s, defaults, k);
    RequiredFacts(AddDefaults(s, defaults), required, k);
  }

  lemma BlankLineParses()
    ensures ParseLines([""]) == [] && Positions([""]) == map[]
  {
    assert Strip("") == "";
    assert [""][..0] == [];
  }

  lemma ExportHasNoBreaks()
    ensures NoBreaks(EXPORT)
  {}

  predicate Unbroken(lines: seq<string>) { forall l <- lines :: NoBreaks(l) }

  lemma PrintUnbroken(e: Entry<string, string>)
    requires PlainKey(e.key) && PlainValue(e.value)
    ensures NoBreaks(Print(e)) && NoBreaks(EXPORT + Print(e))
  {
    PrintedShape(e);
    ExportHasNoBreaks();
    assert forall c <- EXPORT + Print(e) :: c in EXPORT || c in Print(e);
  }

  lemma UpsertUnbroken(s: Sheet, e: Entry<string, string>)
    requires ValidSheet(s) && Unbroken(s.lines) && NoBreaks(Print(e))
    ensures Unbroken(Upsert(s, e).lines)
  {
    hide NoBreaks, Print;
  }

  lemma {:induction false} DefaultsUnbroken(s: Sheet, defaults: Settings)
    requires ValidSheet(s) && Unbroken(s.lines) && Plain(defaults)
    ensures Unbroken(AddDefaults(s, defaults).lines)
  {
    if defaults == [] {
    } else {
      var n := |defaults| - 1;
      PrintUnbroken(defaults[n]);
      hide Unbroken, NoBreaks, PlainKey, PlainValue, Upsert, Print;
      DefaultsUnbroken(s, defaults[..n]);
      UpsertUnbroken(AddDefaults(s, defaults[..n]), defaults[n]);
    }
  }

  lemma {:induction false} RequiredUnbroken(s: Sheet, required: Settings)
    requires ValidSheet(s) && Unbroken(s.lines) && Plain(required)
    ensures Unbroken(SetRequired(s, required).lines)
  {
    if required == [] {
    } else {
      var n := |required| - 1;
      PrintUnbroken(required[n]);
      hide Unbroken, NoBreaks, PlainKey, PlainValue, Upsert, Print;
      RequiredUnbroken(s, required[..n]);
      UpsertUnbroken(SetRequired(s, required[..n]), required[n]);
    }
  }

  /** For any profile the written file reads back as the merged lines without trailing blanks, and parses as they do. */
  lemma MergeReadsBack(target: Option<string>, required: Settings, defaults: Settings)
    requires Plain(required) && Plain(defaults)
    ensures var r := RStripLines(MergedSheet(target, required, defaults).lines);
            ReadLines(MergedText(target, required, defaults)) == if r == [] then [""] else r
    ensures ParseText(MergedText(target, required, defaults))
            == ParseLines(MergedSheet(target, required, defaults).lines)
  {
    var lines := TargetLines(target);
    var s := Sheet(lines, Positions(lines));
    StartIsSynced(target);
    DefaultsUnbroken(s, defaults);
    RequiredUnbroken(AddDefaults(s, defaults), required);
    var all := MergedSheet(target, required, defaults).lines;
    assert Unbroken(all);
    WrittenReadsBack(all);
    RStripKeepsSettings(all);
    BlankLineParses();
    hide AddDefaults, SetRequired, Positions, ParseLines, RStripLines, NoBreaks;
  }

  /**
   * The whole result of a merge, as the parser sees it: required values win, a default fills in for an absent key
   * only, and every other key keeps the value that the last of its lines gave it.
   */
  lemma MergeThenParse(target: Option<string>, required: Settings, defaults: Settings, k: string)
    requires PrintableProfile(required) && PrintableProfile(defaults)
    ensures var was := if target.Some? then ParseText(target.value) else [];
            Lookup(ParseText(MergedText(target, required, defaults)), k)
            == if Lookup(required, k).Some? then Lookup(required, k)
               else if Lookup(was, k).Some? then Lookup(was, k)
               else Lookup(defaults, k)
  {
    MergedSheetFacts(target, required, defaults, k);
    MergeReadsBack(target, required, defaults);
  }

  lemma SetLastLine(before: seq<string>, l: string, k: string)
    requires ParseLine(l).Some?
    ensures Lookup(ParseLines(before + [l]), k)
            == if k == ParseLine(l).value.key then Some(ParseLine(l).value.value) else Lookup(ParseLines(before), k)
  {
    LastLineDecides(before, k);
    DictSetFacts(ParseLines(before), ParseLine(l).value.key, ParseLine(l).value.value, k);
    hide ParseLine;
    assert (before + [l])[..|before|] == before;
  }

  lemma NewKeyIsAppended(target: Option<string>, e: Entry<string, string>)
    requires Lookup(ParseLines(TargetLines(target)), e.key).None?
    ensures MergedSheet(target, [e], []).lines == TargetLines(target) + [Print(e)]
  {
    var lines := TargetLines(target);
    LastLineDecides(lines, e.key);
    var s := Sheet(lines, Positions(lines));
    assert [e][..0] == [];
    assert SetRequired(s, [e]) == Upsert(s, e);
    hide ParseLine, Print, Positions, ParseLines;
  }

  /** A new setting survives the merge if and only if its key starts neither a comment nor an export. */
  lemma NewKeySurvivesExactlyWhen(target: Option<string>, e: Entry<string, string>)
    requires PlainKey(e.key) && PlainValue(e.value)
    requires Lookup(ParseLines(TargetLines(target)), e.key).None?
    ensures Lookup(ParseText(MergedText(target, [e], [])), e.key) == Some(e.value) <==> SafeKey(e.key)
  {
    var lines := TargetLines(target);
    PrintedIsParsedExactlyWhen(e);
    NewKeyIsAppended(target, e);
    MergeReadsBack(target, [e], []);
    hide ParseLine, Print, ParseLines, ParseText, MergedText, MergedSheet, Lookup, SafeKey, TargetLines;
    if ParseLine(Print(e)).None? { NoLastSetting(lines, Print(e)); } else { SetLastLine(lines, Print(e), e.key); }
  }

  // ---- The lines of the target -------------------------------------------------------------------------

  lemma {:induction false} DefaultsOnlyAppend(s: Sheet, defaults: Settings)
    requires ValidSheet(s)
    ensures var r := AddDefaults(s, defaults);
            && s.lines <= r.lines && forall k <- s.positions :: k in r.positions && r.positions[k] == s.positions[k]
    ensures forall k <- AddDefaults(s, defaults).positions ::
              k in s.positions || AddDefaults(s, defaults).positions[k] >= |s.lines|
  {
    if defaults == [] {
    } else {
      DefaultsOnlyAppend(s, defaults[..|defaults| - 1]);
      hide Print;
    }
  }

  /** Of the first n lines a required setting replaces the one its key has a place on, if any. */
  lemma UpsertAtPlace(s: Sheet, e: Entry<string, string>, i: nat)
    requires ValidSheet(s) && i < |s.lines|
    ensures var r := Upsert(s, e);
            && i < |r.lines| && (forall k <- s.positions :: k in r.positions && r.positions[k] == s.positions[k])
            && r.lines[i] == (if e.key in s.positions && s.positions[e.key] == i then Print(e) else s.lines[i])
            && forall k <- r.positions :: k in s.positions || r.positions[k] > i
  {
    hide Print;
  }

  ghost predicate HasPlace(s: Sheet, k: string, i: nat) { k in s.positions && s.positions[k] == i }

  lemma {:induction false} RequiredAtPlaces(s: Sheet, required: Settings, i: nat)
    requires ValidSheet(s) && i < |s.lines|
    requires forall k, m :: HasPlace(s, k, i) && HasPlace(s, m, i) ==> k == m
    requires DistinctKeys(required)
    ensures var r := SetRequired(s, required);
            && i < |r.lines| && (forall k :: HasPlace(r, k, i) <==> HasPlace(s, k, i))
            && (forall e <- required :: HasPlace(s, e.key, i) ==> r.lines[i] == Print(e))
            && ((forall e <- required :: !HasPlace(s, e.key, i)) ==> r.lines[i] == s.lines[i])
  {
    if required == [] {
    } else {
      var n := |required| - 1;
      RequiredAtPlaces(s, required[..n], i);
      var before := SetRequired(s, required[..n]);
      UpsertAtPlace(before, required[n], i);
      assert required == required[..n] + [required[n]];
      hide Upsert, Print;
      var r := SetRequired(s, required);
      forall e | e in required && HasPlace(s, e.key, i) ensures r.lines[i] == Print(e) {
        assert HasPlace(before, e.key, i) && (HasPlace(before, required[n].key, i) ==> HasPlace(s, required[n].key, i));
        if e != required[n] { assert e in required[..n] && e.key != required[n].key; }
      }
    }
  }

  /**
   * A merge rewrites only the lines that have to change: of the lines of the target the last one that sets a required
   * key becomes that setting as printed, and every other line, comments and blank ones too, stays as it is, in place.
   */
  lemma OtherLinesStay(target: Option<string>, required: Settings, defaults: Settings, i: nat)
    requires DistinctKeys(required) && i < |TargetLines(target)|
    ensures var lines := TargetLines(target);
            var merged := MergedSheet(target, required, defaults).lines;
            && i < |merged|
            && (forall e <- required :: LastAt(lines, e.key, i) ==> merged[i] == Print(e))
            && ((forall e <- required :: !LastAt(lines, e.key, i)) ==> merged[i] == lines[i])
  {
    var lines := TargetLines(target);
    var start := Sheet(lines, Positions(lines));
    var s := AddDefaults(start, defaults);
    DefaultsOnlyAppend(start, defaults);
    forall k ensures HasPlace(s, k, i) <==> LastAt(lines, k, i) {
      LastLineDecides(lines, k);
      hide ParseLines, Positions, AddDefaults, Lookup, Sets;
      if LastAt(lines, k, i) { LastIsUnique(lines, k, i); }
    }
    hide ParseLines, Positions, AddDefaults, SetRequired, Print;
    RequiredAtPlaces(s, required, i);
  }

  // ---- Merging again -----------------------------------------------------------------------------------

  /** The setting stands, exactly as printed, on the line that the index has for its key. */
  predicate Stands(s: Sheet, e: Entry<string, string>) {
    e.key in s.positions && s.positions[e.key] < |s.lines| && s.lines[s.positions[e.key]] == Print(e)
  }

  ghost predicate Settled(s: Sheet, required: Settings) { forall e <- required :: Stands(s, e) }

  lemma {:induction false} RequiredSettles(s: Sheet, required: Settings)
    requires Synced(s) && ValidSheet(s) && PrintableProfile(required)
    ensures Settled(SetRequired(s, required), required)
  {
    if required == [] {
    } else {
      var n := |required| - 1;
      var before := SetRequired(s, required[..n]);
      InitOf(required, "");
      RequiredSettles(s, required[..n]);
      RequiredFacts(s, required[..n], "");
      PrintedIsParsedExactlyWhen(required[n]);
      forall e <- required ensures Stands(SetRequired(s, required), e) {
        UpsertLastAt(before, required[n], e.key);
        assert e == required[n] || e in required[..n];
        LookupMember(required[..n], required[n].key);
        assert e in required[..n] ==> Stands(before, e);
        hide Print, ParseLine, LastAt;
      }
    }
  }

  lemma {:induction false} SettledIsFixed(s: Sheet, required: Settings)
    requires ValidSheet(s) && Settled(s, required)
    ensures SetRequired(s, required) == s
  {
    if required == [] {
    } else {
      var n := |required| - 1;
      assert forall e <- required[..n] :: e in required;
      SettledIsFixed(s, required[..n]);
      assert Stands(s, required[n]);
      hide Print;
    }
  }

  lemma {:induction false} PresentDefaultsAreSkipped(s: Sheet, defaults: Settings)
    requires ValidSheet(s) && forall e <- defaults :: e.key in s.positions
    ensures AddDefaults(s, defaults) == s
  {
    if defaults == [] {
    } else {
      PresentDefaultsAreSkipped(s, defaults[..|defaults| - 1]);
    }
  }

  lemma {:induction false} RStripLinesAt(lines: seq<string>, p: nat)
    requires p < |RStripLines(lines)|
    ensures p < |lines| && (RStripLines(lines)[p] == lines[p] || RStripLines(lines)[p] == RStrip(lines[p]))
  {
    var n := |lines| - 1;
    if RStrip(lines[n]) == "" { RStripLinesAt(lines[..n], p); }
  }

  lemma SettledSurvivesWriting(s: Sheet, required: Settings)
    requires Synced(s) && Settled(s, required) && PrintableProfile(required)
    ensures var r := RStripLines(s.lines); Settled(Sheet(r, Positions(r)), required)
  {
    var r := RStripLines(s.lines);
    RStripKeepsSettings(s.lines);
    forall e <- required ensures Stands(Sheet(r, Positions(r)), e) {
      assert Stands(s, e);
      RStripLinesAt(s.lines, s.positions[e.key]);
      PrintedShape(e);
      TrimmedIsFixed(Print(e));
    }
  }

  lemma DefaultsArePresent(target: Option<string>, required: Settings, defaults: Settings)
    requires PrintableProfile(required) && PrintableProfile(defaults)
    ensures forall e <- defaults :: e.key in MergedSheet(target, required, defaults).positions
  {
    var s := MergedSheet(target, required, defaults);
    forall e <- defaults ensures e.key in s.positions {
      MergedSheetFacts(target, required, defaults, e.key);
      LookupMember(defaults, e.key);
      LastLineDecides(s.lines, e.key);
    }
  }

  /** Merging the same profile into its own result gives the identical text. */
  lemma MergeIsIdempotent(target: Option<string>, required: Settings, defaults: Settings)
    requires PrintableProfile(required) && PrintableProfile(defaults)
    ensures var text := MergedText(target, required, defaults); MergedText(Some(text), required, defaults) == text
  {
    var lines := TargetLines(target);
    var start := Sheet(lines, Positions(lines));
    var s := MergedSheet(target, required, defaults);
    var text := MergedText(target, required, defaults);
    var r := RStripLines(s.lines);
    StartIsSynced(target);
    DefaultsFacts(start, defaults, "");
    RequiredSettles(AddDefaults(start, defaults), required);
    MergedSheetFacts(target, required, defaults, "");
    MergeReadsBack(target, required, defaults);
    SettledSurvivesWriting(s, required);
    DefaultsArePresent(target, required, defaults);
    RStripKeepsSettings(s.lines);
    RStripLinesFacts(s.lines);
    RStripJoin(s.lines);
    RStripJoin(r);
    BlankLineParses();
    hide AddDefaults, SetRequired, Positions, ReadLines, ParseLines, RStripLines, Join, RStrip, PrintableProfile;
    var again := TargetLines(Some(text));
    var t := Sheet(again, Positions(again));
    assert Settled(t, required);
    PresentDefaultsAreSkipped(t, defaults);
    SettledIsFixed(t, required);
    assert MergedSheet(Some(text), required, defaults) == t;
    BlankIsCut();
  }

  lemma BlankIsCut()
    ensures RStripLines([""]) == [] && RStrip(Join([""])) == "" && Join([]) == ""
  {
    assert [""][..0] == [];
  }

  // ---- The whole script --------------------------------------------------------------------------------

  datatype Outcome = EmptyProfile | ValidationFailed | Applied(text: string)

  method ApplyProfile(target: Option<string>, requiredFile: Option<string>, defaultsFile: Option<string>)
    returns (outcome: Outcome)
    ensures outcome == Profile(target, requiredFile, defaultsFile)
  {
    var required := ParseEnvFile(requiredFile);
    var defaults := ParseEnvFile(defaultsFile);
    if |required| == 0 {
      return EmptyProfile;
    }
    var text := MergeIntoTarget(target, required, defaults);
    var missing, wrong := EnsureRequired(Some(text), required);
    CheckIsConformance(text, required, missing, wrong);
    if missing != [] || wrong != [] {
      return ValidationFailed;
    }
    return Applied(text);
  }

  /** Every required setting is there with its value. */
  predicate Conforms(text: string, required: Settings) {
    forall e <- required :: Lookup(ParseText(text), e.key) == Some(e.value)
  }

  function Profile(target: Option<string>, requiredFile: Option<string>, defaultsFile: Option<string>): Outcome {
    var required := if requiredFile.Some? then ParseText(requiredFile.value) else [];
    var defaults := if defaultsFile.Some? then ParseText(defaultsFile.value) else [];
    var text := MergedText(target, required, defaults);
    if required == [] then EmptyProfile
    else if Conforms(text, required) then Applied(text)
    else ValidationFailed
  }

  lemma CheckIsConformance(text: string, required: Settings, missing: seq<string>, wrong: seq<string>)
    requires forall k :: k in missing <==> exists e <- required :: e.key == k && Lookup(ParseText(text), k).None?
    requires forall k :: k in wrong <==> exists e <- required ::
      e.key == k && Lookup(ParseText(text), k).Some? && Lookup(ParseText(text), k).value != e.value
    ensures missing == [] && wrong == [] <==> Conforms(text, required)
  {
    if missing != [] { assert missing[0] in missing; }
    if wrong != [] { assert wrong[0] in wrong; }
    forall e <- required | missing == [] && wrong == [] ensures Lookup(ParseText(text), e.key) == Some(e.value) {
      assert e.key !in missing && e.key !in wrong;
    }
  }

  predicate SafeProfile(file: Option<string>) { file.Some? ==> forall e <- ParseText(file.value) :: SafeKey(e.key) }

  /**
   * For any three files, as long as no profile key starts a comment or an export: the script succeeds on a profile
   * that is not empty, and running it again changes nothing.
   */
  lemma ProfileAlwaysApplies(target: Option<string>, requiredFile: Option<string>, defaultsFile: Option<string>)
    requires SafeProfile(requiredFile) && SafeProfile(defaultsFile)
    requires requiredFile.Some? && ParseText(requiredFile.value) != []
    ensures var o := Profile(target, requiredFile, defaultsFile);
            o.Applied? && Profile(Some(o.text), requiredFile, defaultsFile) == o
  {
    var required := ParseText(requiredFile.value);
    var defaults := if defaultsFile.Some? then ParseText(defaultsFile.value) else [];
    SafeIsPrintable(requiredFile.value);
    if defaultsFile.Some? { SafeIsPrintable(defaultsFile.value); }
    var text := MergedText(target, required, defaults);
    forall e <- required ensures Lookup(ParseText(text), e.key) == Some(e.value) {
      MergeThenParse(target, required, defaults, e.key);
      LookupUnique(required, e);
    }
    MergeIsIdempotent(target, required, defaults);
    hide MergedText, ParseText;
  }

  lemma SafeIsPrintable(text: string)
    requires SafeProfile(Some(text))
    ensures PrintableProfile(ParseText(text))
  {
    ParsedFileIsPlain(text);
    hide ParseText;
  }

  /** Behind an `export`, the parser accepts every plain key, safe or not. */
  lemma ExportIsParsed(e: Entry<string, string>)
    requires PlainKey(e.key) && PlainValue(e.value)
    ensures ParseLine(EXPORT + Print(e)) == Some(e)
  {
    var s := EXPORT + Print(e);
    PrintedShape(e);
    assert s[0] == 'e' && s[|s| - 1] == Print(e)[|Print(e)| - 1];
    assert !IsSpace('e');
    TrimmedIsFixed(s);
    TrimmedIsFixed(Print(e));
    TrimmedIsFixed(e.key);
    TrimmedIsFixed(e.value);
    EqualsAt(e.key, e.value);
    hide Strip, IsSpace, IsBreak, Trimmed, NoBreaks, PlainKey, PlainValue;
    assert s[7..] == Print(e);
    assert Print(e)[..|e.key|] == e.key && Print(e)[|e.key| + 1..] == e.value;
  }

  lemma OneLineFile(line: string)
    requires NoBreaks(line) && line != ""
    ensures ReadLines(line) == [line]
  {
    UniversalIsIdentity(line);
  }

  lemma ExportFileParses(e: Entry<string, string>)
    requires PlainKey(e.key) && PlainValue(e.value)
    ensures ParseText(EXPORT + Print(e)) == [e]
  {
    var s := EXPORT + Print(e);
    ExportIsParsed(e);
    PrintedShape(e);
    ExportHasNoBreaks();
    assert NoBreaks(s) by { assert forall c <- s :: c in EXPORT || c in Print(e); }
    OneLineFile(s);
    hide ParseLine, Print, ReadLines, NoBreaks;
    assert [s][..0] == [] && ParseLines([]) == [];
    assert DictSet([], e.key, e.value) == [e];
    assert ParseLines([s]) == [e];
  }

  /** A profile can name every plain key through an `export`; the script rejects its own output if one is not safe. */
  lemma UnsafeKeyIsRejected(e: Entry<string, string>)
    requires PlainKey(e.key) && PlainValue(e.value) && !SafeKey(e.key)
    ensures Profile(None, Some(EXPORT + Print(e)), None) == ValidationFailed
  {
    ExportFileParses(e);
    assert TargetLines(None) == [] && ParseLines([]) == [];
    NewKeySurvivesExactlyWhen(None, e);
    hide MergedText, ParseText, Print, PlainKey, PlainValue, SafeKey;
    assert e in [e];
    assert !Conforms(MergedText(None, [e], []), [e]);
  }
}
