/**
 * When applying an env profile always succeeds: the exact condition on the two committed files, over every target
 * file the script may meet.
 */
module EnvProfileOutcome {
  import opened Basics
  import opened EnvProfile

  function Parsed(file: Option<string>): Settings { if file.Some? then ParseText(file.value) else [] }

  lemma ParsedIsPlain(file: Option<string>)
    ensures DistinctKeys(Parsed(file)) && Plain(Parsed(file))
  {
    if file.Some? { ParsedFileIsPlain(file.value); }
  }

  /** Printed without its `export`, the default is read back as a required setting with another value. */
  predicate Shadows(e: Entry<string, string>, required: Settings) {
    && !SafeKey(e.key) && ParseLine(Print(e)).Some?
    && Lookup(required, ParseLine(Print(e)).value.key).Some?
    && Lookup(required, ParseLine(Print(e)).value.key) != Some(ParseLine(Print(e)).value.value)
  }

  /** For instance the default A=x written behind two exports, when the profile has A=y. */
  lemma ExportedKeyShadows(e: Entry<string, string>, value: string)
    requires PlainKey(e.key) && PlainValue(e.value) && e.value != value
    ensures Shadows(Entry(EXPORT + e.key, e.value), [Entry(e.key, value)])
  {
    assert Print(Entry(EXPORT + e.key, e.value)) == EXPORT + Print(e);
    assert EXPORT <= EXPORT + e.key;
    ExportIsParsed(e);
    hide ParseLine, Print;
  }

  // ---- Safe profiles apply -----------------------------------------------------------------------------

  predicate ByUnsafe(line: string, defaults: Settings) {
    exists e <- defaults :: !SafeKey(e.key) && line == Print(e)
  }

  /** Line j sets key k behind the place that the index has for k. */
  predicate IsBehind(s: Sheet, k: string, j: nat) {
    j < |s.lines| && Sets(s.lines[j], k) && (k in s.positions ==> s.positions[k] < j)
  }

  /** No two keys share a place, and only printed unsafe defaults set a key behind its place. */
  ghost predicate Indexed(s: Sheet, defaults: Settings) {
    && ValidSheet(s)
    && (forall k, m :: k in s.positions && m in s.positions && k != m ==> s.positions[k] != s.positions[m])
    && (forall k, j: nat :: IsBehind(s, k, j) ==> ByUnsafe(s.lines[j], defaults))
  }

  lemma NothingIsBehind(lines: seq<string>, k: string, j: nat)
    ensures !IsBehind(Sheet(lines, Positions(lines)), k, j)
  {
    LastLineDecides(lines, k);
    hide ParseLine, Positions, ParseLines;
    assert j < |lines| ==> lines[j] in lines;
  }

  lemma StartIsIndexed(target: Option<string>, defaults: Settings)
    ensures var lines := TargetLines(target); Indexed(Sheet(lines, Positions(lines)), defaults)
  {
    var lines := TargetLines(target);
    var s := Sheet(lines, Positions(lines));
    hide ParseLine, Positions, ParseLines, TargetLines;
    forall k, m | k in s.positions && m in s.positions && k != m ensures s.positions[k] != s.positions[m] {
      LastLineDecides(lines, k);
      LastLineDecides(lines, m);
    }
    forall k, j: nat ensures !IsBehind(s, k, j) { NothingIsBehind(lines, k, j); }
  }

  /** What a merge may write: a setting that is read back, or a default for a key without a place. */
  predicate Writes(s: Sheet, e: Entry<string, string>, defaults: Settings) {
    ParseLine(Print(e)) == Some(e) || (!SafeKey(e.key) && e in defaults && e.key !in s.positions)
  }

  lemma UpsertKeepsIndexed(s: Sheet, e: Entry<string, string>, defaults: Settings)
    requires Indexed(s, defaults) && Writes(s, e, defaults)
    ensures Indexed(Upsert(s, e), defaults)
  {
    var r := Upsert(s, e);
    hide ParseLine, Print, SafeKey;
    forall k, j: nat | IsBehind(r, k, j) ensures ByUnsafe(r.lines[j], defaults) {
      if j < |s.lines| && r.lines[j] == s.lines[j] { assert IsBehind(s, k, j); }
    }
  }

  lemma SafeIsReadBack(e: Entry<string, string>)
    requires PlainKey(e.key) && PlainValue(e.value) && SafeKey(e.key)
    ensures ParseLine(Print(e)) == Some(e)
  {
    PrintedIsParsedExactlyWhen(e);
  }

  lemma {:induction false} DefaultsKeepIndexed(s: Sheet, all: Settings, defaults: Settings)
    requires Indexed(s, all) && Plain(all) && defaults <= all
    ensures Indexed(AddDefaults(s, defaults), all)
  {
    if defaults == [] {
    } else {
      var n := |defaults| - 1;
      var before := AddDefaults(s, defaults[..n]);
      DefaultsKeepIndexed(s, all, defaults[..n]);
      assert defaults[n] == all[n] && defaults[n] in all;
      hide Indexed, PlainKey, PlainValue, ParseLine, Print, Upsert;
      if defaults[n].key !in before.positions {
        if SafeKey(defaults[n].key) { SafeIsReadBack(defaults[n]); }
        UpsertKeepsIndexed(before, defaults[n], all);
      }
    }
  }

  lemma UpsertStands(s: Sheet, e: Entry<string, string>, f: Entry<string, string>, defaults: Settings)
    requires Indexed(s, defaults) && (f == e || (f.key != e.key && Stands(s, f)))
    ensures Stands(Upsert(s, e), f)
  {
    hide Print;
  }

  lemma {:induction false} RequiredStand(s: Sheet, required: Settings, defaults: Settings)
    requires Indexed(s, defaults) && PrintableProfile(required)
    ensures Indexed(SetRequired(s, required), defaults)
    ensures forall e <- required :: Stands(SetRequired(s, required), e)
  {
    if required == [] {
    } else {
      var n := |required| - 1;
      var before := SetRequired(s, required[..n]);
      InitOf(required, "");
      RequiredStand(s, required[..n], defaults);
      SafeIsReadBack(required[n]);
      LookupMember(required[..n], required[n].key);
      hide Indexed, Stands, ParseLine, Print, Upsert, Printable;
      UpsertKeepsIndexed(before, required[n], defaults);
      forall e <- required ensures Stands(SetRequired(s, required), e) {
        assert e == required[n] || e in required[..n];
        UpsertStands(before, required[n], e, defaults);
      }
    }
  }

  /** Whatever sets the key of a standing setting behind it gives it the same value. */
  lemma StandingIsRead(s: Sheet, e: Entry<string, string>, required: Settings, defaults: Settings)
    requires Indexed(s, defaults) && Stands(s, e) && ParseLine(Print(e)) == Some(e)
    requires Lookup(required, e.key) == Some(e.value) && forall d <- defaults :: !Shadows(d, required)
    ensures Lookup(ParseLines(s.lines), e.key) == Some(e.value)
  {
    LastLineDecides(s.lines, e.key);
    var p := s.positions[e.key];
    hide ParseLine, Print, ParseLines, Positions;
    assert s.lines[p] in s.lines;
    var q := Positions(s.lines)[e.key];
    if q != p {
      assert IsBehind(s, e.key, q);
      var d :| d in defaults && !SafeKey(d.key) && s.lines[q] == Print(d);
      assert !Shadows(d, required);
    }
  }

  lemma MergeIsRead(target: Option<string>, required: Settings, defaults: Settings)
    requires PrintableProfile(required) && Plain(defaults) && forall d <- defaults :: !Shadows(d, required)
    ensures forall e <- required ::
      Lookup(ParseLines(MergedSheet(target, required, defaults).lines), e.key) == Some(e.value)
  {
    var lines := TargetLines(target);
    var s := Sheet(lines, Positions(lines));
    StartIsIndexed(target, defaults);
    DefaultsKeepIndexed(s, defaults, defaults);
    RequiredStand(AddDefaults(s, defaults), required, defaults);
    hide Indexed, Stands, AddDefaults, SetRequired, Positions, ParseLines, ParseLine, Print, TargetLines, Lookup,
      Shadows;
    forall e <- required
      ensures Lookup(ParseLines(MergedSheet(target, required, defaults).lines), e.key) == Some(e.value)
    {
      SafeIsReadBack(e);
      LookupUnique(required, e);
      StandingIsRead(MergedSheet(target, required, defaults), e, required, defaults);
    }
  }

  lemma SafeProfileApplies(target: Option<string>, text: string, defaultsFile: Option<string>)
    requires ParseText(text) != [] && SafeProfile(Some(text))
    requires forall e <- Parsed(defaultsFile) :: !Shadows(e, ParseText(text))
    ensures Profile(target, Some(text), defaultsFile).Applied?
  {
    var required, defaults := ParseText(text), Parsed(defaultsFile);
    SafeIsPrintable(text);
    ParsedIsPlain(Some(text));
    ParsedIsPlain(defaultsFile);
    MergeIsRead(target, required, defaults);
    MergeReadsBack(target, required, defaults);
    hide ParseText, MergedText, MergedSheet, ParseLines, Lookup, Shadows, PlainKey, PlainValue, SafeKey;
    assert Conforms(MergedText(target, required, defaults), required);
  }

  // ---- Targets that already name the defaults -----------------------------------------------------------

  /** Behind an `export` every setting is read back as it is. */
  function Exported(d: Settings): (lines: seq<string>)
    ensures |lines| == |d| && forall i :: 0 <= i < |d| ==> lines[i] == EXPORT + Print(d[i])
  {
    seq(|d|, i requires 0 <= i < |d| => EXPORT + Print(d[i]))
  }

  lemma ExportedParse(first: string, d: Settings)
    requires Plain(d) && NoBreaks(first)
    ensures var lines := [first] + Exported(d);
            && Unbroken(lines)
            && forall i :: 0 < i < |lines| ==> ParseLine(lines[i]) == Some(d[i - 1])
  {
    var lines := [first] + Exported(d);
    hide ParseLine, Print, NoBreaks, PlainKey, PlainValue;
    forall i | 0 < i < |lines| ensures ParseLine(lines[i]) == Some(d[i - 1]) && NoBreaks(lines[i]) {
      assert d[i - 1] in d;
      ExportIsParsed(d[i - 1]);
      PrintUnbroken(d[i - 1]);
    }
  }

  /** A file with the given lines. */
  function FileOf(lines: seq<string>): string { Join(lines) + "\n" }

  lemma FileReadsBack(lines: seq<string>)
    requires lines != [] && Unbroken(lines)
    ensures TargetLines(Some(FileOf(lines))) == lines
  {
    JoinHasNoReturn(lines);
    UniversalIsIdentity(FileOf(lines));
    SplitJoin(lines);
  }

  // ---- Unsafe profiles fail somewhere ------------------------------------------------------------------

  /** Each key is set by one line at most. */
  ghost predicate Single(s: Sheet) {
    forall i: nat, k :: i < |s.lines| && Sets(s.lines[i], k) ==> k in s.positions && s.positions[k] == i
  }

  /** Line i was printed for a required setting, or is an old line that sets no required key. */
  predicate Merged(s: Sheet, start: Sheet, required: Settings, i: nat)
    requires i < |s.lines|
  {
    || (exists e <- required :: s.lines[i] == Print(e))
    || (i < |start.lines| && s.lines[i] == start.lines[i] && forall e <- required :: !Sets(s.lines[i], e.key))
  }

  ghost predicate AllMerged(s: Sheet, start: Sheet, required: Settings) {
    && (forall i: nat :: i < |s.lines| ==> Merged(s, start, required, i))
    && (forall k <- start.positions :: k in s.positions && s.positions[k] == start.positions[k])
  }

  /** A required setting more. */
  lemma MergedGrows(s: Sheet, start: Sheet, required: Settings, e: Entry<string, string>, i: nat)
    requires ValidSheet(s) && Single(start) && AllMerged(s, start, required) && i < |Upsert(s, e).lines|
    ensures Merged(Upsert(s, e), start, required + [e], i)
  {
    var r := Upsert(s, e);
    hide Print, ParseLine;
    if r.lines[i] == Print(e) {
      assert e in required + [e];
    } else {
      assert i < |s.lines| && r.lines[i] == s.lines[i];
      assert Merged(s, start, required, i);
      if f :| f in required && s.lines[i] == Print(f) { assert f in required + [e]; }
    }
  }

  lemma {:induction false} RequiredMerge(start: Sheet, required: Settings)
    requires ValidSheet(start) && Single(start)
    ensures AllMerged(SetRequired(start, required), start, required)
  {
    if required == [] {
    } else {
      var n := |required| - 1;
      RequiredMerge(start, required[..n]);
      var before := SetRequired(start, required[..n]);
      var s := SetRequired(start, required);
      assert required == required[..n] + [required[n]];
      hide Merged, Single, Print;
      forall i: nat | i < |s.lines| ensures Merged(s, start, required, i) {
        MergedGrows(before, start, required[..n], required[n], i);
      }
    }
  }

  /** The key that a printed unsafe setting is read back with, if any, is shorter. */
  lemma UnsafeKeyShrinks(e: Entry<string, string>)
    requires PlainKey(e.key) && PlainValue(e.value) && !SafeKey(e.key)
    ensures ParseLine(Print(e)).Some? ==> |ParseLine(Print(e)).value.key| < |e.key|
  {
    PrintedShape(e);
    TrimmedIsFixed(Print(e));
    if StartsWith(e.key, EXPORT) {
      ExportedKeyShrinks(e);
    } else {
      CommentedIsNone(e);
    }
  }

  lemma {:induction false} LongestUnsafe(d: Settings) returns (e: Entry<string, string>)
    requires exists f <- d :: !SafeKey(f.key)
    ensures e in d && !SafeKey(e.key)
    ensures forall f <- d :: !SafeKey(f.key) ==> |f.key| <= |e.key|
  {
    var f :| f in d && !SafeKey(f.key);
    hide SafeKey;
    e := d[0];
    if forall g <- d[1..] :: SafeKey(g.key) {
      assert f == d[0];
    } else {
      e := LongestUnsafe(d[1..]);
      if !SafeKey(d[0].key) && |d[0].key| > |e.key| { e := d[0]; }
    }
  }

  /** No printed setting is read back with the longest unsafe key. */
  lemma LongestIsNotPrinted(required: Settings, e: Entry<string, string>, f: Entry<string, string>)
    requires Plain(required) && f in required && !SafeKey(e.key)
    requires forall g <- required :: !SafeKey(g.key) ==> |g.key| <= |e.key|
    ensures !Sets(Print(f), e.key)
  {
    if SafeKey(f.key) { SafeIsReadBack(f); } else { UnsafeKeyShrinks(f); }
    hide ParseLine, Print;
  }

  /** A target that names every default, so that none is written. */
  function NamesDefaults(defaults: Settings): (lines: seq<string>)
    ensures |lines| == |defaults| + 1
  {
    ["#"] + Exported(defaults)
  }

  /** A line without setting, then one for each default. */
  predicate Names(lines: seq<string>, defaults: Settings) {
    && |lines| == |defaults| + 1 && ParseLine(lines[0]).None?
    && forall i :: 0 < i < |lines| ==> ParseLine(lines[i]) == Some(defaults[i - 1])
  }

  lemma NamesDefaultsLines(defaults: Settings)
    requires Plain(defaults)
    ensures Unbroken(NamesDefaults(defaults)) && Names(NamesDefaults(defaults), defaults)
  {
    assert NoBreaks("#") && ParseLine("#").None?;
    hide ParseLine, Print, NoBreaks, PlainKey, PlainValue;
    ExportedParse("#", defaults);
  }

  /** Line i is the only one that sets the key of default i - 1. */
  lemma NamedOnce(lines: seq<string>, defaults: Settings, i: nat)
    requires DistinctKeys(defaults) && Names(lines, defaults) && 0 < i < |lines|
    ensures defaults[i - 1].key in Positions(lines) && Positions(lines)[defaults[i - 1].key] == i
  {
    LastLineDecides(lines, defaults[i - 1].key);
    hide ParseLine, Positions, ParseLines, Lookup;
    assert lines[i] in lines;
  }

  lemma NamedIsSet(lines: seq<string>, defaults: Settings, i: nat, k: string)
    requires Names(lines, defaults) && i < |lines| && Sets(lines[i], k)
    ensures 0 < i && defaults[i - 1].key == k
  {
    hide ParseLine;
  }

  lemma NamesDefaultsFacts(defaults: Settings)
    requires Plain(defaults) && DistinctKeys(defaults)
    ensures var lines := NamesDefaults(defaults);
            var s := Sheet(lines, Positions(lines));
            TargetLines(Some(FileOf(lines))) == lines && Single(s) && AddDefaults(s, defaults) == s
  {
    var lines := NamesDefaults(defaults);
    var s := Sheet(lines, Positions(lines));
    NamesDefaultsLines(defaults);
    FileReadsBack(lines);
    hide NamesDefaults, Names, Sets, TargetLines, FileOf, PlainKey, PlainValue, Positions, DistinctKeys, Unbroken;
    forall i: nat, k | i < |lines| && Sets(lines[i], k) ensures k in s.positions && s.positions[k] == i {
      NamedIsSet(lines, defaults, i, k);
      NamedOnce(lines, defaults, i);
    }
    forall e <- defaults ensures e.key in s.positions {
      var i :| 0 <= i < |defaults| && defaults[i] == e;
      NamedOnce(lines, defaults, i + 1);
    }
    PresentDefaultsAreSkipped(s, defaults);
  }

  lemma UnsetKey(lines: seq<string>, k: string)
    requires forall i :: 0 <= i < |lines| ==> !Sets(lines[i], k)
    ensures Lookup(ParseLines(lines), k).None?
  {
    LastLineDecides(lines, k);
  }

  /** If at first each key is set by one line at most, the longest unsafe key is not set in the end. */
  lemma LongestIsUnset(start: Sheet, required: Settings, e: Entry<string, string>)
    requires ValidSheet(start) && Single(start) && Plain(required) && e in required && !SafeKey(e.key)
    requires forall f <- required :: !SafeKey(f.key) ==> |f.key| <= |e.key|
    ensures Lookup(ParseLines(SetRequired(start, required).lines), e.key).None?
  {
    var s := SetRequired(start, required);
    RequiredMerge(start, required);
    hide SetRequired, ParseLines, PlainKey, PlainValue, SafeKey, Sets, Print, Lookup, Single;
    forall i | 0 <= i < |s.lines| ensures !Sets(s.lines[i], e.key) {
      assert Merged(s, start, required, i);
      if f :| f in required && s.lines[i] == Print(f) { LongestIsNotPrinted(required, e, f); }
    }
    UnsetKey(s.lines, e.key);
  }

  /** On that target a profile with an unsafe key is refused, whatever the defaults are. */
  lemma UnsafeProfileFails(text: string, defaultsFile: Option<string>) returns (target: Option<string>)
    requires ParseText(text) != [] && !SafeProfile(Some(text))
    ensures Profile(target, Some(text), defaultsFile) == ValidationFailed
  {
    var required, defaults := ParseText(text), Parsed(defaultsFile);
    var lines := NamesDefaults(defaults);
    var start := Sheet(lines, Positions(lines));
    target := Some(FileOf(lines));
    ParsedIsPlain(Some(text));
    ParsedIsPlain(defaultsFile);
    NamesDefaultsFacts(defaults);
    var e := LongestUnsafe(required);
    LongestIsUnset(start, required, e);
    MergeReadsBack(target, required, defaults);
    assert MergedSheet(target, required, defaults) == SetRequired(start, required);
    hide ParseText, MergedText, MergedSheet, SetRequired, ParseLines, PlainKey, PlainValue, SafeKey, Lookup;
    assert !Conforms(MergedText(target, required, defaults), required);
  }

  // ---- Shadowing defaults fail somewhere ---------------------------------------------------------------

  /** Line p was printed for the unsafe setting e; it is the last one to set k, whose place lies before it. */
  ghost predicate Overtaken(s: Sheet, e: Entry<string, string>, k: string, p: nat) {
    && ValidSheet(s) && LastAt(s.lines, k, p) && s.lines[p] == Print(e) && k in s.positions && s.positions[k] < p
    && (forall m <- s.positions :: s.positions[m] == p ==> m == e.key)
  }

  lemma UpsertKeepsOvertaken(s: Sheet, e: Entry<string, string>, k: string, p: nat, r: Entry<string, string>)
    requires Overtaken(s, e, k, p) && r.key != e.key && ParseLine(Print(r)) == Some(r)
    ensures Overtaken(Upsert(s, r), e, k, p)
  {
    hide ParseLine, Print;
  }

  lemma {:induction false} RequiredKeepOvertaken(s: Sheet, e: Entry<string, string>, k: string, p: nat,
                                                 required: Settings)
    requires Overtaken(s, e, k, p) && !SafeKey(e.key) && forall r <- required :: Printable(r)
    ensures Overtaken(SetRequired(s, required), e, k, p)
  {
    if required == [] {
    } else {
      var n := |required| - 1;
      assert forall r <- required[..n] :: r in required;
      assert required[n] in required;
      SafeIsReadBack(required[n]);
      hide Overtaken, ParseLine, Print, PlainKey, PlainValue, Upsert;
      RequiredKeepOvertaken(s, e, k, p, required[..n]);
      UpsertKeepsOvertaken(SetRequired(s, required[..n]), e, k, p, required[n]);
    }
  }

  lemma {:induction false} OneDefaultIsAdded(s: Sheet, defaults: Settings, m: nat)
    requires ValidSheet(s) && DistinctKeys(defaults) && m < |defaults| && defaults[m].key !in s.positions
    requires forall i :: 0 <= i < |defaults| && i != m ==> defaults[i].key in s.positions
    ensures AddDefaults(s, defaults) == Upsert(s, defaults[m])
  {
    var n := |defaults| - 1;
    if m == n {
      PresentDefaultsAreSkipped(s, defaults[..n]);
    } else {
      OneDefaultIsAdded(s, defaults[..n], m);
    }
  }

  /** A target that names every default but the m-th, behind a line for key k. */
  function NamesOthers(defaults: Settings, m: nat, k: string): seq<string>
    requires m < |defaults|
  {
    [Print(Entry(k, ""))] + Exported(defaults[..m] + defaults[m + 1..])
  }

  lemma OthersFacts(defaults: Settings, m: nat, i: nat)
    requires m < |defaults| && Plain(defaults) && DistinctKeys(defaults) && i < |defaults|
    ensures var others := defaults[..m] + defaults[m + 1..];
            && (i != m <==> defaults[i] in others) && Plain(others) && forall e <- others :: e.key != defaults[m].key
  {
    var others := defaults[..m] + defaults[m + 1..];
    hide PlainKey, PlainValue;
    if i < m { assert others[i] == defaults[i]; }
    if i > m { assert others[i - 1] == defaults[i]; }
    forall e <- others ensures e in defaults && e.key != defaults[m].key {
      var j :| 0 <= j < |others| && others[j] == e;
      assert others[j] == defaults[if j < m then j else j + 1];
    }
  }

  /** Its keys are k and those of the other defaults. */
  lemma NamesOthersKeys(defaults: Settings, m: nat, k: string, x: string)
    requires m < |defaults| && ParseLine(Print(Entry(k, ""))) == Some(Entry(k, ""))
    requires var others := defaults[..m] + defaults[m + 1..];
             var lines := NamesOthers(defaults, m, k);
             forall i :: 0 < i < |lines| ==> ParseLine(lines[i]) == Some(others[i - 1])
    ensures x in Positions(NamesOthers(defaults, m, k))
            <==> x == k || exists e <- defaults[..m] + defaults[m + 1..] :: e.key == x
  {
    var others := defaults[..m] + defaults[m + 1..];
    var lines := NamesOthers(defaults, m, k);
    LastLineDecides(lines, x);
    hide ParseLine, Print, Positions, ParseLines, Lookup;
    assert lines[0] in lines;
    var at := Positions(lines);
    if x in at && x != k { assert others[at[x] - 1] in others; }
    if e :| e in others && e.key == x {
      var i :| 0 <= i < |others| && others[i] == e;
      assert Sets(lines[i + 1], x) && lines[i + 1] in lines;
    }
  }

  lemma NamesOthersFacts(defaults: Settings, m: nat, k: string)
    requires m < |defaults| && Plain(defaults) && DistinctKeys(defaults) && k != defaults[m].key
    requires PlainKey(k) && SafeKey(k)
    ensures var lines := NamesOthers(defaults, m, k);
            var s := Sheet(lines, Positions(lines));
            && TargetLines(Some(FileOf(lines))) == lines && ValidSheet(s) && k in s.positions
            && AddDefaults(s, defaults) == Upsert(s, defaults[m]) && defaults[m].key !in s.positions
  {
    var lines := NamesOthers(defaults, m, k);
    var others := defaults[..m] + defaults[m + 1..];
    var s := Sheet(lines, Positions(lines));
    OthersFacts(defaults, m, m);
    SafeIsReadBack(Entry(k, ""));
    PrintUnbroken(Entry(k, ""));
    ExportedParse(lines[0], others);
    FileReadsBack(lines);
    hide ParseLine, Print, NoBreaks, PlainKey, PlainValue, Positions, ParseLines, SafeKey;
    hide NamesOthers, TargetLines, FileOf, DistinctKeys;
    NamesOthersKeys(defaults, m, k, defaults[m].key);
    NamesOthersKeys(defaults, m, k, k);
    forall i | 0 <= i < |defaults| && i != m ensures defaults[i].key in s.positions {
      OthersFacts(defaults, m, i);
      NamesOthersKeys(defaults, m, k, defaults[i].key);
    }
    OneDefaultIsAdded(s, defaults, m);
  }

  lemma OvertakenAtFirst(start: Sheet, e: Entry<string, string>, k: string)
    requires ValidSheet(start) && k in start.positions && e.key !in start.positions && Sets(Print(e), k)
    ensures Overtaken(Upsert(start, e), e, k, |start.lines|)
  {
    hide ParseLine, Print;
  }

  lemma OvertakerIsRead(start: Sheet, e: Entry<string, string>, k: string, required: Settings)
    requires ValidSheet(start) && k in start.positions && e.key !in start.positions && Sets(Print(e), k)
    requires !SafeKey(e.key) && forall r <- required :: Printable(r)
    ensures Lookup(ParseLines(SetRequired(Upsert(start, e), required).lines), k)
            == Some(ParseLine(Print(e)).value.value)
  {
    hide ParseLine, Print, ParseLines, Lookup, SetRequired, Positions, PlainKey, PlainValue, SafeKey;
    OvertakenAtFirst(start, e, k);
    RequiredKeepOvertaken(Upsert(start, e), e, k, |start.lines|, required);
    LastIsUnique(SetRequired(Upsert(start, e), required).lines, k, |start.lines|);
  }

  /** On that target a default that shadows a required setting wins over it. */
  lemma ShadowingDefaultFails(text: string, defaultsFile: Option<string>, m: nat) returns (target: Option<string>)
    requires SafeProfile(Some(text)) && m < |Parsed(defaultsFile)| && Shadows(Parsed(defaultsFile)[m], ParseText(text))
    ensures Profile(target, Some(text), defaultsFile) == ValidationFailed
  {
    var required, defaults := ParseText(text), Parsed(defaultsFile);
    var e := defaults[m];
    var read := ParseLine(Print(e)).value;
    var k := read.key;
    ParsedIsPlain(Some(text));
    ParsedIsPlain(defaultsFile);
    SafeIsPrintable(text);
    LookupMember(required, k);
    var r := Entry(k, Lookup(required, k).value);
    assert r in required;
    var lines := NamesOthers(defaults, m, k);
    var start := Sheet(lines, Positions(lines));
    target := Some(FileOf(lines));
    NamesOthersFacts(defaults, m, k);
    OvertakerIsRead(start, e, k, required);
    assert MergedSheet(target, required, defaults) == SetRequired(Upsert(start, e), required);
    MergeReadsBack(target, required, defaults);
    hide ParseText, MergedText, MergedSheet, SetRequired, ParseLines, Upsert, Print, ParseLine, Lookup, Positions;
    assert !Conforms(MergedText(target, required, defaults), required);
  }

  // ---- The exact condition -----------------------------------------------------------------------------

  /**
   * The script succeeds on every target file if and only if no key of the profile starts a comment or an export, and
   * no default, printed without its `export`, is read back as a required setting with another value.
   */
  lemma ProfileAppliesExactlyWhen(text: string, defaultsFile: Option<string>)
    requires ParseText(text) != []
    ensures (forall target :: Profile(target, Some(text), defaultsFile).Applied?)
            <==> SafeProfile(Some(text)) && forall e <- Parsed(defaultsFile) :: !Shadows(e, ParseText(text))
  {
    hide ParseText, Profile, Shadows, Parsed;
    if !SafeProfile(Some(text)) {
      var target := UnsafeProfileFails(text, defaultsFile);
      assert !Profile(target, Some(text), defaultsFile).Applied?;
    } else if e :| e in Parsed(defaultsFile) && Shadows(e, ParseText(text)) {
      var m :| 0 <= m < |Parsed(defaultsFile)| && Parsed(defaultsFile)[m] == e;
      var target := ShadowingDefaultFails(text, defaultsFile, m);
      assert !Profile(target, Some(text), defaultsFile).Applied?;
    } else {
      forall target ensures Profile(target, Some(text), defaultsFile).Applied? {
        SafeProfileApplies(target, text, defaultsFile);
      }
    }
  }
}
