/** How a generated PoC names itself and how it is run: the run command stored
    with each PoC, the suite title of the fallback template, and Mocha's
    `--grep` selection of a suite by that title. The run command of an Anchor
    project selects its test by the class-ID token `PoC#<classId>`. */
module PocArtifact {
  import opened Wrappers
  import opened Text
  import opened Decimal
  import opened Dispatch

  /** The part of the Anchor run command before the quoted grep pattern. */
  const AnchorPrefix := "cd <repo> && anchor test -- --grep \""

  /** The part of the native run command before the class ID. */
  const CargoPrefix := "cd <repo> && cargo test-sbf poc_"

  /** The class-ID token a PoC is known by: `PoC#<classId>`. */
  function GrepToken(classId: int): string {
    "PoC#" + IntToString(classId)
  }

  /** The `runCommand` stored with a PoC: for an Anchor project, `anchor test`
      filtered by the class-ID token; otherwise `cargo test-sbf` filtered by
      `poc_<classId>_<safeName>`. The finding's title plays no part. */
  function RunCommand(isAnchor: bool, f: Finding, safeName: string): (cmd: string)
    ensures isAnchor ==> AnchorPrefix <= cmd && cmd[|cmd| - 1] == '"'
    ensures !isAnchor ==> && CargoPrefix <= cmd && |cmd| > |CargoPrefix| + |safeName|
                          && cmd[|cmd| - |safeName|..] == safeName && cmd[|cmd| - |safeName| - 1] == '_'
  {
    if isAnchor then AnchorPrefix + GrepToken(f.classId) + "\""
    else
      var cmd := CargoPrefix + IntToString(f.classId) + "_" + safeName;
      assert cmd == (CargoPrefix + IntToString(f.classId) + "_") + safeName;
      cmd
  }

  /** The grep pattern quoted in an Anchor run command, if it is one. */
  function AnchorGrep(cmd: string): Option<string> {
    if |cmd| > |AnchorPrefix| && AnchorPrefix <= cmd && cmd[|cmd| - 1] == '"'
    then Some(cmd[|AnchorPrefix|..|cmd| - 1])
    else None
  }

  /** The title of the suite the fallback template writes: the class-ID token,
      a colon, the class name, and whatever the template adds after it. */
  function SuiteTitle(classId: int, className: string, tail: string): (t: string)
    ensures |t| == |GrepToken(classId)| + 2 + |className| + |tail|
    ensures GrepToken(classId) <= t && t[|GrepToken(classId)|] == ':'
    ensures t[|GrepToken(classId)| + 2..|GrepToken(classId)| + 2 + |className|] == className
  {
    var t := GrepToken(classId) + ": " + className + tail;
    assert t == GrepToken(classId) + (": " + (className + tail));
    t
  }

  /** Characters with a special meaning in a JavaScript regular expression
      outside a character class. */
  predicate IsRegexMeta(c: char) {
    c == '\\' || c == '^' || c == '$' || c == '.' || c == '|' || c == '?' || c == '*' ||
    c == '+' || c == '(' || c == ')' || c == '[' || c == ']' || c == '{' || c == '}'
  }

  /** A pattern with no metacharacter, which a regular expression reads as
      plain text. */
  predicate IsLiteral(p: string)
    decreases |p|
  {
    |p| == 0 || (!IsRegexMeta(p[0]) && IsLiteral(p[1..]))
  }

  /** A pattern is a literal when none of its characters is a metacharacter. */
  lemma {:induction false} NoMetaIsLiteral(p: string)
    requires forall i :: 0 <= i < |p| ==> !IsRegexMeta(p[i])
    ensures IsLiteral(p)
    decreases |p|
  {
    if |p| > 0 {
      forall i | 0 <= i < |p[1..]|
        ensures !IsRegexMeta(p[1..][i])
      {
        assert p[1..][i] == p[i + 1];
      }
      NoMetaIsLiteral(p[1..]);
    }
  }

  /** The patterns whose meaning as a regular expression this model gives:
      a literal, or `^` followed by a literal. */
  predicate IsSupportedPattern(p: string) {
    IsLiteral(p) || (|p| > 0 && p[0] == '^' && IsLiteral(p[1..]))
  }

  /** Mocha's `--grep <pattern>` selects a test when the pattern, as a regular
      expression, matches somewhere in the test's full title, which starts
      with the title of its outermost suite. A literal matches where it
      occurs; `^` ties it to the start. */
  function GrepSelects(pattern: string, fullTitle: string): bool
    requires IsSupportedPattern(pattern)
  {
    if |pattern| > 0 && pattern[0] == '^' then pattern[1..] <= fullTitle
    else Contains(fullTitle, pattern)
  }

  /** A rendered integer is digits after an optional minus sign. */
  lemma IntToStringChars(n: int)
    ensures forall i :: 0 <= i < |IntToString(n)| ==> IsDigit(IntToString(n)[i]) || IntToString(n)[i] == '-'
  {
    var r := IntToString(n);
    if n < 0 {
      forall i | 1 <= i < |r|
        ensures IsDigit(r[i])
      {
        assert r[i] == r[1..][i - 1];
      }
    }
  }

  /** No character of the token is a metacharacter. */
  lemma GrepTokenHasNoMeta(classId: int)
    ensures forall i :: 0 <= i < |GrepToken(classId)| ==> !IsRegexMeta(GrepToken(classId)[i])
  {
    IntToStringChars(classId);
    var t := GrepToken(classId);
    forall i | 0 <= i < |t|
      ensures !IsRegexMeta(t[i])
    {
      if i >= 4 {
        assert t[i] == IntToString(classId)[i - 4];
      }
    }
  }

  /** The token is a literal pattern, so Mocha reads it as plain text. */
  lemma GrepTokenIsLiteral(classId: int)
    ensures IsLiteral(GrepToken(classId))
  {
    GrepTokenHasNoMeta(classId);
    NoMetaIsLiteral(GrepToken(classId));
  }

  /** The Anchor run command quotes exactly the class-ID token of its finding,
      and that token selects the suite the fallback template writes for the
      finding. */
  lemma AnchorCommandSelectsOwnSuite(f: Finding, safeName: string, tail: string)
    ensures AnchorGrep(RunCommand(true, f, safeName)) == Some(GrepToken(f.classId))
    ensures IsSupportedPattern(GrepToken(f.classId))
    ensures GrepSelects(GrepToken(f.classId), SuiteTitle(f.classId, f.className, tail))
  {
    var cmd := RunCommand(true, f, safeName);
    assert cmd == AnchorPrefix + (GrepToken(f.classId) + "\"");
    assert cmd[|AnchorPrefix|..|cmd| - 1] == GrepToken(f.classId);
    GrepTokenIsLiteral(f.classId);
    var title := SuiteTitle(f.classId, f.className, tail);
    assert title[..|GrepToken(f.classId)|] == GrepToken(f.classId);
    assert OccursAt(title, GrepToken(f.classId), 0);
  }

  /** The native run command starts its test filter with the class ID, which
      `parseInt` reads back from it whatever the safe name. */
  lemma CargoCommandNamesClass(f: Finding, safeName: string)
    ensures CargoPrefix <= RunCommand(false, f, safeName)
    ensures ParseInt(RunCommand(false, f, safeName)[|CargoPrefix|..]) == Some(f.classId)
  {
    var cmd := RunCommand(false, f, safeName);
    assert cmd == CargoPrefix + (IntToString(f.classId) + "_" + safeName);
    assert cmd[|CargoPrefix|..] == [] + IntToString(f.classId) + ("_" + safeName);
    ParseIntRoundTrip([], f.classId, "_" + safeName);
  }

  /** Renaming a finding does not change how its PoC is run. */
  lemma RunCommandIgnoresTitle(isAnchor: bool, f: Finding, title: string, safeName: string)
    ensures RunCommand(isAnchor, f.(title := title), safeName) == RunCommand(isAnchor, f, safeName)
  {
  }

  /** The digits of 10a + d are those of a followed by d. */
  lemma AppendDigit(a: nat, d: nat)
    requires a >= 1 && d < 10
    ensures IntToString(10 * a + d) == IntToString(a) + [DigitChar(d)]
  {
    var n := 10 * a + d;
    assert n / 10 == a && n % 10 == d;
  }

  /** As written, the token of class a is a prefix of the token of every class
      whose decimal digits extend a's: `PoC#4` selects the suite
      `PoC#42: ...` as well as its own. */
  lemma GrepTokenSelectsLongerIds(a: nat, d: nat, className: string, tail: string)
    requires a >= 1 && d < 10
    ensures 10 * a + d != a
    ensures IsSupportedPattern(GrepToken(a))
    ensures GrepSelects(GrepToken(a), SuiteTitle(10 * a + d, className, tail))
  {
    GrepTokenIsLiteral(a);
    AppendDigit(a, d);
    var title := SuiteTitle(10 * a + d, className, tail);
    assert title == GrepToken(a) + ([DigitChar(d)] + ": " + className + tail);
    assert title[..|GrepToken(a)|] == GrepToken(a);
    assert OccursAt(title, GrepToken(a), 0);
  }

  /** The class `PoC#4` selects class 42's suite. */
  lemma Class4SelectsClass42(className: string, tail: string)
    ensures GrepSelects(GrepToken(4), SuiteTitle(42, className, tail))
  {
    GrepTokenSelectsLongerIds(4, 2, className, tail);
  }

  /** The grep pattern that selects one class only: the token anchored at the
      start of the title and closed by the colon that follows it there. */
  function AnchoredGrepPattern(classId: int): string {
    "^" + GrepToken(classId) + ":"
  }

  /** The run command with the anchored pattern; the native command is
      unchanged. */
  function CorrectedRunCommand(isAnchor: bool, f: Finding, safeName: string): string {
    if isAnchor then AnchorPrefix + AnchoredGrepPattern(f.classId) + "\""
    else CargoPrefix + IntToString(f.classId) + "_" + safeName
  }

  /** If neither x nor y holds a colon, x + ":" can begin y + ":" + z only when
      x and y are equal. */
  lemma ColonDelimited(x: string, y: string, z: string)
    requires forall i :: 0 <= i < |x| ==> x[i] != ':'
    requires forall i :: 0 <= i < |y| ==> y[i] != ':'
    requires x + ":" <= y + ":" + z
    ensures x == y
  {
    var s := y + ":" + z;
    var k := if |x| < |y| then |x| else |y|;
    assert (x + ":")[k] == s[k];
    assert x == (x + ":")[..|x|];
  }

  /** The anchored pattern is `^` followed by a literal. */
  lemma AnchoredPatternIsSupported(classId: int)
    ensures IsSupportedPattern(AnchoredGrepPattern(classId))
    ensures AnchoredGrepPattern(classId)[1..] == GrepToken(classId) + ":"
  {
    var p := AnchoredGrepPattern(classId);
    GrepTokenHasNoMeta(classId);
    assert p[1..] == GrepToken(classId) + ":";
    forall i | 0 <= i < |p[1..]|
      ensures !IsRegexMeta(p[1..][i])
    {
      if i < |GrepToken(classId)| {
        assert p[1..][i] == GrepToken(classId)[i];
      }
    }
    NoMetaIsLiteral(p[1..]);
  }

  /** The anchored pattern selects the fallback suite of class b exactly when
      it is the pattern of class b. */
  lemma AnchoredGrepSelectsOnlyOwnClass(a: int, b: int, className: string, tail: string)
    ensures IsSupportedPattern(AnchoredGrepPattern(a))
    ensures GrepSelects(AnchoredGrepPattern(a), SuiteTitle(b, className, tail)) <==> a == b
  {
    AnchoredPatternIsSupported(a);
    if a == b {
      AnchoredSelectsOwn(a, className, tail);
    } else if GrepSelects(AnchoredGrepPattern(a), SuiteTitle(b, className, tail)) {
      AnchoredSelectsOnlyOwn(a, b, className, tail);
    }
  }

  lemma AnchoredSelectsOwn(a: int, className: string, tail: string)
    ensures IsSupportedPattern(AnchoredGrepPattern(a))
    ensures GrepSelects(AnchoredGrepPattern(a), SuiteTitle(a, className, tail))
  {
    AnchoredPatternIsSupported(a);
    var title := SuiteTitle(a, className, tail);
    assert title == GrepToken(a) + ":" + (" " + className + tail);
  }

  lemma AnchoredSelectsOnlyOwn(a: int, b: int, className: string, tail: string)
    requires GrepToken(a) + ":" <= SuiteTitle(b, className, tail)
    ensures a == b
  {
    var x := IntToString(a);
    var y := IntToString(b);
    var z := " " + className + tail;
    var title := SuiteTitle(b, className, tail);
    assert title == "PoC#" + (y + ":" + z);
    assert GrepToken(a) + ":" == "PoC#" + (x + ":");
    assert x + ":" <= y + ":" + z by {
      forall i | 0 <= i < |x + ":"|
        ensures (x + ":")[i] == (y + ":" + z)[i]
      {
        assert (x + ":")[i] == (GrepToken(a) + ":")[i + 4];
        assert (y + ":" + z)[i] == title[i + 4];
      }
    }
    IntToStringChars(a);
    IntToStringChars(b);
    ColonDelimited(x, y, z);
    IntToStringInjective(a, b);
  }

  /** The corrected Anchor command quotes the anchored pattern of its own
      finding. */
  lemma CorrectedCommandQuotesAnchoredPattern(f: Finding, safeName: string)
    ensures AnchorGrep(CorrectedRunCommand(true, f, safeName)) == Some(AnchoredGrepPattern(f.classId))
    ensures CorrectedRunCommand(false, f, safeName) == RunCommand(false, f, safeName)
  {
    var cmd := CorrectedRunCommand(true, f, safeName);
    assert cmd == AnchorPrefix + (AnchoredGrepPattern(f.classId) + "\"");
    assert cmd[|AnchorPrefix|..|cmd| - 1] == AnchoredGrepPattern(f.classId);
  }
}
