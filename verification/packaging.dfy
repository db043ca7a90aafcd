/**
 * The logic of the package's setup script: reading requirement lines,
 * finding the version string, and collecting every optional dependency under
 * the `all` extra. File reads are abstracted away: a file is the sequence of
 * its lines, and a missing file is `None`.
 */
module Packaging {
  import opened Wrappers
  import opened PyStr

  /** A stripped requirement line survives when it is non-empty and not a comment. */
  predicate KeepRequirement(line: string) {
    line != "" && !StartsWith(line, "#")
  }

  /** The generator of stripped lines in `parse_requirements`. */
  function StripLines(lines: seq<string>): (r: seq<string>)
    ensures |r| == |lines|
    ensures forall i :: 0 <= i < |r| ==> r[i] == Strip(lines[i], Whitespace)
  {
    seq(|lines|, i requires 0 <= i < |lines| => Strip(lines[i], Whitespace))
  }

  /** The filter of `parse_requirements`, over already stripped lines. */
  function KeepLines(ls: seq<string>): (r: seq<string>)
    ensures |r| <= |ls|
    ensures forall j :: 0 <= j < |r| ==> KeepRequirement(r[j]) && r[j] in ls
  {
    if ls == [] then []
    else
      var n := |ls| - 1;
      KeepLines(ls[..n]) + (if KeepRequirement(ls[n]) then [ls[n]] else [])
  }

  /**
   * `parse_requirements`: every line is stripped of whitespace first, then
   * kept only if non-empty and not starting with `#` (so indented comments are
   * dropped too).
   */
  function ParseRequirements(lines: seq<string>): (r: seq<string>)
    ensures |r| <= |lines|
    ensures forall j :: 0 <= j < |r| ==> KeepRequirement(r[j]) && Trimmed(r[j], Whitespace)
  {
    KeepLines(StripLines(lines))
  }

  /**
   * The positions of the lines `KeepLines` keeps: in increasing order, and a
   * position appears exactly when its line is kept.
   */
  function KeptPositions(ls: seq<string>): (o: seq<nat>)
    ensures forall j :: 0 <= j < |o| ==> o[j] < |ls|
    ensures forall j, k :: 0 <= j < k < |o| ==> o[j] < o[k]
    ensures forall i :: 0 <= i < |ls| ==> (i in o <==> KeepRequirement(ls[i]))
  {
    if ls == [] then []
    else
      var n := |ls| - 1;
      assert forall i :: 0 <= i < n ==> ls[..n][i] == ls[i];
      KeptPositions(ls[..n]) + (if KeepRequirement(ls[n]) then [n] else [])
  }

  lemma {:induction false} KeepLinesAtPositions(ls: seq<string>)
    ensures |KeptPositions(ls)| == |KeepLines(ls)|
    ensures forall j :: 0 <= j < |KeptPositions(ls)| ==> KeepLines(ls)[j] == ls[KeptPositions(ls)[j]]
  {
    if ls != [] {
      var n := |ls| - 1;
      var init := ls[..n];
      KeepLinesAtPositions(init);
      var o, r := KeptPositions(init), KeepLines(init);
      forall j | 0 <= j < |o|
        ensures r[j] == ls[o[j]]
      {
        assert init[o[j]] == ls[o[j]];
      }
    }
  }

  /**
   * The requirements are the kept lines in input order and nothing else: the
   * j-th result is the stripped line at the j-th position whose stripped
   * line is non-empty and not a comment.
   */
  lemma ParseRequirementsKeepsOrder(lines: seq<string>)
    ensures |KeptPositions(StripLines(lines))| == |ParseRequirements(lines)|
    ensures forall j :: 0 <= j < |KeptPositions(StripLines(lines))| ==>
      KeptPositions(StripLines(lines))[j] < |lines|
      && ParseRequirements(lines)[j] == Strip(lines[KeptPositions(StripLines(lines))[j]], Whitespace)
  {
    KeepLinesAtPositions(StripLines(lines));
  }

  const VersionPrefix: string := "__version__"
  const DefaultVersion: string := "1.0.0"

  /** `line.split('=')[1]` raises IndexError when the line has no '='; setup.py does not catch it. */
  datatype VersionError = MissingEquals

  /**
   * The version on one `__version__` line: the field between the first '='
   * and the next '=' (or the end), stripped of whitespace, then of double
   * quotes, then of single quotes.
   */
  function VersionOfLine(line: string): (r: Result<string, VersionError>)
    ensures r.Failure? <==> '=' !in line
    ensures r.Success? ==> '=' !in r.value && Trimmed(r.value, {'\''})
  {
    var fields := Split(line, '=');
    if |fields| < 2 then Failure(MissingEquals)
    else
      var s1 := Strip(fields[1], Whitespace);
      var s2 := Strip(s1, {'"'});
      StripKeepsAbsent(fields[1], Whitespace, '=');
      StripKeepsAbsent(s1, {'"'}, '=');
      StripKeepsAbsent(s2, {'\''}, '=');
      Success(Strip(s2, {'\''}))
  }

  /**
   * Which text a `__version__` line yields: for a line `a = b` followed by
   * nothing or by another '=', with no '=' in `a` or `b`, the version is `b`
   * stripped of whitespace, then of double quotes, then of single quotes.
   */
  lemma VersionOfLineReadsField(line: string, a: string, b: string, c: string)
    requires line == a + ['='] + b + c
    requires '=' !in a && '=' !in b
    requires c == [] || c[0] == '='
    ensures VersionOfLine(line) == Success(Strip(Strip(Strip(b, Whitespace), {'"'}), {'\''}))
  {
    SecondField(line, a, b, c);
  }

  /** The second '='-field of such a line is `b`. */
  lemma SecondField(line: string, a: string, b: string, c: string)
    requires line == a + ['='] + b + c
    requires '=' !in a && '=' !in b
    requires c == [] || c[0] == '='
    ensures |Split(line, '=')| >= 2 && Split(line, '=')[1] == b
  {
    assert line == a + ['='] + (b + c);
    SplitAtFirst(a, b + c, '=');
    if c == [] {
      assert b + c == b;
      SplitNoSeparator(b, '=');
      assert Split(line, '=') == [a] + [b];
    } else {
      assert b + c == b + ['='] + c[1..];
      SplitAtFirst(b, c[1..], '=');
    }
  }

  /** The position of the first line starting with `__version__`, if any. */
  function FirstVersionLine(lines: seq<string>): (r: Option<nat>)
    ensures r.None? <==> forall j :: 0 <= j < |lines| ==> !StartsWith(lines[j], VersionPrefix)
    ensures r.Some? ==> (r.value < |lines| && StartsWith(lines[r.value], VersionPrefix)
      && forall j :: 0 <= j < r.value ==> !StartsWith(lines[j], VersionPrefix))
  {
    if lines == [] then None
    else if StartsWith(lines[0], VersionPrefix) then Some(0)
    else
      match FirstVersionLine(lines[1..])
      case None => None
      case Some(k) => Some(k + 1)
  }

  /** Only one position can be the first `__version__` line. */
  lemma FirstVersionLineIsFirst(lines: seq<string>)
    ensures forall k ::
      (0 <= k < |lines| && StartsWith(lines[k], VersionPrefix)
       && (forall j :: 0 <= j < k ==> !StartsWith(lines[j], VersionPrefix)))
      ==> FirstVersionLine(lines) == Some(k)
  {
  }

  /**
   * `get_version`: the default when the version file is missing or has no
   * `__version__` line; otherwise what the first such line holds.
   */
  function GetVersion(file: Option<seq<string>>): (r: Result<string, VersionError>)
    ensures file.None? ==> r == Success(DefaultVersion)
    ensures file.Some? && (forall j :: 0 <= j < |file.value| ==> !StartsWith(file.value[j], VersionPrefix))
      ==> r == Success(DefaultVersion)
    ensures forall k ::
      (file.Some? && 0 <= k < |file.value| && StartsWith(file.value[k], VersionPrefix)
       && (forall j :: 0 <= j < k ==> !StartsWith(file.value[j], VersionPrefix)))
      ==> r == VersionOfLine(file.value[k])
  {
    match file
    case None => Success(DefaultVersion)
    case Some(lines) =>
      FirstVersionLineIsFirst(lines);
      match FirstVersionLine(lines)
      case None => Success(DefaultVersion)
      case Some(k) => VersionOfLine(lines[k])
  }

  /** The line `__version__ = "x"` (or `'x'`), as read from the file with its newline. */
  function AssignmentLine(x: string, quote: char): string {
    VersionPrefix + " = " + [quote] + x + [quote] + "\n"
  }

  /** The field after the '=' of an assignment line is everything after it. */
  lemma AssignmentField(x: string, quote: char)
    requires '=' !in x && quote != '='
    ensures Split(AssignmentLine(x, quote), '=')[1] == " " + [quote] + x + [quote] + "\n"
  {
    var field := " " + [quote] + x + [quote] + "\n";
    assert AssignmentLine(x, quote) == (VersionPrefix + " ") + ['='] + field;
    SplitAtFirst(VersionPrefix + " ", field, '=');
    assert '=' !in field by {
      assert forall k :: 0 <= k < |field| ==> field[k] == ' ' || field[k] == quote || field[k] == '\n' || field[k] in x;
    }
    SplitNoSeparator(field, '=');
  }

  lemma StripLineEnds(quoted: string)
    requires quoted != [] && quoted[0] in {'"', '\''} && quoted[|quoted| - 1] in {'"', '\''}
    ensures Strip(" " + quoted + "\n", Whitespace) == quoted
  {
    assert quoted[0] !in Whitespace && quoted[|quoted| - 1] !in Whitespace;
    StripPadded(" ", quoted, "\n", Whitespace);
  }

  lemma StripDoubleQuotes(x: string)
    requires Trimmed(x, {'"', '\''})
    ensures Strip(Strip(['"'] + x + ['"'], {'"'}), {'\''}) == x
  {
    assert Trimmed(x, {'"'});
    StripPadded(['"'], x, ['"'], {'"'});
    assert [] + x + [] == x;
    StripPadded([], x, [], {'\''});
  }

  lemma StripSingleQuotes(x: string)
    requires Trimmed(x, {'"', '\''})
    ensures Strip(Strip(['\''] + x + ['\''], {'"'}), {'\''}) == x
  {
    var quoted := ['\''] + x + ['\''];
    assert [] + quoted + [] == quoted;
    StripPadded([], quoted, [], {'"'});
    assert Trimmed(x, {'\''});
    StripPadded(['\''], x, ['\''], {'\''});
  }

  lemma StripQuotes(x: string, quote: char)
    requires quote == '"' || quote == '\''
    requires Trimmed(x, {'"', '\''})
    ensures Strip(Strip([quote] + x + [quote], {'"'}), {'\''}) == x
  {
    if quote == '"' {
      StripDoubleQuotes(x);
    } else {
      StripSingleQuotes(x);
    }
  }

  /** Stripping whitespace, then double, then single quotes recovers the quoted text. */
  lemma StripQuoted(x: string, quote: char)
    requires quote == '"' || quote == '\''
    requires Trimmed(x, {'"', '\''})
    ensures Strip(Strip(Strip(" " + [quote] + x + [quote] + "\n", Whitespace), {'"'}), {'\''}) == x
  {
    var quoted := [quote] + x + [quote];
    assert " " + [quote] + x + [quote] + "\n" == " " + quoted + "\n";
    StripLineEnds(quoted);
    StripQuotes(x, quote);
  }

  lemma VersionOfAssignmentLine(x: string, quote: char)
    requires quote == '"' || quote == '\''
    requires '=' !in x && Trimmed(x, {'"', '\''})
    ensures VersionOfLine(AssignmentLine(x, quote)) == Success(x)
  {
    AssignmentField(x, quote);
    StripQuoted(x, quote);
  }

  /**
   * A conventional assignment `__version__ = "x"` (or with single quotes) as
   * the first version line reads back as `x`, whatever follows it.
   */
  lemma GetVersionReadsAssignment(before: seq<string>, x: string, quote: char, after: seq<string>)
    requires quote == '"' || quote == '\''
    requires forall j :: 0 <= j < |before| ==> !StartsWith(before[j], VersionPrefix)
    requires '=' !in x && Trimmed(x, {'"', '\''})
    ensures GetVersion(Some(before + [AssignmentLine(x, quote)] + after)) == Success(x)
  {
    var line := AssignmentLine(x, quote);
    var lines := before + [line] + after;
    var k := |before|;
    assert lines[k] == line;
    assert StartsWith(line, VersionPrefix) by {
      assert line[..|VersionPrefix|] == VersionPrefix;
    }
    forall j | 0 <= j < k
      ensures !StartsWith(lines[j], VersionPrefix)
    {
      assert lines[j] == before[j];
    }
    VersionOfAssignmentLine(x, quote);
  }

  /**
   * Adding the `all` extra: every other extra is kept, and `all` lists each
   * dependency of every extra exactly once. The order of `all` comes from a
   * Python set and is unspecified, so only its contents are promised.
   */
  method AddAllExtra(extras: map<string, seq<string>>) returns (result: map<string, seq<string>>)
    ensures result.Keys == extras.Keys + {"all"}
    ensures forall name :: name in extras && name != "all" ==> result[name] == extras[name]
    ensures forall d :: d in result["all"] <==> InSomeExtra(extras, extras.Keys, d)
    ensures forall i, j :: 0 <= i < j < |result["all"]| ==> result["all"][i] != result["all"][j]
  {
    var all: seq<string> := [];
    var remaining := extras.Keys;
    while remaining != {}
      invariant remaining <= extras.Keys
      invariant forall d :: d in all <==> InSomeExtra(extras, extras.Keys - remaining, d)
      invariant forall i, j :: 0 <= i < j < |all| ==> all[i] != all[j]
      decreases remaining
    {
      var name :| name in remaining;
      var deps := extras[name];
      var done := extras.Keys - remaining;
      var n := 0;
      while n < |deps|
        invariant 0 <= n <= |deps|
        invariant forall d :: d in all <==> InSomeExtra(extras, done, d) || d in deps[..n]
        invariant forall i, j :: 0 <= i < j < |all| ==> all[i] != all[j]
      {
        if deps[n] !in all {
          all := all + [deps[n]];
        }
        assert deps[..n + 1] == deps[..n] + [deps[n]];
        n := n + 1;
      }
      assert deps[..n] == deps;
      remaining := remaining - {name};
      forall d | d in all
        ensures InSomeExtra(extras, extras.Keys - remaining, d)
      {
        if d in deps {
          assert name in extras.Keys - remaining;
        }
      }
    }
    result := extras["all" := all];
  }

  /** `d` is a dependency of some extra named in `names`. */
  predicate InSomeExtra(extras: map<string, seq<string>>, names: set<string>, d: string) {
    exists name :: name in names && name in extras && d in extras[name]
  }
}
