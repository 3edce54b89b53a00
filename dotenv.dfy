/**
 * The `.env` loader of scripts/process_chapter.py (`_load_dotenv`): each
 * `KEY=VALUE` line of the file becomes an environment variable unless that
 * variable is already set. The file's text is a parameter, absent when the
 * file does not exist.
 */
module Dotenv {
  import opened Common

  /** Python's `str.isspace` for one character. */
  predicate IsSpace(c: char) {
    ('\t' <= c <= '\r') || ('\U{1C}' <= c <= ' ') || c == '\U{85}' || c == '\U{A0}' || c == '\U{1680}'
    || ('\U{2000}' <= c <= '\U{200A}') || c == '\U{2028}' || c == '\U{2029}' || c == '\U{202F}'
    || c == '\U{205F}' || c == '\U{3000}'
  }

  /** A line boundary of Python's `str.splitlines` ("\r\n" counts as one). */
  predicate IsLineBreak(c: char) {
    ('\n' <= c <= '\r') || ('\U{1C}' <= c <= '\U{1E}') || c == '\U{85}' || c == '\U{2028}' || c == '\U{2029}'
  }

  /** The index of the first non-whitespace character at or after `from`, or `|s|`. */
  function SkipSpaces(s: string, from: nat): (i: nat)
    requires from <= |s|
    ensures from <= i <= |s|
    ensures forall k :: from <= k < i ==> IsSpace(s[k])
    ensures i < |s| ==> !IsSpace(s[i])
    decreases |s| - from
  {
    if from == |s| || !IsSpace(s[from]) then from else SkipSpaces(s, from + 1)
  }

  /** The end of `s` without its trailing whitespace, no lower than `lo`. */
  function TrimEnd(s: string, lo: nat, hi: nat): (j: nat)
    requires lo <= hi <= |s|
    ensures lo <= j <= hi
    ensures forall k :: j <= k < hi ==> IsSpace(s[k])
    ensures j > lo ==> !IsSpace(s[j - 1])
    decreases hi
  {
    if hi == lo || !IsSpace(s[hi - 1]) then hi else TrimEnd(s, lo, hi - 1)
  }

  /** `str.strip()`: the text between the leading and the trailing whitespace. */
  function Strip(s: string): (r: string)
    ensures r == [] || (!IsSpace(r[0]) && !IsSpace(r[|r| - 1]))
  {
    var i := SkipSpaces(s, 0);
    var j := TrimEnd(s, i, |s|);
    s[i..j]
  }

  /** Stripping removes only whitespace, from both ends, and keeps the rest as it is. */
  lemma StripShape(s: string)
    ensures exists i, j ::
      && 0 <= i <= j <= |s| && Strip(s) == s[i..j]
      && (forall k :: 0 <= k < i ==> IsSpace(s[k])) && (forall k :: j <= k < |s| ==> IsSpace(s[k]))
  {
    var i := SkipSpaces(s, 0);
    var j := TrimEnd(s, i, |s|);
    assert Strip(s) == s[i..j];
  }

  /** Stripping gives "" exactly for all-whitespace text. */
  lemma StripEmpty(s: string)
    ensures Strip(s) == [] <==> forall k :: 0 <= k < |s| ==> IsSpace(s[k])
  {
    var i := SkipSpaces(s, 0);
    var j := TrimEnd(s, i, |s|);
    if Strip(s) == [] {
      assert i == j;
    } else if forall k :: 0 <= k < |s| ==> IsSpace(s[k]) {
      assert i < |s| && !IsSpace(s[i]);
    }
  }

  /** Text already without surrounding whitespace is unchanged. */
  lemma StripTrimmed(s: string)
    requires s == [] || (!IsSpace(s[0]) && !IsSpace(s[|s| - 1]))
    ensures Strip(s) == s
  {
    if s != [] {
      assert SkipSpaces(s, 0) == 0;
      assert TrimEnd(s, 0, |s|) == |s|;
    }
  }

  /** The length of the line boundary starting at `i`: 2 for "\r\n", else 1. */
  function BreakLength(s: string, i: nat): (n: nat)
    requires i < |s| && IsLineBreak(s[i])
    ensures 1 <= n <= |s| - i
  {
    if s[i] == '\r' && i + 1 < |s| && s[i + 1] == '\n' then 2 else 1
  }

  /** The index of the first line boundary at or after `from`, or `|s|`. */
  function NextBreak(s: string, from: nat): (i: nat)
    requires from <= |s|
    ensures from <= i <= |s|
    ensures i < |s| ==> IsLineBreak(s[i])
    ensures forall k :: from <= k < i ==> !IsLineBreak(s[k])
    decreases |s| - from
  {
    if from == |s| || IsLineBreak(s[from]) then from else NextBreak(s, from + 1)
  }

  /** `str.splitlines()`: the lines without their boundaries, and no empty line after a final boundary. */
  function SplitLines(s: string): (lines: seq<string>)
    ensures forall n :: 0 <= n < |lines| ==> forall k :: 0 <= k < |lines[n]| ==> !IsLineBreak(lines[n][k])
    ensures s == [] <==> lines == []
    decreases |s|
  {
    if s == [] then []
    else
      var i := NextBreak(s, 0);
      if i == |s| then [s]
      else
        var rest := SplitLines(s[i + BreakLength(s, i)..]);
        assert forall k :: 0 <= k < |s[..i]| ==> !IsLineBreak(s[..i][k]);
        [s[..i]] + rest
  }

  /** Text without any line boundary is one line. */
  lemma SplitOneLine(s: string)
    requires s != [] && forall k :: 0 <= k < |s| ==> !IsLineBreak(s[k])
    ensures SplitLines(s) == [s]
  {
  }

  /** A line followed by "\n" splits off as the first line. */
  lemma SplitFirstLine(line: string, rest: string)
    requires forall k :: 0 <= k < |line| ==> !IsLineBreak(line[k])
    ensures SplitLines(line + "\n" + rest) == [line] + SplitLines(rest)
  {
    var s := line + "\n" + rest;
    assert NextBreak(s, 0) == |line| by {
      assert s[|line|] == '\n';
      assert forall k :: 0 <= k < |line| ==> s[k] == line[k];
    }
    assert s[..|line|] == line;
    assert s[|line| + 1..] == rest;
  }

  /**
   * One line's assignment: none for a blank line, a '#' comment or a line
   * without '='; otherwise the stripped text before the first '=' and the
   * stripped text after it.
   */
  function ParseLine(rawLine: string): Option<(string, string)> {
    var line := Strip(rawLine);
    if line == [] || StartsWith(line, "#") || '=' !in line then None
    else
      var i := FirstIndexOf(line, '=').value;
      Some((Strip(line[..i]), Strip(line[i + 1..])))
  }

  /** A line is skipped iff, once stripped, it is blank, a '#' comment or has no '='. */
  lemma ParseLineSkips(rawLine: string)
    ensures ParseLine(rawLine).None? <==>
      var line := Strip(rawLine);
      line == [] || StartsWith(line, "#") || '=' !in line
  {
  }

  /**
   * An assignment splits the stripped line at its first '=', so the value
   * keeps any later '='; both halves are stripped.
   */
  lemma ParseLineSplit(rawLine: string)
    requires ParseLine(rawLine).Some?
    ensures exists i ::
      && 0 <= i < |Strip(rawLine)| && Strip(rawLine)[i] == '=' && '=' !in Strip(rawLine)[..i]
      && ParseLine(rawLine).value == (Strip(Strip(rawLine)[..i]), Strip(Strip(rawLine)[i + 1..]))
  {
    var line := Strip(rawLine);
    var i := FirstIndexOf(line, '=').value;
    assert ParseLine(rawLine).value == (Strip(line[..i]), Strip(line[i + 1..]));
  }

  /** A parsed line: the key and value it assigns, if any. */
  type Assignment = Option<(string, string)>

  /** Every line parsed, in file order. */
  function Parsed(lines: seq<string>): (r: seq<Assignment>)
    ensures |r| == |lines| && forall n :: 0 <= n < |lines| ==> r[n] == ParseLine(lines[n])
  {
    if lines == [] then [] else Parsed(lines[..|lines| - 1]) + [ParseLine(lines[|lines| - 1])]
  }

  /**
   * An assignment that `os.environ` refuses to store: an empty name, which
   * POSIX `setenv` rejects with EINVAL so that Python raises `OSError`, or a
   * NUL character in the name or the value, which Python rejects with
   * `ValueError` when it converts the argument (a name never holds '=',
   * since the line is cut at the first one).
   */
  predicate Illegal(a: Assignment) {
    a.Some? && (a.value.0 == [] || '\0' in a.value.0 || '\0' in a.value.1)
  }

  /**
   * `setdefault` looks the key up first and stores only when it is missing,
   * so an illegal assignment raises only when its key is not already set.
   */
  predicate Rejected(env: map<string, string>, a: Assignment) {
    Illegal(a) && a.value.0 !in env
  }

  /** The environment so far, and whether a `setdefault` raised and so ended the load. */
  datatype Load = Load(env: map<string, string>, raised: bool)

  /** `os.environ.setdefault(key, value)` for one assignment; a skipped line changes nothing. */
  function SetDefault(env: map<string, string>, a: Assignment): Load {
    if Rejected(env, a) then Load(env, true)
    else if a.Some? && a.value.0 !in env then Load(env[a.value.0 := a.value.1], false)
    else Load(env, false)
  }

  /** One more assignment: nothing happens once the load has raised, otherwise its `setdefault`. */
  function Step(l: Load, a: Assignment): Load {
    if l.raised then l else SetDefault(l.env, a)
  }

  /** `os.environ.setdefault` for each assignment in turn, up to the first one that raises. */
  function Apply(env: map<string, string>, asg: seq<Assignment>): Load {
    if asg == [] then Load(env, false) else Step(Apply(env, asg[..|asg| - 1]), asg[|asg| - 1])
  }

  /** One more assignment is one more `Step` on the load so far. */
  lemma ApplyStep(env: map<string, string>, asg: seq<Assignment>, a: Assignment)
    ensures Apply(env, asg + [a]) == Step(Apply(env, asg), a)
  {
    assert (asg + [a])[..|asg|] == asg;
  }

  /** Line i of the file applies its assignment, if any, on top of the lines before it. */
  lemma LinesStep(env: map<string, string>, lines: seq<string>, i: nat)
    requires i < |lines|
    ensures Apply(env, Parsed(lines[..i + 1])) == Step(Apply(env, Parsed(lines[..i])), ParseLine(lines[i]))
  {
    assert lines[..i + 1][..i] == lines[..i];
    assert Parsed(lines[..i + 1]) == Parsed(lines[..i]) + [ParseLine(lines[i])];
    ApplyStep(env, Parsed(lines[..i]), ParseLine(lines[i]));
  }

  /** The environment after the lines of the file, up to the first line that raises. */
  function Loaded(env: map<string, string>, lines: seq<string>): Load {
    Apply(env, Parsed(lines))
  }

  /** The load of the file, or the unchanged environment when there is none. */
  function LoadedFrom(env: map<string, string>, file: Option<string>): Load {
    if file.None? then Load(env, false) else Loaded(env, SplitLines(file.value))
  }

  /** The lines before line n parse to the parses before parse n. */
  lemma ParsedPrefix(lines: seq<string>, n: nat)
    requires n <= |lines|
    ensures Parsed(lines[..n]) == Parsed(lines)[..n]
  {
  }

  /** The key an assignment sets, if any. */
  function KeyOf(a: Assignment): Option<string> {
    if a.Some? then Some(a.value.0) else None
  }

  lemma {:induction false} ApplyKeepsExisting(env: map<string, string>, asg: seq<Assignment>)
    ensures forall k :: k in env ==> k in Apply(env, asg).env && Apply(env, asg).env[k] == env[k]
  {
    if asg != [] {
      ApplyKeepsExisting(env, asg[..|asg| - 1]);
    }
  }

  /**
   * A longer run of assignments keeps every variable a prefix set, and once
   * the prefix has raised the later assignments change nothing.
   */
  lemma {:induction false} ApplyPrefix(env: map<string, string>, asg: seq<Assignment>, n: nat)
    requires n <= |asg|
    ensures forall k :: k in Apply(env, asg[..n]).env ==>
      k in Apply(env, asg).env && Apply(env, asg).env[k] == Apply(env, asg[..n]).env[k]
    ensures Apply(env, asg[..n]).raised ==> Apply(env, asg) == Apply(env, asg[..n])
    decreases |asg| - n
  {
    if n == |asg| {
      assert asg[..n] == asg;
    } else {
      var init := asg[..|asg| - 1];
      ApplyPrefix(env, init, n);
      assert init[..n] == asg[..n];
    }
  }

  lemma {:induction false} ApplyKeys(env: map<string, string>, asg: seq<Assignment>, k: string)
    ensures k in Apply(env, asg).env ==> k in env || exists n :: 0 <= n < |asg| && KeyOf(asg[n]) == Some(k)
    ensures !Apply(env, asg).raised ==>
      (k in Apply(env, asg).env <==> k in env || exists n :: 0 <= n < |asg| && KeyOf(asg[n]) == Some(k))
  {
    if asg != [] {
      var init := asg[..|asg| - 1];
      ApplyKeys(env, init, k);
      if exists n :: 0 <= n < |init| && KeyOf(init[n]) == Some(k) {
        var n :| 0 <= n < |init| && KeyOf(init[n]) == Some(k);
        assert asg[n] == init[n];
      }
      if exists n :: 0 <= n < |asg| && KeyOf(asg[n]) == Some(k) {
        var n :| 0 <= n < |asg| && KeyOf(asg[n]) == Some(k);
        if n < |init| { assert init[n] == asg[n]; }
      }
    }
  }

  /** The first assignment that raises ends the load: what was set before it stays, nothing after it applies. */
  lemma ApplyStopsAt(env: map<string, string>, asg: seq<Assignment>, n: nat)
    requires n < |asg| && !Apply(env, asg[..n]).raised && Rejected(Apply(env, asg[..n]).env, asg[n])
    ensures Apply(env, asg) == Load(Apply(env, asg[..n]).env, true)
  {
    assert asg[..n + 1][..n] == asg[..n];
    ApplyPrefix(env, asg, n + 1);
  }

  /** A load that raised did so at an assignment that was rejected on the environment before it. */
  lemma {:induction false} ApplyRaisedAt(env: map<string, string>, asg: seq<Assignment>)
    requires Apply(env, asg).raised
    ensures exists n :: 0 <= n < |asg| && !Apply(env, asg[..n]).raised && Rejected(Apply(env, asg[..n]).env, asg[n])
  {
    var init := asg[..|asg| - 1];
    if Apply(env, init).raised {
      ApplyRaisedAt(env, init);
      var n :| 0 <= n < |init| && !Apply(env, init[..n]).raised && Rejected(Apply(env, init[..n]).env, init[n]);
      assert init[..n] == asg[..n] && init[n] == asg[n];
    } else {
      assert asg[..|asg| - 1] == init;
    }
  }

  lemma {:induction false} ApplyFirstWins(env: map<string, string>, asg: seq<Assignment>, n: nat)
    requires n < |asg| && asg[n].Some? && asg[n].value.0 !in env
    requires forall m :: 0 <= m < n ==> KeyOf(asg[m]) != KeyOf(asg[n])
    requires !Apply(env, asg[..n + 1]).raised
    ensures asg[n].value.0 in Apply(env, asg).env && Apply(env, asg).env[asg[n].value.0] == asg[n].value.1
  {
    var key := asg[n].value.0;
    var pre := asg[..n];
    ApplyKeys(env, pre, key);
    forall m | 0 <= m < |pre| ensures KeyOf(pre[m]) != Some(key) {
      assert pre[m] == asg[m];
    }
    assert asg[..n + 1][..n] == pre;
    ApplyPrefix(env, asg, n + 1);
  }

  /** A skipped line (blank, comment or without '=') leaves the environment as it was. */
  lemma LoadedSkipsLine(env: map<string, string>, lines: seq<string>, line: string)
    requires ParseLine(line).None?
    ensures Loaded(env, lines + [line]) == Loaded(env, lines)
  {
    assert (lines + [line])[..|lines|] == lines;
    assert Parsed(lines + [line]) == Parsed(lines) + [ParseLine(line)];
    ApplyStep(env, Parsed(lines), ParseLine(line));
  }

  /** Loading never changes or removes a variable that was already set. */
  lemma LoadedKeepsExisting(env: map<string, string>, lines: seq<string>)
    ensures forall k :: k in env ==> k in Loaded(env, lines).env && Loaded(env, lines).env[k] == env[k]
  {
    ApplyKeepsExisting(env, Parsed(lines));
  }

  /**
   * Loading adds only keys of assigning lines; when no line raises, the
   * variables it adds are exactly the keys of the assigning lines not already set.
   */
  lemma LoadedKeys(env: map<string, string>, lines: seq<string>, k: string)
    ensures k in Loaded(env, lines).env ==>
      k in env || exists n :: 0 <= n < |lines| && KeyOf(ParseLine(lines[n])) == Some(k)
    ensures !Loaded(env, lines).raised ==>
      (k in Loaded(env, lines).env <==> k in env || exists n :: 0 <= n < |lines| && KeyOf(ParseLine(lines[n])) == Some(k))
  {
    var asg := Parsed(lines);
    ApplyKeys(env, asg, k);
    if exists n :: 0 <= n < |asg| && KeyOf(asg[n]) == Some(k) {
      var n :| 0 <= n < |asg| && KeyOf(asg[n]) == Some(k);
      assert KeyOf(ParseLine(lines[n])) == Some(k);
    }
  }

  /**
   * For a key that was not set, the first line that assigns it decides its
   * value, provided no line up to it raised: later lines with the same key
   * are ignored, and so is a later line that raises.
   */
  lemma LoadedFirstWins(env: map<string, string>, lines: seq<string>, n: nat)
    requires n < |lines| && ParseLine(lines[n]).Some?
    requires ParseLine(lines[n]).value.0 !in env
    requires forall m :: 0 <= m < n ==> KeyOf(ParseLine(lines[m])) != KeyOf(ParseLine(lines[n]))
    requires !Loaded(env, lines[..n + 1]).raised
    ensures var p := ParseLine(lines[n]).value;
      p.0 in Loaded(env, lines).env && Loaded(env, lines).env[p.0] == p.1
  {
    var asg := Parsed(lines);
    ParsedPrefix(lines, n + 1);
    forall m | 0 <= m < n ensures KeyOf(asg[m]) != KeyOf(asg[n]) {
    }
    ApplyFirstWins(env, asg, n);
  }

  /**
   * The first line whose `setdefault` raises ends the load: the variables
   * the lines before it set are kept and no later line is applied.
   */
  lemma LoadedStopsAt(env: map<string, string>, lines: seq<string>, n: nat)
    requires n < |lines| && !Loaded(env, lines[..n]).raised
    requires Rejected(Loaded(env, lines[..n]).env, ParseLine(lines[n]))
    ensures Loaded(env, lines) == Load(Loaded(env, lines[..n]).env, true)
  {
    var asg := Parsed(lines);
    ParsedPrefix(lines, n);
    ApplyStopsAt(env, asg, n);
  }

  /** A load that raised did so at a line rejected on the variables the lines before it left. */
  lemma LoadedRaisedAt(env: map<string, string>, lines: seq<string>)
    requires Loaded(env, lines).raised
    ensures exists n ::
      0 <= n < |lines| && !Loaded(env, lines[..n]).raised && Rejected(Loaded(env, lines[..n]).env, ParseLine(lines[n]))
  {
    var asg := Parsed(lines);
    ApplyRaisedAt(env, asg);
    var n :| 0 <= n < |asg| && !Apply(env, asg[..n]).raised && Rejected(Apply(env, asg[..n]).env, asg[n]);
    ParsedPrefix(lines, n);
  }

  /** A file with no empty key and no NUL character in an assignment never raises. */
  lemma LoadedLegalNeverRaises(env: map<string, string>, lines: seq<string>)
    requires forall n :: 0 <= n < |lines| ==> !Illegal(ParseLine(lines[n]))
    ensures !Loaded(env, lines).raised
  {
    if Loaded(env, lines).raised {
      LoadedRaisedAt(env, lines);
    }
  }

  /** A value keeps any '=' after the first one: "A=b=c" sets A to "b=c". */
  lemma ValueMayContainEquals()
    ensures ParseLine("A=b=c") == Some(("A", "b=c"))
  {
    var line := "A=b=c";
    StripTrimmed(line);
    assert line[0] == 'A' && line[1] == '=';
    assert FirstIndexOf(line, '=') == Some(1);
    assert line[..1] == "A" && line[2..] == "b=c";
    StripTrimmed("A");
    StripTrimmed("b=c");
  }

  /** "=x" has an empty key, so with nothing set it raises and sets nothing. */
  lemma EmptyKeyRaises()
    ensures Loaded(map[], ["=x"]) == Load(map[], true)
  {
    var line := "=x";
    StripTrimmed(line);
    assert line[0] == '=';
    assert FirstIndexOf(line, '=') == Some(0);
    assert line[..0] == "" && line[1..] == "x";
    StripTrimmed("x");
    var a := ParseLine(line);
    assert a == Some(("", "x"));
    assert Parsed([line]) == [a];
    assert Rejected(map[], a);
    ApplyStep(map[], [], a);
    assert [] + [a] == [a];
  }

  /** The process environment, `os.environ`. */
  class Environment {
    var vars: map<string, string>

    constructor (vars: map<string, string>)
      ensures this.vars == vars
    {
      this.vars := vars;
    }

    /**
     * `_load_dotenv`: `setdefault` for every assigning line of the file, in
     * file order; `raised` when one of them raised, which ends the load and,
     * since the loader runs at import, the script.
     */
    method LoadDotenv(file: Option<string>) returns (raised: bool)
      modifies this
      ensures vars == LoadedFrom(old(vars), file).env
      ensures raised == LoadedFrom(old(vars), file).raised
      ensures file.None? ==> vars == old(vars) && !raised
    {
      raised := false;
      if file.None? {
        return;
      }
      var lines := SplitLines(file.value);
      var i := 0;
      while i < |lines|
        invariant 0 <= i <= |lines|
        invariant Apply(old(vars), Parsed(lines[..i])) == Load(vars, false)
      {
        LinesStep(old(vars), lines, i);
        vars, raised := SetDefaultLine(vars, lines[i]);
        if raised {
          LoadedStopsAt(old(vars), lines, i);
          return;
        }
        i := i + 1;
      }
      assert lines[..i] == lines;
    }
  }

  /**
   * The body of the loop over the lines: skip a blank, comment or '='-less
   * line, otherwise split at the first '=' and `setdefault` the stripped key
   * and value, which raises for an unset key that is empty or holds a NUL,
   * or whose value holds one.
   */
  method SetDefaultLine(env: map<string, string>, rawLine: string) returns (env': map<string, string>, raised: bool)
    ensures Load(env', raised) == SetDefault(env, ParseLine(rawLine))
  {
    var line := Strip(rawLine);
    if line == [] || StartsWith(line, "#") || '=' !in line {
      return env, false;
    }
    var eq := FirstIndexOf(line, '=').value;
    var key := Strip(line[..eq]);
    var value := Strip(line[eq + 1..]);
    env', raised := env, false;
    if key !in env' {
      if key == [] || '\0' in key || '\0' in value {
        raised := true;
        return;
      }
      env' := env'[key := value];
    }
  }
}
