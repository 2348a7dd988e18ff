/** `tycho/tycho_utils.py`: parsing `.env` text, applying it to a template text,
    and shortening strings for display.

    The `.env` parsing written out in `TemplateUtils.apply_environment`,
    `TychoClient.parse_env` and `TychoContext._parse_env` is one and the same
    dictionary comprehension; `ParseEnv` is its single definition here. */
module TychoUtils {
  import opened Wrappers
  import opened Text
  import opened Template

  // ---------------------------------------------------------------------------
  // .env lines: `KEY=VALUE`, split on the first `=` only
  // ---------------------------------------------------------------------------

  /** `line.split("=", maxsplit=1)[0]`. */
  function EnvKey(line: string): string
    requires '=' in line
  {
    line[..IndexOf(line, '=')]
  }

  /** `line.split("=", maxsplit=1)[1]`. */
  function EnvValue(line: string): string
    requires '=' in line
  {
    line[IndexOf(line, '=') + 1..]
  }

  /** The key is the text before the first `=` and the value everything after
      it, later `=` included: key and value rebuild the line. */
  lemma EnvEntryShape(line: string)
    requires '=' in line
    ensures '=' !in EnvKey(line)
    ensures EnvKey(line) + "=" + EnvValue(line) == line
    ensures EnvKey(line) == Split(line, '=')[0]
    ensures EnvValue(line) == Join(Split(line, '=')[1..], '=')
  {
    var i := IndexOf(line, '=');
    assert line == line[..i] + [line[i]] + line[i + 1..];
    SplitAtFirst(line, '=');
    SplitJoin(line[i + 1..], '=');
  }

  /** The dictionary comprehension over `lines`: lines without `=` are skipped
      and a later line overrides an earlier one with the same key. */
  function EnvLines(lines: seq<string>): map<string, string>
  {
    if lines == [] then map[]
    else
      var m := EnvLines(lines[..|lines| - 1]);
      var line := lines[|lines| - 1];
      if '=' in line then m[EnvKey(line) := EnvValue(line)] else m
  }

  /** `{l.split("=",1)[0]: l.split("=",1)[1] for l in environment.split("\n") if '=' in l}`. */
  function ParseEnv(environment: string): map<string, string>
  {
    EnvLines(Split(environment, '\n'))
  }

  /** A key is present exactly when some line with a `=` declares it. */
  lemma {:induction false} EnvLinesKeys(lines: seq<string>, k: string)
    ensures k in EnvLines(lines)
        <==> exists i :: 0 <= i < |lines| && '=' in lines[i] && EnvKey(lines[i]) == k
    decreases |lines|
  {
    if lines != [] {
      var init := lines[..|lines| - 1];
      EnvLinesKeys(init, k);
      if exists i :: 0 <= i < |init| && '=' in init[i] && EnvKey(init[i]) == k {
        var i :| 0 <= i < |init| && '=' in init[i] && EnvKey(init[i]) == k;
        assert lines[i] == init[i];
      }
      if exists i :: 0 <= i < |lines| && '=' in lines[i] && EnvKey(lines[i]) == k {
        var i :| 0 <= i < |lines| && '=' in lines[i] && EnvKey(lines[i]) == k;
        if i < |init| { assert init[i] == lines[i]; }
      }
    }
  }

  /** The value of a key is the value on the last line declaring it. */
  lemma {:induction false} EnvLinesLastWins(lines: seq<string>, j: nat)
    requires j < |lines| && '=' in lines[j]
    requires forall i :: j < i < |lines| && '=' in lines[i] ==> EnvKey(lines[i]) != EnvKey(lines[j])
    ensures EnvKey(lines[j]) in EnvLines(lines)
    ensures EnvLines(lines)[EnvKey(lines[j])] == EnvValue(lines[j])
    decreases |lines|
  {
    var init := lines[..|lines| - 1];
    if j < |lines| - 1 {
      assert init[j] == lines[j];
      forall i | j < i < |init| && '=' in init[i] ensures EnvKey(init[i]) != EnvKey(init[j]) {
        assert init[i] == lines[i];
      }
      EnvLinesLastWins(init, j);
    }
  }

  /** `ParseEnv` read line by line: keys, last-wins values. */
  lemma ParseEnvSpec(environment: string, k: string)
    ensures var lines := Split(environment, '\n');
      (k in ParseEnv(environment)) <==> (exists i :: 0 <= i < |lines| && '=' in lines[i] && EnvKey(lines[i]) == k)
  {
    assert ParseEnv(environment) == EnvLines(Split(environment, '\n'));
    EnvLinesKeys(Split(environment, '\n'), k);
  }

  // ---------------------------------------------------------------------------
  // TemplateUtils.apply_environment
  // ---------------------------------------------------------------------------

  /** Substitutes the `.env` settings in `environment` into `text`; a `None` or
      empty environment leaves the text as it is. */
  function ApplyEnvironment(environment: Option<string>, text: string): (r: string)
    ensures environment == None || environment == Some("") ==> r == text
  {
    match environment
    case None => text
    case Some(env) => if env == "" then text else SafeSubstitute(text, ParseEnv(env))
  }

  /** A placeholder `${k}` takes the value of the last line `k=v` of the
      environment. */
  lemma ApplyEnvironmentResolves(environment: string, j: nat, text: string)
    requires var lines := Split(environment, '\n');
      && j < |lines| && '=' in lines[j] && IsIdentifier(EnvKey(lines[j]))
      && forall i :: j < i < |lines| && '=' in lines[i] ==> EnvKey(lines[i]) != EnvKey(lines[j])
    ensures var line := Split(environment, '\n')[j];
      ApplyEnvironment(Some(environment), "${" + EnvKey(line) + "}" + text)
        == EnvValue(line) + ApplyEnvironment(Some(environment), text)
  {
    var lines := Split(environment, '\n');
    assert environment != "";
    EnvLinesLastWins(lines, j);
    BracedPlaceholder(EnvKey(lines[j]), text, ParseEnv(environment));
  }

  /** A placeholder whose name no line declares is left verbatim. */
  lemma ApplyEnvironmentKeepsUnknown(environment: string, k: string, text: string)
    requires environment != "" && IsIdentifier(k)
    requires forall line :: line in Split(environment, '\n') && '=' in line ==> EnvKey(line) != k
    ensures ApplyEnvironment(Some(environment), "${" + k + "}" + text)
         == "${" + k + "}" + ApplyEnvironment(Some(environment), text)
  {
    var lines := Split(environment, '\n');
    EnvLinesKeys(lines, k);
    BracedPlaceholder(k, text, ParseEnv(environment));
    assert ApplyEnvironment(Some(environment), "${" + k + "}" + text)
        == SafeSubstitute("${" + k + "}" + text, ParseEnv(environment));
  }

  // ---------------------------------------------------------------------------
  // TemplateUtils.trunc
  // ---------------------------------------------------------------------------

  /** The default `max_len` of `trunc`. */
  const DefaultMaxLen: int := 80

  /** Python's `s[:n]` for any integer `n`: a negative `n` counts from the end. */
  function SliceTo(s: string, n: int): (r: string)
    ensures r <= s
    ensures n >= 0 ==> |r| == if n < |s| then n else |s|
  {
    if n >= 0 then (if n < |s| then s[..n] else s)
    else if |s| + n > 0 then s[..|s| + n] else []
  }

  /** `a_string[:max_len] + '..' if len(a_string) > max_len else a_string`. */
  function Trunc(s: string, maxLen: int := DefaultMaxLen): (r: string)
    ensures |s| <= maxLen ==> r == s
    ensures maxLen >= 0 && |s| > maxLen ==> r == s[..maxLen] + ".." && |r| == maxLen + 2
    ensures maxLen >= 0 ==> SliceTo(s, maxLen) <= r && |r| <= maxLen + 2
  {
    if |s| > maxLen then SliceTo(s, maxLen) + ".." else s
  }

  /** Truncating an already truncated string changes nothing. */
  lemma TruncIdempotent(s: string, maxLen: nat)
    ensures Trunc(Trunc(s, maxLen), maxLen) == Trunc(s, maxLen)
  {
    if |s| > maxLen {
      var t := s[..maxLen] + "..";
      assert t[..maxLen] == s[..maxLen];
    }
  }
}
