/**
 * The configuration package: the shape of the YAML configuration
 * (`RootConfig`, `FeedConfig`) and the loader's environment placeholder
 * substitution, which rewrites every `env("NAME")` in the raw file text into
 * the value of the environment variable NAME before the text is parsed.
 *
 * The placeholder pattern is the regular expression `env\("([^"]+)"\)`. At a
 * given position it matches exactly when the text there starts with `env("`,
 * the maximal run of non-'"' characters after it is non-empty, and that run is
 * followed by `")`; the run is the variable name. Go's `ReplaceAllStringFunc`
 * looks for the leftmost match, replaces it, and resumes after it, so the
 * substitution is modelled as a left-to-right scanner (`Tokenize`) that cuts
 * the text into single literal characters and placeholders, followed by a
 * rendering (`Render`) that replaces each placeholder by its value.
 */
module Config {
  import opened Wrappers

  /** One feed's retention rule: mark as read what is older than `days` days. */
  datatype FeedConfig = FeedConfig(id: string, days: int)

  /** The whole configuration file. */
  datatype RootConfig = RootConfig(url: string, username: string, password: string, feeds: seq<FeedConfig>)

  /** The process environment, as `os.Getenv` sees it. */
  type Environment = map<string, string>

  /** `os.Getenv`: the value of a variable, or "" when it is unset. */
  function Getenv(env: Environment, name: string): (v: string)
    ensures name in env ==> v == env[name]
    ensures name !in env ==> v == ""
  {
    if name in env then env[name] else ""
  }

  const Open: string := "env(\""
  const Close: string := "\")"

  /** The text `env("name")`. */
  function Placeholder(name: string): string
  {
    Open + name + Close
  }

  /** A name the pattern's capture group `([^"]+)` can produce. */
  predicate ValidName(name: string)
  {
    name != [] && '"' !in name
  }

  /** Length of the longest prefix of `s` free of '"'. */
  function NameRun(s: string): (k: nat)
    ensures k <= |s|
    ensures '"' !in s[..k]
    ensures k < |s| ==> s[k] == '"'
  {
    if s == [] || s[0] == '"' then 0
    else
      var k := 1 + NameRun(s[1..]);
      assert s[..k] == [s[0]] + s[1..][..k - 1];
      k
  }

  /** The name of the placeholder that starts `s`, if one does. */
  function MatchAt(s: string): (m: Option<string>)
    ensures m.Some? ==> ValidName(m.value) && Placeholder(m.value) <= s
  {
    if Open <= s then
      var k := NameRun(s[|Open|..]);
      var name := s[|Open|..][..k];
      if k > 0 && Close <= s[|Open| + k..] then
        assert s[..|Open| + k + |Close|] == Placeholder(name);
        Some(name)
      else None
    else None
  }

  /** `env("name")` followed by anything is matched, with that name. */
  lemma PlaceholderMatches(name: string, rest: string)
    requires ValidName(name)
    ensures MatchAt(Placeholder(name) + rest) == Some(name)
  {
    var s := Placeholder(name) + rest;
    assert s[|Open|..] == name + (Close + rest);
    assert Open <= s;
    NameRunStopsAtQuote(name, Close + rest);
    assert s[|Open|..][..|name|] == name;
    assert s[|Open| + |name|..] == Close + rest;
  }

  lemma {:induction false} NameRunStopsAtQuote(name: string, rest: string)
    requires '"' !in name && rest != [] && rest[0] == '"'
    ensures NameRun(name + rest) == |name|
    decreases |name|
  {
    if name == [] {
      assert name + rest == rest;
    } else {
      assert (name + rest)[1..] == name[1..] + rest;
      NameRunStopsAtQuote(name[1..], rest);
    }
  }

  /** `env("")` is not a placeholder: the pattern needs a non-empty name. */
  lemma EmptyNameNotMatched(rest: string)
    ensures MatchAt(Placeholder("") + rest) == None
  {
    var s := Placeholder("") + rest;
    assert s[|Open|..][0] == '"';
  }

  /** A piece of scanned text: one literal character, or a placeholder. */
  datatype Piece = Literal(c: char) | Variable(name: string)

  /** The leftmost-first, non-overlapping scan of `s` for placeholders. */
  function Tokenize(s: string): (ps: seq<Piece>)
    ensures forall i :: 0 <= i < |ps| && ps[i].Variable? ==> ValidName(ps[i].name)
    decreases |s|
  {
    if s == [] then []
    else match MatchAt(s)
      case Some(name) => [Variable(name)] + Tokenize(s[|Placeholder(name)|..])
      case None => [Literal(s[0])] + Tokenize(s[1..])
  }

  /** The text a sequence of pieces was scanned from. */
  function Source(ps: seq<Piece>): string
  {
    if ps == [] then []
    else match ps[0]
      case Literal(c) => [c] + Source(ps[1..])
      case Variable(name) => Placeholder(name) + Source(ps[1..])
  }

  /** The text with every placeholder replaced by its variable's value. */
  function Render(ps: seq<Piece>, env: Environment): string
  {
    if ps == [] then []
    else match ps[0]
      case Literal(c) => [c] + Render(ps[1..], env)
      case Variable(name) => Getenv(env, name) + Render(ps[1..], env)
  }

  /**
   * `replaceEnv`: one left-to-right pass that replaces each placeholder it
   * meets by its variable's value and copies every other character. It is
   * the rendering of the scanner's pieces.
   */
  function ReplaceEnv(s: string, env: Environment): (r: string)
    ensures r == Render(Tokenize(s), env)
    decreases |s|
  {
    if s == [] then []
    else match MatchAt(s)
      case Some(name) =>
        var ps := [Variable(name)] + Tokenize(s[|Placeholder(name)|..]);
        assert ps[0] == Variable(name) && ps[1..] == Tokenize(s[|Placeholder(name)|..]);
        Getenv(env, name) + ReplaceEnv(s[|Placeholder(name)|..], env)
      case None =>
        var ps := [Literal(s[0])] + Tokenize(s[1..]);
        assert ps[0] == Literal(s[0]) && ps[1..] == Tokenize(s[1..]);
        [s[0]] + ReplaceEnv(s[1..], env)
  }

  /** Scanning loses nothing: the pieces spell out the original text. */
  lemma {:induction false} TokenizeSource(s: string)
    ensures Source(Tokenize(s)) == s
    decreases |s|
  {
    if s != [] {
      match MatchAt(s)
      case Some(name) =>
        var n := |Placeholder(name)|;
        TokenizeSource(s[n..]);
        assert s == s[..n] + s[n..];
      case None =>
        TokenizeSource(s[1..]);
        assert s == [s[0]] + s[1..];
    }
  }

  /** No placeholder anywhere in `s`. */
  predicate NoMatch(s: string)
  {
    forall i :: 0 <= i < |s| ==> MatchAt(s[i..]).None?
  }

  /** Text without placeholders comes back unchanged. */
  lemma {:induction false} ReplaceEnvNoMatch(s: string, env: Environment)
    requires NoMatch(s)
    ensures ReplaceEnv(s, env) == s
    decreases |s|
  {
    if s != [] {
      assert MatchAt(s[0..]).None?;
      assert s[0..] == s;
      assert NoMatch(s[1..]) by {
        forall i | 0 <= i < |s[1..]| ensures MatchAt(s[1..][i..]).None? {
          assert s[1..][i..] == s[i + 1..];
        }
      }
      ReplaceEnvNoMatch(s[1..], env);
      assert s == [s[0]] + s[1..];
    }
  }

  /** Unfolding the substitution where no placeholder starts. */
  lemma ReplaceEnvLiteralStep(s: string, env: Environment)
    requires s != [] && MatchAt(s).None?
    ensures ReplaceEnv(s, env) == [s[0]] + ReplaceEnv(s[1..], env)
  {
  }

  /** Unfolding the substitution where a placeholder starts. */
  lemma ReplaceEnvVariableStep(s: string, env: Environment)
    requires MatchAt(s).Some?
    ensures ReplaceEnv(s, env) == Getenv(env, MatchAt(s).value) + ReplaceEnv(s[|Placeholder(MatchAt(s).value)|..], env)
  {
  }

  lemma ReplaceEnvAtPlaceholder(name: string, after: string, env: Environment)
    requires ValidName(name)
    ensures ReplaceEnv(Placeholder(name) + after, env) == Getenv(env, name) + ReplaceEnv(after, env)
  {
    var s := Placeholder(name) + after;
    PlaceholderMatches(name, after);
    ReplaceEnvVariableStep(s, env);
    assert s[|Placeholder(name)|..] == after;
  }

  /** No placeholder starts at any of the first `n` positions, stated one position at a time. */
  predicate NoMatchAmong(s: string, n: nat)
    requires n <= |s|
    decreases n
  {
    n == 0 || (MatchAt(s).None? && NoMatchAmong(s[1..], n - 1))
  }

  lemma {:induction false} NoMatchBeforeAmong(s: string, n: nat)
    requires n <= |s| && NoMatchBefore(s, n)
    ensures NoMatchAmong(s, n)
    decreases n
  {
    if n > 0 {
      NoMatchBeforeShift(s, n);
      NoMatchBeforeAmong(s[1..], n - 1);
    }
  }

  /** The first `n` characters, where no placeholder starts, are kept verbatim. */
  lemma {:induction false} ReplaceEnvKeepsPrefixAt(s: string, n: nat, env: Environment)
    requires n <= |s| && NoMatchAmong(s, n)
    ensures ReplaceEnv(s, env) == s[..n] + ReplaceEnv(s[n..], env)
    decreases n
  {
    if n == 0 {
      assert s[..0] == [] && s[0..] == s;
    } else {
      ReplaceEnvKeepsPrefixAt(s[1..], n - 1, env);
      KeepsPrefixStep(s, n, env);
    }
  }

  /** One literal character more in front of the kept prefix. */
  lemma KeepsPrefixStep(s: string, n: nat, env: Environment)
    requires 0 < n <= |s| && MatchAt(s).None?
    requires ReplaceEnv(s[1..], env) == s[1..][..n - 1] + ReplaceEnv(s[1..][n - 1..], env)
    ensures ReplaceEnv(s, env) == s[..n] + ReplaceEnv(s[n..], env)
  {
    ReplaceEnvLiteralStep(s, env);
    assert s[1..][n - 1..] == s[n..];
    ConsPrefix(s, n, ReplaceEnv(s, env), ReplaceEnv(s[1..], env), ReplaceEnv(s[n..], env));
  }

  /** Sequence bookkeeping for one more kept character, apart from the substitution. */
  lemma ConsPrefix(s: string, n: nat, whole: string, tail: string, after: string)
    requires 0 < n <= |s|
    requires whole == [s[0]] + tail && tail == s[1..][..n - 1] + after
    ensures whole == s[..n] + after
  {
    assert s[..n] == [s[0]] + s[1..][..n - 1];
  }

  /** Text in front of which no placeholder starts is kept verbatim. */
  lemma ReplaceEnvKeepsPrefix(before: string, rest: string, env: Environment)
    requires NoMatchBefore(before + rest, |before|)
    ensures ReplaceEnv(before + rest, env) == before + ReplaceEnv(rest, env)
  {
    var s := before + rest;
    NoMatchBeforeAmong(s, |before|);
    SliceAfter(before, [], rest);
    assert before + [] == before;
    ReplaceEnvKeepsPrefixAt(s, |before|, env);
  }

  /**
   * The leftmost placeholder is replaced by its value, the text before it is
   * kept verbatim, the text after it is substituted on its own, and the value
   * inserted is not scanned again.
   */
  lemma ReplaceEnvLeftmost(before: string, name: string, after: string, env: Environment)
    requires ValidName(name)
    requires NoMatchBefore(before + Placeholder(name) + after, |before|)
    ensures ReplaceEnv(before + Placeholder(name) + after, env) == before + Getenv(env, name) + ReplaceEnv(after, env)
  {
    NoMatchBeforeAmong(before + Placeholder(name) + after, |before|);
    LeftmostAmong(before, name, after, env);
  }

  /** `ReplaceEnvLeftmost` with its premise stated position by position. */
  lemma LeftmostAmong(before: string, name: string, after: string, env: Environment)
    requires ValidName(name)
    requires NoMatchAmong(before + Placeholder(name) + after, |before|)
    ensures ReplaceEnv(before + Placeholder(name) + after, env) == before + Getenv(env, name) + ReplaceEnv(after, env)
  {
    var s := before + Placeholder(name) + after;
    var rest := Placeholder(name) + after;
    SliceAfter(before, Placeholder(name), after);
    ReplaceEnvKeepsPrefixAt(s, |before|, env);
    ReplaceEnvAtPlaceholder(name, after, env);
    Regroup(ReplaceEnv(s, env), before, ReplaceEnv(rest, env), Getenv(env, name), ReplaceEnv(after, env));
  }

  /** Where the text before a placeholder ends in the whole text. */
  lemma SliceAfter(before: string, p: string, after: string)
    ensures (before + p + after)[..|before|] == before && (before + p + after)[|before|..] == p + after
  {
  }

  /** Regrouping a concatenation, apart from the substitution. */
  lemma Regroup(whole: string, before: string, rest: string, value: string, tail: string)
    requires whole == before + rest && rest == value + tail
    ensures whole == before + value + tail
  {
  }

  /** No placeholder starts at any of the first `n` positions of `s`. */
  predicate NoMatchBefore(s: string, n: nat)
    requires n <= |s|
  {
    forall i :: 0 <= i < n ==> MatchAt(s[i..]).None?
  }

  lemma NoMatchBeforeShift(s: string, n: nat)
    requires 0 < n <= |s| && NoMatchBefore(s, n)
    ensures MatchAt(s).None? && NoMatchBefore(s[1..], n - 1)
  {
    assert s[0..] == s;
    forall i | 0 <= i < n - 1 ensures MatchAt(s[1..][i..]).None? {
      assert s[1..][i..] == s[i + 1..];
    }
  }

  /** A lone placeholder becomes its value, even one that looks like a placeholder. */
  lemma ReplaceEnvPlaceholder(name: string, env: Environment)
    requires ValidName(name)
    ensures ReplaceEnv(Placeholder(name), env) == Getenv(env, name)
  {
    ReplaceEnvAtPlaceholder(name, "", env);
    assert Placeholder(name) + "" == Placeholder(name);
    assert ReplaceEnv("", env) == "";
    assert Getenv(env, name) + "" == Getenv(env, name);
  }

  /** `env("")` is left in place. */
  lemma ReplaceEnvEmptyName(env: Environment)
    ensures ReplaceEnv(Placeholder(""), env) == Placeholder("")
  {
    var s := Placeholder("");
    assert s == ['e', 'n', 'v', '(', '"', '"', ')'];
    forall i | 0 <= i < |s| ensures MatchAt(s[i..]).None? {
      if i == 0 {
        EmptyNameNotMatched("");
        assert s + "" == s;
      } else {
        assert |s[i..]| < |Open| || s[i..][0] != 'e';
      }
    }
    ReplaceEnvNoMatch(s, env);
  }

  /** Why `Load` failed. */
  datatype LoadError =
    | EmptyPath                               // "config path cannot be empty"
    | ReadFailed(path: string, cause: string)  // "failed to read config file %s: %w"
    | ParseFailed(path: string, cause: string) // "failed to parse config file %s: %w"

  /**
   * `Load`: reject an empty path, read the file, substitute placeholders,
   * parse the YAML. Reading the file and parsing YAML are outside the model
   * and are given as functions.
   */
  function Load(path: string, readFile: string -> Result<string, string>, env: Environment,
                parseYaml: string -> Result<RootConfig, string>): (r: Result<RootConfig, LoadError>)
    ensures path == "" ==> r == Failure(EmptyPath)
    ensures path != "" && readFile(path).Failure? ==> r == Failure(ReadFailed(path, readFile(path).error))
    ensures r.Success? <==>
      path != "" && readFile(path).Success? && parseYaml(ReplaceEnv(readFile(path).value, env)).Success?
    ensures r.Success? ==>
      readFile(path).Success? && parseYaml(ReplaceEnv(readFile(path).value, env)) == Success(r.value)
    ensures path != "" && readFile(path).Success? && parseYaml(ReplaceEnv(readFile(path).value, env)).Failure? ==>
      r == Failure(ParseFailed(path, parseYaml(ReplaceEnv(readFile(path).value, env)).error))
  {
    if path == "" then Failure(EmptyPath)
    else match readFile(path)
      case Failure(e) => Failure(ReadFailed(path, e))
      case Success(data) =>
        match parseYaml(ReplaceEnv(data, env))
        case Failure(e) => Failure(ParseFailed(path, e))
        case Success(config) => Success(config)
  }

  /** An empty path is rejected before any file is read: the outcome does not depend on the file system. */
  lemma LoadEmptyPathReadsNothing(read1: string -> Result<string, string>, read2: string -> Result<string, string>,
                                  env: Environment, parseYaml: string -> Result<RootConfig, string>)
    ensures Load("", read1, env, parseYaml) == Load("", read2, env, parseYaml) == Failure(EmptyPath)
  {
  }
}
