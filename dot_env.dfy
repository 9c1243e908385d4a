/** The script's minimal `.env` reader and its reading of the known-mode list from the
    environment. */
module DotEnv {
  import opened Wrappers
  import opened Strings

  /** The lines of a file. `split(/\r?\n/)` also drops the carriage return before each line feed;
      every line is trimmed before use, which removes that carriage return anyway, so splitting at
      line feeds alone gives the same parsed lines. */
  function Lines(content: string): seq<string>
  {
    Split(content, '\n')
  }

  /** Removes one surrounding pair of double or single quotes: `startsWith(q) && endsWith(q)`
      for a one-character `q` tests the first and the last character. A lone quote character is
      both, and `slice(1, -1)` of it is empty. */
  function Unquote(value: string): (r: string)
    ensures |value| >= 2 && value[0] == value[|value| - 1] && value[0] in {'"', '\''} ==>
      r == value[1..|value| - 1]
    ensures |value| == 1 && value[0] in {'"', '\''} ==> r == ""
    ensures value == [] || value[0] !in {'"', '\''} || value[0] != value[|value| - 1] ==> r == value
  {
    if |value| > 0 && (value[0] == '"' || value[0] == '\'') && value[|value| - 1] == value[0] then
      if |value| >= 2 then value[1..|value| - 1] else ""
    else value
  }

  /** One line of a `.env` file: the key and value it sets, or None for a line that is ignored.
      A line is ignored exactly when, once trimmed, it is empty, is a comment, or has no `=`; the
      key of a line that is not ignored holds no `=`, since the line is cut at its first one. */
  function ParseLine(line: string): (r: Option<(string, string)>)
    ensures var trimmed := Trim(line);
      r.None? <==> trimmed == "" || trimmed[0] == '#' || '=' !in trimmed
    ensures r.Some? ==> '=' !in r.value.0
  {
    var trimmed := Trim(line);
    if |trimmed| == 0 || trimmed[0] == '#' then None
    else
      var eq := IndexOf(trimmed, '=');
      if eq == -1 then None
      else
        TrimInside(trimmed[..eq], '=');
        Some((Trim(trimmed[..eq]), Unquote(Trim(trimmed[eq + 1..]))))
  }

  /** A line whose trimmed text is `before=after`, where `before` has no `=` and does not start a
      comment, sets the trimmed `before` to the unquoted trimmed `after`, which may hold more
      `=`. */
  lemma ParseLineSplitsAtFirstEquals(line: string, before: string, after: string)
    requires Trim(line) == before + ['='] + after
    requires '=' !in before && (|before| > 0 ==> before[0] != '#')
    ensures ParseLine(line) == Some((Trim(before), Unquote(Trim(after))))
  {
    var trimmed := Trim(line);
    IndexOfPrefix(before, '=', after);
    assert trimmed[..|before|] == before;
    assert trimmed[|before| + 1..] == after;
  }

  /** A key with no `=` that starts and ends with a non-whitespace character and does not start a
      comment. */
  predicate PlainKey(key: string)
  {
    |key| > 0 && '=' !in key && key[0] != '#' && !IsWhitespace(key[0]) && !IsWhitespace(key[|key| - 1])
  }

  /** A value that starts and ends with a non-whitespace character and does not start with a
      quote, or the empty value. */
  predicate PlainValue(value: string)
  {
    |value| > 0 ==> !IsWhitespace(value[0]) && !IsWhitespace(value[|value| - 1]) && value[0] != '"' && value[0] != '\''
  }

  /** Writing `key=value` and reading the line back gives the key and the value. */
  lemma ParseAssignment(key: string, value: string)
    requires PlainKey(key) && PlainValue(value)
    ensures ParseLine(key + "=" + value) == Some((key, value))
  {
    AssignmentSplits(key, value);
    PlainPartsTrimmed(key, value);
    assert key + "=" + value == key + ['='] + value;
  }

  lemma AssignmentSplits(key: string, value: string)
    requires PlainKey(key) && PlainValue(value)
    ensures ParseLine(key + ['='] + value) == Some((Trim(key), Unquote(Trim(value))))
  {
    AssignmentTrimmed(key, value);
    ParseLineSplitsAtFirstEquals(key + ['='] + value, key, value);
  }

  lemma PlainPartsTrimmed(key: string, value: string)
    requires PlainKey(key) && PlainValue(value)
    ensures (Trim(key), Unquote(Trim(value))) == (key, value)
  {
    TrimOfTrimmed(key);
    TrimOfTrimmed(value);
  }

  lemma AssignmentTrimmed(key: string, value: string)
    requires PlainKey(key) && PlainValue(value)
    ensures Trim(key + ['='] + value) == key + ['='] + value
  {
    var line := key + ['='] + value;
    assert line[0] == key[0];
    assert line[|line| - 1] == if |value| > 0 then value[|value| - 1] else '=';
    TrimOfTrimmed(line);
  }

  /** What each line of a file sets. */
  function ParsedLines(lines: seq<string>): (parsed: seq<Option<(string, string)>>)
    ensures |parsed| == |lines|
    ensures forall i :: 0 <= i < |lines| ==> parsed[i] == ParseLine(lines[i])
  {
    seq(|lines|, i requires 0 <= i < |lines| => ParseLine(lines[i]))
  }

  /** The environment after applying the parsed lines in order: a key already present is never
      overwritten, so the first line that sets a key wins. */
  function LoadedEnv(env: map<string, string>, parsed: seq<Option<(string, string)>>): (r: map<string, string>)
    ensures forall key :: key in env ==> key in r && r[key] == env[key]
  {
    if |parsed| == 0 then env
    else
      var before := LoadedEnv(env, parsed[..|parsed| - 1]);
      match parsed[|parsed| - 1]
      case Some((key, value)) => if key in before then before else before[key := value]
      case None => before
  }

  /** The `i`-th parsed line sets `key`. */
  predicate SetsKey(parsed: seq<Option<(string, string)>>, i: int, key: string)
  {
    0 <= i < |parsed| && parsed[i].Some? && parsed[i].value.0 == key
  }

  /** Loading keeps every variable already set, and a new key gets the value of the first line that
      sets it; the keys afterwards are those set before and those some line sets. */
  lemma {:induction false} LoadedEnvFirstWins(env: map<string, string>, parsed: seq<Option<(string, string)>>, key: string)
    ensures key in env ==> key in LoadedEnv(env, parsed) && LoadedEnv(env, parsed)[key] == env[key]
    ensures key in LoadedEnv(env, parsed) <==> key in env || exists i :: SetsKey(parsed, i, key)
    ensures forall i :: SetsKey(parsed, i, key) && key !in env && (forall j :: 0 <= j < i ==> !SetsKey(parsed, j, key)) ==>
      LoadedEnv(env, parsed)[key] == parsed[i].value.1
  {
    if |parsed| > 0 {
      var init := parsed[..|parsed| - 1];
      LoadedEnvFirstWins(env, init, key);
      assert forall i :: 0 <= i < |init| ==> (SetsKey(init, i, key) <==> SetsKey(parsed, i, key));
      if key in LoadedEnv(env, init) && key !in env {
        var i :| SetsKey(init, i, key);
        assert SetsKey(parsed, i, key);
      }
      if SetsKey(parsed, |parsed| - 1, key) {
        assert key in LoadedEnv(env, parsed);
      }
      if exists i :: SetsKey(parsed, i, key) {
        var i :| SetsKey(parsed, i, key);
        if i < |init| {
          assert SetsKey(init, i, key);
        }
      }
    }
  }

  /** Applying one more parsed line. */
  lemma LoadedEnvStep(env: map<string, string>, parsed: seq<Option<(string, string)>>, i: nat)
    requires i < |parsed|
    ensures LoadedEnv(env, parsed[..i + 1]) == match parsed[i]
      case Some((key, value)) =>
        var before := LoadedEnv(env, parsed[..i]);
        if key in before then before else before[key := value]
      case None => LoadedEnv(env, parsed[..i])
  {
    assert parsed[..i + 1][..i] == parsed[..i];
  }

  /** The process environment that the `.env` loader fills. */
  class ProcessEnv {
    var vars: map<string, string>

    constructor (vars: map<string, string>)
      ensures this.vars == vars
    {
      this.vars := vars;
    }

    /** `loadDotEnv`; `content` is None when the file cannot be read, and then nothing changes. */
    method LoadDotEnv(content: Option<string>)
      modifies this
      ensures content.None? ==> vars == old(vars)
      ensures content.Some? ==> vars == LoadedEnv(old(vars), ParsedLines(Lines(content.value)))
    {
      if content.None? {
        return;
      }
      var lines := Lines(content.value);
      ghost var parsedLines := ParsedLines(lines);
      var i := 0;
      while i < |lines|
        invariant i <= |lines|
        invariant vars == LoadedEnv(old(vars), parsedLines[..i])
      {
        LoadedEnvStep(old(vars), parsedLines, i);
        var parsed := ParseLine(lines[i]);
        if parsed.Some? {
          var (key, value) := parsed.value;
          if key !in vars {
            vars := vars[key := value];
          }
        }
        i := i + 1;
      }
      assert parsedLines[..i] == parsedLines;
    }
  }

  /** The modes known when the environment does not list any. */
  const DefaultKnownModes: seq<string> := [
    "car", "cargo_bike", "scooter", "van",
    "truck_19", "truck_75", "truck_12", "truck_26", "truck_32", "truck_44",
    "bicycle", "foot"
  ]

  function TrimEach(parts: seq<string>): (r: seq<string>)
    ensures |r| == |parts|
    ensures forall i :: 0 <= i < |r| ==> r[i] == Trim(parts[i])
  {
    if |parts| == 0 then [] else [Trim(parts[0])] + TrimEach(parts[1..])
  }

  /** `filter(Boolean)` on strings: the non-empty parts, in their order. */
  function DropEmpty(parts: seq<string>): (r: seq<string>)
    ensures |r| <= |parts|
    ensures forall i :: 0 <= i < |r| ==> r[i] != "" && r[i] in parts
    ensures forall p :: p in parts && p != "" ==> p in r
  {
    if |parts| == 0 then []
    else if parts[0] == "" then DropEmpty(parts[1..])
    else [parts[0]] + DropEmpty(parts[1..])
  }

  /** Filtering a concatenation filters each part in place, so the kept parts keep their order. */
  lemma {:induction false} DropEmptyAppend(a: seq<string>, b: seq<string>)
    ensures DropEmpty(a + b) == DropEmpty(a) + DropEmpty(b)
  {
    if |a| == 0 {
      assert a + b == b;
    } else {
      assert (a + b)[0] == a[0];
      assert (a + b)[1..] == a[1..] + b;
      DropEmptyAppend(a[1..], b);
    }
  }

  /** `KNOWN_MODES`: a non-blank list from the environment, split at commas, each part trimmed and
      empty parts dropped; otherwise the default list. */
  function KnownModes(envEnabled: Option<string>): (modes: seq<string>)
    ensures forall i :: 0 <= i < |modes| ==> modes[i] != "" && ',' !in modes[i]
    ensures envEnabled.None? || Trim(envEnabled.value) == "" ==> modes == DefaultKnownModes
  {
    if envEnabled.Some? && Trim(envEnabled.value) != "" then
      var parts := Split(envEnabled.value, ',');
      TrimmedPartsHaveNo(parts, ',');
      DropEmpty(TrimEach(parts))
    else DefaultKnownModes
  }

  /** Trimming parts that lack a character gives parts that lack it too. */
  lemma TrimmedPartsHaveNo(parts: seq<string>, c: char)
    requires forall i :: 0 <= i < |parts| ==> c !in parts[i]
    ensures forall i :: 0 <= i < |DropEmpty(TrimEach(parts))| ==> c !in DropEmpty(TrimEach(parts))[i]
  {
    var trimmed := TrimEach(parts);
    var r := DropEmpty(trimmed);
    forall i | 0 <= i < |r|
      ensures c !in r[i]
    {
      var k :| 0 <= k < |trimmed| && trimmed[k] == r[i];
      TrimInside(parts[k], c);
    }
  }

  /** A character absent from a string is absent from its trim. */
  lemma TrimInside(s: string, c: char)
    requires c !in s
    ensures c !in Trim(s)
  {
    TrimIsSlice(s);
    var k := |s| - |TrimStart(s)|;
    assert Trim(s) == s[k..k + |Trim(s)|];
  }

  /** A non-blank list is read from the environment: split, trimmed, empty parts dropped. */
  lemma KnownModesOfNonBlank(s: string)
    requires |Trim(s)| > 0
    ensures KnownModes(Some(s)) == DropEmpty(TrimEach(Split(s, ',')))
  {
  }

  /** The modes read from a non-blank list are exactly its comma-separated entries that are not
      blank, each trimmed. */
  lemma KnownModesMembers(s: string, m: string)
    requires |Trim(s)| > 0
    ensures m in KnownModes(Some(s)) <==>
      m != "" && exists i :: 0 <= i < |Split(s, ',')| && Trim(Split(s, ',')[i]) == m
  {
    var parts := Split(s, ',');
    var trimmed := TrimEach(parts);
    var modes := DropEmpty(trimmed);
    KnownModesOfNonBlank(s);
    if m in modes {
      var k :| 0 <= k < |modes| && modes[k] == m;
      var i :| 0 <= i < |trimmed| && trimmed[i] == m;
      assert Trim(parts[i]) == m;
    }
    if m != "" && exists i :: 0 <= i < |parts| && Trim(parts[i]) == m {
      var i :| 0 <= i < |parts| && Trim(parts[i]) == m;
      assert trimmed[i] == m;
      assert m in trimmed;
    }
  }
}
