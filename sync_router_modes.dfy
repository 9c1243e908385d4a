/** The build-time script that asks the router which transport modes it offers and sorts them
    against the modes the application knows: its `.env` reader, the known-mode list, the
    command-line flag lookup, the collection of the offered modes and their partition. */
module SyncRouterModes {
  import opened Wrappers
  import opened Strings
  import opened DotEnv

  /** A mode name that the environment list carries unchanged: not empty and with no whitespace,
      comma or quote character. */
  predicate PlainMode(m: string)
  {
    |m| > 0 && forall i :: 0 <= i < |m| ==> m[i] != ',' && m[i] != '"' && m[i] != '\'' && !IsWhitespace(m[i])
  }

  /** Reading back a comma-joined list of plain modes gives the list. */
  lemma KnownModesOfJoin(modes: seq<string>)
    requires |modes| > 0 && forall i :: 0 <= i < |modes| ==> PlainMode(modes[i])
    ensures KnownModes(Some(Join(modes, ','))) == modes
  {
    JoinPlainNonBlank(modes);
    ReadBackPlain(modes);
    KnownModesOfNonBlank(Join(modes, ','));
  }

  lemma JoinPlainNonBlank(modes: seq<string>)
    requires |modes| > 0 && forall i :: 0 <= i < |modes| ==> PlainMode(modes[i])
    ensures |Trim(Join(modes, ','))| > 0
  {
    JoinPlainEnds(modes);
    JoinPlainTrimmed(modes);
  }

  lemma ReadBackPlain(modes: seq<string>)
    requires |modes| > 0 && forall i :: 0 <= i < |modes| ==> PlainMode(modes[i])
    ensures DropEmpty(TrimEach(Split(Join(modes, ','), ','))) == modes
  {
    SplitJoinPlain(modes);
    TrimEachPlain(modes);
    DropEmptyPlain(modes);
  }

  /** Splitting a comma-joined list of plain modes at commas gives the list. */
  lemma SplitJoinPlain(modes: seq<string>)
    requires |modes| > 0 && forall i :: 0 <= i < |modes| ==> PlainMode(modes[i])
    ensures Split(Join(modes, ','), ',') == modes
  {
    assert forall i :: 0 <= i < |modes| ==> ',' !in modes[i];
    SplitJoin(modes, ',');
  }

  /** A comma-joined list of plain modes is its own trim. */
  lemma JoinPlainTrimmed(modes: seq<string>)
    requires |modes| > 0 && forall i :: 0 <= i < |modes| ==> PlainMode(modes[i])
    ensures Trim(Join(modes, ',')) == Join(modes, ',')
  {
    JoinPlainEnds(modes);
    var last := modes[|modes| - 1];
    assert !IsWhitespace(modes[0][0]) && !IsWhitespace(last[|last| - 1]);
    TrimOfTrimmed(Join(modes, ','));
  }

  lemma TrimEachPlain(modes: seq<string>)
    requires forall i :: 0 <= i < |modes| ==> PlainMode(modes[i])
    ensures TrimEach(modes) == modes
  {
    forall i | 0 <= i < |modes|
      ensures Trim(modes[i]) == modes[i]
    {
      TrimOfTrimmed(modes[i]);
    }
  }

  lemma {:induction false} DropEmptyPlain(modes: seq<string>)
    requires forall i :: 0 <= i < |modes| ==> modes[i] != ""
    ensures DropEmpty(modes) == modes
  {
    if |modes| > 0 {
      DropEmptyPlain(modes[1..]);
    }
  }

  /** A comma-joined list of plain modes is not empty and starts and ends with a character of a
      mode. */
  lemma {:induction false} JoinPlainEnds(modes: seq<string>)
    requires |modes| > 0 && forall i :: 0 <= i < |modes| ==> PlainMode(modes[i])
    ensures var s := Join(modes, ',');
      && PlainMode(modes[0]) && PlainMode(modes[|modes| - 1])
      && s != []
      && s[0] == modes[0][0]
      && s[|s| - 1] == modes[|modes| - 1][|modes[|modes| - 1]| - 1]
  {
    if |modes| > 1 {
      JoinPlainEnds(modes[1..]);
    }
  }

  /** The index of the first occurrence of `x` in `s`, or -1. */
  function FirstIndex(s: seq<string>, x: string): (i: int)
    ensures -1 <= i < |s|
    ensures i == -1 <==> x !in s
    ensures 0 <= i ==> s[i] == x && x !in s[..i]
  {
    if |s| == 0 then -1
    else if s[0] == x then 0
    else
      var j := FirstIndex(s[1..], x);
      assert s[1..][..if j < 0 then 0 else j] == s[1..if j < 0 then 1 else j + 1];
      if j == -1 then -1 else j + 1
  }

  /** `getArg(flag)`: the argument after the first occurrence of the flag, if there is one. */
  function GetArg(args: seq<string>, flag: string): (r: Option<string>)
    ensures r.Some? <==> flag in args && FirstIndex(args, flag) + 1 < |args|
    ensures r.Some? ==> exists i :: 0 <= i < |args| - 1 && args[i] == flag && flag !in args[..i] && r.value == args[i + 1]
  {
    var idx := FirstIndex(args, flag);
    if idx >= 0 && idx + 1 < |args| then Some(args[idx + 1]) else None
  }

  /** `baseUrl.replace(/\/$/, '')`: drops one trailing slash. */
  function WithoutTrailingSlash(url: string): (r: string)
    ensures |url| > 0 && url[|url| - 1] == '/' ==> url == r + "/"
    ensures |url| == 0 || url[|url| - 1] != '/' ==> r == url
  {
    if |url| > 0 && url[|url| - 1] == '/' then url[..|url| - 1] else url
  }

  const DefaultRouterUrl: string := "https://router.cartoway.com"
  const DefaultApiKey: string := "demo"
  const CapabilityPath: string := "/0.1/capability?api_key="

  /** The address asked: the `--url` argument when it is given and not empty; otherwise the
      capability path under the router address from the environment (or the public router), with
      the environment's key (or "demo"), encoded by `encode`. */
  function CapabilityUrl(explicitUrl: Option<string>, envUrl: Option<string>, envKey: Option<string>,
                         encode: string -> string): (url: string)
    ensures explicitUrl.Some? && explicitUrl.value != "" ==> url == explicitUrl.value
    ensures !(explicitUrl.Some? && explicitUrl.value != "") ==>
      StartsWith(url, WithoutTrailingSlash(if envUrl.Some? && envUrl.value != "" then envUrl.value else DefaultRouterUrl)
                      + CapabilityPath)
    ensures !(explicitUrl.Some? && explicitUrl.value != "") ==>
      EndsWith(url, encode(if envKey.Some? && envKey.value != "" then envKey.value else DefaultApiKey))
    ensures !(explicitUrl.Some? && explicitUrl.value != "") ==>
      |url| == |WithoutTrailingSlash(if envUrl.Some? && envUrl.value != "" then envUrl.value else DefaultRouterUrl)|
               + |CapabilityPath|
               + |encode(if envKey.Some? && envKey.value != "" then envKey.value else DefaultApiKey)|
  {
    if explicitUrl.Some? && explicitUrl.value != "" then explicitUrl.value
    else
      var baseUrl := if envUrl.Some? && envUrl.value != "" then envUrl.value else DefaultRouterUrl;
      var apiKey := if envKey.Some? && envKey.value != "" then envKey.value else DefaultApiKey;
      WithoutTrailingSlash(baseUrl) + CapabilityPath + encode(apiKey)
  }

  /** A router address with a trailing slash gives the same capability address as without it. */
  lemma CapabilityUrlTrailingSlash(base: string, envKey: Option<string>, encode: string -> string)
    requires base != "" && base[|base| - 1] != '/'
    ensures CapabilityUrl(None, Some(base + "/"), envKey, encode) == CapabilityUrl(None, Some(base), envKey, encode)
  {
    assert WithoutTrailingSlash(base + "/") == base by {
      assert (base + "/")[..|base|] == base;
    }
  }

  /** With nothing configured, the public router is asked with the demo key. */
  lemma CapabilityUrlDefaults(encode: string -> string)
    ensures CapabilityUrl(None, None, None, encode) == DefaultRouterUrl + CapabilityPath + encode(DefaultApiKey)
  {
    assert WithoutTrailingSlash(DefaultRouterUrl) == DefaultRouterUrl by {
      assert DefaultRouterUrl[|DefaultRouterUrl| - 1] == 'm';
    }
  }

  /** The capability response, as far as the script looks at it. */
  datatype Json = JString(s: string) | JArray(items: seq<Json>) | JObject(fields: map<string, Json>) | JOther

  /** `data?.route` when it is an array, else the empty list. */
  function RouteEntries(data: Json): (entries: seq<Json>)
    ensures data.JObject? && "route" in data.fields && data.fields["route"].JArray? ==>
      entries == data.fields["route"].items
    ensures !(data.JObject? && "route" in data.fields && data.fields["route"].JArray?) ==> entries == []
  {
    if data.JObject? && "route" in data.fields && data.fields["route"].JArray? then data.fields["route"].items
    else []
  }

  /** The string `mode` of an entry, if it has one; an entry that is not an object has none. */
  function ModeOf(entry: Json): Option<string>
  {
    if entry.JObject? && "mode" in entry.fields && entry.fields["mode"].JString? then
      Some(entry.fields["mode"].s)
    else None
  }

  /** Some entry among `entries` offers `m`. */
  predicate Offers(entries: seq<Json>, m: string)
  {
    exists i :: 0 <= i < |entries| && ModeOf(entries[i]) == Some(m)
  }

  /** The offered modes, each once, in the order first seen. */
  function Available(entries: seq<Json>): (modes: seq<string>)
    ensures forall m :: m in modes <==> Offers(entries, m)
  {
    if |entries| == 0 then []
    else
      var init := entries[..|entries| - 1];
      var before := Available(init);
      assert forall i :: 0 <= i < |init| ==> init[i] == entries[i];
      assert forall m :: Offers(init, m) ==> Offers(entries, m);
      match ModeOf(entries[|entries| - 1])
      case Some(m) => if m in before then before else before + [m]
      case None => before
  }

  /** The index of the first entry offering `m`. */
  function FirstOffer(entries: seq<Json>, m: string): (i: nat)
    requires Offers(entries, m)
    ensures i < |entries| && ModeOf(entries[i]) == Some(m)
    ensures forall j :: 0 <= j < i ==> ModeOf(entries[j]) != Some(m)
  {
    if ModeOf(entries[0]) == Some(m) then 0
    else
      assert Offers(entries[1..], m) by {
        var i :| 0 <= i < |entries| && ModeOf(entries[i]) == Some(m);
        assert entries[1..][i - 1] == entries[i];
      }
      var j := FirstOffer(entries[1..], m);
      assert forall k :: 1 <= k < |entries| ==> entries[k] == entries[1..][k - 1];
      j + 1
  }

  /** `modes` lists offered modes, none twice, in the order each is first offered. */
  predicate InFirstSeenOrder(entries: seq<Json>, modes: seq<string>)
  {
    forall i, j :: 0 <= i < j < |modes| ==>
      && modes[i] != modes[j]
      && Offers(entries, modes[i]) && Offers(entries, modes[j])
      && FirstOffer(entries, modes[i]) < FirstOffer(entries, modes[j])
  }

  /** Every offered mode is listed once, and the list follows the order in which each mode is
      first offered. */
  lemma {:induction false} AvailableFirstSeenOrder(entries: seq<Json>)
    ensures InFirstSeenOrder(entries, Available(entries))
  {
    if |entries| > 0 {
      AvailableFirstSeenOrder(entries[..|entries| - 1]);
      forall i, j | 0 <= i < j < |Available(entries)|
        ensures Available(entries)[i] != Available(entries)[j]
        ensures Offers(entries, Available(entries)[i]) && Offers(entries, Available(entries)[j])
        ensures FirstOffer(entries, Available(entries)[i]) < FirstOffer(entries, Available(entries)[j])
      {
        AvailablePair(entries, i, j);
      }
    }
  }

  /** One pair of listed modes, given the order of the list without the last entry. */
  lemma AvailablePair(entries: seq<Json>, i: nat, j: nat)
    requires |entries| > 0 && InFirstSeenOrder(entries[..|entries| - 1], Available(entries[..|entries| - 1]))
    requires i < j < |Available(entries)|
    ensures var modes := Available(entries);
      && modes[i] != modes[j] && Offers(entries, modes[i]) && Offers(entries, modes[j])
      && FirstOffer(entries, modes[i]) < FirstOffer(entries, modes[j])
  {
    var init := entries[..|entries| - 1];
    var before := Available(init);
    var modes := Available(entries);
    AvailableExtends(entries);
    var a, b := modes[i], modes[j];
    assert a == before[i] && a in before;
    FirstOfferPrefix(entries, a);
    if j < |before| {
      assert b == before[j] && b in before;
      FirstOfferPrefix(entries, b);
      assert FirstOffer(init, a) < FirstOffer(init, b);
    } else {
      assert FirstOffer(init, a) < |init| <= FirstOffer(entries, b);
    }
  }

  /** The list for one more entry is the list before, perhaps with one new mode, first offered by
      that entry. */
  lemma AvailableExtends(entries: seq<Json>)
    requires |entries| > 0
    ensures var init := entries[..|entries| - 1];
      var before := Available(init);
      var modes := Available(entries);
      && |before| <= |modes| <= |before| + 1 && modes[..|before|] == before
      && (|modes| > |before| ==>
            modes[|before|] !in before && Offers(entries, modes[|before|])
            && FirstOffer(entries, modes[|before|]) == |init|)
  {
    var init := entries[..|entries| - 1];
    var before := Available(init);
    var modes := Available(entries);
    if |modes| > |before| {
      var m := modes[|before|];
      assert ModeOf(entries[|init|]) == Some(m);
      assert !Offers(init, m);
      assert forall k :: 0 <= k < |init| ==> entries[k] == init[k];
    }
  }

  /** A mode offered before the last entry is first offered where it is first offered without it. */
  lemma FirstOfferPrefix(entries: seq<Json>, m: string)
    requires |entries| > 0 && Offers(entries[..|entries| - 1], m)
    ensures FirstOffer(entries, m) == FirstOffer(entries[..|entries| - 1], m)
  {
    var init := entries[..|entries| - 1];
    var a := FirstOffer(entries, m);
    var b := FirstOffer(init, m);
    assert init[b] == entries[b];
  }

  /** The `for` loop over `data.route` that fills the `available` set. */
  method CollectAvailable(data: Json) returns (available: seq<string>)
    ensures available == Available(RouteEntries(data))
  {
    var entries := RouteEntries(data);
    available := [];
    var i := 0;
    while i < |entries|
      invariant i <= |entries|
      invariant available == Available(entries[..i])
    {
      assert entries[..i + 1][..i] == entries[..i];
      var mode := ModeOf(entries[i]);
      if mode.Some? && mode.value !in available {
        available := available + [mode.value];
      }
      i := i + 1;
    }
    assert entries[..i] == entries;
  }

  /** The elements of `s` that are in `other` (when `keep`) or not in it (when not `keep`), in
      the order of `s`. */
  function Select(s: seq<string>, other: seq<string>, keep: bool): (r: seq<string>)
    ensures |r| <= |s|
    ensures forall k :: 0 <= k < |r| ==> (r[k] in other) == keep
  {
    if |s| == 0 then []
    else
      var rest := Select(s[1..], other, keep);
      if (s[0] in other) == keep then [s[0]] + rest else rest
  }

  /** A selection holds exactly the elements of `s` whose membership in `other` is `keep`. */
  lemma {:induction false} SelectMembers(s: seq<string>, other: seq<string>, keep: bool)
    ensures forall m :: m in Select(s, other, keep) <==> m in s && ((m in other) == keep)
  {
    if |s| > 0 {
      SelectMembers(s[1..], other, keep);
      assert forall m :: m in s <==> m == s[0] || m in s[1..];
    }
  }

  /** Selecting from a concatenation selects from each part, so the order of `s` is kept. */
  lemma {:induction false} SelectAppend(s: seq<string>, t: seq<string>, other: seq<string>, keep: bool)
    ensures Select(s + t, other, keep) == Select(s, other, keep) + Select(t, other, keep)
  {
    if |s| == 0 {
      assert s + t == t;
    } else {
      var st := s + t;
      assert st[0] == s[0] && st[1..] == s[1..] + t;
      SelectAppend(s[1..], t, other, keep);
      var head := if (s[0] in other) == keep then [s[0]] else [];
      assert Select(st, other, keep) == head + Select(s[1..] + t, other, keep);
      assert Select(s, other, keep) == head + Select(s[1..], other, keep);
    }
  }

  /** The two selections of a list split it: their lengths add up to its length. */
  lemma {:induction false} SelectSplits(s: seq<string>, other: seq<string>)
    ensures |Select(s, other, true)| + |Select(s, other, false)| == |s|
  {
    if |s| > 0 {
      SelectSplits(s[1..], other);
    }
  }

  /** What the script reports. */
  datatype Report = Report(
    availableModes: seq<string>,
    enabledKnown: seq<string>,
    disabledKnown: seq<string>,
    unknown: seq<string>,
    envSuggestion: string)

  const EnabledModesVariable: string := "VITE_ENABLED_TRANSPORT_MODES"

  /** The report for the offered modes against the known ones. */
  function MakeReport(availableModes: seq<string>, knownModes: seq<string>): (r: Report)
    ensures r.availableModes == availableModes
    ensures forall k :: 0 <= k < |r.enabledKnown| ==> r.enabledKnown[k] in knownModes
    ensures forall k :: 0 <= k < |r.unknown| ==> r.unknown[k] !in knownModes
    ensures forall k :: 0 <= k < |r.disabledKnown| ==> r.disabledKnown[k] !in availableModes
    ensures |r.enabledKnown| + |r.unknown| == |availableModes|
    ensures StartsWith(r.envSuggestion, EnabledModesVariable + "=")
  {
    var enabledKnown := Select(availableModes, knownModes, true);
    SelectSplits(availableModes, knownModes);
    assert (EnabledModesVariable + "=" + Join(enabledKnown, ','))[..|EnabledModesVariable + "="|]
        == EnabledModesVariable + "=";
    Report(
      availableModes,
      enabledKnown,
      Select(knownModes, availableModes, false),
      Select(availableModes, knownModes, false),
      EnabledModesVariable + "=" + Join(enabledKnown, ','))
  }

  /** The offered modes split into the enabled and the unknown ones, which share no mode and
      together account for every offered mode; the disabled ones are the known modes not
      offered. */
  lemma ReportPartition(availableModes: seq<string>, knownModes: seq<string>, m: string)
    ensures var r := MakeReport(availableModes, knownModes);
      && (m in r.enabledKnown <==> m in availableModes && m in knownModes)
      && (m in r.unknown <==> m in availableModes && m !in knownModes)
      && !(m in r.enabledKnown && m in r.unknown)
      && (m in r.disabledKnown <==> m in knownModes && m !in availableModes)
      && |r.enabledKnown| + |r.unknown| == |availableModes|
  {
    SelectSplits(availableModes, knownModes);
    SelectMembers(availableModes, knownModes, true);
    SelectMembers(availableModes, knownModes, false);
    SelectMembers(knownModes, availableModes, false);
  }

  /** The suggested `.env` line, read back by the `.env` loader and the known-mode parsing, gives
      the enabled modes again when there is at least one and each is a plain mode name. */
  lemma EnvSuggestionRoundTrip(availableModes: seq<string>, knownModes: seq<string>)
    requires var enabled := MakeReport(availableModes, knownModes).enabledKnown;
      |enabled| > 0 && forall i :: 0 <= i < |enabled| ==> PlainMode(enabled[i])
    ensures var r := MakeReport(availableModes, knownModes);
      var parsed := ParseLine(r.envSuggestion);
      && parsed == Some((EnabledModesVariable, Join(r.enabledKnown, ',')))
      && KnownModes(Some(parsed.value.1)) == r.enabledKnown
  {
    var enabled := MakeReport(availableModes, knownModes).enabledKnown;
    JoinPlainEnds(enabled);
    EnabledModesVariablePlain();
    ParseAssignment(EnabledModesVariable, Join(enabled, ','));
    KnownModesOfJoin(enabled);
  }

  lemma EnabledModesVariablePlain()
    ensures PlainKey(EnabledModesVariable)
  {
    var v := EnabledModesVariable;
    assert forall i :: 0 <= i < |v| ==> v[i] != '=';
  }

  /** With no enabled mode the suggestion is `VITE_ENABLED_TRANSPORT_MODES=`, which the script
      reads back as no list at all: the known modes fall back to the default list. */
  lemma EmptySuggestionFallsBack(availableModes: seq<string>, knownModes: seq<string>)
    requires MakeReport(availableModes, knownModes).enabledKnown == []
    ensures var parsed := ParseLine(MakeReport(availableModes, knownModes).envSuggestion);
      && parsed == Some((EnabledModesVariable, ""))
      && KnownModes(Some(parsed.value.1)) == DefaultKnownModes
  {
    EnabledModesVariablePlain();
    ParseAssignment(EnabledModesVariable, "");
    assert Join([], ',') == "";
  }

  /** What fetching the capability address gives: a response (its status, whether it is `ok`, and
      its body parsed as JSON or the parse error's message), or the message of a failed fetch. */
  datatype CapabilityOutcome =
    | Answer(status: int, ok: bool, body: Result<Json>)
    | FetchFailed(message: string)

  /** The value of an environment variable, as `process.env[name]` reads it. */
  function EnvValue(env: map<string, string>, name: string): Option<string>
  {
    if name in env then Some(env[name]) else None
  }

  /** `main`, in the environment `env` the `.env` loader leaves and with the arguments after the
      script name: the report, or the message printed before exiting with status 1. */
  function Sync(env: map<string, string>, args: seq<string>, fetch: string -> CapabilityOutcome,
                encode: string -> string): (r: Result<Report>)
    ensures var url := CapabilityUrl(GetArg(args, "--url"), EnvValue(env, "VITE_ROUTER_API_URL"),
                                     EnvValue(env, "VITE_ROUTER_API_KEY"), encode);
      var outcome := fetch(url);
      && (r.Ok? <==> outcome.Answer? && outcome.ok && outcome.body.Ok?)
      && (outcome.FetchFailed? ==> r == Err(outcome.message))
      && (outcome.Answer? && !outcome.ok ==> r == Err("HTTP " + IntToString(outcome.status)))
      && (outcome.Answer? && outcome.ok && outcome.body.Err? ==> r == Err(outcome.body.message))
      && (r.Ok? ==> var modes := r.value.availableModes;
            InFirstSeenOrder(RouteEntries(outcome.body.value), modes)
            && (forall m :: m in modes <==> Offers(RouteEntries(outcome.body.value), m))
            && r.value == MakeReport(modes, KnownModes(EnvValue(env, EnabledModesVariable))))
  {
    var url := CapabilityUrl(GetArg(args, "--url"), EnvValue(env, "VITE_ROUTER_API_URL"),
                             EnvValue(env, "VITE_ROUTER_API_KEY"), encode);
    match fetch(url)
    case FetchFailed(message) => Err(message)
    case Answer(status, ok, body) =>
      if !ok then Err("HTTP " + IntToString(status))
      else
        match body
        case Err(message) => Err(message)
        case Ok(data) =>
          var entries := RouteEntries(data);
          AvailableFirstSeenOrder(entries);
          Ok(MakeReport(Available(entries), KnownModes(EnvValue(env, EnabledModesVariable))))
  }
}
