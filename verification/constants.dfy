/**
 * src/wgtray/constants.py: the `key=value` file the constants are read from,
 * the constants taken from it, and the built-in icon and default-config tables.
 */
module Constants {
  import opened Wrappers
  import opened Text
  import opened Values

  /** Python's `s.split(c, 1)` on a string holding `c`: the text before the
      first `c` and the text after it. */
  function SplitAtFirst(s: string, c: char): (r: (string, string))
    requires c in s
    ensures s == r.0 + [c] + r.1 && c !in r.0
  {
    if s[0] == c then
      assert s == [] + [c] + s[1..];
      ([], s[1..])
    else
      var (a, b) := SplitAtFirst(s[1..], c);
      assert s == [s[0]] + s[1..];
      ([s[0]] + a, b)
  }

  /** The split is at the first `c`, whatever follows it. */
  lemma {:induction false} SplitAtFirstUnique(a: string, b: string, c: char)
    requires c !in a
    ensures SplitAtFirst(a + [c] + b, c) == (a, b)
  {
    if a != [] {
      assert (a + [c] + b)[1..] == a[1..] + [c] + b;
      SplitAtFirstUnique(a[1..], b, c);
      assert a == [a[0]] + a[1..];
    }
  }

  /** The stripped line when it sets a constant: not blank, not a `#` comment, holding an `=`. */
  predicate IsSetting(t: string) {
    t != [] && t[0] != '#' && '=' in t
  }

  /** One line of the constants file: after stripping, a line that is not
      blank, not a `#` comment and holds an `=` gives the text before the
      first `=` as key and the rest as value; any other line gives nothing. */
  function ParseConstLine(line: string): (r: Option<(string, string)>)
    ensures r.Some? <==> IsSetting(Strip(line))
    ensures r.Some? ==> Strip(line) == r.value.0 + "=" + r.value.1 && '=' !in r.value.0
  {
    var t := Strip(line);
    if IsSetting(t) then Some(SplitAtFirst(t, '=')) else None
  }

  /** The constants map after reading `lines` in order: each parsed line
      sets its key, a later line overwriting an earlier one. */
  function ConfMap(lines: seq<string>): map<string, string>
  {
    if lines == [] then map[]
    else Apply(ConfMap(lines[..|lines| - 1]), ParseConstLine(lines[|lines| - 1]))
  }

  /** What one parsed line does to the constants read so far. */
  function Apply(m: map<string, string>, entry: Option<(string, string)>): map<string, string> {
    if entry.Some? then m[entry.value.0 := entry.value.1] else m
  }

  lemma ConfMapPrefix(lines: seq<string>, n: nat)
    requires n < |lines|
    ensures ConfMap(lines[..n + 1]) == Apply(ConfMap(lines[..n]), ParseConstLine(lines[n]))
  {
    assert lines[..n + 1][..n] == lines[..n];
    assert lines[..n + 1][n] == lines[n];
  }

  /** `_load_constants` once the file is open: the loop over its lines. */
  method LoadConstants(lines: seq<string>) returns (constants: map<string, string>)
    ensures constants == ConfMap(lines)
  {
    constants := map[];
    for n := 0 to |lines|
      invariant constants == ConfMap(lines[..n])
    {
      ConfMapPrefix(lines, n);
      var entry := ParseConstLine(lines[n]);
      if entry.Some? {
        var (key, value) := entry.value;
        constants := constants[key := value];
      }
    }
    assert lines[..|lines|] == lines;
  }

  /** A written `key=value` line reads back as that key and value, even when
      the value holds further `=` signs. */
  lemma ConstLineRoundTrip(key: string, value: string)
    requires key != [] && key[0] != '#' && '=' !in key
    requires !IsSpace(key[0])
    requires value == [] || !IsSpace(value[|value| - 1])
    ensures ParseConstLine(key + "=" + value) == Some((key, value))
  {
    var line := key + "=" + value;
    StripUnchanged(line);
    assert line[|key|] == '=';
    SplitAtFirstUnique(key, value, '=');
  }

  /** Whether `line` sets the constant `k`. */
  predicate Sets(line: string, k: string) {
    ParseConstLine(line).Some? && ParseConstLine(line).value.0 == k
  }

  lemma ConfMapStep(lines: seq<string>, k: string)
    requires lines != []
    ensures k in ConfMap(lines) <==> k in ConfMap(lines[..|lines| - 1]) || Sets(lines[|lines| - 1], k)
  {
  }

  /** A key is present exactly when some line sets it. */
  lemma {:induction false} ConfMapKeys(lines: seq<string>, k: string)
    ensures k in ConfMap(lines) <==> exists i :: 0 <= i < |lines| && Sets(lines[i], k)
  {
    if lines != [] {
      ConfMapKeys(lines[..|lines| - 1], k);
      ConfMapStep(lines, k);
      var setsK := (line: string) => Sets(line, k);
      if k in ConfMap(lines) {
        SomeHolds(setsK, lines, lines[..|lines| - 1]);
      } else {
        NoneHolds(setsK, lines, lines[..|lines| - 1]);
      }
    }
  }

  lemma SomeHolds<T>(p: T -> bool, xs: seq<T>, init: seq<T>)
    requires xs != [] && init == xs[..|xs| - 1]
    requires (exists i :: 0 <= i < |init| && p(init[i])) || p(xs[|xs| - 1])
    ensures exists i :: 0 <= i < |xs| && p(xs[i])
  {
    if !p(xs[|xs| - 1]) {
      var i :| 0 <= i < |init| && p(init[i]);
      assert init[i] == xs[i];
    }
  }

  lemma NoneHolds<T>(p: T -> bool, xs: seq<T>, init: seq<T>)
    requires xs != [] && init == xs[..|xs| - 1]
    requires forall i :: 0 <= i < |init| ==> !p(init[i])
    requires !p(xs[|xs| - 1])
    ensures forall i :: 0 <= i < |xs| ==> !p(xs[i])
  {
    forall i | 0 <= i < |init| ensures !p(xs[i]) {
      assert init[i] == xs[i];
    }
  }

  /** The value of a key is the one set by the last line that sets it. */
  lemma {:induction false} ConfMapLastWins(lines: seq<string>, i: nat, k: string)
    requires i < |lines| && Sets(lines[i], k)
    requires forall j :: i < j < |lines| ==> !Sets(lines[j], k)
    ensures k in ConfMap(lines) && ConfMap(lines)[k] == ParseConstLine(lines[i]).value.1
  {
    var init := lines[..|lines| - 1];
    var entry := ParseConstLine(lines[|lines| - 1]);
    if i < |lines| - 1 {
      NoneAfter((line: string) => Sets(line, k), lines, init, i);
      assert init[i] == lines[i];
      ConfMapLastWins(init, i, k);
      ApplyOther(ConfMap(init), entry, k);
    }
  }

  /** A line that sets another key (or none) keeps what is known about `k`. */
  lemma ApplyOther(m: map<string, string>, entry: Option<(string, string)>, k: string)
    requires !(entry.Some? && entry.value.0 == k)
    ensures (k in Apply(m, entry)) == (k in m)
    ensures k in m ==> Apply(m, entry)[k] == m[k]
  {
  }

  lemma NoneAfter<T>(p: T -> bool, xs: seq<T>, init: seq<T>, i: nat)
    requires i < |xs| - 1 && init == xs[..|xs| - 1]
    requires forall j :: i < j < |xs| ==> !p(xs[j])
    ensures !p(xs[|xs| - 1])
    ensures forall j :: i < j < |init| ==> !p(init[j])
  {
    forall j | i < j < |init| ensures !p(init[j]) {
      assert init[j] == xs[j];
    }
  }

  /** Blank and comment lines leave the constants unchanged wherever they occur. */
  lemma IgnoredLine(lines: seq<string>, line: string)
    requires Strip(line) == [] || Strip(line)[0] == '#'
    ensures ConfMap(lines + [line]) == ConfMap(lines)
  {
    assert (lines + [line])[..|lines|] == lines;
  }

  /** The constants wgtray reads at start-up. */
  datatype Settings = Settings(version: string, hooksDir: string, sudoersDir: string, events: seq<string>)

  /** `EVENTS`: the comma-separated list, one entry more than there are commas. */
  function SplitEvents(value: string): (events: seq<string>)
    ensures |events| == Count(',', value) + 1
    ensures forall i :: 0 <= i < |events| ==> ',' !in events[i]
  {
    Split(value, ',')
  }

  /** The module-level constants; None where Python raises KeyError at import. */
  function ReadSettings(conf: map<string, string>): (r: Option<Settings>)
    ensures r.Some? <==> "VERSION" in conf && "HOOKS_DIR" in conf && "SUDOERS_DIR" in conf && "EVENTS" in conf
    ensures r.Some? ==> r.value.version == conf["VERSION"] && Join(r.value.events, ",") == conf["EVENTS"]
    ensures r.Some? ==> r.value.hooksDir == conf["HOOKS_DIR"] && r.value.sudoersDir == conf["SUDOERS_DIR"]
  {
    if "VERSION" in conf && "HOOKS_DIR" in conf && "SUDOERS_DIR" in conf && "EVENTS" in conf then
      Some(Settings(conf["VERSION"], conf["HOOKS_DIR"], conf["SUDOERS_DIR"], SplitEvents(conf["EVENTS"])))
    else None
  }

  /** The icon file for each icon name and theme. */
  const Icons: map<string, map<string, string>> := map[
    "disconnected" := map["dark" := "wgtray.svg", "light" := "wgtray-light.svg"],
    "connected" := map["dark" := "wgtray-connected.svg", "light" := "wgtray-connected-light.svg"]
  ]

  /** The configuration used where the user's file says nothing. */
  const DefaultConfig: map<string, Value> := map[
    "notifications" := Bool(true),
    "autoconnect" := Bool(false),
    "default_connection" := Str(""),
    "last_connection" := Str(""),
    "icon_theme" := Str("auto"),
    "monitor_mode" := Str("auto"),
    "poll_interval" := Int(5000),
    "require_password" := Bool(true)
  ]

  const ConfigKeys: set<string> := {
    "notifications", "autoconnect", "default_connection", "last_connection",
    "icon_theme", "monitor_mode", "poll_interval", "require_password"
  }

  lemma DefaultConfigKeys()
    ensures DefaultConfig.Keys == ConfigKeys
  {
  }
}
