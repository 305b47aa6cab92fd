/**
 * The helper-script gateway of src/wgtray/wireguard.py: how a script run's
 * fate becomes an (output, code) pair, how that pair is parsed into interface
 * lists and counters, and how byte counts and handshake ages are rendered.
 * The process itself is not modelled: each call's fate is an input.
 */
module WireGuard {
  import opened Wrappers
  import opened Text

  /** What became of one attempt to run a helper script. */
  datatype ScriptRun =
    | Missing                                  // the script file does not exist
    | TimedOut                                 // still running after 30 seconds
    | Raised(message: string)                  // any other exception, as its text
    | Exited(stdout: string, returncode: int)  // the process finished

  /** `run_script`'s `(output, code)` pair. */
  datatype ScriptResult = ScriptResult(output: Option<string>, code: int)

  /** One helper-script call: the script, its arguments, and whether it runs under pkexec. */
  datatype Invocation = Invocation(script: string, args: seq<string>, pkexec: bool)

  const Timeout: string := "Timeout"

  /** The argument vector started for `inv` with scripts under `libdir`. */
  function CommandLine(libdir: string, inv: Invocation): (argv: seq<string>)
    ensures |argv| == |inv.args| + (if inv.pkexec then 2 else 1)
    ensures argv[|argv| - |inv.args|..] == inv.args
    ensures inv.pkexec ==> argv[..2] == ["pkexec", libdir + "/" + inv.script]
    ensures !inv.pkexec ==> argv[0] == libdir + "/" + inv.script
  {
    var path := libdir + "/" + inv.script;
    (if inv.pkexec then ["pkexec", path] else [path]) + inv.args
  }

  /** `run_script` once the script's `exists()` check has answered: inside
      the `try` nothing propagates; only a missing script yields no output,
      every failure to finish yields code 1, and a finished script's output
      is stripped. */
  function RunScript(run: ScriptRun): (r: ScriptResult)
    ensures r.output.None? <==> run.Missing?
    ensures !run.Exited? ==> r.code == 1
    ensures run.TimedOut? ==> r.output == Some(Timeout)
    ensures run.Raised? ==> r.output == Some(run.message)
    ensures run.Exited? ==> r.code == run.returncode && r.output == Some(Strip(run.stdout))
  {
    match run
    case Missing => ScriptResult(None, 1)
    case TimedOut => ScriptResult(Some(Timeout), 1)
    case Raised(message) => ScriptResult(Some(message), 1)
    case Exited(stdout, returncode) => ScriptResult(Some(Strip(stdout)), returncode)
  }

  const StatusCommand: Invocation := Invocation("status.sh", [], false)
  const ListConfigsCommand: Invocation := Invocation("list-configs.sh", [], false)

  function StatsCommand(iface: string): Invocation {
    Invocation("stats.sh", [iface], true)
  }

  function ConnectCommand(name: string): Invocation {
    Invocation("connect.sh", [name], true)
  }

  /** `disconnect(name)`: a name is passed only when it is truthy, so both
      None and "" select the disconnect-all form. */
  function DisconnectCommand(name: Option<string>): (inv: Invocation)
    ensures inv.script == "disconnect.sh" && inv.pkexec
    ensures inv.args == [] <==> name.None? || name.value == ""
    ensures inv.args != [] ==> inv.args == [name.value]
  {
    if name.Some? && name.value != "" then Invocation("disconnect.sh", [name.value], true)
    else Invocation("disconnect.sh", [], true)
  }

  /** `connect` and `disconnect`: the script ran and exited with 0. */
  function Succeeded(run: ScriptRun): (ok: bool)
    ensures ok <==> run.Exited? && run.returncode == 0
  {
    RunScript(run).code == 0
  }

  /** The newline-separated list a status or list-configs run printed. */
  function ParseList(r: ScriptResult): (names: seq<string>)
    ensures r.code != 0 || r.output.None? || r.output == Some("") ==> names == []
    ensures forall i :: 0 <= i < |names| ==> names[i] != [] && '\n' !in names[i]
  {
    if r.code == 0 && r.output.Some? && r.output.value != "" then
      NonEmpty(Split(r.output.value, '\n'))
    else []
  }

  /** `get_active_connections`: the interfaces status.sh reports, in its order. */
  function GetActiveConnections(run: ScriptRun): (names: seq<string>)
    ensures !(run.Exited? && run.returncode == 0) ==> names == []
    ensures forall i :: 0 <= i < |names| ==> names[i] != [] && '\n' !in names[i]
  {
    ParseList(RunScript(run))
  }

  /** `get_configs`: the configurations list-configs.sh reports, in its order. */
  function GetConfigs(run: ScriptRun): (names: seq<string>)
    ensures !(run.Exited? && run.returncode == 0) ==> names == []
    ensures forall i :: 0 <= i < |names| ==> names[i] != [] && '\n' !in names[i]
  {
    ParseList(RunScript(run))
  }

  lemma {:induction false} JoinEnds(xs: seq<string>, sep: string)
    requires |xs| >= 1
    requires forall i :: 0 <= i < |xs| ==> xs[i] != []
    ensures var j := Join(xs, sep); |j| > 0 && j[0] == xs[0][0] && j[|j| - 1] == xs[|xs| - 1][|xs[|xs| - 1]| - 1]
  {
    if |xs| > 1 {
      JoinEnds(xs[1..], sep);
      var rest := Join(xs[1..], sep);
      assert Join(xs, sep) == xs[0] + sep + rest;
    }
  }

  /** A script that prints one name per line (no whitespace inside names)
      yields exactly those names, in order. */
  lemma ListRoundTrip(names: seq<string>)
    requires forall i :: 0 <= i < |names| ==> IsToken(names[i])
    ensures GetActiveConnections(Exited(Join(names, "\n") + "\n", 0)) == names
    ensures GetConfigs(Exited(Join(names, "\n") + "\n", 0)) == names
  {
    var j := Join(names, "\n");
    if names == [] {
      StripTrailingNewline(j);
    } else {
      forall i | 0 <= i < |names| ensures '\n' !in names[i] {
        assert IsToken(names[i]);
        assert IsSpace('\n');
      }
      BlankLinesDropped(names);
      JoinStart(names, "\n");
      JoinFinish(names, "\n");
      assert j[0] == names[0][0];
      assert j[|j| - 1] == names[|names| - 1][|names[|names| - 1]| - 1];
      StripTrailingNewline(j);
      StripUnchanged(j);
      assert RunScript(Exited(j + "\n", 0)) == RunScript(Exited(j, 0));
      NonEmptyKeepsAll(names);
    }
  }

  /** Blank lines inside a script's output are dropped and every other line
      is kept as it is, in order. */
  lemma BlankLinesDropped(lines: seq<string>)
    requires |lines| >= 1 && forall i :: 0 <= i < |lines| ==> '\n' !in lines[i]
    requires lines[0] != [] && !IsSpace(lines[0][0])
    requires var last := lines[|lines| - 1]; last != [] && !IsSpace(last[|last| - 1])
    ensures GetActiveConnections(Exited(Join(lines, "\n"), 0)) == NonEmpty(lines)
    ensures GetConfigs(Exited(Join(lines, "\n"), 0)) == NonEmpty(lines)
  {
    var j := Join(lines, "\n");
    JoinStart(lines, "\n");
    JoinFinish(lines, "\n");
    assert j[0] == lines[0][0];
    assert j[|j| - 1] == lines[|lines| - 1][|lines[|lines| - 1]| - 1];
    StripUnchanged(j);
    SplitJoin(lines, '\n');
  }

  /** Per-interface counters from stats.sh. */
  datatype Stats = Stats(rxBytes: int, txBytes: int, latestHandshake: Option<int>)

  /** `get_connection_stats` after the script ran: None unless the run succeeded
      with at least three whitespace-separated integers; later fields are ignored,
      and a handshake time that is not positive means "no handshake". */
  function ParseStats(r: ScriptResult): (s: Option<Stats>)
    ensures s.Some? <==>
      && r.code == 0 && r.output.Some? && r.output.value != ""
      && var parts := Tokens(r.output.value);
         |parts| >= 3 && ParseInt(parts[0]).Some? && ParseInt(parts[1]).Some? && ParseInt(parts[2]).Some?
    ensures s.Some? ==>
      var parts := Tokens(r.output.value);
      && s.value.rxBytes == ParseInt(parts[0]).value
      && s.value.txBytes == ParseInt(parts[1]).value
      && (s.value.latestHandshake.Some? <==> ParseInt(parts[2]).value > 0)
      && (s.value.latestHandshake.Some? ==> s.value.latestHandshake.value == ParseInt(parts[2]).value)
  {
    if r.code != 0 || r.output.None? || r.output.value == "" then None
    else
      var parts := Tokens(r.output.value);
      if |parts| < 3 then None
      else
        match (ParseInt(parts[0]), ParseInt(parts[1]), ParseInt(parts[2]))
        case (Some(rx), Some(tx), Some(hs)) => Some(Stats(rx, tx, if hs > 0 then Some(hs) else None))
        case _ => None
  }

  /** `get_connection_stats(iface)`: statistics only from a run that exited with 0. */
  function GetConnectionStats(run: ScriptRun): (s: Option<Stats>)
    ensures s.Some? ==> run.Exited? && run.returncode == 0
  {
    ParseStats(RunScript(run))
  }

  /** The line stats.sh prints: the three counters separated by spaces. */
  function StatsLine(rx: int, tx: int, handshake: int): string {
    Join([IntToString(rx), IntToString(tx), IntToString(handshake)], " ")
  }

  /** Parsing what stats.sh printed gives back its counters. */
  lemma StatsRoundTrip(rx: int, tx: int, handshake: int)
    ensures GetConnectionStats(Exited(StatsLine(rx, tx, handshake) + "\n", 0))
         == Some(Stats(rx, tx, if handshake > 0 then Some(handshake) else None))
  {
    var ts := [IntToString(rx), IntToString(tx), IntToString(handshake)];
    var line := StatsLine(rx, tx, handshake);
    assert forall i :: 0 <= i < |ts| ==> IsToken(ts[i]);
    JoinEnds(ts, " ");
    StripTrailingNewline(line);
    assert RunScript(Exited(line + "\n", 0)) == ScriptResult(Some(line), 0);
    TokensJoin(ts);
    StatsOfCounters(line, rx, tx, handshake);
  }

  /** Three printed integers parse back as the counters they print. */
  lemma StatsOfCounters(a: string, rx: int, tx: int, handshake: int)
    requires Tokens(a) == [IntToString(rx), IntToString(tx), IntToString(handshake)]
    ensures ParseStats(ScriptResult(Some(a), 0)) == Some(Stats(rx, tx, if handshake > 0 then Some(handshake) else None))
  {
    assert a != "";
    ParseIntOfString(rx);
    ParseIntOfString(tx);
    ParseIntOfString(handshake);
  }

  /** Fields after the third do not change the result. */
  lemma StatsExtraFieldsIgnored(ts: seq<string>)
    requires |ts| >= 3
    requires forall i :: 0 <= i < |ts| ==> IsToken(ts[i])
    ensures ParseStats(ScriptResult(Some(Join(ts, " ")), 0)) == ParseStats(ScriptResult(Some(Join(ts[..3], " ")), 0))
  {
    var first := ts[..3];
    assert forall i :: 0 <= i < |first| ==> IsToken(first[i]);
    TokensJoin(ts);
    TokensJoin(first);
    assert first[..3] == first;
    ParseStatsFirstThree(Join(ts, " "), Join(first, " "));
  }

  /** A successful run's statistics depend only on its first three fields. */
  lemma ParseStatsFirstThree(a: string, b: string)
    requires |Tokens(a)| >= 3 && |Tokens(b)| >= 3 && Tokens(a)[..3] == Tokens(b)[..3]
    ensures ParseStats(ScriptResult(Some(a), 0)) == ParseStats(ScriptResult(Some(b), 0))
  {
    assert a != "" && b != "";
    assert Tokens(a)[0] == Tokens(b)[0] && Tokens(a)[1] == Tokens(b)[1] && Tokens(a)[2] == Tokens(b)[2];
  }

  /** How `format_bytes` renders a count: the exact "N B" text, or the count
      divided by the unit's size, shown with the given number of decimals
      (the decimal digits themselves are not modelled). */
  datatype ByteText = Exact(text: string) | Scaled(amount: real, decimals: nat, unit: string)

  const KiB: int := 1024
  const MiB: int := 1024 * 1024
  const GiB: int := 1024 * 1024 * 1024

  function UnitSize(unit: string): int {
    if unit == "KB" then KiB else if unit == "MB" then MiB else GiB
  }

  /** `format_bytes`: units switch at exactly 1024, 1024^2 and 1024^3. */
  function FormatBytes(n: int): (r: ByteText)
    ensures r.Exact? <==> n < KiB
    ensures r.Scaled? ==> r.amount * (UnitSize(r.unit) as real) == n as real
    ensures r.Scaled? ==> 1.0 <= r.amount && (r.unit != "GB" ==> r.amount < 1024.0)
    ensures r.Scaled? ==> r.unit in {"KB", "MB", "GB"} && r.decimals == (if r.unit == "GB" then 2 else 1)
  {
    if n < KiB then Exact(IntToString(n) + " B")
    else if n < MiB then Scaled(n as real / 1024.0, 1, "KB")
    else if n < GiB then Scaled(n as real / 1048576.0, 1, "MB")
    else Scaled(n as real / 1073741824.0, 2, "GB")
  }

  /** Below 1024 the text is the exact count followed by " B". */
  lemma FormatBytesExact(n: int)
    requires n < KiB
    ensures var t := FormatBytes(n).text;
      |t| > 2 && t[|t| - 2..] == " B" && ParseInt(t[..|t| - 2]) == Some(n)
  {
    var t := FormatBytes(n).text;
    assert t[..|t| - 2] == IntToString(n);
    ParseIntOfString(n);
  }

  /** `format_handshake` with `now` standing for `int(time.time())`. */
  function FormatHandshake(timestamp: Option<int>, now: int): (r: string)
    ensures r == "never" <==> timestamp.None? || timestamp.value == 0
    ensures r != "never" ==> |r| > 5 && r[|r| - 4..] == " ago"
  {
    if timestamp.None? || timestamp.value == 0 then "never"
    else
      var diff := now - timestamp.value;
      if diff < 60 then IntToString(diff) + "s ago"
      else if diff < 3600 then IntToString(diff / 60) + "m ago"
      else if diff < 86400 then IntToString(diff / 3600) + "h ago"
      else IntToString(diff / 86400) + "d ago"
  }

  function UnitSeconds(unit: char): int {
    if unit == 'm' then 60 else if unit == 'h' then 3600 else if unit == 'd' then 86400 else 1
  }

  /** `r` reads as "<count><unit> ago" where the unit is the largest of
      s, m, h, d that the age `diff` reaches and the count is the age
      rounded down to whole units. */
  predicate ReadsAsAge(r: string, diff: int) {
    && |r| > 5 && r[|r| - 4..] == " ago"
    && var unit := r[|r| - 5];
       var count := ParseInt(r[..|r| - 5]);
       && unit in {'s', 'm', 'h', 'd'}
       && count.Some?
       && count.value * UnitSeconds(unit) <= diff < (count.value + 1) * UnitSeconds(unit)
       && (unit == 's' <==> diff < 60)
       && (unit == 'm' <==> 60 <= diff < 3600)
       && (unit == 'h' <==> 3600 <= diff < 86400)
       && (unit == 'd' <==> 86400 <= diff)
  }

  /** The unit `format_handshake` picks for an age of `diff` seconds. */
  function AgeUnit(diff: int): char {
    if diff < 60 then 's' else if diff < 3600 then 'm' else if diff < 86400 then 'h' else 'd'
  }

  /** Reading the rendered age back: "never" exactly for a missing or zero
      timestamp, otherwise the age in its unit. */
  lemma FormatHandshakeMeaning(timestamp: Option<int>, now: int)
    ensures (FormatHandshake(timestamp, now) == "never") == (timestamp.None? || timestamp.value == 0)
    ensures timestamp.Some? && timestamp.value != 0 ==>
      ReadsAsAge(FormatHandshake(timestamp, now), now - timestamp.value)
  {
    if !(timestamp.None? || timestamp.value == 0) {
      var diff := now - timestamp.value;
      AgeCase(diff, AgeUnit(diff));
      RenderedAge(timestamp, now);
    }
  }

  lemma RenderedAge(timestamp: Option<int>, now: int)
    requires timestamp.Some? && timestamp.value != 0
    ensures var diff := now - timestamp.value;
      FormatHandshake(timestamp, now) == IntToString(diff / UnitSeconds(AgeUnit(diff))) + [AgeUnit(diff)] + " ago"
  {
    var diff := now - timestamp.value;
    if diff < 60 {
      assert diff / UnitSeconds(AgeUnit(diff)) == diff;
      assert "s ago" == ['s'] + " ago";
    } else if diff < 3600 {
      assert "m ago" == ['m'] + " ago";
    } else if diff < 86400 {
      assert "h ago" == ['h'] + " ago";
    } else {
      assert "d ago" == ['d'] + " ago";
    }
  }

  lemma DivBounds(n: int, k: int)
    requires k > 0
    ensures (n / k) * k <= n < (n / k + 1) * k
  {
  }

  lemma AgeCase(diff: int, u: char)
    requires u == AgeUnit(diff)
    ensures var r := IntToString(diff / UnitSeconds(u)) + [u] + " ago";
      ReadsAsAge(r, diff) && r != "never"
  {
    var k := UnitSeconds(u);
    var q := diff / k;
    DivBounds(diff, k);
    AgeText(q, u);
  }

  /** The text of an age reads back as its count and unit. */
  lemma AgeText(q: int, u: char)
    ensures var r := IntToString(q) + [u] + " ago";
      && |r| > 5 && r[|r| - 4..] == " ago" && r[|r| - 5] == u
      && ParseInt(r[..|r| - 5]) == Some(q) && r != "never"
  {
    var r := IntToString(q) + [u] + " ago";
    assert r[..|r| - 5] == IntToString(q);
    ParseIntOfString(q);
    assert r[|r| - 1] == 'o' != "never"[4];
  }
}
