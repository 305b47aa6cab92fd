/**
 * The tray application of src/wgtray/app.py. `WgTray` keeps a short-lived
 * cache of the active interfaces and the configurations, redraws the icon
 * when the set of active interfaces changes, connects one interface at a
 * time, and restarts its monitoring when the settings ask for it.
 *
 * Everything the class asks of the outside world is an input: the fate of
 * each helper-script run, the outcome of a connect or disconnect, the clock,
 * and whether netlink is available. What the class does to the outside world
 * is recorded, in order, in the ghost `log`.
 */
module Tray {
  import opened Wrappers
  import opened Values
  import opened Text
  import opened Ordering
  import Constants
  import Config
  import Monitor

  /** The `(success, hook_error, cancelled)` triple a connect or disconnect gives. */
  datatype ActionOutcome = ActionOutcome(success: bool, hookError: Option<string>, cancelled: bool)

  /** The answers to one refresh of the cache: the clock, then the lists
      `get_active_connections` and `get_configs` return. */
  datatype Refresh = Refresh(now: real, active: seq<string>, configs: seq<string>)

  /** A desktop notification. */
  datatype Notification = Notification(title: string, message: string, error: bool)

  /** What the tray does to the outside world. */
  datatype Event =
    | StatusQuery                                           // get_active_connections()
    | ConfigsQuery                                          // get_configs()
    | ConnectCall(name: string, requirePassword: Value)
    | DisconnectCall(name: string, requirePassword: Value)
    | Saved(config: map<string, Value>)                     // save_config(...)
    | TooltipShown(active: seq<string>)                     // the tooltip redrawn for these interfaces
    | Notified(notice: Notification)
    | MonitoringStopped
    | MonitoringStarted(mode: MonitorKind, interval: Value)

  /** The two tray icons. */
  datatype TrayIcon = ConnectedIcon | DisconnectedIcon

  /** How changes are noticed: netlink events, or the poll timer alone. */
  datatype MonitorKind = NetlinkEvents | Polling

  /** What `poll_check` did. */
  datatype PollResult = Redrawn | TooltipRefreshed | Unchanged

  /** What a click on the tray (or auto-connect) set off. */
  datatype TrayAction = NoAction | ConnectTo(name: string) | DisconnectFrom(name: string)

  /** One entry of the context menu. */
  datatype MenuEntry =
    | StatusEntry(text: string)
    | Separator
    | ConfigEntry(caption: string, action: TrayAction)
    | NoConfigurations
    | OpenConfigFolder
    | SettingsEntry
    | QuitEntry

  /** The cache's lifetime in seconds. */
  const CacheTtl: real := 2.0

  const Title: string := "WireGuard"
  const CheckMark: char := '\U{2713}'
  const Warning: char := '\U{26A0}'

  /** `show_notification`: shown unless notifications are switched off. */
  function Announce(config: map<string, Value>, n: Notification): seq<Event> {
    if Truthy(Get(config, "notifications", Bool(true))) then [Notified(n)] else []
  }

  /** `bool(hook_error)`. */
  predicate HookFailed(hookError: Option<string>) {
    hookError.Some? && hookError.value != ""
  }

  /** The message text after a successful action: the warning line appears
      exactly when a hook failed. */
  function WithHookWarning(message: string, hookError: Option<string>): (r: string)
    ensures HookFailed(hookError) <==> r != message
    ensures StartsWith(r, message)
    ensures HookFailed(hookError) ==> r == message + "\n" + [Warning] + " Hook failed: " + hookError.value
  {
    if HookFailed(hookError) then message + "\n" + [Warning] + " Hook failed: " + hookError.value else message
  }

  function ConnectNotice(name: string, outcome: ActionOutcome): Notification {
    if outcome.success then
      Notification(Title, WithHookWarning("Connected to " + name, outcome.hookError), HookFailed(outcome.hookError))
    else Notification(Title, "Failed to connect to " + name, true)
  }

  function DisconnectNotice(name: string, outcome: ActionOutcome): Notification {
    if outcome.success then
      Notification(Title, WithHookWarning("Disconnected from " + name, outcome.hookError), HookFailed(outcome.hookError))
    else Notification(Title, "Failed to disconnect from " + name, true)
  }

  /** What `update_icon` does to the outside world once the cache holds `active`. */
  function RedrawEvents(active: seq<string>): seq<Event> {
    [StatusQuery, ConfigsQuery, TooltipShown(active)]
  }

  /** The password-less disconnect of each interface, in order. */
  function Teardown(active: seq<string>): (r: seq<Event>)
    ensures |r| == |active|
    ensures forall i :: 0 <= i < |r| ==> r[i] == DisconnectCall(active[i], Bool(false))
  {
    if active == [] then [] else [DisconnectCall(active[0], Bool(false))] + Teardown(active[1..])
  }

  /** Everything `on_connect(name)` does, given the active list it reads, the
      connect's outcome and the active list the redraw then finds. */
  function ConnectEvents(config: map<string, Value>, name: string, active: seq<string>,
                         outcome: ActionOutcome, afterActive: seq<string>): (r: seq<Event>)
    ensures |r| >= 1 && r[0] == StatusQuery
    ensures name in active ==> |r| <= 2
  {
    if name in active then [StatusQuery] + Announce(config, Notification(Title, "Already connected to " + name, false))
    else
      var called := [StatusQuery] + Teardown(active) + [ConnectCall(name, Get(config, "require_password", Bool(true)))];
      if outcome.cancelled then called
      else
        var told := called + Announce(config, ConnectNotice(name, outcome));
        var saved := if outcome.success then told + [Saved(config["last_connection" := Str(name)])] else told;
        saved + RedrawEvents(afterActive)
  }

  /** Everything `on_disconnect(name)` does. */
  function DisconnectEvents(config: map<string, Value>, name: string, outcome: ActionOutcome,
                            afterActive: seq<string>): (r: seq<Event>)
    ensures |r| >= 1 && r[0] == DisconnectCall(name, Get(config, "require_password", Bool(true)))
    ensures |r| == 1 <==> outcome.cancelled
  {
    var called := [DisconnectCall(name, Get(config, "require_password", Bool(true)))];
    if outcome.cancelled then called
    else called + Announce(config, DisconnectNotice(name, outcome)) + RedrawEvents(afterActive)
  }

  predicate IsGatewayCall(e: Event) {
    e.ConnectCall? || e.DisconnectCall?
  }

  /** Asking for an interface that is already up changes nothing: no
      interface is brought down or up. */
  lemma AlreadyActiveIsQuiet(config: map<string, Value>, name: string, active: seq<string>,
                             outcome: ActionOutcome, afterActive: seq<string>)
    requires name in active
    ensures forall e :: e in ConnectEvents(config, name, active, outcome, afterActive) ==> !IsGatewayCall(e) && !e.Saved?
  {
  }

  /** The gateway calls `on_connect` makes for an interface that is not up. */
  function ConnectCalls(config: map<string, Value>, name: string, active: seq<string>): seq<Event> {
    [StatusQuery] + Teardown(active) + [ConnectCall(name, Get(config, "require_password", Bool(true)))]
  }

  /** What follows the connect call: notices, the save and the redraw. */
  function ConnectTail(config: map<string, Value>, name: string, outcome: ActionOutcome,
                       afterActive: seq<string>): seq<Event>
  {
    if outcome.cancelled then []
    else
      Announce(config, ConnectNotice(name, outcome))
      + (if outcome.success then [Saved(config["last_connection" := Str(name)])] else [])
      + RedrawEvents(afterActive)
  }

  /** A connect to an interface that is not up is its calls followed by a
      tail that holds no gateway call. */
  lemma ConnectEventsSplit(config: map<string, Value>, name: string, active: seq<string>,
                           outcome: ActionOutcome, afterActive: seq<string>)
    requires name !in active
    ensures ConnectEvents(config, name, active, outcome, afterActive)
            == ConnectCalls(config, name, active) + ConnectTail(config, name, outcome, afterActive)
    ensures forall e :: e in ConnectTail(config, name, outcome, afterActive) ==> !IsGatewayCall(e)
  {
    var called := ConnectCalls(config, name, active);
    if !outcome.cancelled {
      var notice := Announce(config, ConnectNotice(name, outcome));
      var save: seq<Event> := if outcome.success then [Saved(config["last_connection" := Str(name)])] else [];
      Appended(called, notice, save);
      Appended(called, notice + save, RedrawEvents(afterActive));
    }
  }

  /** One connection at a time: every active interface is brought down, in
      order and without a password prompt, before the one connect call, which
      is the last gateway call `on_connect` makes; the interface asked for is
      never among those brought down. */
  lemma OneConnectionAtATime(config: map<string, Value>, name: string, active: seq<string>,
                             outcome: ActionOutcome, afterActive: seq<string>)
    requires name !in active
    ensures var es := ConnectEvents(config, name, active, outcome, afterActive);
      && |es| >= |active| + 2 && es[0] == StatusQuery
      && (forall i :: 0 <= i < |active| ==> es[i + 1] == DisconnectCall(active[i], Bool(false)) && active[i] != name)
      && es[|active| + 1] == ConnectCall(name, Get(config, "require_password", Bool(true)))
      && (forall i :: |active| + 1 < i < |es| ==> !IsGatewayCall(es[i]))
  {
    ConnectEventsSplit(config, name, active, outcome, afterActive);
    var called := ConnectCalls(config, name, active);
    var tail := ConnectTail(config, name, outcome, afterActive);
    var es := called + tail;
    assert |called| == |active| + 2;
    forall i | 0 <= i < |active| ensures es[i + 1] == DisconnectCall(active[i], Bool(false)) {
      assert es[i + 1] == called[i + 1] == Teardown(active)[i];
    }
    forall i | |active| + 1 < i < |es| ensures !IsGatewayCall(es[i]) {
      assert es[i] == tail[i - |called|];
      assert tail[i - |called|] in tail;
    }
  }

  /** `last_connection` is written (and the configuration saved) only after a
      connect that succeeded and was not cancelled, and then names the
      interface connected. */
  lemma OnlySuccessSaves(config: map<string, Value>, name: string, active: seq<string>,
                         outcome: ActionOutcome, afterActive: seq<string>)
    ensures var es := ConnectEvents(config, name, active, outcome, afterActive);
      (exists e :: e in es && e.Saved?) <==> name !in active && !outcome.cancelled && outcome.success
    ensures forall e :: e in ConnectEvents(config, name, active, outcome, afterActive) && e.Saved? ==>
      e.config == config["last_connection" := Str(name)] && e.config["last_connection"] == Str(name)
  {
    var es := ConnectEvents(config, name, active, outcome, afterActive);
    if name !in active && !outcome.cancelled && outcome.success {
      assert Saved(config["last_connection" := Str(name)]) in es;
    }
  }

  /** A cancelled connect or disconnect is silent: no notification, no save,
      no redraw. */
  lemma CancelledIsSilent(config: map<string, Value>, name: string, active: seq<string>,
                          outcome: ActionOutcome, afterActive: seq<string>)
    requires outcome.cancelled
    ensures name !in active ==> forall e :: e in ConnectEvents(config, name, active, outcome, afterActive) ==>
      !e.Notified? && !e.Saved? && !e.TooltipShown?
    ensures forall e :: e in DisconnectEvents(config, name, outcome, afterActive) ==>
      !e.Notified? && !e.Saved? && !e.TooltipShown?
  {
  }

  /** `config.get("default_connection") or config.get("last_connection")`. */
  function Preferred(config: map<string, Value>): Value {
    var d := Get(config, "default_connection", Null);
    if Truthy(d) then d else Get(config, "last_connection", Null)
  }

  /** The configuration auto-connect and a tray click bring up: the preferred
      one when it is listed, else the first listed; none when there is none. */
  function ChooseConfig(config: map<string, Value>, configs: seq<string>): (r: Option<string>)
    ensures r.None? <==> configs == []
    ensures r.Some? ==> r.value in configs
    ensures Get(config, "default_connection", Null).Str? && Get(config, "default_connection", Null).s in configs
            && Get(config, "default_connection", Null).s != ""
            ==> r == Some(Get(config, "default_connection", Null).s)
    ensures configs != [] && !Truthy(Get(config, "default_connection", Null))
            && Get(config, "last_connection", Null).Str? && Get(config, "last_connection", Null).s in configs
            && Get(config, "last_connection", Null).s != ""
            ==> r == Some(Get(config, "last_connection", Null).s)
    // a set default that is not listed does not fall back to the last connection
    ensures configs != [] && Truthy(Get(config, "default_connection", Null))
            && !(Get(config, "default_connection", Null).Str? && Get(config, "default_connection", Null).s in configs)
            ==> r == Some(configs[0])
    // nothing preferred is listed: the first configuration
    ensures configs != [] && !(Truthy(Preferred(config)) && Preferred(config).Str? && Preferred(config).s in configs)
            ==> r == Some(configs[0])
  {
    if configs == [] then None
    else
      var preferred := Preferred(config);
      if Truthy(preferred) && preferred.Str? && preferred.s in configs then Some(preferred.s)
      else Some(configs[0])
  }

  /** Everything `_auto_connect` does. */
  function AutoConnectEvents(config: map<string, Value>, active: seq<string>, configs: seq<string>,
                             active2: seq<string>, outcome: ActionOutcome, afterActive: seq<string>): (r: seq<Event>)
    ensures |r| >= 1 && r[0] == StatusQuery
    ensures r == [StatusQuery] <==> active != []
  {
    if active != [] then [StatusQuery]
    else match ChooseConfig(config, configs)
      case None => [StatusQuery, ConfigsQuery]
      case Some(name) => [StatusQuery, ConfigsQuery] + ConnectEvents(config, name, active2, outcome, afterActive)
  }

  /** Everything `on_tray_click` does. */
  function TrayClickEvents(config: map<string, Value>, trigger: bool, active: seq<string>, configs: seq<string>,
                           active2: seq<string>, outcome: ActionOutcome, afterActive: seq<string>): seq<Event>
  {
    if !trigger then []
    else if active != [] then [StatusQuery] + DisconnectEvents(config, active[0], outcome, afterActive)
    else AutoConnectEvents(config, active, configs, active2, outcome, afterActive)
  }

  /** Auto-connect never disturbs a connection that is already up, and a
      click while one is up only ever brings the first one down. */
  lemma ActiveConnectionsAreNotReplaced(config: map<string, Value>, active: seq<string>, configs: seq<string>,
                                        active2: seq<string>, outcome: ActionOutcome, afterActive: seq<string>)
    requires active != []
    ensures AutoConnectEvents(config, active, configs, active2, outcome, afterActive) == [StatusQuery]
    ensures forall e :: e in TrayClickEvents(config, true, active, configs, active2, outcome, afterActive) && IsGatewayCall(e)
                        ==> e == DisconnectCall(active[0], Get(config, "require_password", Bool(true)))
  {
  }

  lemma Appended<T>(a: seq<T>, b: seq<T>, c: seq<T>)
    ensures a + (b + c) == (a + b) + c
  {
  }

  /** Whether `on_settings` restarts the monitoring: the mode or the interval
      differs, by Python's `!=`. */
  predicate NeedsRestart(before: map<string, Value>, after: map<string, Value>) {
    || !PyEqual(Get(after, "monitor_mode", Null), Get(before, "monitor_mode", Null))
    || !PyEqual(Get(after, "poll_interval", Null), Get(before, "poll_interval", Null))
  }

  /** Settings that leave the mode and the interval alone never restart the
      monitoring; a different mode name always does. */
  lemma RestartOnlyOnMonitorChange(before: map<string, Value>, after: map<string, Value>)
    ensures Get(before, "monitor_mode", Null) == Get(after, "monitor_mode", Null)
            && Get(before, "poll_interval", Null) == Get(after, "poll_interval", Null)
            ==> !NeedsRestart(before, after)
    ensures Get(before, "monitor_mode", Null).Str? && Get(after, "monitor_mode", Null).Str?
            && Get(before, "monitor_mode", Null) != Get(after, "monitor_mode", Null)
            ==> NeedsRestart(before, after)
    ensures Get(before, "poll_interval", Null).Int? && Get(after, "poll_interval", Null).Int?
            && Get(before, "poll_interval", Null) != Get(after, "poll_interval", Null)
            ==> NeedsRestart(before, after)
  {
  }

  /** Netlink is used only when the mode allows it and the probe succeeded. */
  predicate UsesNetlink(mode: Value, available: bool) {
    (mode == Str("auto") || mode == Str("netlink")) && available
  }

  /** The icon file `get_icon` picks, `None` for the empty icon. `detected`
      is the theme the palette suggests; `present` the files in the icon directory. */
  function GetIcon(name: string, theme: string, detected: string, present: set<string>): (icon: Option<string>)
    ensures icon.Some? ==> icon.value in present
    ensures var t := if theme == "auto" then detected else theme;
      name in Constants.Icons && t in Constants.Icons[name] && Constants.Icons[name][t] in present
      ==> icon == Some(Constants.Icons[name][t])
  {
    var theme := if theme == "auto" then detected else theme;
    var variants := if name in Constants.Icons then Constants.Icons[name] else Constants.Icons["disconnected"];
    var file := if theme in variants then variants[theme] else variants["dark"];
    var file := if file !in present && theme == "light" then variants["dark"] else file;
    if file in present then Some(file) else None
  }

  /** The fall-backs of `get_icon`: an unknown name draws the "disconnected"
      icon, an unknown theme the dark one, a missing light file the dark one. */
  lemma GetIconFallbacks(name: string, theme: string, detected: string, present: set<string>)
    ensures name !in Constants.Icons ==> GetIcon(name, theme, detected, present) == GetIcon("disconnected", theme, detected, present)
    ensures theme != "auto" && theme != "light" && theme != "dark" ==>
      GetIcon(name, theme, detected, present) == GetIcon(name, "dark", detected, present)
    ensures name in Constants.Icons && Constants.Icons[name]["light"] !in present ==>
      GetIcon(name, "light", detected, present) ==
        (if Constants.Icons[name]["dark"] in present then Some(Constants.Icons[name]["dark"]) else None)
    ensures GetIcon(name, theme, detected, present).Some? ==>
      exists n, t :: n in Constants.Icons && t in Constants.Icons[n] && GetIcon(name, theme, detected, present) == Some(Constants.Icons[n][t])
  {
    Constants.DefaultConfigKeys();
    var n := if name in Constants.Icons then name else "disconnected";
    var t := if theme == "auto" then detected else theme;
    var variants := Constants.Icons[n];
    var f := if t in variants then t else "dark";
    var g := if variants[f] !in present && t == "light" then "dark" else f;
    assert GetIcon(name, theme, detected, present).Some? ==> GetIcon(name, theme, detected, present) == Some(Constants.Icons[n][g]);
  }

  /** The status line of the menu. */
  function StatusText(active: seq<string>): string {
    "Status: " + if active != [] then "Connected (" + Join(active, ", ") + ")" else "Not connected"
  }

  /** The entry for one configuration: checked and disconnecting when it is
      active, indented and connecting otherwise. */
  function EntryFor(name: string, active: seq<string>): (e: MenuEntry)
    ensures e.ConfigEntry? && !e.action.NoAction? && e.action.name == name
    ensures e.action.DisconnectFrom? <==> name in active
    ensures e.action.ConnectTo? <==> name !in active
  {
    if name in active then ConfigEntry([CheckMark, ' '] + name, DisconnectFrom(name))
    else ConfigEntry("   " + name, ConnectTo(name))
  }

  /** The configuration entries of `build_menu`: one per configuration, in
      order, disconnecting an active one and connecting any other; a single
      disabled entry when there is none. */
  method ConfigEntries(configs: seq<string>, active: seq<string>) returns (entries: seq<MenuEntry>)
    ensures configs == [] ==> entries == [NoConfigurations]
    ensures configs != [] ==> |entries| == |configs|
    ensures configs != [] ==> forall i :: 0 <= i < |configs| ==> entries[i] == EntryFor(configs[i], active)
  {
    if configs == [] {
      return [NoConfigurations];
    }
    entries := [];
    for i := 0 to |configs|
      invariant |entries| == i
      invariant forall j :: 0 <= j < i ==> entries[j] == EntryFor(configs[j], active)
    {
      var name := configs[i];
      if name in active {
        entries := entries + [ConfigEntry([CheckMark, ' '] + name, DisconnectFrom(name))];
      } else {
        entries := entries + [ConfigEntry("   " + name, ConnectTo(name))];
      }
    }
  }

  /** The whole menu around the configuration entries. */
  function Menu(active: seq<string>, entries: seq<MenuEntry>): seq<MenuEntry> {
    [StatusEntry(StatusText(active)), Separator] + entries +
    [Separator, OpenConfigFolder, Separator, SettingsEntry, Separator, QuitEntry]
  }

  /** `menu` is the menu `build_menu` draws for these lists: the status line,
      one entry per configuration in order (or the disabled placeholder), and
      the fixed entries. */
  predicate ShowsMenu(menu: seq<MenuEntry>, active: seq<string>, configs: seq<string>) {
    && |menu| >= 8 && menu == Menu(active, menu[2..|menu| - 6])
    && (configs == [] ==> menu[2..|menu| - 6] == [NoConfigurations])
    && (configs != [] ==> |menu| == |configs| + 8 && forall i :: 0 <= i < |configs| ==>
          menu[i + 2] == EntryFor(configs[i], active))
  }

  class WgTray {
    var config: map<string, Value>
    var cacheActive: seq<string>
    var cacheConfigs: seq<string>
    var cacheTime: real
    /** The sorted active interfaces last drawn; None before the first draw. */
    var lastState: Option<seq<string>>
    /** The icon the tray shows. */
    var icon: TrayIcon
    var menu: seq<MenuEntry>
    var netlink: Monitor.NetlinkMonitor?
    var pollRunning: bool
    var pollInterval: Value
    var monitorMode: MonitorKind
    /** Whether an auto-connect is scheduled. */
    var autoconnectPending: bool
    var quitting: bool
    ghost var log: seq<Event>

    twostate predicate CacheKept()
      reads this
    {
      cacheActive == old(cacheActive) && cacheConfigs == old(cacheConfigs) && cacheTime == old(cacheTime)
    }

    twostate predicate ViewKept()
      reads this
    {
      lastState == old(lastState) && icon == old(icon) && menu == old(menu)
    }

    /** The cache and the drawn view after a redraw whose refresh returned `r`. */
    predicate DrawnFrom(r: Refresh)
      reads this
    {
      && cacheActive == r.active && cacheConfigs == r.configs && cacheTime == r.now
      && lastState == Some(Sort(r.active))
      && icon == (if r.active != [] then ConnectedIcon else DisconnectedIcon)
    }

    /** Monitoring as `_setup_monitoring` leaves it for the current
        configuration: netlink events when the mode allows them and the
        probe succeeded, else polling; the poll timer runs either way. */
    predicate MonitoringFor(probe: bool)
      reads this
    {
      && monitorMode == (if UsesNetlink(Get(config, "monitor_mode", Str("auto")), probe) then NetlinkEvents else Polling)
      && pollRunning && pollInterval == Get(config, "poll_interval", Int(3000))
    }

    twostate predicate MonitoringKept()
      reads this
    {
      netlink == old(netlink) && pollRunning == old(pollRunning) && pollInterval == old(pollInterval)
      && monitorMode == old(monitorMode) && autoconnectPending == old(autoconnectPending) && quitting == old(quitting)
    }

    /** Start-up: the loaded configuration, the monitoring, a first draw
        (whose refresh returned `draw`), a menu (whose own cache check sees
        `listing`), and an auto-connect scheduled when the configuration asks
        for one. */
    constructor(file: Config.UserFile, probe: bool, draw: Refresh, listing: Refresh)
      ensures file.Object? ==> config == Config.Updated(Constants.DefaultConfig, file.items)
      ensures !file.Object? ==> config == Constants.DefaultConfig
      ensures MonitoringFor(probe)
      ensures lastState == Some(Sort(draw.active)) && icon == (if draw.active != [] then ConnectedIcon else DisconnectedIcon)
      ensures listing.now - draw.now > CacheTtl ==> cacheActive == listing.active && cacheConfigs == listing.configs
      ensures !(listing.now - draw.now > CacheTtl) ==> cacheActive == draw.active && cacheConfigs == draw.configs
      ensures ShowsMenu(menu, cacheActive, cacheConfigs)
      ensures log == [MonitoringStarted(monitorMode, pollInterval)] + RedrawEvents(draw.active)
                     + (if listing.now - draw.now > CacheTtl then [StatusQuery, ConfigsQuery] else [])
      ensures autoconnectPending == Truthy(Get(config, "autoconnect", Bool(false)))
      ensures !quitting
    {
      var loaded := Config.LoadConfig(file);
      config := loaded;
      autoconnectPending := Truthy(Get(loaded, "autoconnect", Bool(false)));
      cacheActive := [];
      cacheConfigs := [];
      cacheTime := 0.0;
      lastState := None;
      icon := DisconnectedIcon;
      menu := [];
      netlink := null;
      pollRunning := false;
      pollInterval := Null;
      monitorMode := Polling;
      quitting := false;
      log := [];
      new;
      SetupMonitoring(probe);
      FirstDraw(draw, listing);
      Appended([MonitoringStarted(monitorMode, pollInterval)], RedrawEvents(draw.active),
               if listing.now - draw.now > CacheTtl then [StatusQuery, ConfigsQuery] else []);
    }

    /** The first draw at start-up: the icon from a forced refresh, then the
        menu, whose own cache check refetches only when `listing` comes more
        than the cache's lifetime after that refresh. */
    method FirstDraw(draw: Refresh, listing: Refresh)
      modifies this
      ensures lastState == Some(Sort(draw.active)) && icon == (if draw.active != [] then ConnectedIcon else DisconnectedIcon)
      ensures listing.now - draw.now > CacheTtl ==> cacheActive == listing.active && cacheConfigs == listing.configs
      ensures !(listing.now - draw.now > CacheTtl) ==> cacheActive == draw.active && cacheConfigs == draw.configs
      ensures ShowsMenu(menu, cacheActive, cacheConfigs)
      ensures log == old(log) + (RedrawEvents(draw.active)
                                 + (if listing.now - draw.now > CacheTtl then [StatusQuery, ConfigsQuery] else []))
      ensures config == old(config) && MonitoringKept()
    {
      UpdateIcon(draw);
      BuildMenu(listing);
      Appended(old(log), RedrawEvents(draw.active),
               if listing.now - draw.now > CacheTtl then [StatusQuery, ConfigsQuery] else []);
    }

    /** `_setup_monitoring`: a netlink monitor for the modes that allow it,
        used when available; the poll timer always runs. */
    method SetupMonitoring(probe: bool)
      modifies this
      ensures var mode := Get(config, "monitor_mode", Str("auto"));
        && ((mode == Str("auto") || mode == Str("netlink")) ==>
              netlink != null && fresh(netlink) && netlink.available == probe && netlink.running)
        && (!(mode == Str("auto") || mode == Str("netlink")) ==> netlink == null)
      ensures MonitoringFor(probe)
      ensures log == old(log) + [MonitoringStarted(monitorMode, pollInterval)]
      ensures config == old(config) && CacheKept() && ViewKept()
      ensures autoconnectPending == old(autoconnectPending) && quitting == old(quitting)
    {
      var mode := Get(config, "monitor_mode", Str("auto"));
      var interval := Get(config, "poll_interval", Int(3000));
      var monitor: Monitor.NetlinkMonitor? := null;
      var useNetlink := false;
      if mode == Str("auto") || mode == Str("netlink") {
        monitor := new Monitor.NetlinkMonitor(probe);
        useNetlink := monitor.available;
      }
      var kind := if useNetlink then NetlinkEvents else Polling;
      netlink, pollInterval, pollRunning, monitorMode := monitor, interval, true, kind;
      log := log + [MonitoringStarted(kind, interval)];
    }

    /** `_restart_monitoring`: the old monitor stops, then monitoring is set up afresh. */
    method RestartMonitoring(probe: bool)
      modifies this, netlink
      ensures old(netlink) != null ==> !old(netlink).running
      ensures MonitoringFor(probe)
      ensures log == old(log) + [MonitoringStopped, MonitoringStarted(monitorMode, pollInterval)]
      ensures config == old(config) && CacheKept() && ViewKept()
      ensures autoconnectPending == old(autoconnectPending) && quitting == old(quitting)
    {
      if netlink != null {
        netlink.Stop();
      }
      pollRunning := false;
      log := log + [MonitoringStopped];
      SetupMonitoring(probe);
    }

    /** `_refresh_cache`: both lists are fetched again when forced or when the
        cache is strictly older than its lifetime; otherwise nothing changes. */
    method RefreshCache(force: bool, r: Refresh)
      modifies this
      ensures force || r.now - old(cacheTime) > CacheTtl ==>
        cacheActive == r.active && cacheConfigs == r.configs && cacheTime == r.now
        && log == old(log) + [StatusQuery, ConfigsQuery]
      ensures !(force || r.now - old(cacheTime) > CacheTtl) ==> CacheKept() && log == old(log)
      ensures config == old(config) && ViewKept() && MonitoringKept()
    {
      if force || r.now - cacheTime > CacheTtl {
        cacheActive := r.active;
        cacheConfigs := r.configs;
        cacheTime := r.now;
        log := log + [StatusQuery, ConfigsQuery];
      }
    }

    /** `update_icon`: a forced refresh, then the icon and tooltip for the
        fresh active list, which becomes the last drawn state. */
    method UpdateIcon(r: Refresh)
      modifies this
      ensures DrawnFrom(r)
      ensures log == old(log) + RedrawEvents(r.active)
      ensures config == old(config) && menu == old(menu) && MonitoringKept()
    {
      var state := Sort(r.active);
      RefreshCache(true, r);
      lastState := Some(state);
      icon := if r.active != [] then ConnectedIcon else DisconnectedIcon;
      log := log + [TooltipShown(r.active)];
    }

    /** `on_refresh`: a forced refresh followed by a redraw, which refreshes again. */
    method OnRefresh(first: Refresh, redraw: Refresh)
      modifies this
      ensures log == old(log) + ([StatusQuery, ConfigsQuery] + RedrawEvents(redraw.active))
      ensures DrawnFrom(redraw)
      ensures config == old(config) && menu == old(menu) && MonitoringKept()
    {
      RefreshCache(true, first);
      UpdateIcon(redraw);
      Appended(old(log), [StatusQuery, ConfigsQuery], RedrawEvents(redraw.active));
    }

    /** `poll_check`: a redraw exactly when the sorted active list differs
        from the last drawn one, so a mere reordering is no change; else the
        tooltip is refreshed while something is active. */
    method PollCheck(active: seq<string>, redraw: Refresh) returns (result: PollResult)
      modifies this
      ensures result == Redrawn <==> old(lastState) != Some(Sort(active))
      ensures result == TooltipRefreshed <==> old(lastState) == Some(Sort(active)) && active != []
      ensures result == Redrawn ==>
        log == old(log) + ([StatusQuery] + RedrawEvents(redraw.active))
        && DrawnFrom(redraw)
      ensures result == TooltipRefreshed ==> log == old(log) + [StatusQuery, TooltipShown(active)] && CacheKept() && ViewKept()
      ensures result == Unchanged ==> log == old(log) + [StatusQuery] && CacheKept() && ViewKept()
      ensures config == old(config) && menu == old(menu) && MonitoringKept()
    {
      log := log + [StatusQuery];
      var state := Sort(active);
      if lastState != Some(state) {
        lastState := Some(state);
        UpdateIcon(redraw);
        Appended(old(log), [StatusQuery], RedrawEvents(redraw.active));
        result := Redrawn;
      } else if active != [] {
        log := log + [TooltipShown(active)];
        result := TooltipRefreshed;
      } else {
        result := Unchanged;
      }
    }

    /** `show_notification`. */
    method Notify(n: Notification)
      modifies this
      ensures log == old(log) + Announce(config, n)
      ensures config == old(config) && CacheKept() && ViewKept() && MonitoringKept()
    {
      if Truthy(Get(config, "notifications", Bool(true))) {
        log := log + [Notified(n)];
      }
    }

    /** `on_connect(name)`: see `ConnectEvents` and the lemmas about it. */
    method OnConnect(name: string, active: seq<string>, outcome: ActionOutcome, after: Refresh)
      modifies this
      ensures log == old(log) + ConnectEvents(old(config), name, active, outcome, after.active)
      ensures config == (if name !in active && !outcome.cancelled && outcome.success
                         then old(config)["last_connection" := Str(name)] else old(config))
      ensures name in active || outcome.cancelled ==> CacheKept() && ViewKept()
      ensures name !in active && !outcome.cancelled ==> DrawnFrom(after)
      ensures menu == old(menu) && MonitoringKept()
    {
      log := log + [StatusQuery];
      ghost var events := [StatusQuery];
      if name in active {
        var notice := Notification(Title, "Already connected to " + name, false);
        Notify(notice);
        Appended(old(log), events, Announce(config, notice));
        return;
      }
      DisconnectEach(active);
      Appended(old(log), events, Teardown(active));
      events := events + Teardown(active);
      var call := ConnectCall(name, Get(config, "require_password", Bool(true)));
      Appended(old(log), events, [call]);
      events := events + [call];
      log := log + [call];
      if outcome.cancelled {
        return;
      }
      Notify(ConnectNotice(name, outcome));
      Appended(old(log), events, Announce(config, ConnectNotice(name, outcome)));
      events := events + Announce(config, ConnectNotice(name, outcome));
      if outcome.success {
        config := config["last_connection" := Str(name)];
        Appended(old(log), events, [Saved(config)]);
        events := events + [Saved(config)];
        log := log + [Saved(config)];
      }
      UpdateIcon(after);
      Appended(old(log), events, RedrawEvents(after.active));
    }

    /** The loop of `on_connect` that brings every active interface down,
        in order and without a password. */
    method DisconnectEach(active: seq<string>)
      modifies this
      ensures log == old(log) + Teardown(active)
      ensures config == old(config) && CacheKept() && ViewKept() && MonitoringKept()
    {
      ghost var calls: seq<Event> := [];
      for i := 0 to |active|
        invariant calls == Teardown(active[..i])
        invariant log == old(log) + calls
        invariant config == old(config) && CacheKept() && ViewKept() && MonitoringKept()
      {
        var call := DisconnectCall(active[i], Bool(false));
        TeardownStep(active, i);
        Appended(old(log), calls, [call]);
        calls := calls + [call];
        log := log + [call];
      }
      assert active[..|active|] == active;
    }

    /** `on_disconnect(name)`. */
    method OnDisconnect(name: string, outcome: ActionOutcome, after: Refresh)
      modifies this
      ensures log == old(log) + DisconnectEvents(old(config), name, outcome, after.active)
      ensures config == old(config)
      ensures outcome.cancelled ==> CacheKept() && ViewKept()
      ensures !outcome.cancelled ==> DrawnFrom(after)
      ensures menu == old(menu) && MonitoringKept()
    {
      var call := DisconnectCall(name, Get(config, "require_password", Bool(true)));
      log := log + [call];
      if outcome.cancelled {
        return;
      }
      Notify(DisconnectNotice(name, outcome));
      Appended(old(log), [call], Announce(config, DisconnectNotice(name, outcome)));
      ghost var events := [call] + Announce(config, DisconnectNotice(name, outcome));
      UpdateIcon(after);
      Appended(old(log), events, RedrawEvents(after.active));
    }

    /** `_auto_connect`: nothing while something is up or nothing is
        configured; otherwise a connect to the chosen configuration. */
    method AutoConnect(active: seq<string>, configs: seq<string>, active2: seq<string>, outcome: ActionOutcome, after: Refresh)
      returns (action: TrayAction)
      modifies this
      ensures action == (if active != [] then NoAction
                         else match ChooseConfig(old(config), configs)
                              case None => NoAction
                              case Some(name) => ConnectTo(name))
      ensures log == old(log) + AutoConnectEvents(old(config), active, configs, active2, outcome, after.active)
      ensures config == (if action.ConnectTo? && action.name !in active2 && !outcome.cancelled && outcome.success
                         then old(config)["last_connection" := Str(action.name)] else old(config))
      ensures action.ConnectTo? && action.name !in active2 && !outcome.cancelled ==> DrawnFrom(after)
      ensures !(action.ConnectTo? && action.name !in active2 && !outcome.cancelled) ==> CacheKept() && ViewKept()
      ensures menu == old(menu) && MonitoringKept()
    {
      if active != [] {
        log := log + [StatusQuery];
        return NoAction;
      }
      log := log + [StatusQuery, ConfigsQuery];
      var choice := ChooseConfig(config, configs);
      if choice.None? {
        return NoAction;
      }
      var name := choice.value;
      ghost var connect := ConnectEvents(config, name, active2, outcome, after.active);
      OnConnect(name, active2, outcome, after);
      Appended(old(log), [StatusQuery, ConfigsQuery], connect);
      action := ConnectTo(name);
    }

    /** `on_tray_click`: a left click brings the first active interface down,
        or, when none is up, brings the chosen configuration up. */
    method OnTrayClick(trigger: bool, active: seq<string>, configs: seq<string>, active2: seq<string>,
                       outcome: ActionOutcome, after: Refresh)
      returns (action: TrayAction)
      modifies this
      ensures action == (if !trigger then NoAction
                         else if active != [] then DisconnectFrom(active[0])
                         else match ChooseConfig(old(config), configs)
                              case None => NoAction
                              case Some(name) => ConnectTo(name))
      ensures log == old(log) + TrayClickEvents(old(config), trigger, active, configs, active2, outcome, after.active)
      ensures config == (if action.ConnectTo? && action.name !in active2 && !outcome.cancelled && outcome.success
                         then old(config)["last_connection" := Str(action.name)] else old(config))
      ensures (action.DisconnectFrom? || (action.ConnectTo? && action.name !in active2)) && !outcome.cancelled
              ==> DrawnFrom(after)
      ensures !((action.DisconnectFrom? || (action.ConnectTo? && action.name !in active2)) && !outcome.cancelled)
              ==> CacheKept() && ViewKept()
      ensures menu == old(menu) && MonitoringKept()
    {
      if !trigger {
        return NoAction;
      }
      if active != [] {
        log := log + [StatusQuery];
        OnDisconnect(active[0], outcome, after);
        Appended(old(log), [StatusQuery], DisconnectEvents(old(config), active[0], outcome, after.active));
        return DisconnectFrom(active[0]);
      }
      action := AutoConnect(active, configs, active2, outcome, after);
    }

    /** `build_menu`: a refresh unless the cache is fresh, then the menu for
        the cached lists. */
    method BuildMenu(r: Refresh)
      modifies this
      ensures r.now - old(cacheTime) > CacheTtl ==>
        cacheActive == r.active && cacheConfigs == r.configs && cacheTime == r.now
        && log == old(log) + [StatusQuery, ConfigsQuery]
      ensures !(r.now - old(cacheTime) > CacheTtl) ==> CacheKept() && log == old(log)
      ensures ShowsMenu(menu, cacheActive, cacheConfigs)
      ensures config == old(config) && lastState == old(lastState) && icon == old(icon) && MonitoringKept()
    {
      RefreshCache(false, r);
      var entries := ConfigEntries(cacheConfigs, cacheActive);
      menu := Menu(cacheActive, entries);
      assert menu[2..|menu| - 6] == entries;
    }

    /** `on_settings`: an accepted dialog replaces and saves the
        configuration, restarts the monitoring when its mode or interval
        changed, and redraws; a rejected one changes nothing here (a press
        of the dialog's Refresh button is a separate `OnRefresh`). */
    method OnSettings(accepted: bool, newConfig: map<string, Value>, probe: bool, after: Refresh)
      modifies this, netlink
      ensures !accepted ==> config == old(config) && log == old(log) && CacheKept() && ViewKept() && MonitoringKept()
      ensures accepted ==> config == newConfig
      ensures accepted && NeedsRestart(old(config), newConfig) ==>
        log == old(log) + ([Saved(newConfig), MonitoringStopped, MonitoringStarted(monitorMode, pollInterval)]
                           + RedrawEvents(after.active))
        && (old(netlink) != null ==> !old(netlink).running)
        && MonitoringFor(probe)
      ensures accepted && !NeedsRestart(old(config), newConfig) ==>
        log == old(log) + ([Saved(newConfig)] + RedrawEvents(after.active)) && MonitoringKept()
      ensures accepted ==> DrawnFrom(after)
    {
      if !accepted {
        return;
      }
      var before := config;
      config := newConfig;
      log := log + [Saved(config)];
      ghost var events := [Saved(config)];
      if NeedsRestart(before, config) {
        RestartMonitoring(probe);
        Appended(old(log), events, [MonitoringStopped, MonitoringStarted(monitorMode, pollInterval)]);
        events := events + [MonitoringStopped, MonitoringStarted(monitorMode, pollInterval)];
      }
      UpdateIcon(after);
      Appended(old(log), events, RedrawEvents(after.active));
    }

    /** `quit`: the monitor and the poll timer stop, then the application. */
    method Quit()
      modifies this, netlink
      ensures quitting && !pollRunning
      ensures old(netlink) != null ==> !old(netlink).running
      ensures log == old(log) + [MonitoringStopped]
      ensures config == old(config) && CacheKept() && ViewKept()
    {
      if netlink != null {
        netlink.Stop();
      }
      pollRunning := false;
      log := log + [MonitoringStopped];
      quitting := true;
    }
  }

  lemma TeardownStep(active: seq<string>, i: nat)
    requires i < |active|
    ensures Teardown(active[..i + 1]) == Teardown(active[..i]) + [DisconnectCall(active[i], Bool(false))]
  {
    var a := Teardown(active[..i + 1]);
    var b := Teardown(active[..i]) + [DisconnectCall(active[i], Bool(false))];
    assert |a| == |b|;
    forall k | 0 <= k < |a| ensures a[k] == b[k] {
      if k < i {
        assert active[..i + 1][k] == active[..i][k];
      }
    }
  }
}
