/**
 * The single-file tray of src/wgtray.py, the revision before the package
 * split. Its script gateway (`run_script`, the two list readers, `connect`
 * and `disconnect`) is the one in the WireGuard module: the code is the same.
 * What differs is the tray: a plain two-second cache, one connection at a
 * time without authentication or hooks, a "Disconnect" entry for all
 * interfaces, and an icon table looked up by name.
 *
 * As in the Tray module, the clock and the lists a refresh reads are inputs
 * (`Tray.Refresh`), a connect's or disconnect's fate is its script run, and
 * what the tray does to the outside world is recorded in the ghost `log`.
 */
module Legacy {
  import opened Wrappers
  import opened Text
  import opened WireGuard
  import Tray

  /** What the legacy tray does to the outside world. */
  datatype Call =
    | Ran(inv: Invocation)                 // one helper-script run
    | Shown(notice: Tray.Notification)     // a desktop notification

  /** The icon files, by icon name. */
  const Icons: map<string, string> := map[
    "tray-disconnected" := "wgtray.svg",
    "tray-connected" := "wgtray-connected.svg",
    "status-disconnected" := "wgtray-status-disconnected.svg",
    "status-connected" := "wgtray-status-connected.svg",
    "vpn-inactive" := "wgtray-vpn-inactive.svg",
    "vpn-active" := "wgtray-vpn-active.svg",
    "disconnect" := "wgtray-disconnect.svg",
    "folder" := "wgtray-folder.svg",
    "refresh" := "wgtray-refresh.svg",
    "quit" := "wgtray-quit.svg"
  ]

  /** `get_icon(name)`: the icon file when the name is known and its file is
      present in the icon directory; `None` for the empty icon. */
  function GetIcon(name: string, present: set<string>): (icon: Option<string>)
    ensures icon.Some? ==> icon.value in present && icon.value in Icons.Values
  {
    if name in Icons && Icons[name] in present then Some(Icons[name]) else None
  }

  /** An unknown name or a missing file gives the empty icon; a known name
      whose file is present gives that file. */
  lemma GetIconCases(name: string, present: set<string>)
    ensures name !in Icons ==> GetIcon(name, present).None?
    ensures name in Icons ==> (GetIcon(name, present).Some? <==> Icons[name] in present)
    ensures GetIcon(name, present).Some? ==> GetIcon(name, present) == Some(Icons[name])
  {
  }

  /** The two lists `_refresh_cache` fetches, in order. */
  const RefreshCalls: seq<Call> := [Ran(StatusCommand), Ran(ListConfigsCommand)]

  /** The tray icon's name for the active list. */
  function TrayIconName(active: seq<string>): string {
    if active != [] then "tray-connected" else "tray-disconnected"
  }

  function Tooltip(active: seq<string>): string {
    "WireGuard: " + if active != [] then Join(active, ", ") else "Not connected"
  }

  /** The disconnect run for each interface, in order. */
  function Teardown(active: seq<string>): (r: seq<Call>)
    ensures |r| == |active|
    ensures forall i :: 0 <= i < |r| ==> r[i] == Ran(DisconnectCommand(Some(active[i])))
  {
    if active == [] then [] else [Ran(DisconnectCommand(Some(active[0])))] + Teardown(active[1..])
  }

  function ConnectNotice(name: string, ok: bool): Tray.Notification {
    if ok then Tray.Notification(Tray.Title, "Connected to " + name, false)
    else Tray.Notification(Tray.Title, "Failed to connect to " + name, true)
  }

  function DisconnectNotice(name: string, ok: bool): Tray.Notification {
    if ok then Tray.Notification(Tray.Title, "Disconnected from " + name, false)
    else Tray.Notification(Tray.Title, "Failed to disconnect from " + name, true)
  }

  function DisconnectAllNotice(ok: bool): Tray.Notification {
    if ok then Tray.Notification(Tray.Title, "All connections closed", false)
    else Tray.Notification(Tray.Title, "Failed to disconnect", true)
  }

  /** Everything `on_connect(name)` does, given the active list it reads and
      whether connect.sh succeeded. */
  function ConnectCalls(name: string, active: seq<string>, ok: bool): seq<Call> {
    if name in active then [Ran(StatusCommand), Shown(Tray.Notification(Tray.Title, "Already connected to " + name, false))]
    else [Ran(StatusCommand)] + Teardown(active) + [Ran(ConnectCommand(name)), Shown(ConnectNotice(name, ok))] + RefreshCalls
  }

  /** Whether a call runs a script under pkexec: connect.sh or disconnect.sh. */
  predicate Privileged(c: Call) {
    c.Ran? && c.inv.pkexec
  }

  /** Asking for an interface that is already up runs nothing under pkexec
      and does not redraw: only the status query and a notice. */
  lemma AlreadyActiveIsQuiet(name: string, active: seq<string>, ok: bool)
    requires name in active
    ensures var cs := ConnectCalls(name, active, ok);
      |cs| == 2 && cs[0] == Ran(StatusCommand) && cs[1].Shown? && !cs[1].notice.error
  {
  }

  /** One connection at a time: every active interface is brought down, in
      order, before the connect run, which is the last privileged run; the
      tray then always redraws. A listed interface (never empty) is named in
      its disconnect run. */
  lemma {:induction false} OneConnectionAtATime(name: string, active: seq<string>, ok: bool)
    requires name !in active
    ensures var cs := ConnectCalls(name, active, ok);
      && |cs| == |active| + 5
      && cs[0] == Ran(StatusCommand)
      && (forall i :: 0 <= i < |active| ==> cs[i + 1] == Ran(DisconnectCommand(Some(active[i]))))
      && (forall i :: 0 <= i < |active| && active[i] != "" ==> cs[i + 1].inv.args == [active[i]])
      && cs[|active| + 1] == Ran(ConnectCommand(name))
      && (forall i :: |active| + 1 < i < |cs| ==> !Privileged(cs[i]))
      && cs[|cs| - 2..] == RefreshCalls
  {
    var down := Teardown(active);
    var head := [Ran(StatusCommand)] + down;
    var tail := [Ran(ConnectCommand(name)), Shown(ConnectNotice(name, ok))] + RefreshCalls;
    var cs := ConnectCalls(name, active, ok);
    assert cs == head + tail;
    assert |head| == |active| + 1;
    forall i | 0 <= i < |active| ensures cs[i + 1] == Ran(DisconnectCommand(Some(active[i]))) {
      assert cs[i + 1] == head[i + 1] == down[i];
    }
    forall i | 0 <= i < |active| && active[i] != "" ensures cs[i + 1].inv.args == [active[i]] {
      assert cs[i + 1] == Ran(DisconnectCommand(Some(active[i])));
    }
    assert cs[|active| + 1] == tail[0];
    forall i | |active| + 1 < i < |cs| ensures !Privileged(cs[i]) {
      assert cs[i] == tail[i - |head|];
    }
    assert cs[|cs| - 2..] == tail[2..];
  }

  /** The menu entries: the disabled status line, the configurations, and the actions. */
  datatype Item =
    | Status(icon: string, text: string)
    | Separator
    | ConfigItem(icon: string, name: string, action: Action)
    | NoConfigurations
    | DisconnectAll
    | OpenFolder
    | RefreshItem
    | QuitItem

  /** What clicking a configuration entry does. */
  datatype Action = Connect(target: string) | Disconnect(target: string)

  function StatusItem(active: seq<string>): Item {
    if active != [] then Status("status-connected", "Connected: " + Join(active, ", "))
    else Status("status-disconnected", "Not connected")
  }

  /** The entry for one configuration: an active one disconnects, any other connects. */
  function EntryFor(name: string, active: seq<string>): (e: Item)
    ensures e.ConfigItem? && e.name == name && e.action.target == name
    ensures e.action.Disconnect? <==> name in active
    ensures e.icon == (if name in active then "vpn-active" else "vpn-inactive")
  {
    if name in active then ConfigItem("vpn-active", name, Disconnect(name))
    else ConfigItem("vpn-inactive", name, Connect(name))
  }

  /** The whole menu around the configuration entries. */
  function Menu(active: seq<string>, entries: seq<Item>): seq<Item> {
    [StatusItem(active), Separator] + entries + [Separator]
    + (if active != [] then [DisconnectAll, Separator] else [])
    + [OpenFolder, RefreshItem, Separator, QuitItem]
  }

  /** The shape of the menu: the status line, the entries from the third
      position on, the "Disconnect" (all) entry exactly when something is
      active, and the folder, refresh and quit actions at the end. */
  lemma MenuShape(active: seq<string>, entries: seq<Item>)
    requires forall i :: 0 <= i < |entries| ==> entries[i].ConfigItem? || entries[i].NoConfigurations?
    ensures var m := Menu(active, entries);
      && |m| == |entries| + (if active != [] then 9 else 7)
      && m[0] == StatusItem(active)
      && (forall i :: 0 <= i < |entries| ==> m[i + 2] == entries[i])
      && (DisconnectAll in m <==> active != [])
      && m[|m| - 4..] == [OpenFolder, RefreshItem, Separator, QuitItem]
  {
    var m := Menu(active, entries);
    if active != [] {
      assert m[|entries| + 3] == DisconnectAll;
    } else {
      forall i | 0 <= i < |m| ensures m[i] != DisconnectAll {
        if 2 <= i < |entries| + 2 {
          assert m[i] == entries[i - 2];
        }
      }
    }
  }

  /** The configuration entries of `build_menu`, one per configuration in
      order; the disabled placeholder when there is none. */
  method Entries(configs: seq<string>, active: seq<string>) returns (entries: seq<Item>)
    ensures configs == [] ==> entries == [NoConfigurations]
    ensures configs != [] ==> |entries| == |configs| && forall i :: 0 <= i < |configs| ==> entries[i] == EntryFor(configs[i], active)
  {
    if configs == [] {
      return [NoConfigurations];
    }
    entries := [];
    for i := 0 to |configs|
      invariant |entries| == i
      invariant forall j :: 0 <= j < i ==> entries[j] == EntryFor(configs[j], active)
    {
      var name := configs[i];
      if name in active {
        entries := entries + [ConfigItem("vpn-active", name, Disconnect(name))];
      } else {
        entries := entries + [ConfigItem("vpn-inactive", name, Connect(name))];
      }
    }
  }

  class WgTray {
    var cacheActive: seq<string>
    var cacheConfigs: seq<string>
    var cacheTime: real
    /** The name of the icon the tray shows, and its tooltip. */
    var trayIcon: string
    var tooltip: string
    var menu: seq<Item>
    ghost var log: seq<Call>

    twostate predicate CacheKept()
      reads this
    {
      cacheActive == old(cacheActive) && cacheConfigs == old(cacheConfigs) && cacheTime == old(cacheTime)
    }

    twostate predicate ViewKept()
      reads this
    {
      trayIcon == old(trayIcon) && tooltip == old(tooltip) && menu == old(menu)
    }

    /** The cache holds the lists of `r`, stamped with its time. */
    predicate CachedFrom(r: Tray.Refresh)
      reads this
    {
      cacheActive == r.active && cacheConfigs == r.configs && cacheTime == r.now
    }

    /** What `update_icon` leaves: the cache from `r`, and the icon and tooltip for its active list. */
    predicate DrawnFrom(r: Tray.Refresh)
      reads this
    {
      CachedFrom(r) && trayIcon == TrayIconName(r.active) && tooltip == Tooltip(r.active)
    }

    /** What `build_menu` leaves: exactly `Menu` around the entries, which are
        one per cached configuration by `EntryFor` (or the placeholder); so the
        status line, the fixed actions, and "Disconnect" (all) exactly when
        something is active, and nothing else. */
    predicate ShowsMenu()
      reads this
    {
      var n := if cacheConfigs == [] then 1 else |cacheConfigs|;
      && |menu| == n + (if cacheActive != [] then 9 else 7)
      && menu == Menu(cacheActive, menu[2..n + 2])
      && menu[0] == StatusItem(cacheActive)
      && (DisconnectAll in menu <==> cacheActive != [])
      && (cacheConfigs == [] ==> menu[2] == NoConfigurations)
      && (forall i :: 0 <= i < |cacheConfigs| ==> menu[i + 2] == EntryFor(cacheConfigs[i], cacheActive))
    }

    /** Start-up: an empty cache stamped at time 0, a first draw and a first menu. */
    constructor(start: Tray.Refresh, menuOpen: Tray.Refresh)
      ensures menuOpen.now - start.now > Tray.CacheTtl ==> CachedFrom(menuOpen)
      ensures !(menuOpen.now - start.now > Tray.CacheTtl) ==> CachedFrom(start)
      ensures trayIcon == TrayIconName(start.active) && tooltip == Tooltip(start.active)
      ensures ShowsMenu()
      ensures log == RefreshCalls + (if menuOpen.now - start.now > Tray.CacheTtl then RefreshCalls else [])
    {
      cacheActive := [];
      cacheConfigs := [];
      cacheTime := 0.0;
      trayIcon := "";
      tooltip := "";
      menu := [];
      log := [];
      new;
      UpdateIcon(start);
      BuildMenu(menuOpen);
    }

    /** `_refresh_cache`: both lists are fetched again when forced or when the
        cache is strictly older than two seconds; otherwise nothing changes. */
    method RefreshCache(force: bool, r: Tray.Refresh)
      modifies this
      ensures force || r.now - old(cacheTime) > Tray.CacheTtl ==> CachedFrom(r) && log == old(log) + RefreshCalls
      ensures !(force || r.now - old(cacheTime) > Tray.CacheTtl) ==> CacheKept() && log == old(log)
      ensures ViewKept()
    {
      if force || r.now - cacheTime > Tray.CacheTtl {
        cacheActive := r.active;
        cacheConfigs := r.configs;
        cacheTime := r.now;
        log := log + RefreshCalls;
      }
    }

    /** `update_icon`: a forced refresh, then the icon and tooltip for the fresh list. */
    method UpdateIcon(r: Tray.Refresh)
      modifies this
      ensures DrawnFrom(r)
      ensures log == old(log) + RefreshCalls
      ensures menu == old(menu)
    {
      RefreshCache(true, r);
      trayIcon := TrayIconName(r.active);
      tooltip := Tooltip(r.active);
    }

    /** `build_menu`: a refresh unless the cache is fresh, then the menu for
        the cached lists. */
    method BuildMenu(r: Tray.Refresh)
      modifies this
      ensures r.now - old(cacheTime) > Tray.CacheTtl ==> CachedFrom(r) && log == old(log) + RefreshCalls
      ensures !(r.now - old(cacheTime) > Tray.CacheTtl) ==> CacheKept() && log == old(log)
      ensures ShowsMenu()
      ensures trayIcon == old(trayIcon) && tooltip == old(tooltip)
    {
      RefreshCache(false, r);
      var entries := Entries(cacheConfigs, cacheActive);
      menu := Menu(cacheActive, entries);
      MenuShape(cacheActive, entries);
      assert menu[2..|entries| + 2] == entries;
    }

    /** `show_notification`: always shown. */
    method Notify(n: Tray.Notification)
      modifies this
      ensures log == old(log) + [Shown(n)]
      ensures CacheKept() && ViewKept()
    {
      log := log + [Shown(n)];
    }

    /** `on_connect(name)`: see `ConnectCalls` and the lemmas about it. */
    method OnConnect(name: string, active: seq<string>, run: ScriptRun, after: Tray.Refresh)
      modifies this
      ensures log == old(log) + ConnectCalls(name, active, Succeeded(run))
      ensures name in active ==> CacheKept() && ViewKept()
      ensures name !in active ==> DrawnFrom(after)
      ensures menu == old(menu)
    {
      log := log + [Ran(StatusCommand)];
      if name in active {
        Notify(Tray.Notification(Tray.Title, "Already connected to " + name, false));
        return;
      }
      ghost var calls := [Ran(StatusCommand)];
      for i := 0 to |active|
        invariant calls == [Ran(StatusCommand)] + Teardown(active[..i])
        invariant log == old(log) + calls
        invariant CacheKept() && ViewKept()
      {
        var call := Ran(DisconnectCommand(Some(active[i])));
        TeardownStep(active, i);
        Tray.Appended(old(log), calls, [call]);
        calls := calls + [call];
        log := log + [call];
      }
      assert active[..|active|] == active;
      var ok := Succeeded(run);
      var tail := [Ran(ConnectCommand(name)), Shown(ConnectNotice(name, ok))];
      log := log + tail;
      Tray.Appended(old(log), calls, tail);
      UpdateIcon(after);
      Tray.Appended(old(log), calls + tail, RefreshCalls);
    }

    /** `on_disconnect(name)`. */
    method OnDisconnect(name: string, run: ScriptRun, after: Tray.Refresh)
      modifies this
      ensures log == old(log) + [Ran(DisconnectCommand(Some(name))), Shown(DisconnectNotice(name, Succeeded(run)))] + RefreshCalls
      ensures DrawnFrom(after)
      ensures menu == old(menu)
    {
      var notice := DisconnectNotice(name, Succeeded(run));
      log := log + [Ran(DisconnectCommand(Some(name)))];
      Notify(notice);
      assert log == old(log) + [Ran(DisconnectCommand(Some(name))), Shown(notice)];
      UpdateIcon(after);
    }

    /** `on_disconnect_all`: disconnect.sh without a name. */
    method OnDisconnectAll(run: ScriptRun, after: Tray.Refresh)
      modifies this
      ensures log == old(log) + [Ran(DisconnectCommand(None)), Shown(DisconnectAllNotice(Succeeded(run)))] + RefreshCalls
      ensures DrawnFrom(after)
      ensures menu == old(menu)
    {
      var notice := DisconnectAllNotice(Succeeded(run));
      log := log + [Ran(DisconnectCommand(None))];
      Notify(notice);
      assert log == old(log) + [Ran(DisconnectCommand(None)), Shown(notice)];
      UpdateIcon(after);
    }

    /** `on_refresh`: a forced refresh, a redraw, and a menu rebuilt from the
        redraw's lists unless two seconds have passed since. */
    method OnRefresh(first: Tray.Refresh, redraw: Tray.Refresh, menuOpen: Tray.Refresh)
      modifies this
      ensures log == old(log) + RefreshCalls + RefreshCalls
                    + (if menuOpen.now - redraw.now > Tray.CacheTtl then RefreshCalls else [])
      ensures trayIcon == TrayIconName(redraw.active) && tooltip == Tooltip(redraw.active)
      ensures menuOpen.now - redraw.now > Tray.CacheTtl ==> CachedFrom(menuOpen)
      ensures !(menuOpen.now - redraw.now > Tray.CacheTtl) ==> CachedFrom(redraw)
      ensures ShowsMenu()
    {
      RefreshCache(true, first);
      UpdateIcon(redraw);
      BuildMenu(menuOpen);
    }
  }

  lemma TeardownStep(active: seq<string>, i: nat)
    requires i < |active|
    ensures Teardown(active[..i + 1]) == Teardown(active[..i]) + [Ran(DisconnectCommand(Some(active[i])))]
  {
    var a := Teardown(active[..i + 1]);
    var b := Teardown(active[..i]) + [Ran(DisconnectCommand(Some(active[i])))];
    forall k | 0 <= k < |a| ensures a[k] == b[k] {
      if k < i {
        assert active[..i + 1][k] == active[..i][k];
      }
    }
  }
}
