# wgtray in Dafny

wgtray is a WireGuard tray client for Linux. It shows whether a WireGuard
interface is up, and it brings interfaces up and down through helper scripts
that run under pkexec. This project models the decision logic underneath the
Qt code and proves properties of it:

- **The script gateway** (`WireGuard`, from `src/wgtray/wireguard.py`):
  - how the fate of a helper-script run becomes `run_script`'s `(output, code)` pair;
  - how that pair is read as an interface list or as a three-field statistics line;
  - how byte counts and handshake ages are rendered.
- **Hooks** (`Hooks`, from `src/wgtray/hooks.py`): where the hook for an interface and event lives, when it counts, and how its run maps to `(ok, error)`.
- **Constants** (`Constants`, from `src/wgtray/constants.py`): the `key=value` constants file, the `EVENTS` list and the built-in icon and default-configuration tables.
- **Configuration** (`Config`, from `src/wgtray/config.py`): the defaults updated by the user's JSON object, and the per-user autostart file.
- **The netlink monitor** (`Monitor`, from `src/wgtray/monitor.py`): the message filter, the watcher loop over the batches it receives, and its `running`/`available` flags.
- **The tray** (`Tray`, from `src/wgtray/app.py`): class `WgTray`.
  - Its fields: the two-second cache, the last drawn (sorted) state, the icon, the menu, the monitoring set-up and the configuration.
  - Its methods update those fields in place, as the source does.
  - Every effect on the outside world is appended to a ghost `log`. The effects are list queries, connect and disconnect calls, saves, notifications, tooltip redraws and monitoring starts and stops.
  - Functions such as `ConnectEvents` state the whole log an operation produces, and the lemmas state what the design promises about those logs. Examples: one connection at a time; only a successful connect saves; a cancelled action is silent; auto-connect never replaces a live connection.
- **The legacy tray** (`Legacy`, from `src/wgtray.py`): the single-file revision. Its gateway code is the same as the package's, so it reuses the `WireGuard` members. Its own tray class is modelled separately.

Several things are inputs rather than effects the model performs:

- Each script run, the process behind a hook and the filesystem facts.
- The clock.
- The netlink probe.
- The outcome of a connect or disconnect.

`app.py` calls `connect(name, require_password=...)` and `disconnect(name, require_password=...)` and unpacks a `(success, hook_error, cancelled)` triple. The `wireguard.py` of this revision of the source defines `connect(name)` and `disconnect(name=None)`, which return a bool. The two files come from different revisions. The model follows `app.py`'s use for the tray: the triple is the input `ActionOutcome`. It follows `wireguard.py` for the gateway functions themselves: `Succeeded`.

Paths in the table are relative to the repository root.

## Model

| member | source | states |
|---|---|---|
| WireGuard.RunScript | src/wgtray/wireguard.py:11-27 | Nothing inside the `try` propagates. The output is None exactly for a missing script. A timeout gives `"Timeout"` and an exception gives its text, both with code 1. A finished run gives its return code and its standard output with surrounding whitespace removed (`Text.Strip`). The legacy `run_script` (src/wgtray.py:57-74) is the same code |
| WireGuard.CommandLine | src/wgtray/wireguard.py:18-19 | The argument vector is `pkexec` plus the script path when elevated, else the path alone. The arguments follow, unchanged and in order |
| WireGuard.DisconnectCommand | src/wgtray/wireguard.py:106-111 | Always disconnect.sh under pkexec. The name is passed exactly when it is truthy, so None and "" both select the disconnect-all form. The legacy `disconnect` (src/wgtray.py:98-105) builds the same two forms |
| WireGuard.Succeeded | src/wgtray/wireguard.py:100-112 | `connect`/`disconnect` succeed exactly when the script ran and exited with 0, as in the legacy gateway (src/wgtray.py:91-105) |
| WireGuard.ParseList | src/wgtray/wireguard.py:30-43 | The list is empty for a non-zero code or a missing or empty output. Every name in it is non-empty and free of newlines. The legacy list readers (src/wgtray.py:77-88) are the same |
| WireGuard.GetActiveConnections | src/wgtray/wireguard.py:30-35 | No interfaces unless status.sh exited with 0. Every name is a non-empty line of its output |
| WireGuard.GetConfigs | src/wgtray/wireguard.py:38-43 | No configurations unless list-configs.sh exited with 0. Every name is a non-empty line of its output |
| WireGuard.ListRoundTrip | src/wgtray/wireguard.py:30-43 | A script printing one name per line, with a final newline, yields exactly those names in order, for both lists, when every name is non-empty and holds no whitespace (as interface and configuration names do) |
| WireGuard.BlankLinesDropped | src/wgtray/wireguard.py:32-34 | For output whose first and last lines are non-blank at the outer ends, both lists are exactly the non-empty lines, in order: blank lines in between are dropped and nothing else is |
| WireGuard.ParseStats | src/wgtray/wireguard.py:46-68 | A result exactly when the run succeeded with non-empty output holding at least three integer fields. rx and tx are the first two. The handshake is present exactly when the third is positive |
| WireGuard.GetConnectionStats | src/wgtray/wireguard.py:46-68 | Statistics only from a stats.sh run that exited with 0 |
| WireGuard.StatsRoundTrip | src/wgtray/wireguard.py:54-65 | Parsing the line stats.sh prints gives back its three counters, with a non-positive handshake read as "none" |
| WireGuard.StatsExtraFieldsIgnored | src/wgtray/wireguard.py:59-65 | Fields after the third do not change the parsed statistics |
| WireGuard.FormatBytes | src/wgtray/wireguard.py:71-80 | Exact "N B" text exactly below 1024. Otherwise KB, MB or GB, whose amount times the unit size is the count and is at least 1 (below 1024 for KB and MB), with one decimal (two for GB) |
| WireGuard.FormatBytesExact | src/wgtray/wireguard.py:73-74 | Below 1024 the text ends in " B" and the rest reads back as the count |
| WireGuard.FormatHandshake | src/wgtray/wireguard.py:83-97 | "never" exactly for a missing or zero timestamp. Every other text ends in " ago" |
| WireGuard.FormatHandshakeMeaning | src/wgtray/wireguard.py:83-97 | "never" exactly for a missing or zero timestamp. Otherwise the text reads back as the age rounded down in the largest unit (s, m, h, d) the age reaches |
| Text.Strip | src/wgtray/wireguard.py:23 | `strip()` leaves no whitespace at either end and never lengthens the text |
| Text.Split | src/wgtray/wireguard.py:34 | `split("\n")` gives one piece more than there are separators, none holding a separator, and joining them gives the text back |
| Text.SplitJoin | src/wgtray/wireguard.py:34 | Splitting a joined list of separator-free pieces gives the pieces back |
| Text.NonEmptyAppend | src/wgtray/wireguard.py:34 | `[x for x in xs if x]` distributes over concatenation, drops an empty element and keeps a non-empty one. So every non-empty element is kept, in order |
| Text.Tokens | src/wgtray/wireguard.py:59 | `split()` gives non-empty pieces without whitespace, and at least one for a text starting with a non-space |
| Text.TokensCons | src/wgtray/wireguard.py:59 | A token followed by whitespace or by the end of the text is the first piece of `split()` |
| Text.TokensSkipSpace | src/wgtray/wireguard.py:59 | Leading whitespace of any kind and length (spaces, tabs, newlines) is skipped. With `TokensCons` and the empty case this fixes `split()` on every text, so three fields separated by tabs or runs of spaces are three fields |
| Text.TokensJoin | src/wgtray/wireguard.py:59 | A space-joined line of tokens splits back into those tokens |
| Text.ParseIntOfString | src/wgtray/wireguard.py:62-64 | `int(str(n)) == n` |
| Hooks.GetHookPath | src/wgtray/hooks.py:10-18 | A path exactly for an existing regular file with the owner-execute bit set. The path is `<hooks dir>/<interface>.<event>`. A `stat` error that `exists()` does not swallow (such as a hooks directory the user may not search) propagates |
| Hooks.RunHook | src/wgtray/hooks.py:21-65 | The lookup's `stat` error propagates, exactly as raised, since the lookup runs before the `try`; nothing else does. Success exactly when there is no hook or it exited with 0, and success exactly when there is no error. A failed exit always carries a non-empty message, which is the stripped stderr whenever that is non-blank. Timeout, denial and other exceptions give their fixed texts or the exception text |
| Hooks.ExitCodeReadBack | src/wgtray/hooks.py:46-49 | With empty stderr the message is "Exit code " followed by text that reads back as the exit code |
| Hooks.HookEnvironment | src/wgtray/hooks.py:43 | The hook's environment is the current one plus exactly the two hook variables, set to the interface and the event, with every other variable unchanged |
| Hooks.HookNameInjective | src/wgtray/hooks.py:12 | For dot-free event names, the hook file name determines the interface and the event |
| Constants.SplitAtFirst | src/wgtray/constants.py:17 | `split("=", 1)` gives the text before the first `=` (free of `=`) and everything after it |
| Constants.ParseConstLine | src/wgtray/constants.py:15-17 | A line gives an entry exactly when, stripped, it is non-empty, not a `#` comment and holds an `=`. The stripped line is then key + "=" + value, with the key free of `=` |
| Constants.LoadConstants | src/wgtray/constants.py:12-19 | The loop over the lines builds the constants map |
| Constants.ConstLineRoundTrip | src/wgtray/constants.py:15-18 | A written `key=value` line reads back as that key and value, even when the value holds `=` |
| Constants.ConfMapKeys | src/wgtray/constants.py:14-18 | A key is present exactly when some line sets it |
| Constants.ConfMapLastWins | src/wgtray/constants.py:18 | A key's value comes from the last line that sets it |
| Constants.IgnoredLine | src/wgtray/constants.py:16 | Blank and comment lines leave the constants unchanged |
| Constants.SplitEvents | src/wgtray/constants.py:27 | `EVENTS` has one entry more than its value has commas, and no entry holds a comma |
| Constants.ReadSettings | src/wgtray/constants.py:24-27 | The settings exist exactly when all four keys are present. The version, the hooks directory and the sudoers directory are the values of `VERSION`, `HOOKS_DIR` and `SUDOERS_DIR`, and the events joined by commas are `EVENTS` |
| Constants.DefaultConfigKeys | src/wgtray/constants.py:60-69 | The default configuration has exactly the eight configuration keys |
| Config.LoadConfig | src/wgtray/config.py:8-18 | The defaults updated by the user's object, or the defaults alone when the file is missing or unreadable |
| Config.Updated | src/wgtray/config.py:15 | `dict.update` never removes a key of the base |
| Config.UpdatedKeys | src/wgtray/config.py:15 | After the update the keys are the defaults' plus the object's |
| Config.UpdatedKeepsBase | src/wgtray/config.py:10-15 | A default the object does not name keeps its value |
| Config.UpdatedLastWins | src/wgtray/config.py:15 | A member's value survives unless a later member names the same key |
| Config.LoadedHasDefaults | src/wgtray/config.py:8-18 | Every configuration key is present after loading, whatever the file holds |
| Config.Autostart.SetAutostart | src/wgtray/config.py:28-42 | The system file never changes, and an existing autostart file is never overwritten. Enabling copies the system file only when there is no autostart file. Disabling removes it. Afterwards autostart is enabled exactly when it was asked for and there was a file to keep or copy |
| Config.Autostart.IsEnabled | src/wgtray/config.py:28-30 | Autostart is enabled exactly when the per-user autostart file exists |
| Monitor.Lookup | src/wgtray/monitor.py:41-43 | `dict(pairs).get(key)`: absent exactly when no pair has the key. Otherwise the value comes from the last pair with that key: no later pair names it |
| Monitor.Classify | src/wgtray/monitor.py:38-51 | Only a link event (RTM_NEWLINK or RTM_DELLINK) emits or raises; every other message is skipped |
| Monitor.ClassifyMeaning | src/wgtray/monitor.py:38-51 | Only a link event that concerns a WireGuard link (kind "wireguard" or a name starting with "wg") emits. Every well-formed such message emits, and a message without an event never does |
| Monitor.NoChangeNoEmit | src/wgtray/monitor.py:38-51 | A batch without a WireGuard link change emits nothing |
| Monitor.EveryChangeEmits | src/wgtray/monitor.py:38-51 | A well-formed batch of WireGuard link changes emits once per message, with no deduplication |
| Monitor.BatchEmits | src/wgtray/monitor.py:37-51 | A batch never emits more signals than it has messages |
| Monitor.Emitted | src/wgtray/monitor.py:35-54 | The signals of the receive loop: each batch's emits in turn, none for a failed receive |
| Monitor.NetlinkMonitor.constructor | src/wgtray/monitor.py:12-26 | A new monitor is running, and available exactly when the probe succeeded |
| Monitor.NetlinkMonitor.Run | src/wgtray/monitor.py:28-54 | The number of `changed` signals is the per-batch emits summed over the batches, and none when netlink is unavailable or the monitor is stopped |
| Monitor.NetlinkMonitor.Stop | src/wgtray/monitor.py:56-58 | The running flag is cleared and availability is kept |
| Ordering.SortSortsAndPermutes | src/wgtray/app.py:134 | `sorted()` gives an ascending list with the same elements |
| Ordering.SortSameIffPermutation | src/wgtray/app.py:134-135 | Two active lists give the same sorted state exactly when they hold the same names equally often, so reordering alone is no change |
| Ordering.SortedUnique | src/wgtray/app.py:134 | Two ascending lists with the same elements are equal |
| Tray.WithHookWarning | src/wgtray/app.py:267-270 | The message grows exactly when a hook error is truthy. It then is the base message, a newline, the warning sign, " Hook failed: " and the hook error's text |
| Tray.Teardown | src/wgtray/app.py:255-256 | One password-less disconnect per active interface, in list order |
| Tray.ConnectEvents | src/wgtray/app.py:249-276 | Every `on_connect` starts with the status query. For an interface already up it is at most that query and a notice |
| Tray.DisconnectEvents | src/wgtray/app.py:278-295 | Every `on_disconnect` starts with the disconnect call, using `require_password` (default true). It is that call alone exactly when the disconnect was cancelled |
| Tray.AlreadyActiveIsQuiet | src/wgtray/app.py:250-253 | Connecting to an interface already up makes no connect or disconnect call and saves nothing |
| Tray.ConnectEventsSplit | src/wgtray/app.py:255-276 | Otherwise `on_connect` is its gateway calls followed by a tail without any gateway call |
| Tray.OneConnectionAtATime | src/wgtray/app.py:250-260 | The status query comes first. Every active interface is then brought down in order without a password, never the one asked for, before the single connect call. That connect call is the last gateway call |
| Tray.OnlySuccessSaves | src/wgtray/app.py:262-276 | The configuration is saved exactly when the connect was needed, not cancelled and succeeded. The saved configuration has `last_connection` set to the interface |
| Tray.CancelledIsSilent | src/wgtray/app.py:262-295 | A cancelled connect or disconnect shows no notification, saves nothing and does not redraw |
| Tray.ChooseConfig | src/wgtray/app.py:122-130 | None exactly when nothing is configured, else a listed configuration. It is a non-empty listed default, else a non-empty listed last connection when no default is set. When the preferred name (`default_connection or last_connection`) is not a listed configuration, it is the first configuration; so a set but unlisted default never falls back to the last connection |
| Tray.AutoConnectEvents | src/wgtray/app.py:116-130 | Every `_auto_connect` starts with the status query, and it is that query alone exactly when something is up |
| Tray.ActiveConnectionsAreNotReplaced | src/wgtray/app.py:116-120 | Auto-connect with something up only queries the status. A click then only ever disconnects the first active interface |
| Tray.RestartOnlyOnMonitorChange | src/wgtray/app.py:306-315 | Unchanged mode and interval never restart the monitoring. A changed mode name always does, and so does a changed integer interval |
| Tray.NeedsRestart | src/wgtray/app.py:313-314 | The restart condition: the mode or the interval differs by Python's `!=` |
| Tray.UsesNetlink | src/wgtray/app.py:99-103 | Netlink is used exactly for the modes auto and netlink when the probe succeeded |
| Tray.GetIcon | src/wgtray/app.py:35-52 | A chosen icon file is always one that exists. For a known name and a table theme (after "auto" is resolved to the detected theme), the icon is that table entry whenever its file exists |
| Tray.GetIconFallbacks | src/wgtray/app.py:35-52 | An unknown name draws the "disconnected" icon, and an unknown theme draws the dark variant. A missing light file falls back to the dark one. Any icon drawn is a file from the icon table |
| Tray.EntryFor | src/wgtray/app.py:203-209 | A configuration's entry acts on that configuration: it disconnects exactly when the configuration is active and connects exactly when it is not |
| Tray.ConfigEntries | src/wgtray/app.py:202-214 | One entry per configuration, in order, or the single "No configurations found" entry |
| Tray.WgTray.constructor | src/wgtray/app.py:55-89 | The loaded configuration, then the monitoring for it. The icon and last state come from the first draw's refresh. The menu lists the cached configurations by `EntryFor`; its own cache check refetches only when more than two seconds passed since that refresh. The log is the monitoring start, the redraw and that refetch when it happens. An auto-connect is scheduled exactly when `autoconnect` is truthy |
| Tray.WgTray.FirstDraw | src/wgtray/app.py:84-85 | `update_icon()` then `build_menu()`: the icon and state from a forced refresh, then the menu for the cache, refetched only when the second clock reading is more than two seconds later |
| Tray.WgTray.SetupMonitoring | src/wgtray/app.py:91-114 | A fresh netlink monitor exactly for the modes auto and netlink. Netlink is used exactly when it is also available. The poll timer always runs, with `poll_interval` (default 3000) |
| Tray.WgTray.RestartMonitoring | src/wgtray/app.py:319-324 | The old monitor is stopped and the poll timer restarted, then the monitoring is set up afresh |
| Tray.WgTray.RefreshCache | src/wgtray/app.py:144-149 | Both lists are fetched and stamped with `now` exactly when forced or strictly older than two seconds. Otherwise nothing changes |
| Tray.WgTray.UpdateIcon | src/wgtray/app.py:174-187 | A forced refresh. The last drawn state becomes the sorted active list, the icon shows whether anything is active, and the tooltip is redrawn |
| Tray.WgTray.PollCheck | src/wgtray/app.py:132-139 | A redraw exactly when the sorted list differs from the last drawn state. A tooltip refresh exactly when it does not and something is active. Nothing else |
| Tray.WgTray.Notify | src/wgtray/app.py:151-155 | A notification is shown unless `notifications` is falsy (it defaults to shown) |
| Tray.WgTray.OnConnect | src/wgtray/app.py:249-276 | The log grows by exactly `ConnectEvents`. `last_connection` changes only after a needed, uncancelled, successful connect. The cache and view are untouched when nothing was attempted or the connect was cancelled |
| Tray.WgTray.DisconnectEach | src/wgtray/app.py:255-256 | The log grows by exactly one password-less disconnect per active interface, in order. Nothing else changes |
| Tray.WgTray.OnDisconnect | src/wgtray/app.py:278-295 | The log grows by exactly `DisconnectEvents`. The configuration is unchanged, and only an uncancelled disconnect redraws |
| Tray.WgTray.OnRefresh | src/wgtray/app.py:297-299 | A forced refresh, then a redraw from the second refresh's lists |
| Tray.WgTray.AutoConnect | src/wgtray/app.py:116-130 | No action while something is up or nothing is configured. Otherwise a connect to `ChooseConfig`'s choice, and the log grows by exactly `AutoConnectEvents`. `last_connection` changes only after a needed, uncancelled, successful connect; the cache and view are redrawn exactly when a connect was attempted and not cancelled |
| Tray.WgTray.OnTrayClick | src/wgtray/app.py:234-247 | Anything but a left click does nothing. With something up it disconnects the first active interface. Otherwise it connects to `ChooseConfig`'s choice. The configuration changes only after a successful connect, and the cache and view are redrawn exactly when an attempted action was not cancelled |
| Tray.WgTray.BuildMenu | src/wgtray/app.py:189-232 | A refresh, with its two queries and a new timestamp, exactly when the cache is stale; otherwise the cache and log are untouched. The menu is the status line, one entry per cached configuration (in order, acting by `EntryFor`) or the placeholder, and the fixed actions |
| Tray.WgTray.OnSettings | src/wgtray/app.py:301-317 | Once the dialog has closed, a rejected dialog changes nothing; a press of its Refresh button before that (app.py:303) is a separate `OnRefresh`. An accepted one replaces and saves the configuration. It restarts the monitoring exactly when the mode or interval differs by Python's `!=`, with the mode and interval the new configuration gives, then redraws |
| Tray.WgTray.Quit | src/wgtray/app.py:337-342 | The monitor is stopped, the poll timer is stopped and the tray quits |
| Legacy.GetIcon | src/wgtray.py:49-54 | A chosen icon is a file from the table that exists |
| Legacy.GetIconCases | src/wgtray.py:49-54 | An unknown name or a missing file gives the empty icon. A known name with its file present gives that file |
| Legacy.Teardown | src/wgtray.py:219-220 | One disconnect run per active interface, in order |
| Legacy.ConnectCalls | src/wgtray.py:211-227 | The whole call log of the legacy `on_connect`: the status run and a notice for an interface already up; otherwise the status run, the teardown, the connect run, its notice and the redraw. `Legacy.AlreadyActiveIsQuiet` and `Legacy.OneConnectionAtATime` state its properties |
| Legacy.AlreadyActiveIsQuiet | src/wgtray.py:212-216 | Connecting to an interface already up only queries the status and shows a notice: no privileged run and no redraw |
| Legacy.OneConnectionAtATime | src/wgtray.py:218-227 | Every active interface is disconnected by name in order, before the one connect run. That run is the last privileged run, and the tray then always redraws |
| Legacy.EntryFor | src/wgtray.py:176-182 | A configuration's entry disconnects exactly when it is active, else connects, with the matching icon |
| Legacy.MenuShape | src/wgtray.py:160-209 | The status line comes first, then the configuration entries. The "Disconnect" (all) entry is present exactly when something is active. The menu ends with "Open config folder", "Refresh", a separator and "Quit" |
| Legacy.Entries | src/wgtray.py:175-187 | One entry per configuration, in order, or the placeholder |
| Legacy.WgTray.constructor | src/wgtray.py:113-136 | The icon and tooltip come from the first draw's forced refresh. The cache holds that refresh's lists and time, or the menu's own refresh when more than two seconds have passed. The menu is exactly `Menu` over the cached lists (`ShowsMenu`): the status line, one `EntryFor` entry per configuration or the placeholder, "Disconnect" exactly when something is active, the folder, refresh and quit actions, and nothing else. The log is one or two refreshes accordingly |
| Legacy.WgTray.RefreshCache | src/wgtray.py:138-143 | Both lists are fetched and stamped exactly when forced or strictly older than two seconds. Otherwise nothing changes |
| Legacy.WgTray.UpdateIcon | src/wgtray.py:149-158 | A forced refresh (both lists and the time), then the icon and tooltip for the fresh active list; the menu is untouched |
| Legacy.WgTray.BuildMenu | src/wgtray.py:160-209 | A refresh, with its two list runs, exactly when the cache is strictly older than two seconds; otherwise the cache and log are untouched. The menu is then exactly `Menu` over the cached lists and their `EntryFor` entries (`ShowsMenu`), and the icon and tooltip are kept |
| Legacy.WgTray.Notify | src/wgtray.py:145-147 | Every notification is shown |
| Legacy.WgTray.OnConnect | src/wgtray.py:211-227 | The log grows by exactly `ConnectCalls`, with success taken from connect.sh's exit code. For an interface already up the cache and view are kept; otherwise the cache, icon and tooltip are redrawn from the refresh after the connect. The menu is untouched |
| Legacy.WgTray.OnDisconnect | src/wgtray.py:229-234 | The log is the disconnect run by name, a success or failure notice and the redraw's two list runs. The cache, icon and tooltip come from that refresh; the menu is untouched |
| Legacy.WgTray.OnDisconnectAll | src/wgtray.py:236-241 | The log is the disconnect run without a name, a success or failure notice and the redraw's two list runs. The cache, icon and tooltip come from that refresh; the menu is untouched |
| Legacy.WgTray.OnRefresh | src/wgtray.py:243-246 | A forced refresh and a redraw: the icon and tooltip come from the redraw's lists. The menu refreshes a third time only when more than two seconds have passed, and the cache then holds that refresh, else the redraw's. The menu is exactly `Menu` over the cache and its `EntryFor` entries (`ShowsMenu`) |

## Left out

- Qt itself is not modelled: widgets, the tray and window icons as images, menu actions wired to callbacks, `QTimer` scheduling (the 1 s auto-connect delay, the 300 ms delay of `on_network_change`, the poll period) and the settings dialog of `src/wgtray/settings.py`. The scheduled auto-connect is a flag, and the dialog's result is an input of `OnSettings`. The dialog's Refresh button (src/wgtray/app.py:303) calls `on_refresh` while the dialog is open, so it may refresh the cache and redraw even when the dialog is then rejected; the model takes that as an `OnRefresh` before `OnSettings`.
- Processes, the filesystem and the clock are inputs. This covers `subprocess.run`, `pkexec` and its prompt, `xdg-open`, the `chmod` of `check_config_dir_permissions`, `open_config_folder`, `find_libdir`/`find_icondir`, `ensure_hooks_dir`, `mkdir` and `shutil.copy`.
- Tray.WgTray.RefreshCache: the class receives the lists `get_active_connections` and `get_configs` returned, not the script runs behind them. `WireGuard.ParseList` and its round-trip lemma relate the two.
- Tray.WgTray.UpdateIcon: the tooltip text and its per-interface statistics queries (`_update_tooltip`) are one `TooltipShown` event. Statistics parsing and formatting are modelled in `WireGuard`. `setWindowIcon` and `detect_system_theme`'s palette read are left out; the detected theme is a parameter of `GetIcon`.
- The authentication gate and hook sequencing inside connect and disconnect are not modelled, because no file of this revision of the source implements them. Their `(success, hook_error, cancelled)` result is the input `ActionOutcome`.
- WireGuard.FormatBytes: the decimal digits of the KB/MB/GB text are not rendered. The result keeps the amount, the unit and the number of decimals.
- Text.ParseInt accepts ASCII digits only. Python's `int()` also accepts other Unicode decimal digits. Since Python 3.11, `int()` and `str()` also raise `ValueError` beyond 4300 digits (`sys.int_max_str_digits`); `get_connection_stats` would then return None. The model has no such limit, so `Text.ParseIntOfString` holds for every integer.
- Values.PyEqual compares floats, lists and objects (all `Other`) only by truthiness, and never equates `Other` with `Int`. So `NeedsRestart` may differ from Python for settings holding such values.
- Config.LoadConfig: JSON parsing and the file's contents other than an object are not modelled. A non-object document would make `config.update` raise or misbehave in Python. A file that is not valid UTF-8 raises `UnicodeDecodeError`, which the `except` clause does not catch, so `load_config` propagates it; `Unreadable` stands only for the caught I/O and JSON errors. `save_config`'s file writing is the `Saved` event.
- WireGuard.RunScript: `script_path.exists()` runs before the `try` (src/wgtray/wireguard.py:13-14, src/wgtray.py:59-61). Up to Python 3.13 it re-raises any `stat` error other than not-found, such as a `PermissionError` for a library directory the user may not search. That error reaches every caller of `run_script`. `ScriptRun` has no case for it, so the gateway functions and the legacy tray never model that exception.
- Constants.ReadSettings: `HOOKS_DIR` and `SUDOERS_DIR` are kept as written. `pathlib.Path`'s normalisation of them (repeated and trailing slashes, `.` parts) is not modelled.
- WireGuard.CommandLine and Hooks.HookPath join a directory and a name with "/" as text. pathlib's `/` operator also collapses repeated slashes and lets an absolute right-hand part replace the directory; neither is modelled.
- Tray.WgTray.SetupMonitoring: a `poll_interval` in the user's file that is not an integer makes `QTimer.start` raise `TypeError`. The model stores any value as given and does not model that failure.
- Monitor.NetlinkMonitor.Run: the thread, the pyroute2 socket, the 1 s receive timeout, the 0.5 s back-off and `wait(2000)` are left out. The batches received are the input, and an exception stands for a failed receive or a malformed attribute. A `stop` from another thread while a batch is being handled is concurrency and is not modelled.
- Tray.WgTray.OnTrayClick runs the same steps as `AutoConnect` when nothing is up, because `on_tray_click` repeats `_auto_connect`'s code there. It therefore shares that method.
- Logging (`src/wgtray/logger.py`), the entry points (`src/wgtray/__main__.py`, `src/wgtray/__init__.py`), `on_about` and the legacy `connect`'s and `disconnect`'s prints of script output (src/wgtray.py:93-94, 103-104) produce no modelled effect.
