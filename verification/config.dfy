/**
 * src/wgtray/config.py: the user configuration (the built-in defaults
 * updated by the user's JSON object) and the per-user autostart entry.
 */
module Config {
  import opened Wrappers
  import opened Values
  import Constants

  /** What reading the user's configuration file gives. */
  datatype UserFile =
    | Missing                                  // the file does not exist
    | Unreadable                               // an I/O error or invalid JSON
    | Object(items: seq<(string, Value)>)      // the JSON object's members, in order

  /** `dict.update(items)` on `base`: each member sets its key, later ones winning. */
  function Updated(base: map<string, Value>, items: seq<(string, Value)>): (r: map<string, Value>)
    ensures base.Keys <= r.Keys
  {
    if items == [] then base
    else Updated(base, items[..|items| - 1])[items[|items| - 1].0 := items[|items| - 1].1]
  }

  /** The keys of a member list. */
  function ItemKeys(items: seq<(string, Value)>): set<string> {
    set i | 0 <= i < |items| :: items[i].0
  }

  /** `load_config`: a copy of the defaults, updated in place by the user's object. */
  method LoadConfig(file: UserFile) returns (config: map<string, Value>)
    ensures file.Object? ==> config == Updated(Constants.DefaultConfig, file.items)
    ensures !file.Object? ==> config == Constants.DefaultConfig
  {
    config := Constants.DefaultConfig;
    if file.Object? {
      var items := file.items;
      for n := 0 to |items|
        invariant config == Updated(Constants.DefaultConfig, items[..n])
      {
        assert items[..n + 1][..n] == items[..n];
        var (key, value) := items[n];
        config := config[key := value];
      }
      assert items[..|items|] == items;
    }
  }

  /** The keys after an update: the base's and the members'. */
  lemma {:induction false} UpdatedKeys(base: map<string, Value>, items: seq<(string, Value)>)
    ensures Updated(base, items).Keys == base.Keys + ItemKeys(items)
  {
    if items != [] {
      var init := items[..|items| - 1];
      UpdatedKeys(base, init);
      assert ItemKeys(items) == ItemKeys(init) + {items[|items| - 1].0} by {
        assert forall i :: 0 <= i < |init| ==> init[i] == items[i];
      }
    }
  }

  /** A key no member names keeps the base's value. */
  lemma {:induction false} UpdatedKeepsBase(base: map<string, Value>, items: seq<(string, Value)>, k: string)
    requires k in base && k !in ItemKeys(items)
    ensures k in Updated(base, items) && Updated(base, items)[k] == base[k]
  {
    if items != [] {
      var init := items[..|items| - 1];
      assert ItemKeys(init) <= ItemKeys(items) by {
        assert forall i :: 0 <= i < |init| ==> init[i] == items[i];
      }
      assert items[|items| - 1].0 in ItemKeys(items);
      UpdatedKeepsBase(base, init, k);
    }
  }

  /** A member's value survives unless a later member names the same key. */
  lemma {:induction false} UpdatedLastWins(base: map<string, Value>, items: seq<(string, Value)>, i: nat)
    requires i < |items|
    requires forall j :: i < j < |items| ==> items[j].0 != items[i].0
    ensures items[i].0 in Updated(base, items) && Updated(base, items)[items[i].0] == items[i].1
  {
    var init := items[..|items| - 1];
    if i < |items| - 1 {
      assert init[i] == items[i];
      assert forall j :: i < j < |init| ==> init[j] == items[j];
      UpdatedLastWins(base, init, i);
    }
  }

  /** Every default key is in the loaded configuration, whatever the file holds. */
  lemma LoadedHasDefaults(items: seq<(string, Value)>)
    ensures Constants.ConfigKeys <= Updated(Constants.DefaultConfig, items).Keys
  {
    Constants.DefaultConfigKeys();
    UpdatedKeys(Constants.DefaultConfig, items);
  }

  /** The per-user autostart entry and the system desktop file it copies. */
  class Autostart {
    /** The system desktop file's contents, if it exists. */
    var systemDesktop: Option<string>
    /** The per-user autostart file's contents, if it exists. */
    var autostartFile: Option<string>

    constructor(systemDesktop: Option<string>, autostartFile: Option<string>)
      ensures this.systemDesktop == systemDesktop && this.autostartFile == autostartFile
    {
      this.systemDesktop := systemDesktop;
      this.autostartFile := autostartFile;
    }

    /** `is_autostart_enabled`: whether the autostart file exists. */
    predicate IsEnabled()
      reads this
    {
      autostartFile.Some?
    }

    /** `set_autostart`: enabling copies the system file only when there is
        one and no autostart file yet; disabling removes the autostart file. */
    method SetAutostart(enabled: bool)
      modifies this
      ensures systemDesktop == old(systemDesktop)
      ensures enabled && old(autostartFile).Some? ==> autostartFile == old(autostartFile)
      ensures enabled && old(autostartFile).None? ==> autostartFile == old(systemDesktop)
      ensures !enabled ==> autostartFile.None?
      ensures IsEnabled() <==> (enabled && (old(IsEnabled()) || old(systemDesktop).Some?))
    {
      if enabled {
        if systemDesktop.Some? && autostartFile.None? {
          autostartFile := systemDesktop;
        }
      } else {
        if autostartFile.Some? {
          autostartFile := None;
        }
      }
    }
  }
}
