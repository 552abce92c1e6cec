/**
  The connection screens: choosing a saved database (with deletion from the
  list) and registering a new one, and what each leaves in the configuration,
  the open connection and the colour of the database name on screen.
*/
module Screens {
  import opened Wrappers
  import opened Text
  import opened Terminal
  import opened Config
  import Menus

  /** How the saved-database screen ends. */
  datatype SavedOutcome =
    | Connected(db: DbInfo)
    | NoSavedDatabases   // the list was empty on entry
    | Emptied            // the last entry was deleted
    | Cancelled          // Escape
    | StillOpen          // the keys ran out

  /**
    The saved-database list after a key sequence, and how the screen ended.
    Arrows move the cursor round the list; Enter connects to the highlighted
    entry when the database opens it (`opens`: the paths that open), and stays
    on the screen otherwise; 'd' deletes the highlighted path from the saved
    list, re-reads it, leaves if it is empty and otherwise clamps the cursor
    to `min(selected, len - 1)`; Escape leaves.
  */
  function SavedRun(saved: seq<DbInfo>, sel: nat, keys: seq<Key>, opens: set<string>): (seq<DbInfo>, SavedOutcome)
    requires sel < |saved|
    decreases |keys|
  {
    if |keys| == 0 then (saved, StillOpen)
    else
      match keys[0]
      case Up => SavedRun(saved, Cycle(sel, Up, |saved|), keys[1..], opens)
      case Down => SavedRun(saved, Cycle(sel, Down, |saved|), keys[1..], opens)
      case Enter =>
        if saved[sel].path in opens then (saved, Connected(saved[sel]))
        else SavedRun(saved, sel, keys[1..], opens)
      case Esc => (saved, Cancelled)
      case Char(c) =>
        if c == 'd' then
          var rest := Removed(saved, saved[sel].path);
          if |rest| == 0 then (rest, Emptied)
          else SavedRun(rest, Min(sel, |rest| - 1), keys[1..], opens)
        else SavedRun(saved, sel, keys[1..], opens)
      case _ => SavedRun(saved, sel, keys[1..], opens)
  }

  /** The saved-database screen from its start: the list as loaded, the cursor on the first entry. */
  function SavedScreen(saved: seq<DbInfo>, keys: seq<Key>, opens: set<string>): (seq<DbInfo>, SavedOutcome)
  {
    if |saved| == 0 then (saved, NoSavedDatabases) else SavedRun(saved, 0, keys, opens)
  }

  /** When paths are distinct, deleting the entry at `sel` removes just that entry. */
  lemma {:induction false} RemovedAt(saved: seq<DbInfo>, sel: nat)
    requires UniquePaths(saved) && sel < |saved|
    ensures Removed(saved, saved[sel].path) == saved[..sel] + saved[sel + 1..]
    decreases sel
  {
    var p := saved[sel].path;
    var tail := saved[1..];
    if sel == 0 {
      forall i | 0 <= i < |tail|
        ensures tail[i].path != p
      {
        assert tail[i] == saved[i + 1];
      }
      WithoutAbsentPath(tail, p);
      assert saved[..0] + saved[1..] == tail;
    } else {
      assert UniquePaths(tail) by {
        forall i, j | 0 <= i < j < |tail|
          ensures tail[i].path != tail[j].path
        {
          assert tail[i] == saved[i + 1] && tail[j] == saved[j + 1];
        }
      }
      assert tail[sel - 1] == saved[sel];
      RemovedAt(tail, sel - 1);
      assert saved[0].path != p;
      assert tail[..sel - 1] == saved[1..sel] && tail[sel..] == saved[sel + 1..];
      assert saved[..sel] == [saved[0]] + saved[1..sel];
    }
  }

  /**
    When paths are distinct, the clamped cursor after a delete lands on the
    entry that slid into the deleted one's place, or on the new last entry
    when the deleted one was last.
  */
  lemma DeleteClamp(saved: seq<DbInfo>, sel: nat)
    requires UniquePaths(saved) && sel < |saved|
    ensures var rest := Removed(saved, saved[sel].path);
      && |rest| == |saved| - 1
      && (|rest| > 0 ==> Min(sel, |rest| - 1) < |rest|)
      && (sel < |rest| ==> rest[Min(sel, |rest| - 1)] == saved[sel + 1])
      && (0 < sel == |rest| ==> rest[Min(sel, |rest| - 1)] == saved[sel - 1])
  {
    RemovedAt(saved, sel);
    var rest := saved[..sel] + saved[sel + 1..];
    if sel < |rest| {
      assert rest[sel] == saved[sel + 1];
    }
    if 0 < sel == |rest| {
      assert rest[sel - 1] == saved[sel - 1];
    }
  }

  /** Deleting never adds an entry: every entry of the list after a delete was in it before. */
  lemma RemovedIsSublist(saved: seq<DbInfo>, path: string)
    ensures forall d :: d in Removed(saved, path) ==> d in saved
  {
    WithoutPathMembers(saved, path);
  }

  /**
    Whatever the keys, the saved-database screen only ever removes entries,
    keeps paths distinct when they were, and connects only to an entry of the
    list that the database opens.
  */
  lemma {:induction false} SavedRunSpec(saved: seq<DbInfo>, sel: nat, keys: seq<Key>, opens: set<string>)
    requires sel < |saved|
    ensures var (final, out) := SavedRun(saved, sel, keys, opens);
      && (forall d :: d in final ==> d in saved)
      && |final| <= |saved|
      && (UniquePaths(saved) ==> UniquePaths(final))
      && (out.Connected? ==> out.db in final && out.db.path in opens)
      && (out.Emptied? ==> final == [])
      && (!out.Emptied? ==> |final| > 0)
    decreases |keys|
  {
    if |keys| > 0 {
      match keys[0]
      case Up => SavedRunSpec(saved, Cycle(sel, Up, |saved|), keys[1..], opens);
      case Down => SavedRunSpec(saved, Cycle(sel, Down, |saved|), keys[1..], opens);
      case Enter =>
        if saved[sel].path !in opens {
          SavedRunSpec(saved, sel, keys[1..], opens);
        }
      case Esc =>
      case Char(c) =>
        if c == 'd' {
          var rest := Removed(saved, saved[sel].path);
          RemovedIsSublist(saved, saved[sel].path);
          if UniquePaths(saved) {
            WithoutPathUnique(saved, saved[sel].path);
          }
          if |rest| > 0 {
            SavedRunSpec(rest, Min(sel, |rest| - 1), keys[1..], opens);
          }
        } else {
          SavedRunSpec(saved, sel, keys[1..], opens);
        }
      case _ => SavedRunSpec(saved, sel, keys[1..], opens);
    }
  }

  /** How the new-database form ends. */
  datatype NewOutcome =
    | NoPath
    | MissingFile
    | NoColor        // 'q' in the colour picker
    | ChoosingColor  // the keys ran out in the colour picker
    | ConnectFailed
    | Registered(info: DbInfo)

  /** The entry the new-database form registers: stripped path and name, the file's stem when no name is given. */
  function NewEntry(pathInput: string, nameInput: string, fileStem: string, color: int): DbInfo
  {
    DbInfo(Strip(pathInput), if Strip(nameInput) == "" then fileStem else Strip(nameInput), Some(color))
  }

  /**
    The connection screens with what they change: the configuration, the
    database connection (path and name, or none) and the colour used for the
    database name (`ui.db_color`, 3 = green until a database says otherwise).
  */
  class ConnectionScreens {
    const config: ConfigManager
    const variant: Variant
    var connection: Option<(string, string)>
    var dbColor: int

    /**
      The start of either program: when the last connected database is
      recorded and its file exists (`existing`), the program connects to it
      (the connection holds only when the database opens it, `opens`) and
      takes its colour, 3 when it has none, whether or not the connection
      succeeded; otherwise nothing is connected and the colour is 3.
    */
    constructor (config: ConfigManager, variant: Variant, existing: set<string>, opens: set<string>)
      ensures this.config == config && this.variant == variant
      ensures config.lastConnected.Some? && config.lastConnected.value.path in existing ==>
        && connection == (if config.lastConnected.value.path in opens
                          then Some((config.lastConnected.value.path, config.lastConnected.value.name))
                          else None)
        && dbColor == config.lastConnected.value.color.GetOr(3)
      ensures !(config.lastConnected.Some? && config.lastConnected.value.path in existing) ==>
        connection == None && dbColor == 3
    {
      this.config := config;
      this.variant := variant;
      connection := None;
      dbColor := 3;
      var last := config.lastConnected;
      if last.Some? && last.value.path in existing {
        if last.value.path in opens {
          connection := Some((last.value.path, last.value.name));
        }
        dbColor := last.value.color.GetOr(3);
      }
    }

    /**
      `connect_saved_screen`. On a connection the entry becomes the last
      connected database and, in the modular program, its colour (3 when it
      has none) becomes the display colour; otherwise only deletions change
      anything.
    */
    method ConnectSavedScreen(keys: seq<Key>, opens: set<string>) returns (outcome: SavedOutcome)
      modifies this, config
      ensures var (final, out) := SavedScreen(old(config.savedDatabases), keys, opens);
        && config.savedDatabases == final && outcome == out
      ensures outcome.Connected? ==>
        && config.lastConnected == Some(outcome.db)
        && connection == Some((outcome.db.path, outcome.db.name))
        && dbColor == (if variant == Modular then outcome.db.color.GetOr(3) else old(dbColor))
      ensures !outcome.Connected? ==>
        config.lastConnected == old(config.lastConnected) && connection == old(connection) && dbColor == old(dbColor)
    {
      var savedDbs := config.GetSavedDatabases();
      if |savedDbs| == 0 {
        return NoSavedDatabases;
      }
      var selected: nat := 0;
      var i := 0;
      while i < |keys|
        invariant 0 <= i <= |keys| && 0 < |savedDbs| && selected < |savedDbs|
        invariant config.savedDatabases == savedDbs
        invariant SavedScreen(old(config.savedDatabases), keys, opens) == SavedRun(savedDbs, selected, keys[i..], opens)
        invariant config.lastConnected == old(config.lastConnected)
        invariant connection == old(connection) && dbColor == old(dbColor)
      {
        assert keys[i..][0] == keys[i] && keys[i..][1..] == keys[i + 1..];
        var key := keys[i];
        if key == Up {
          selected := (selected - 1) % |savedDbs|;
        } else if key == Down {
          selected := (selected + 1) % |savedDbs|;
        } else if key == Enter {
          var db := savedDbs[selected];
          if db.path in opens {
            connection := Some((db.path, db.name));
            config.SetLastConnected(db);
            if variant == Modular {
              dbColor := db.color.GetOr(3);
            }
            return Connected(db);
          }
        } else if key == Char('d') {
          config.RemoveSavedDatabase(savedDbs[selected].path);
          savedDbs := config.GetSavedDatabases();
          if |savedDbs| == 0 {
            return Emptied;
          }
          selected := Min(selected, |savedDbs| - 1);
        } else if key == Esc {
          return Cancelled;
        }
        i := i + 1;
      }
      assert keys[i..] == [];
      return StillOpen;
    }

    /**
      `connect_new_screen`, given the two typed lines, the paths that exist,
      the keys of the colour picker, the paths the database opens and the
      file's stem (`splitext(basename(path))[0]`). An empty path, a missing
      file, 'q' in the colour picker, keys that run out there or a failed
      connection leave everything as it was; a connection registers the entry, makes it the last connected
      database and, in the modular program, makes its colour the display colour.
    */
    method ConnectNewScreen(pathInput: string, nameInput: string, existing: set<string>,
                            colorKeys: seq<Key>, opens: set<string>, fileStem: string)
      returns (outcome: NewOutcome)
      modifies this, config
      ensures outcome.Registered? <==>
        && Strip(pathInput) != "" && Strip(pathInput) in existing && Strip(pathInput) in opens
        && Menus.Select(0, |Menus.Colors|, colorKeys, Some(Char('q'))).Picked?
      ensures outcome == NoPath <==> Strip(pathInput) == ""
      ensures outcome == ChoosingColor <==>
        && Strip(pathInput) != "" && Strip(pathInput) in existing
        && Menus.Select(0, |Menus.Colors|, colorKeys, Some(Char('q'))).Pending?
      ensures outcome.Registered? ==>
        && var r := Menus.Select(0, |Menus.Colors|, colorKeys, Some(Char('q')));
        && r.Picked? && r.index < |Menus.Colors|
        && outcome.info == NewEntry(pathInput, nameInput, fileStem, Menus.Colors[r.index].1)
        && config.savedDatabases == Added(old(config.savedDatabases), outcome.info)
        && config.lastConnected == Some(outcome.info)
        && connection == Some((outcome.info.path, outcome.info.name))
        && dbColor == (if variant == Modular then Menus.Colors[r.index].1 else old(dbColor))
      ensures !outcome.Registered? ==>
        && config.savedDatabases == old(config.savedDatabases)
        && config.lastConnected == old(config.lastConnected)
        && connection == old(connection) && dbColor == old(dbColor)
    {
      var path := Strip(pathInput);
      if path == "" {
        return NoPath;
      }
      var name := Strip(nameInput);
      if name == "" {
        name := fileStem;
      }
      if path !in existing {
        return MissingFile;
      }
      var color, answered := Menus.SelectColorScreen(colorKeys);
      if !answered {
        return ChoosingColor;
      }
      if color.None? {
        return NoColor;
      }
      if path !in opens {
        return ConnectFailed;
      }
      var info := DbInfo(path, name, Some(color.value));
      connection := Some((path, name));
      config.AddSavedDatabase(info);
      config.SetLastConnected(info);
      if variant == Modular {
        dbColor := color.value;
      }
      return Registered(info);
    }
  }
}
