/**
  The configuration manager: the list of saved databases and the last
  connected one, read from the configuration file when the manager is made
  and written back after every change.
*/
module Config {
  import opened Wrappers

  /**
    A saved database, the dictionary `{'path': …, 'name': …, 'color': …}`.
    Entries written by older versions may have no colour.
  */
  datatype DbInfo = DbInfo(path: string, name: string, color: Option<int>)

  /**
    What the configuration file holds, as `load_config` sees it: no file, a
    file that is not valid JSON, or a JSON object in which either key may be
    missing.
  */
  datatype Stored =
    | NoFile
    | Malformed
    | Parsed(savedDatabases: Option<seq<DbInfo>>, lastConnected: Option<DbInfo>)

  /** `[db for db in dbs if db['path'] != path]`. */
  function WithoutPath(dbs: seq<DbInfo>, path: string): (r: seq<DbInfo>)
    ensures |r| <= |dbs|
  {
    if |dbs| == 0 then []
    else (if dbs[0].path != path then [dbs[0]] else []) + WithoutPath(dbs[1..], path)
  }

  /** The list after `add_saved_database(info)`: any entry with the same path goes, the new one is appended. */
  function Added(dbs: seq<DbInfo>, info: DbInfo): seq<DbInfo>
  {
    WithoutPath(dbs, info.path) + [info]
  }

  /** The list after `remove_saved_database(path)`. */
  function Removed(dbs: seq<DbInfo>, path: string): seq<DbInfo>
  {
    WithoutPath(dbs, path)
  }

  /** No two entries share a path. */
  predicate UniquePaths(dbs: seq<DbInfo>)
  {
    forall i, j :: 0 <= i < j < |dbs| ==> dbs[i].path != dbs[j].path
  }

  /** Filtering keeps exactly the entries with another path. */
  lemma {:induction false} WithoutPathMembers(dbs: seq<DbInfo>, path: string)
    ensures forall d :: d in WithoutPath(dbs, path) <==> d in dbs && d.path != path
  {
    if |dbs| > 0 {
      WithoutPathMembers(dbs[1..], path);
      assert dbs == [dbs[0]] + dbs[1..];
    }
  }

  /** Filtering works piecewise, so the kept entries stay in their original order. */
  lemma {:induction false} WithoutPathAppend(a: seq<DbInfo>, b: seq<DbInfo>, path: string)
    ensures WithoutPath(a + b, path) == WithoutPath(a, path) + WithoutPath(b, path)
  {
    if |a| == 0 {
      assert a + b == b;
    } else {
      assert (a + b)[1..] == a[1..] + b;
      WithoutPathAppend(a[1..], b, path);
    }
  }

  /** When no entry has the path, filtering changes nothing. */
  lemma {:induction false} WithoutAbsentPath(dbs: seq<DbInfo>, path: string)
    requires forall i :: 0 <= i < |dbs| ==> dbs[i].path != path
    ensures WithoutPath(dbs, path) == dbs
  {
    if |dbs| > 0 {
      WithoutAbsentPath(dbs[1..], path);
    }
  }

  /** Filtering by a path removes every entry that has it. */
  lemma WithoutPathGone(dbs: seq<DbInfo>, path: string)
    ensures forall i :: 0 <= i < |WithoutPath(dbs, path)| ==> WithoutPath(dbs, path)[i].path != path
  {
    WithoutPathMembers(dbs, path);
    var r := WithoutPath(dbs, path);
    forall i | 0 <= i < |r|
      ensures r[i].path != path
    {
      assert r[i] in r;
    }
  }

  /** After adding, exactly one entry has the new path: the new entry, at the end. */
  lemma AddedOnePerPath(dbs: seq<DbInfo>, info: DbInfo)
    ensures var r := Added(dbs, info);
      && |r| > 0 && r[|r| - 1] == info
      && forall i :: 0 <= i < |r| - 1 ==> r[i].path != info.path
  {
    WithoutPathGone(dbs, info.path);
  }

  /** Adding the same entry twice is the same as adding it once. */
  lemma AddedIdempotent(dbs: seq<DbInfo>, info: DbInfo)
    ensures Added(Added(dbs, info), info) == Added(dbs, info)
  {
    var w := WithoutPath(dbs, info.path);
    WithoutPathAppend(w, [info], info.path);
    WithoutPathGone(dbs, info.path);
    WithoutAbsentPath(w, info.path);
    assert WithoutPath([info], info.path) == [];
  }

  /** Removing a path just added undoes the addition as far as that path goes. */
  lemma RemoveAfterAdd(dbs: seq<DbInfo>, info: DbInfo)
    ensures Removed(Added(dbs, info), info.path) == Removed(dbs, info.path)
  {
    var w := WithoutPath(dbs, info.path);
    WithoutPathAppend(w, [info], info.path);
    WithoutPathGone(dbs, info.path);
    WithoutAbsentPath(w, info.path);
    assert WithoutPath([info], info.path) == [];
  }

  /** Removing a path nobody has leaves the list as it was. */
  lemma RemoveAbsent(dbs: seq<DbInfo>, path: string)
    requires forall i :: 0 <= i < |dbs| ==> dbs[i].path != path
    ensures Removed(dbs, path) == dbs
  {
    WithoutAbsentPath(dbs, path);
  }

  /** Removing a path keeps the entries of every other path and their order. */
  lemma RemovedKeepsOthers(dbs: seq<DbInfo>, path: string)
    ensures forall d :: d in Removed(dbs, path) <==> d in dbs && d.path != path
    ensures forall i :: 0 <= i < |Removed(dbs, path)| ==> Removed(dbs, path)[i].path != path
  {
    WithoutPathMembers(dbs, path);
    WithoutPathGone(dbs, path);
  }

  /** A filtered list of distinct paths still has distinct paths. */
  lemma {:induction false} WithoutPathUnique(dbs: seq<DbInfo>, path: string)
    requires UniquePaths(dbs)
    ensures UniquePaths(WithoutPath(dbs, path))
  {
    if |dbs| > 0 {
      WithoutPathUnique(dbs[1..], path);
      WithoutPathMembers(dbs[1..], path);
      var rest := WithoutPath(dbs[1..], path);
      var r := WithoutPath(dbs, path);
      if dbs[0].path != path {
        forall j | 0 <= j < |rest|
          ensures dbs[0].path != rest[j].path
        {
          assert rest[j] in dbs[1..];
        }
        assert r == [dbs[0]] + rest;
      }
    }
  }

  /** Adding and removing keep the paths of the saved list distinct. */
  lemma UniquePathsPreserved(dbs: seq<DbInfo>, info: DbInfo, path: string)
    requires UniquePaths(dbs)
    ensures UniquePaths(Added(dbs, info))
    ensures UniquePaths(Removed(dbs, path))
  {
    WithoutPathUnique(dbs, info.path);
    WithoutPathUnique(dbs, path);
    WithoutPathGone(dbs, info.path);
  }

  /**
    The state `load_config` leaves: a missing or malformed file gives an empty
    list and no last database; a missing key gives the same default.
  */
  function Loaded(stored: Stored): (seq<DbInfo>, Option<DbInfo>)
  {
    match stored
    case NoFile => ([], None)
    case Malformed => ([], None)
    case Parsed(saved, last) => (saved.GetOr([]), last)
  }

  class ConfigManager {
    var savedDatabases: seq<DbInfo>
    var lastConnected: Option<DbInfo>
    /** The configuration file's contents. */
    var file: Stored

    /** `__init__` followed by `load_config`. */
    constructor (stored: Stored)
      ensures (savedDatabases, lastConnected) == Loaded(stored)
      ensures file == stored
    {
      savedDatabases := [];
      lastConnected := None;
      file := stored;
      match stored {
        case NoFile =>
        case Malformed =>
        case Parsed(saved, last) =>
          savedDatabases := saved.GetOr([]);
          lastConnected := last;
      }
    }

    /** `save_config`: writes both fields to the file. */
    method SaveConfig()
      modifies this
      ensures file == Parsed(Some(savedDatabases), lastConnected)
      ensures savedDatabases == old(savedDatabases) && lastConnected == old(lastConnected)
      ensures Loaded(file) == (savedDatabases, lastConnected)
    {
      file := Parsed(Some(savedDatabases), lastConnected);
    }

    method AddSavedDatabase(info: DbInfo)
      modifies this
      ensures savedDatabases == Added(old(savedDatabases), info)
      ensures lastConnected == old(lastConnected)
      ensures Loaded(file) == (savedDatabases, lastConnected)
    {
      savedDatabases := WithoutPath(savedDatabases, info.path);
      savedDatabases := savedDatabases + [info];
      SaveConfig();
    }

    method RemoveSavedDatabase(path: string)
      modifies this
      ensures savedDatabases == Removed(old(savedDatabases), path)
      ensures lastConnected == old(lastConnected)
      ensures Loaded(file) == (savedDatabases, lastConnected)
    {
      savedDatabases := WithoutPath(savedDatabases, path);
      SaveConfig();
    }

    method GetSavedDatabases() returns (dbs: seq<DbInfo>)
      ensures dbs == savedDatabases
    {
      dbs := savedDatabases;
    }

    method SetLastConnected(info: DbInfo)
      modifies this
      ensures lastConnected == Some(info)
      ensures savedDatabases == old(savedDatabases)
      ensures Loaded(file) == (savedDatabases, lastConnected)
    {
      lastConnected := Some(info);
      SaveConfig();
    }

    method GetLastConnected() returns (info: Option<DbInfo>)
      ensures info == lastConnected
    {
      info := lastConnected;
    }
  }

  /**
    What is saved is what a later start loads: a manager made from the file
    that another manager wrote has the same saved list and last database.
  */
  method ReloadAfterSave(m: ConfigManager) returns (reloaded: ConfigManager)
    modifies m
    ensures fresh(reloaded)
    ensures reloaded.savedDatabases == m.savedDatabases && reloaded.lastConnected == m.lastConnected
  {
    m.SaveConfig();
    reloaded := new ConfigManager(m.file);
  }
}
