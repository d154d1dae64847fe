/**
 * The persistent settings (utils/settings_manager.py): a key -> value dictionary that
 * starts as a copy of the defaults and is overlaid with the keys of the settings file.
 * Reading and writing the JSON file is outside the model: what reading produced is a
 * SettingsFile, and how writing went is a WriteOutcome; `stored` is what the file
 * holds as far as the manager has written it.
 */
module SettingsManager {

  import opened Common

  type Settings = map<string, Value>

  /** DEFAULT_SETTINGS */
  const Defaults: Settings :=
    map["camera_type" := Str("webcam"), "camera_index" := Int(0), "screen_size" := Str("1280x800")]

  /** What reading the settings file produced. */
  datatype SettingsFile =
    | NoFile                                  // the path does not exist
    | Unreadable                              // open or json.load raised, or not an object
    | Items(items: seq<(string, Value)>)      // data.items(), in file order

  /**
   * How save's write went: open(filename, 'w') raised, so the file was not touched;
   * or it opened, which empties the file, and json.dump then completed or raised.
   */
  datatype WriteOutcome = OpenFailed | Written | DumpFailed

  /**
   * What the settings file holds as far as the manager wrote it: whatever was there
   * before its first write; a complete dump of some settings; or the remains of a
   * dump that failed after the file was emptied (empty, or a prefix of the JSON text).
   */
  datatype StoredFile = Untouched | Holds(settings: Settings) | Truncated

  /** The file after save wrote settings `s` over file `f`. */
  function Saved(f: StoredFile, s: Settings, w: WriteOutcome): StoredFile {
    match w
    case OpenFailed => f
    case Written => Holds(s)
    case DumpFailed => Truncated
  }

  /**
   * Once save has opened the file its earlier content is gone, whether or not the
   * dump completes; only a failed open keeps it. A failed dump never leaves any
   * settings readable.
   */
  lemma SaveOverwrites(f: StoredFile, f': StoredFile, s: Settings, w: WriteOutcome)
    ensures !w.OpenFailed? ==> Saved(f, s, w) == Saved(f', s, w)
    ensures Saved(f, s, w).Holds? <==> w.Written? || (w.OpenFailed? && f.Holds?)
    ensures w.DumpFailed? ==> !Saved(f, s, w).Holds?
  {
  }

  /** The settings after `settings[key] = value` for each item in turn. */
  function Merged(m: Settings, items: seq<(string, Value)>): Settings
    decreases |items|
  {
    if items == [] then m
    else Merged(m, items[..|items| - 1])[items[|items| - 1].0 := items[|items| - 1].1]
  }

  /**
   * Merging overwrites only the keys present in the file: a key is present afterwards
   * exactly when it was before or the file has it, a key the file lacks keeps its
   * value, and a key the file has takes its last value in the file.
   */
  lemma {:induction false} MergedKeys(m: Settings, items: seq<(string, Value)>, k: string)
    ensures k in Merged(m, items) <==> k in m || exists i :: 0 <= i < |items| && items[i].0 == k
    ensures (forall i :: 0 <= i < |items| ==> items[i].0 != k) && k in m ==> Merged(m, items)[k] == m[k]
    ensures forall i :: 0 <= i < |items| && items[i].0 == k &&
                        (forall j :: i < j < |items| ==> items[j].0 != k) ==>
              k in Merged(m, items) && Merged(m, items)[k] == items[i].1
    decreases |items|
  {
    if items != [] {
      var init := items[..|items| - 1];
      MergedKeys(m, init, k);
      assert forall i :: 0 <= i < |init| ==> init[i] == items[i];
    }
  }

  /** Every default key survives a load, whatever the file holds. */
  lemma DefaultsSurvive(items: seq<(string, Value)>)
    ensures forall k :: k in Defaults ==> k in Merged(Defaults, items)
  {
    forall k | k in Defaults
      ensures k in Merged(Defaults, items)
    {
      MergedKeys(Defaults, items, k);
    }
  }

  /** get(key, default) */
  function Lookup(m: Settings, k: string, default: Option<Value>): Option<Value> {
    if k in m then Some(m[k]) else default
  }

  /** set then get gives the value set, and no other key changes. */
  lemma SetThenGet(m: Settings, k: string, v: Value, k': string, d: Option<Value>)
    ensures Lookup(m[k := v], k, d) == Some(v)
    ensures k' != k ==> Lookup(m[k := v], k', d) == Lookup(m, k', d)
  {
  }

  class SettingsManager {
    var filename: string
    var settings: Settings
    /** What the settings file holds as far as this manager wrote it. */
    var stored: StoredFile

    /** __init__: a copy of the defaults, then load. */
    constructor (name: string, file: SettingsFile, write: WriteOutcome)
      ensures filename == name
      ensures file.NoFile? ==> settings == Defaults && stored == Saved(Untouched, Defaults, write)
      ensures file.Unreadable? ==> settings == Defaults && stored == Untouched
      ensures file.Items? ==> settings == Merged(Defaults, file.items) && stored == Untouched
      ensures forall k :: k in Defaults ==> k in settings
    {
      filename := name;
      settings := Defaults;
      stored := Untouched;
      new;
      Load(file, write);
      if file.Items? {
        DefaultsSurvive(file.items);
      }
    }

    /**
     * load: a missing file is created from the current settings; a file that cannot
     * be read leaves the settings as they were; otherwise each item of the file
     * overwrites its key, in file order.
     */
    method Load(file: SettingsFile, write: WriteOutcome)
      modifies this
      ensures filename == old(filename)
      ensures file.NoFile? ==> settings == old(settings) && stored == Saved(old(stored), old(settings), write)
      ensures file.Unreadable? ==> settings == old(settings) && stored == old(stored)
      ensures file.Items? ==> settings == Merged(old(settings), file.items) && stored == old(stored)
    {
      match file
      case NoFile =>
        Save(write);
      case Unreadable =>
      case Items(items) =>
        for i := 0 to |items|
          invariant settings == Merged(old(settings), items[..i])
          invariant filename == old(filename) && stored == old(stored)
        {
          assert items[..i + 1][..i] == items[..i];
          settings := settings[items[i].0 := items[i].1];
        }
        assert items[..|items|] == items;
    }

    /**
     * save: the file holds the settings; an error is logged and not raised. A failed
     * open leaves the file as it was; a failed dump leaves it emptied or cut short.
     */
    method Save(write: WriteOutcome)
      modifies this
      ensures filename == old(filename) && settings == old(settings)
      ensures stored == Saved(old(stored), settings, write)
      ensures write.OpenFailed? ==> stored == old(stored)
      ensures write.Written? ==> stored == Holds(settings)
      ensures write.DumpFailed? ==> stored == Truncated
    {
      match write
      case OpenFailed =>
      case Written =>
        stored := Holds(settings);
      case DumpFailed =>
        stored := Truncated;
    }

    /** get(key, default): the stored value, or the default exactly when the key is absent. */
    method Get(k: string, default: Option<Value>) returns (r: Option<Value>)
      ensures k in settings ==> r == Some(settings[k])
      ensures k !in settings ==> r == default
      ensures r == Lookup(settings, k, default)
    {
      if k in settings {
        r := Some(settings[k]);
      } else {
        r := default;
      }
    }

    /** set(key, value): only that key changes; nothing is written to the file. */
    method Set(k: string, v: Value)
      modifies this
      ensures settings == old(settings)[k := v]
      ensures filename == old(filename) && stored == old(stored)
    {
      settings := settings[k := v];
    }
  }
}
