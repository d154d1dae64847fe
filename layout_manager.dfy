/**
 * The layout catalogue (utils/layout_manager.py): the list of layouts read from the
 * layout configuration file, in file order, and an id -> layout map built from it.
 * Reading and parsing the JSON file is outside the model: its outcome is a ConfigFile.
 */
module LayoutManager {

  import opened Common

  /** One photo slot of a layout; each key may be missing from the file. */
  datatype Slot = Slot(x: Option<int>, y: Option<int>, width: Option<int>, height: Option<int>)

  /** One entry of the "layouts" list. Only the keys the photobooth reads are kept. */
  datatype Layout = Layout(
    id: Option<string>,
    canvasWidth: Option<int>,
    canvasHeight: Option<int>,
    slots: Option<seq<Slot>>)

  /** What reading the configuration file produced. */
  datatype ConfigFile =
    | Missing                                  // the path does not exist
    | Unreadable                               // open or json.load raised
    | Parsed(layouts: Option<seq<Layout>>)     // the top-level object, with or without "layouts"

  /**
   * The dict comprehension {l['id']: l for l in layouts}, evaluated left to right: an
   * entry without an id raises KeyError and the whole comprehension fails (None).
   */
  function IdMap(ls: seq<Layout>): Option<map<string, Layout>>
    decreases |ls|
  {
    if ls == [] then Some(map[])
    else
      var m := IdMap(ls[..|ls| - 1]);
      var l := ls[|ls| - 1];
      if m.None? || l.id.None? then None else Some(m.value[l.id.value := l])
  }

  /** The reference lookup on the list: the last entry carrying id k. */
  function LastWithId(ls: seq<Layout>, k: string): Option<Layout>
    decreases |ls|
  {
    if ls == [] then None
    else if ls[|ls| - 1].id == Some(k) then Some(ls[|ls| - 1])
    else LastWithId(ls[..|ls| - 1], k)
  }

  /** The comprehension succeeds exactly when every entry has an id. */
  lemma {:induction false} IdMapDefined(ls: seq<Layout>)
    ensures IdMap(ls).Some? <==> forall i :: 0 <= i < |ls| ==> ls[i].id.Some?
    decreases |ls|
  {
    if ls != [] {
      IdMapDefined(ls[..|ls| - 1]);
      assert forall i :: 0 <= i < |ls| - 1 ==> ls[..|ls| - 1][i] == ls[i];
    }
  }

  /**
   * When ids are duplicated the map keeps the last entry in list order: looking an id
   * up in the map gives exactly what the reference lookup on the list gives.
   */
  lemma {:induction false} IdMapLastWins(ls: seq<Layout>, k: string)
    requires IdMap(ls).Some?
    ensures k in IdMap(ls).value ==> LastWithId(ls, k) == Some(IdMap(ls).value[k])
    ensures k !in IdMap(ls).value ==> LastWithId(ls, k) == None
    decreases |ls|
  {
    if ls != [] {
      IdMapLastWins(ls[..|ls| - 1], k);
    }
  }

  /**
   * The reference lookup, spelled out: Some(l) exactly when l sits at some index i with
   * id k and no later entry has id k.
   */
  lemma {:induction false} LastWithIdSpec(ls: seq<Layout>, k: string, l: Layout)
    ensures LastWithId(ls, k) == Some(l) <==>
      exists i :: 0 <= i < |ls| && ls[i] == l && ls[i].id == Some(k) &&
                  forall j :: i < j < |ls| ==> ls[j].id != Some(k)
    decreases |ls|
  {
    if ls != [] {
      var init := ls[..|ls| - 1];
      LastWithIdSpec(init, k, l);
      assert forall j :: 0 <= j < |init| ==> init[j] == ls[j];
      if ls[|ls| - 1].id != Some(k) && LastWithId(ls, k) == Some(l) {
        var i :| 0 <= i < |init| && init[i] == l && init[i].id == Some(k) &&
                 forall j :: i < j < |init| ==> init[j].id != Some(k);
        assert forall j :: i < j < |ls| ==> ls[j].id != Some(k);
      }
    }
  }

  /** The layouts a load leaves behind: (list, map). */
  function Loaded(prevLayouts: seq<Layout>, prevMap: map<string, Layout>, file: ConfigFile)
    : (seq<Layout>, map<string, Layout>)
  {
    match file
    case Missing => (prevLayouts, prevMap)
    case Unreadable => ([], map[])
    case Parsed(ls) =>
      var layouts := if ls.Some? then ls.value else [];
      var m := IdMap(layouts);
      if m.Some? then (layouts, m.value) else ([], map[])
  }

  class LayoutManager {
    var configPath: string
    var layouts: seq<Layout>
    var layoutMap: map<string, Layout>

    /** The map is always the comprehension over the list. */
    predicate Valid()
      reads this
    {
      IdMap(layouts) == Some(layoutMap)
    }

    /** __init__ on a fresh instance: empty list and map, then load_layouts. */
    constructor (path: string, file: ConfigFile)
      ensures configPath == path
      ensures (layouts, layoutMap) == Loaded([], map[], file)
      ensures Valid()
    {
      configPath := path;
      layouts := [];
      layoutMap := map[];
      new;
      LoadLayouts(file);
    }

    /**
     * load_layouts: a missing file leaves everything as it was; a file that cannot be
     * read or parsed, or any entry without an id, leaves both list and map empty, even
     * though the list is assigned before the map is built; otherwise the list is the
     * file's "layouts" (default empty) and the map is built from it.
     */
    method LoadLayouts(file: ConfigFile)
      modifies this
      requires Valid()
      ensures configPath == old(configPath)
      ensures (layouts, layoutMap) == Loaded(old(layouts), old(layoutMap), file)
      ensures Valid()
    {
      match file
      case Missing =>
      case Unreadable =>
        layouts, layoutMap := [], map[];
      case Parsed(ls) =>
        layouts := if ls.Some? then ls.value else [];
        var m := IdMap(layouts);
        if m.Some? {
          layoutMap := m.value;
        } else {
          layouts, layoutMap := [], map[];
        }
    }

    /** get_layouts: the list in file order. */
    function GetLayouts(): seq<Layout>
      reads this
    {
      layouts
    }

    /** get_layout: the last layout in the list with that id, or None when there is none. */
    method GetLayout(k: string) returns (r: Option<Layout>)
      requires Valid()
      ensures r == LastWithId(layouts, k)
      ensures r.Some? ==> r.value.id == Some(k)
    {
      IdMapLastWins(layouts, k);
      if k in layoutMap {
        r := Some(layoutMap[k]);
        LastWithIdSpec(layouts, k, r.value);
      } else {
        r := None;
      }
    }
  }

  /**
   * A parsed file whose entries all carry ids is loaded whole, in file order; one
   * entry without an id empties everything.
   */
  lemma {:induction false} LoadedParsed(ls: seq<Layout>, ol: seq<Layout>, om: map<string, Layout>)
    ensures (forall i :: 0 <= i < |ls| ==> ls[i].id.Some?) ==>
      Loaded(ol, om, Parsed(Some(ls))).0 == ls
    ensures (exists i :: 0 <= i < |ls| && ls[i].id.None?) ==>
      Loaded(ol, om, Parsed(Some(ls))) == ([], map[])
  {
    IdMapDefined(ls);
  }

  /** The class-level singleton slot with the hasattr(self, 'layouts') guard. */
  class LayoutSingleton {
    var instance: LayoutManager?

    constructor ()
      ensures instance == null
    {
      instance := null;
    }

    /**
     * LayoutManager(path): the first call builds and loads the one instance; once the
     * layouts are set, a later call returns the same instance and does not reload.
     */
    method Construct(path: string, file: ConfigFile) returns (m: LayoutManager)
      modifies this
      ensures instance == m
      ensures old(instance) == null ==>
        fresh(m) && m.configPath == path && (m.layouts, m.layoutMap) == Loaded([], map[], file)
      ensures old(instance) != null ==>
        m == old(instance) && m.layouts == old(m.layouts) && m.layoutMap == old(m.layoutMap) &&
        m.configPath == old(m.configPath)
    {
      if instance == null {
        m := new LayoutManager(path, file);
        instance := m;
      } else {
        m := instance;
      }
    }
  }
}
