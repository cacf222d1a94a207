/** The viewer's store of documents kept in its config file: adding a
    processed directory, deleting, looking up and the image bounds check.
    Reading a directory's config is a parameter; writes are left out. */
module ViewerData {
  import opened Wrappers
  import opened Strings
  import AppServer

  /** A stored document. */
  datatype ViewerItem = ViewerItem(
    id: int,
    title: string,
    originalVideoPath: string,
    processedPath: string,
    imageInterval: real,
    numImages: int,
    duration: real)

  /** The fields read from a directory's config. */
  datatype ItemConfig = ItemConfig(
    title: string,
    originalVideoPath: string,
    imageInterval: real,
    numImages: int,
    duration: real)

  /** What `loadNewItem` answers: the id of the document already stored
      under the path, or the new document itself, or it throws when the
      directory's config cannot be read. */
  datatype LoadResult = ExistingId(id: int) | Added(item: ViewerItem) | Threw

  /** `reduce((acc, item) => Math.max(acc, item.id), 0)`. */
  function MaxId(items: seq<ViewerItem>): (r: int)
    ensures r >= 0
    ensures forall k :: 0 <= k < |items| ==> items[k].id <= r
  {
    if items == [] then 0
    else
      var acc := MaxId(items[..|items| - 1]);
      var last := items[|items| - 1].id;
      if acc >= last then acc else last
  }

  // The lookups below mirror the app's (`AppServer`) on purpose: the viewer
  // is a separate program with its own item type and its own copies of them.
  function FindIndex(items: seq<ViewerItem>, id: int): (r: Option<nat>)
    ensures r.Some? ==> r.value < |items| && items[r.value].id == id
    ensures r.Some? ==> forall k :: 0 <= k < r.value ==> items[k].id != id
    ensures r.None? ==> forall k :: 0 <= k < |items| ==> items[k].id != id
  {
    if items == [] then None
    else if items[0].id == id then Some(0)
    else match FindIndex(items[1..], id)
      case None => None
      case Some(k) => Some(k + 1)
  }

  function FindByPath(items: seq<ViewerItem>, path: string): (r: Option<nat>)
    ensures r.Some? ==> r.value < |items| && items[r.value].processedPath == path
    ensures r.Some? ==> forall k :: 0 <= k < r.value ==> items[k].processedPath != path
    ensures r.None? ==> forall k :: 0 <= k < |items| ==> items[k].processedPath != path
  {
    if items == [] then None
    else if items[0].processedPath == path then Some(0)
    else match FindByPath(items[1..], path)
      case None => None
      case Some(k) => Some(k + 1)
  }

  /** `filter((item) => item.id !== id)`. */
  function Without(items: seq<ViewerItem>, id: int): (r: seq<ViewerItem>)
    ensures |r| <= |items|
    ensures forall k :: 0 <= k < |r| ==> r[k].id != id
    ensures forall x :: x in r <==> x in items && x.id != id
  {
    if items == [] then []
    else if items[0].id == id then Without(items[1..], id)
    else [items[0]] + Without(items[1..], id)
  }

  /** Removing an id that is not there changes nothing, and otherwise the
      list gets shorter. */
  lemma {:induction false} WithoutShrinks(items: seq<ViewerItem>, id: int)
    ensures FindIndex(items, id).None? ==> Without(items, id) == items
    ensures FindIndex(items, id).Some? ==> |Without(items, id)| < |items|
    decreases |items|
  {
    if items == [] {
      assert FindIndex(items, id).None? && Without(items, id) == [];
    } else if items[0].id == id {
      assert FindIndex(items, id) == Some(0);
      assert Without(items, id) == Without(items[1..], id);
    } else {
      var rest := items[1..];
      WithoutShrinks(rest, id);
      assert Without(items, id) == [items[0]] + Without(rest, id);
      assert FindIndex(items, id).None? <==> FindIndex(rest, id).None?;
      if FindIndex(rest, id).None? {
        assert [items[0]] + rest == items;
      }
    }
  }

  /** Node's `path.dirname` of a path without a trailing '/': everything
      before the last '/', except that a path whose only separators are
      leading keeps its root, "/" or the doubled "//". */
  function Dirname(p: string): (r: string)
    ensures LastIndexOf(p, '/') < 0 ==> r == "."
    ensures LastIndexOf(p, '/') == 0 ==> r == "/"
    ensures LastIndexOf(p, '/') == 1 && p[0] == '/' ==> r == "//"
    ensures LastIndexOf(p, '/') > 1 || (LastIndexOf(p, '/') == 1 && p[0] != '/') ==>
      r == p[..LastIndexOf(p, '/')]
  {
    var i := LastIndexOf(p, '/');
    if i < 0 then "." else if i == 0 then "/" else if i == 1 && p[0] == '/' then "//" else p[..i]
  }

  /** The directory a path names: the config file's directory when the path
      names a ".json" file. */
  function ContentDir(file: string): (r: string)
    ensures !EndsWith(file, ".json") ==> r == file
  {
    if EndsWith(file, ".json") then Dirname(file) else file
  }

  /** `loadNewItem` as a function of the stored items. */
  function LoadNew(items: seq<ViewerItem>, file: string, loaded: Option<ItemConfig>): (r: (seq<ViewerItem>, LoadResult))
    ensures FindByPath(items, file).Some? ==> r == (items, ExistingId(items[FindByPath(items, file).value].id))
    ensures FindByPath(items, file).None? && loaded.None? ==> r == (items, Threw)
    ensures FindByPath(items, file).None? && loaded.Some? ==>
      && r.1 == Added(ViewerItem(MaxId(items) + 1, loaded.value.title, loaded.value.originalVideoPath,
           ContentDir(file), loaded.value.imageInterval, loaded.value.numImages, loaded.value.duration))
      && r.0 == items + [r.1.item]
      && forall k :: 0 <= k < |items| ==> items[k].id < r.1.item.id
  {
    match FindByPath(items, file)
    case Some(i) => (items, ExistingId(items[i].id))
    case None =>
      match loaded
      case None => (items, Threw)
      case Some(c) =>
        var item := ViewerItem(MaxId(items) + 1, c.title, c.originalVideoPath, ContentDir(file),
          c.imageInterval, c.numImages, c.duration);
        (items + [item], Added(item))
  }

  /** Loading a directory twice adds it once; loading a document through
      its ".json" file adds it again each time, because the lookup compares
      the path given and the stored path is the directory. */
  lemma LoadTwice(items: seq<ViewerItem>, file: string, c: ItemConfig)
    requires FindByPath(items, file).None?
    ensures var (after, r) := LoadNew(items, file, Some(c));
      && (!EndsWith(file, ".json") ==> LoadNew(after, file, Some(c)) == (after, ExistingId(r.item.id)))
      && (EndsWith(file, ".json") && ContentDir(file) != file ==> LoadNew(after, file, Some(c)).1.Added?)
  {
    var (after, r) := LoadNew(items, file, Some(c));
    assert after[|items|] == r.item;
    assert forall k :: 0 <= k < |items| ==> after[k] == items[k];
    if !EndsWith(file, ".json") {
      assert FindByPath(after, file) == Some(|items|);
    }
  }

  /** A config path ending in ".json" is stored under its directory. */
  lemma JsonPathStoresDirectory(dir: string)
    requires '/' !in dir && |dir| > 0
    ensures ContentDir(dir + "/sbbp.json") == dir
  {
    var p := dir + "/sbbp.json";
    assert EndsWith(p, ".json") by {
      assert p[|p| - 5..] == ".json";
    }
    var i := |dir|;
    assert p[i] == '/';
    LastIndexOfAfter(dir, '/', "sbbp.json");
    assert p[..i] == dir;
  }

  /** A ".json" file directly under a doubled root is stored under "//",
      as `path.dirname` keeps that root. */
  lemma DoubledRootKept(name: string)
    requires '/' !in name
    ensures ContentDir("//" + name + ".json") == "//"
  {
    var p := "//" + name + ".json";
    assert EndsWith(p, ".json") by {
      assert p[|p| - 5..] == ".json";
    }
    assert p == "/" + ['/'] + (name + ".json");
    LastIndexOfAfter("/", '/', name + ".json");
  }

  /** The image file name for index `id`, frames being numbered from 1. */
  function ImagePath(processedPath: string, id: int): string {
    processedPath + "/" + AppServer.ImageFileName(id)
  }

  /** The module-level config of the viewer's store. */
  class Store {
    var items: seq<ViewerItem>

    /** `init`: the items of `config.json` when it can be read and parsed
        (`stored`), otherwise an empty list. */
    constructor (stored: Option<seq<ViewerItem>>)
      ensures stored.Some? ==> items == stored.value
      ensures stored.None? ==> items == []
    {
      match stored
      case Some(list) => items := list;
      case None => items := [];
    }

    /** `loadNewItem`; `loaded` is what reading the directory's config
        gives. */
    method LoadNewItem(file: string, loaded: Option<ItemConfig>) returns (r: LoadResult)
      modifies this
      ensures (items, r) == LoadNew(old(items), file, loaded)
    {
      var existing := FindByPath(items, file);
      if existing.Some? {
        return ExistingId(items[existing.value].id);
      }
      var contentDir := file;
      if EndsWith(contentDir, ".json") {
        contentDir := Dirname(contentDir);
      }
      if loaded.None? {
        return Threw;
      }
      var c := loaded.value;
      var id := MaxId(items) + 1;
      var item := ViewerItem(id, c.title, c.originalVideoPath, contentDir, c.imageInterval, c.numImages, c.duration);
      items := items + [item];
      r := Added(item);
    }

    /** `deleteItem`. */
    method DeleteItem(id: int)
      modifies this
      ensures items == Without(old(items), id)
    {
      items := Without(items, id);
    }

    /** `getItem`: the first document with the id. */
    function GetItem(id: int): (r: Option<ViewerItem>)
      reads this
      ensures r.Some? <==> exists k :: 0 <= k < |items| && items[k].id == id
      ensures r.Some? ==> r.value.id == id && r.value in items
    {
      match FindIndex(items, id)
      case None => None
      case Some(i) => Some(items[i])
    }

    /** `loadImage`: the path to stream, or nothing for an unknown document
        or an index at or past the number of images. */
    function LoadImage(docId: int, id: int): (r: Option<string>)
      reads this
      ensures r.Some? <==> GetItem(docId).Some? && id < GetItem(docId).value.numImages
      ensures r.Some? ==> r.value == ImagePath(GetItem(docId).value.processedPath, id)
    {
      match GetItem(docId)
      case None => None
      case Some(item) =>
        if id >= item.numImages then None else Some(ImagePath(item.processedPath, id))
    }
  }
}
