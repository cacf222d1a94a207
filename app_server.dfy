/** The standalone app's server state: the store of items kept in its
    config file, and the single-runner queue that processes new items one at
    a time. The two source files import each other, so they form one module
    here. File reads and writes are left out: what a read returns is a
    parameter, and a write changes nothing the model tracks. */
module AppServer {
  import opened Wrappers
  import opened Strings
  import VideoModel

  // ---- items --------------------------------------------------------------

  datatype ImageInfo = ImageInfo(maxIndex: int, removed: seq<int>, interval: real)

  /** The reader's own state for an item; `processStatus` is absent until
      the item goes through the queue. */
  datatype ViewerData = ViewerData(read: bool, progress: real, processStatus: Option<string>)

  /** The record of a failed processing run (its empty `timing` is dropped).
      A successful run's record holds only `timing`, so with `timing` left
      out it is `None`. */
  datatype ProcessInfo = ProcessInfo(error: string)

  /** An item of the config. `viewerData` is absent in configs written before
      version 1. */
  datatype AppItem = AppItem(
    id: int,
    title: string,
    originalVideoPath: string,
    processedPath: string,
    summary: string,
    images: ImageInfo,
    duration: real,
    viewerData: Option<ViewerData>,
    process: Option<ProcessInfo>)

  /** The per-item config a processing run writes and `loadItem` reads back
      (with `processedPath` set to the directory's name). Its `process`
      record holds only `timing` and never an error, so it is not a field
      here: overlaying it leaves the item with no recorded error. */
  datatype ItemConfig = ItemConfig(
    title: string,
    originalVideoPath: string,
    processedPath: string,
    summary: string,
    images: ImageInfo,
    duration: real)

  const ConfigVersion: int := 2
  const DefaultViewerData: ViewerData := ViewerData(false, 0.0, None)

  predicate AllHaveViewerData(items: seq<AppItem>) {
    forall k :: 0 <= k < |items| ==> items[k].viewerData.Some?
  }

  predicate DistinctIds(items: seq<AppItem>) {
    forall j, k :: 0 <= j < k < |items| ==> items[j].id != items[k].id
  }

  /** `items.reduce((acc, item) => Math.max(acc, item.id), 0)`. */
  function MaxId(items: seq<AppItem>): (r: int)
    ensures r >= 0
    ensures forall k :: 0 <= k < |items| ==> items[k].id <= r
    ensures r == 0 || exists k :: 0 <= k < |items| && items[k].id == r
  {
    if items == [] then 0
    else
      var acc := MaxId(items[..|items| - 1]);
      var last := items[|items| - 1].id;
      if acc >= last then acc else last
  }

  /** The id a new item gets: one more than the largest, so greater than
      every id in use. */
  function NewId(items: seq<AppItem>): (r: int)
    ensures r >= 1
    ensures forall k :: 0 <= k < |items| ==> items[k].id < r
  {
    MaxId(items) + 1
  }

  /** `findIndex` by id: the first item with that id. */
  function FindIndex(items: seq<AppItem>, id: int): (r: Option<nat>)
    ensures r.Some? ==> r.value < |items| && items[r.value].id == id
    ensures r.Some? ==> forall k :: 0 <= k < r.value ==> items[k].id != id
    ensures r.None? ==> forall k :: 0 <= k < |items| ==> items[k].id != id
  {
    if items == [] then None
    else if items[0].id == id then Some(0)
    else match FindIndex(items[1..], id)
      case None => None
      case Some(k) => Some(k + 1)
  }

  /** `find` by processed path: the first item stored under that path. */
  function FindByPath(items: seq<AppItem>, path: string): (r: Option<nat>)
    ensures r.Some? ==> r.value < |items| && items[r.value].processedPath == path
    ensures r.Some? ==> forall k :: 0 <= k < r.value ==> items[k].processedPath != path
    ensures r.None? ==> forall k :: 0 <= k < |items| ==> items[k].processedPath != path
  {
    if items == [] then None
    else if items[0].processedPath == path then Some(0)
    else match FindByPath(items[1..], path)
      case None => None
      case Some(k) => Some(k + 1)
  }

  /** `filter((item) => item.id !== id)`. */
  function Without(items: seq<AppItem>, id: int): (r: seq<AppItem>)
    ensures |r| <= |items|
    ensures forall k :: 0 <= k < |r| ==> r[k].id != id
    ensures forall x :: x in r <==> x in items && x.id != id
  {
    if items == [] then []
    else if items[0].id == id then Without(items[1..], id)
    else [items[0]] + Without(items[1..], id)
  }

  /** The filter keeps the order: it distributes over concatenation. */
  lemma {:induction false} WithoutConcat(a: seq<AppItem>, b: seq<AppItem>, id: int)
    ensures Without(a + b, id) == Without(a, id) + Without(b, id)
    decreases |a|
  {
    if a != [] {
      assert (a + b)[1..] == a[1..] + b;
      WithoutConcat(a[1..], b, id);
    } else {
      assert a + b == b;
    }
  }

  /** Removing an id that is not there changes nothing. */
  lemma {:induction false} WithoutAbsent(items: seq<AppItem>, id: int)
    requires forall k :: 0 <= k < |items| ==> items[k].id != id
    ensures Without(items, id) == items
    decreases |items|
  {
    if items != [] {
      WithoutAbsent(items[1..], id);
      assert [items[0]] + items[1..] == items;
    }
  }

  // ---- loading and migrating the config -------------------------------------

  /** What migration does to the items: before version 1 every item gets
      fresh reader state. */
  function MigratedItems(version: Option<int>, items: seq<AppItem>): (r: seq<AppItem>)
    ensures |r| == |items|
  {
    if version.GetOr(0) < 1 then
      seq(|items|, k requires 0 <= k < |items| => items[k].(viewerData := Some(DefaultViewerData)))
    else items
  }

  /** The start-up pass that gives reader state to every item lacking it. */
  function FilledItems(items: seq<AppItem>): (r: seq<AppItem>)
    ensures |r| == |items| && AllHaveViewerData(r)
    ensures forall k :: 0 <= k < |items| ==> r[k].id == items[k].id
  {
    seq(|items|, k requires 0 <= k < |items| =>
      if items[k].viewerData.None? then items[k].(viewerData := Some(DefaultViewerData)) else items[k])
  }

  /** The start-up test as written, `config.version ?? 0 < CONFIG_VERSION`:
      `<` binds tighter than `??`, so it reads `version ?? true` and is
      taken for any version but 0. */
  function MigrationTestAsWritten(version: Option<int>): (r: bool)
    ensures r <==> version != Some(0)
  {
    version.None? || version.value != 0
  }

  /** The evidently intended test: migrate a config older than the current
      version. */
  function MigrationNeeded(version: Option<int>): (r: bool)
    ensures r <==> version.GetOr(0) < ConfigVersion
  {
    version.GetOr(0) < ConfigVersion
  }

  /** The loaded config under the start-up test as written. */
  function LoadedAsWritten(version: Option<int>, items: seq<AppItem>): (r: (Option<int>, seq<AppItem>))
    ensures r.0 == if version == Some(0) then version else Some(ConfigVersion)
    ensures |r.1| == |items| && AllHaveViewerData(r.1)
  {
    if MigrationTestAsWritten(version) then (Some(ConfigVersion), FilledItems(MigratedItems(version, items)))
    else (version, FilledItems(items))
  }

  /** The loaded config under the intended test. */
  function Loaded(version: Option<int>, items: seq<AppItem>): (r: (Option<int>, seq<AppItem>))
    ensures r.0 == if version.GetOr(0) < ConfigVersion then Some(ConfigVersion) else version
    ensures |r.1| == |items| && AllHaveViewerData(r.1)
  {
    if MigrationNeeded(version) then (Some(ConfigVersion), FilledItems(MigratedItems(version, items)))
    else (version, FilledItems(items))
  }

  /** As written, a version-0 config is neither migrated nor marked current,
      and a config from a newer version is marked as version 2. */
  lemma MigrationTestCounterexamples(item: AppItem)
    requires item.viewerData == Some(ViewerData(true, 0.5, None))
    ensures LoadedAsWritten(Some(0), [item]) == (Some(0), [item])
    ensures Loaded(Some(0), [item]) == (Some(ConfigVersion), [item.(viewerData := Some(DefaultViewerData))])
    ensures LoadedAsWritten(Some(3), []).0 == Some(ConfigVersion) && Loaded(Some(3), []).0 == Some(3)
  {
    assert FilledItems([item]) == [item];
    assert MigratedItems(Some(0), [item]) == [item.(viewerData := Some(DefaultViewerData))];
    assert FilledItems([item.(viewerData := Some(DefaultViewerData))]) == [item.(viewerData := Some(DefaultViewerData))];
  }

  /** With the intended test a loaded config is at least the current
      version, every item has reader state, items before version 1 start
      unread, and the ids and their order are kept. */
  lemma LoadedIsCurrent(version: Option<int>, items: seq<AppItem>)
    ensures var (v, its) := Loaded(version, items);
      && v.Some? && v.value >= ConfigVersion
      && AllHaveViewerData(its) && |its| == |items|
      && (forall k :: 0 <= k < |items| ==> its[k].id == items[k].id)
      && (version.GetOr(0) < 1 ==> forall k :: 0 <= k < |its| ==> its[k].viewerData == Some(DefaultViewerData))
  {
    var migrated := MigratedItems(version, items);
    assert forall k :: 0 <= k < |items| ==> migrated[k].id == items[k].id;
  }

  /** Loading a config that is already current changes only missing reader
      state: loading twice is loading once. */
  lemma LoadedIdempotent(version: Option<int>, items: seq<AppItem>)
    ensures Loaded(Loaded(version, items).0, Loaded(version, items).1) == Loaded(version, items)
  {
    var (v, its) := Loaded(version, items);
    LoadedIsCurrent(version, items);
    assert FilledItems(its) == its;
  }

  // ---- updates ------------------------------------------------------------

  /** The changes `updateItem` is called with. */
  datatype Update =
    | SetRead(read: bool)
    | SetProgress(progress: real)
    | SetStatus(status: string)
    | FlagError(error: string)
    | Finish(result: ItemConfig)

  /** One item after an update. */
  function Applied(item: AppItem, u: Update): (r: AppItem)
    requires item.viewerData.Some?
    ensures r.id == item.id && r.viewerData.Some?
  {
    var vd := item.viewerData.value;
    match u
    case SetRead(read) => item.(viewerData := Some(vd.(read := read)))
    case SetProgress(progress) => item.(viewerData := Some(vd.(progress := progress)))
    case SetStatus(status) => item.(viewerData := Some(vd.(processStatus := Some(status))))
    case FlagError(error) => item.(viewerData := Some(vd.(processStatus := Some("error"))), process := Some(ProcessInfo(error)))
    case Finish(c) =>
      item.(title := c.title, originalVideoPath := c.originalVideoPath, processedPath := c.processedPath,
        summary := c.summary, images := c.images, duration := c.duration,
        viewerData := Some(vd.(processStatus := Some("complete"))), process := None)
  }

  /** The reader-state updates touch one field of it each; finishing
      overlays the processing result, whose error-free `process` record
      replaces any recorded error, marks the item complete and keeps its
      id, read flag and progress. */
  lemma UpdatesAreLocal(item: AppItem, u: Update)
    requires item.viewerData.Some?
    ensures var r := Applied(item, u);
      var vd := item.viewerData.value;
      && (u.SetRead? ==> r == item.(viewerData := Some(ViewerData(u.read, vd.progress, vd.processStatus))))
      && (u.SetProgress? ==> r == item.(viewerData := Some(ViewerData(vd.read, u.progress, vd.processStatus))))
      && (u.SetStatus? ==> r == item.(viewerData := Some(ViewerData(vd.read, vd.progress, Some(u.status)))))
      && (u.FlagError? ==>
            (r.process == Some(ProcessInfo(u.error)) && r.viewerData.value.processStatus == Some("error")
             && r.viewerData.value.read == vd.read && r.title == item.title))
      && (u.Finish? ==>
            (r.viewerData.value == ViewerData(vd.read, vd.progress, Some("complete"))
             && r.process.None?
             && r.title == u.result.title && r.originalVideoPath == u.result.originalVideoPath
             && r.processedPath == u.result.processedPath && r.summary == u.result.summary
             && r.images == u.result.images && r.duration == u.result.duration))
  {
  }

  /** `updateItem`: the first item with the id is replaced by its update;
      without one nothing changes. */
  function UpdatedItems(items: seq<AppItem>, id: int, u: Update): (r: seq<AppItem>)
    requires AllHaveViewerData(items)
    ensures |r| == |items| && AllHaveViewerData(r)
  {
    match FindIndex(items, id)
    case None => items
    case Some(i) => items[i := Applied(items[i], u)]
  }

  function UpdateResult(items: seq<AppItem>, id: int, u: Update): (r: Option<AppItem>)
    requires AllHaveViewerData(items)
    ensures r.Some? <==> FindIndex(items, id).Some?
  {
    match FindIndex(items, id)
    case None => None
    case Some(i) => Some(Applied(items[i], u))
  }

  /** An update changes at most the first item with the id, keeps every id
      where it was, and so keeps the ids distinct. */
  lemma UpdateOnlyTarget(items: seq<AppItem>, id: int, u: Update)
    requires AllHaveViewerData(items)
    ensures var r := UpdatedItems(items, id, u);
      && (forall k :: 0 <= k < |items| ==> r[k].id == items[k].id)
      && (forall k :: 0 <= k < |items| && items[k].id != id ==> r[k] == items[k])
      && (FindIndex(items, id).None? ==> r == items)
      && (DistinctIds(items) ==> DistinctIds(r))
  {
  }

  // ---- adding, reloading and removing items --------------------------------

  /** A new item from a loaded config: fresh reader state under the new id. */
  function NewItem(id: int, c: ItemConfig): (r: AppItem)
    ensures r.id == id && r.processedPath == c.processedPath && r.viewerData == Some(DefaultViewerData)
  {
    AppItem(id, c.title, c.originalVideoPath, c.processedPath, c.summary, c.images, c.duration,
      Some(DefaultViewerData), None)
  }

  /** `loadNewItem` on a path: the item already stored under it, or a new
      item from the config read there, or nothing when that read fails. */
  function LoadNew(items: seq<AppItem>, file: string, loaded: Option<ItemConfig>): (r: (seq<AppItem>, Option<AppItem>))
    ensures FindByPath(items, file).Some? ==> r == (items, Some(items[FindByPath(items, file).value]))
    ensures FindByPath(items, file).None? && loaded.None? ==> r == (items, None)
    ensures FindByPath(items, file).None? && loaded.Some? ==>
      && r.0 == items + [NewItem(NewId(items), loaded.value)]
      && r.1 == Some(NewItem(NewId(items), loaded.value))
  {
    match FindByPath(items, file)
    case Some(i) => (items, Some(items[i]))
    case None =>
      match loaded
      case None => (items, None)
      case Some(c) =>
        var item := NewItem(NewId(items), c);
        (items + [item], Some(item))
  }

  /** Loading keeps the stored items, adds at most one, and the added one's
      id is new; once the config records the path it was loaded from, loading
      it again adds nothing. */
  lemma LoadNewAddsFreshOnce(items: seq<AppItem>, file: string, c: ItemConfig)
    requires c.processedPath == file
    ensures var (after, r) := LoadNew(items, file, Some(c));
      && r.Some? && r.value.processedPath == file
      && after[..|items|] == items
      && (DistinctIds(items) ==> DistinctIds(after))
      && LoadNew(after, file, Some(c)) == (after, r)
  {
    var (after, r) := LoadNew(items, file, Some(c));
    if FindByPath(items, file).None? {
      var item := NewItem(NewId(items), c);
      assert after == items + [item];
      var again := FindByPath(after, file);
      assert after[|items|].processedPath == file;
      assert again.Some? && again.value == |items|;
    }
  }

  /** The lookup compares the path given with the stored `processedPath`,
      which `loadItem` sets to the directory's base name. When the two
      differ (a path resolved against the data directory, or one not
      directly inside it), loading the same path again appends a second item
      for the same directory under another id. */
  lemma LoadNewAgainAppends(items: seq<AppItem>, file: string, c: ItemConfig)
    requires FindByPath(items, file).None? && c.processedPath != file
    ensures var (after, r) := LoadNew(items, file, Some(c));
      var (again, r2) := LoadNew(after, file, Some(c));
      && |again| == |items| + 2
      && r.Some? && r2.Some?
      && r2.value.processedPath == r.value.processedPath
      && r2.value.id > r.value.id
  {
    var (after, r) := LoadNew(items, file, Some(c));
    assert after[|items|].processedPath == c.processedPath;
    assert forall k :: 0 <= k < |items| ==> after[k] == items[k];
    assert FindByPath(after, file).None?;
  }

  /** `reloadItem` as written: it filters the item out first and then runs
      the lookup-and-replace on what remains. */
  function ReloadAsWritten(items: seq<AppItem>, id: int, loaded: Option<ItemConfig>): (r: (seq<AppItem>, Option<AppItem>))
    ensures r.1.None?
  {
    Reload(Without(items, id), id, loaded)
  }

  /** As written, reloading always answers null and drops every item with
      that id. */
  lemma ReloadAsWrittenDrops(items: seq<AppItem>, id: int, loaded: Option<ItemConfig>)
    ensures ReloadAsWritten(items, id, loaded) == (Without(items, id), None)
    ensures FindIndex(items, id).Some? ==> FindIndex(ReloadAsWritten(items, id, loaded).0, id).None?
  {
  }

  /** The evidently intended `reloadItem`: the item's config is read again
      in place, keeping its id and reader state. */
  function Reload(items: seq<AppItem>, id: int, loaded: Option<ItemConfig>): (r: (seq<AppItem>, Option<AppItem>))
    ensures |r.0| == |items|
    ensures r.1.Some? <==> FindIndex(items, id).Some? && loaded.Some?
  {
    match FindIndex(items, id)
    case None => (items, None)
    case Some(i) =>
      match loaded
      case None => (items, None)
      case Some(c) =>
        var item := AppItem(items[i].id, c.title, c.originalVideoPath, c.processedPath, c.summary,
          c.images, c.duration, items[i].viewerData, None);
        (items[i := item], Some(item))
  }

  /** Reloading keeps every item and every id in place, keeps the reloaded
      item's reader state, and answers it when it was found and read. */
  lemma ReloadKeepsItem(items: seq<AppItem>, id: int, loaded: Option<ItemConfig>)
    ensures var (after, r) := Reload(items, id, loaded);
      && |after| == |items|
      && (forall k :: 0 <= k < |items| ==> after[k].id == items[k].id)
      && (forall k :: 0 <= k < |items| && items[k].id != id ==> after[k] == items[k])
      && (r.Some? <==> FindIndex(items, id).Some? && loaded.Some?)
      && (r.Some? ==> var i := FindIndex(items, id).value;
            after[i] == r.value && r.value.viewerData == items[i].viewerData && r.value.title == loaded.value.title)
  {
  }

  // ---- images -------------------------------------------------------------

  /** The file name `loadImage` reads for image `id`: frames are numbered
      from 1 on disk, and the number is padded as a string. */
  function ImageFileName(id: int): string {
    "image-" + PadStart(IntToString(id + 1), 5, '0') + ".webp"
  }

  /** For image indices from 0 the name is the extractor's name of frame
      `id + 1`. */
  lemma ImageFileNameOfFrame(id: nat)
    ensures ImageFileName(id) == VideoModel.ImageFilename(id + 1, None)
  {
  }

  // ---- the store ------------------------------------------------------------

  /** The module-level config of the app's data store. */
  class ItemStore {
    var version: Option<int>
    var items: seq<AppItem>

    ghost predicate Valid()
      reads this
    {
      AllHaveViewerData(items)
    }

    /** Start-up when no config can be read: an empty current config. */
    constructor Fresh()
      ensures Valid() && version == Some(ConfigVersion) && items == []
    {
      version := Some(ConfigVersion);
      items := [];
    }

    /** Start-up from a config read from disk, with the intended version
        test. */
    constructor Load(fileVersion: Option<int>, fileItems: seq<AppItem>)
      ensures Valid() && (version, items) == Loaded(fileVersion, fileItems)
    {
      version := fileVersion;
      items := fileItems;
      new;
      if MigrationNeeded(fileVersion) {
        MigrateConfig();
      }
      FillMissingViewerData();
    }

    /** `migrateConfig`. */
    method MigrateConfig()
      modifies this
      ensures items == MigratedItems(old(version), old(items))
      ensures version == Some(ConfigVersion)
    {
      if version.GetOr(0) < 1 {
        var i := 0;
        while i < |items|
          invariant 0 <= i <= |items| && |items| == |old(items)|
          invariant forall k :: 0 <= k < i ==> items[k] == old(items)[k].(viewerData := Some(DefaultViewerData))
          invariant forall k :: i <= k < |items| ==> items[k] == old(items)[k]
        {
          items := items[i := items[i].(viewerData := Some(DefaultViewerData))];
          i := i + 1;
        }
      }
      version := Some(ConfigVersion);
    }

    /** The start-up loop giving reader state to items without it. */
    method FillMissingViewerData()
      modifies this
      ensures items == FilledItems(old(items)) && version == old(version)
    {
      var i := 0;
      while i < |items|
        invariant 0 <= i <= |items| && |items| == |old(items)| && version == old(version)
        invariant forall k :: 0 <= k < i ==> items[k] == FilledItems(old(items))[k]
        invariant forall k :: i <= k < |items| ==> items[k] == old(items)[k]
      {
        if items[i].viewerData.None? {
          items := items[i := items[i].(viewerData := Some(DefaultViewerData))];
        }
        i := i + 1;
      }
    }

    /** `getItem`. */
    function GetItem(id: int): (r: Option<AppItem>)
      reads this
      ensures r.Some? <==> exists k :: 0 <= k < |items| && items[k].id == id
      ensures r.Some? ==> r.value.id == id && r.value in items
    {
      match FindIndex(items, id)
      case None => None
      case Some(i) => Some(items[i])
    }

    /** `updateItem`. */
    method UpdateItem(docId: int, u: Update) returns (r: Option<AppItem>)
      requires Valid()
      modifies this
      ensures Valid() && version == old(version)
      ensures items == UpdatedItems(old(items), docId, u)
      ensures r == UpdateResult(old(items), docId, u)
    {
      var i := FindIndex(items, docId);
      if i.None? {
        return None;
      }
      var item := Applied(items[i.value], u);
      items := items[i.value := item];
      r := Some(item);
    }

    method UpdateReadState(docId: int, read: bool) returns (r: Option<AppItem>)
      requires Valid()
      modifies this
      ensures Valid() && version == old(version)
      ensures items == UpdatedItems(old(items), docId, SetRead(read))
      ensures r == UpdateResult(old(items), docId, SetRead(read))
    {
      r := UpdateItem(docId, SetRead(read));
    }

    method UpdateReadProgress(docId: int, progress: real) returns (r: Option<AppItem>)
      requires Valid()
      modifies this
      ensures Valid() && version == old(version)
      ensures items == UpdatedItems(old(items), docId, SetProgress(progress))
      ensures r == UpdateResult(old(items), docId, SetProgress(progress))
    {
      r := UpdateItem(docId, SetProgress(progress));
    }

    method UpdateProcessStatus(docId: int, status: string) returns (r: Option<AppItem>)
      requires Valid()
      modifies this
      ensures Valid() && version == old(version)
      ensures items == UpdatedItems(old(items), docId, SetStatus(status))
      ensures r == UpdateResult(old(items), docId, SetStatus(status))
    {
      r := UpdateItem(docId, SetStatus(status));
    }

    method FlagProcessingError(docId: int, error: string) returns (r: Option<AppItem>)
      requires Valid()
      modifies this
      ensures Valid() && version == old(version)
      ensures items == UpdatedItems(old(items), docId, FlagError(error))
      ensures r == UpdateResult(old(items), docId, FlagError(error))
    {
      r := UpdateItem(docId, FlagError(error));
    }

    method FinishProcessing(docId: int, result: ItemConfig) returns (r: Option<AppItem>)
      requires Valid()
      modifies this
      ensures Valid() && version == old(version)
      ensures items == UpdatedItems(old(items), docId, Finish(result))
      ensures r == UpdateResult(old(items), docId, Finish(result))
    {
      r := UpdateItem(docId, Finish(result));
    }

    /** `loadNewItem`; `loaded` is what reading the path's config gives. */
    method LoadNewItem(file: string, loaded: Option<ItemConfig>) returns (r: Option<AppItem>)
      requires Valid()
      modifies this
      ensures Valid() && version == old(version)
      ensures (items, r) == LoadNew(old(items), file, loaded)
    {
      var existing := FindByPath(items, file);
      if existing.Some? {
        return Some(items[existing.value]);
      }
      if loaded.None? {
        return None;
      }
      var id := MaxId(items) + 1;
      var item := NewItem(id, loaded.value);
      items := items + [item];
      r := Some(item);
    }

    /** `deleteItem`. */
    method DeleteItem(id: int)
      requires Valid()
      modifies this
      ensures Valid() && version == old(version)
      ensures items == Without(old(items), id)
    {
      items := Without(items, id);
    }

    /** `reloadItem` as written. */
    method ReloadItemAsWritten(id: int, loaded: Option<ItemConfig>) returns (r: Option<AppItem>)
      requires Valid()
      modifies this
      ensures Valid() && version == old(version)
      ensures (items, r) == ReloadAsWritten(old(items), id, loaded)
    {
      items := Without(items, id);
      r := ReloadItem(id, loaded);
    }

    /** The evidently intended `reloadItem`. */
    method ReloadItem(id: int, loaded: Option<ItemConfig>) returns (r: Option<AppItem>)
      requires Valid()
      modifies this
      ensures Valid() && version == old(version)
      ensures (items, r) == Reload(old(items), id, loaded)
    {
      var i := FindIndex(items, id);
      if i.None? {
        return None;
      }
      if loaded.None? {
        return None;
      }
      var existing := items[i.value];
      var c := loaded.value;
      var item := AppItem(existing.id, c.title, c.originalVideoPath, c.processedPath, c.summary,
        c.images, c.duration, existing.viewerData, None);
      items := items[i.value := item];
      r := Some(item);
    }

    /** `loadImage`: the path of the image file to stream, or nothing for an
        unknown item or an index past the last image. */
    function LoadImage(docId: int, id: int): (r: Option<string>)
      reads this
      ensures GetItem(docId).None? ==> r.None?
      ensures GetItem(docId).Some? ==> (r.Some? <==> id <= GetItem(docId).value.images.maxIndex)
      ensures r.Some? ==> r.value == GetItem(docId).value.processedPath + "/" + ImageFileName(id)
    {
      match GetItem(docId)
      case None => None
      case Some(item) =>
        if id > item.images.maxIndex then None
        else Some(item.processedPath + "/" + ImageFileName(id))
    }

    /** `enqueueNewItem`: a placeholder item under a new id, queued for
        processing. */
    method EnqueueNewItem(inputUrl: string, queue: ProcessQueue)
      requires Valid() && queue.Valid()
      modifies this, queue
      ensures Valid() && queue.Valid() && version == old(version)
      ensures items == old(items) + [QueuedItem(NewId(old(items)), inputUrl)]
      ensures queue.accepted == old(queue.accepted) + [QueueEntry(NewId(old(items)), inputUrl)]
    {
      var id := MaxId(items) + 1;
      items := items + [QueuedItem(id, inputUrl)];
      var _ := queue.QueueItem(id, inputUrl);
    }

    /** `reprocessItem`: a known item goes through the queue again. */
    method ReprocessItem(id: int, queue: ProcessQueue) returns (found: bool)
      requires Valid() && queue.Valid()
      modifies queue
      ensures queue.Valid()
      ensures found <==> GetItem(id).Some?
      ensures found ==> queue.accepted == old(queue.accepted) + [QueueEntry(id, GetItem(id).value.originalVideoPath)]
      ensures !found ==> queue.accepted == old(queue.accepted) && queue.queue == old(queue.queue)
    {
      var item := GetItem(id);
      if item.None? {
        return false;
      }
      var _ := queue.QueueItem(id, item.value.originalVideoPath);
      found := true;
    }
  }

  /** The placeholder `enqueueNewItem` stores before processing. */
  function QueuedItem(id: int, inputUrl: string): (r: AppItem)
    ensures r.id == id && r.originalVideoPath == inputUrl
    ensures r.viewerData == Some(ViewerData(false, 0.0, Some("queued")))
  {
    AppItem(id, "", inputUrl, "", "", ImageInfo(0, [], 0.0), 0.0, Some(ViewerData(false, 0.0, Some("queued"))), None)
  }

  /** Enqueuing keeps the stored items, appends one under an id no item
      has, and so keeps ids distinct. */
  lemma EnqueueKeepsIdsDistinct(items: seq<AppItem>, inputUrl: string)
    requires DistinctIds(items)
    ensures var after := items + [QueuedItem(NewId(items), inputUrl)];
      && DistinctIds(after) && after[..|items|] == items
      && GetFirst(after, NewId(items)) == Some(QueuedItem(NewId(items), inputUrl))
  {
    var after := items + [QueuedItem(NewId(items), inputUrl)];
    assert after[..|items|] == items;
    assert after[|items|].id == NewId(items);
    assert forall k :: 0 <= k < |items| ==> after[k] == items[k];
    assert FindIndex(after, NewId(items)) == Some(|items|);
  }

  /** The first item with an id, as `getItem` finds it. */
  function GetFirst(items: seq<AppItem>, id: int): (r: Option<AppItem>)
    ensures r.Some? ==> r.value.id == id
  {
    match FindIndex(items, id)
    case None => None
    case Some(i) => Some(items[i])
  }

  // ---- the processing queue -------------------------------------------------

  datatype QueueEntry = QueueEntry(id: int, url: string)

  /** How one processing run ends: with the item's new config, or with the
      error it threw. */
  datatype Outcome = Succeeded(result: ItemConfig) | Failed(message: string)

  /** What a run does to the store when it ends. */
  function AfterRun(items: seq<AppItem>, id: int, outcome: Outcome): (r: seq<AppItem>)
    requires AllHaveViewerData(items)
    ensures |r| == |items| && AllHaveViewerData(r)
  {
    match outcome
    case Succeeded(c) => UpdatedItems(items, id, Finish(c))
    case Failed(message) => UpdatedItems(UpdatedItems(items, id, SetStatus("error")), id, FlagError(message))
  }

  /** Whichever way a run ends, its item records it: complete with the
      result, or in error with the message; the other items are untouched. */
  lemma RunOutcomeRecorded(items: seq<AppItem>, id: int, outcome: Outcome)
    requires AllHaveViewerData(items) && FindIndex(items, id).Some?
    ensures var r := AfterRun(items, id, outcome);
      var i := FindIndex(items, id).value;
      && (forall k :: 0 <= k < |items| && k != i ==> r[k] == items[k])
      && (outcome.Succeeded? ==>
            r[i].viewerData.value.processStatus == Some("complete") && r[i].title == outcome.result.title
            && r[i].process.None?)
      && (outcome.Failed? ==> r[i].viewerData.value.processStatus == Some("error") && r[i].process == Some(ProcessInfo(outcome.message)))
  {
    var i := FindIndex(items, id).value;
    match outcome {
      case Succeeded(c) =>
        assert AfterRun(items, id, outcome) == items[i := Applied(items[i], Finish(c))];
      case Failed(message) =>
        var once := items[i := Applied(items[i], SetStatus("error"))];
        assert UpdatedItems(items, id, SetStatus("error")) == once;
        assert FindIndex(once, id) == Some(i) by {
          FindIndexOfSameIds(items, once, id);
        }
        var twice := once[i := Applied(once[i], FlagError(message))];
        assert AfterRun(items, id, outcome) == twice;
    }
  }

  /** The lookup by id sees only the ids. */
  lemma {:induction false} FindIndexOfSameIds(a: seq<AppItem>, b: seq<AppItem>, id: int)
    requires |a| == |b| && forall k :: 0 <= k < |a| ==> a[k].id == b[k].id
    ensures FindIndex(a, id) == FindIndex(b, id)
    decreases |a|
  {
    if a != [] {
      FindIndexOfSameIds(a[1..], b[1..], id);
    }
  }

  /** The module-level queue of the processing worker. `running` stands for
      the arguments of the `processItem` call in flight; `accepted` and
      `started` record, for the proofs, every entry handed to `queueItem`
      and every entry whose processing began, in order. */
  class ProcessQueue {
    var queue: seq<QueueEntry>
    var isProcessing: bool
    var running: Option<QueueEntry>
    ghost var accepted: seq<QueueEntry>
    ghost var started: seq<QueueEntry>

    /** One run at a time; entries wait only while a run is in flight; and
        entries start in the order they were accepted (first in, first
        out). */
    ghost predicate Valid()
      reads this
    {
      && (isProcessing <==> running.Some?)
      && (|queue| > 0 ==> isProcessing)
      && accepted == started + queue
      && (running.Some? ==> |started| > 0 && running.value == started[|started| - 1])
    }

    constructor ()
      ensures Valid() && queue == [] && !isProcessing && accepted == []
    {
      queue := [];
      isProcessing := false;
      running := None;
      accepted := [];
      started := [];
    }

    /** `queueItem`: start at once when idle with nothing waiting, else
        wait at the back. */
    method QueueItem(id: int, url: string) returns (startImmediately: bool)
      requires Valid()
      modifies this
      ensures Valid()
      ensures startImmediately <==> |old(queue)| == 0 && !old(isProcessing)
      ensures startImmediately ==> queue == [] && running == Some(QueueEntry(id, url))
      ensures !startImmediately ==> queue == old(queue) + [QueueEntry(id, url)] && running == old(running)
      ensures isProcessing
      ensures accepted == old(accepted) + [QueueEntry(id, url)]
    {
      accepted := accepted + [QueueEntry(id, url)];
      startImmediately := |queue| == 0 && !isProcessing;
      if startImmediately {
        StartProcessing(QueueEntry(id, url));
      } else {
        queue := queue + [QueueEntry(id, url)];
      }
    }

    /** The synchronous start of `processItem`, before its first await. */
    method StartProcessing(entry: QueueEntry)
      modifies this
      ensures isProcessing && running == Some(entry)
      ensures queue == old(queue) && accepted == old(accepted) && started == old(started) + [entry]
    {
      isProcessing := true;
      running := Some(entry);
      started := started + [entry];
    }

    /** The end of a run: record its outcome on the item, then start the
        entry at the front of the queue, or go idle when none waits. */
    method Complete(store: ItemStore, outcome: Outcome)
      requires Valid() && isProcessing && store.Valid()
      modifies this, store
      ensures Valid() && store.Valid() && accepted == old(accepted)
      ensures store.items == AfterRun(old(store.items), old(running).value.id, outcome)
      ensures store.version == old(store.version)
      ensures old(queue) == [] ==> !isProcessing && queue == []
      ensures old(queue) != [] ==> queue == old(queue)[1..] && running == Some(old(queue)[0])
    {
      var id := running.value.id;
      match outcome {
        case Succeeded(c) =>
          var _ := store.FinishProcessing(id, c);
        case Failed(message) =>
          var _ := store.UpdateProcessStatus(id, "error");
          var _ := store.FlagProcessingError(id, message);
      }
      if |queue| > 0 {
        var next := queue[0];
        queue := queue[1..];
        StartProcessing(next);
      } else {
        isProcessing := false;
        running := None;
      }
    }
  }

  /** The queue never loses or reorders work: the entries started so far are
      the first ones accepted, and the rest wait in the order they arrived. */
  lemma FirstInFirstOut(q: ProcessQueue)
    requires q.Valid()
    ensures q.started == q.accepted[..|q.started|]
    ensures q.queue == q.accepted[|q.started|..]
    ensures |q.queue| > 0 ==> q.isProcessing
  {
  }
}
