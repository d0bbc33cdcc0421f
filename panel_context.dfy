/** A first-generation panel: its directory, listing and cursor, updated in place. */
module PanelContexts {
  import opened Options
  import opened Paths
  import opened FileSystems
  import opened Navigation
  import opened Sorting
  import opened FileLists
  import opened PanelItemContexts

  /** How a `Result`-returning operation ends: `Ok`, `Err`, or a panic. */
  datatype Outcome = Ok | Err | Panicked

  function DisplayKey(item: PanelItemContext): string
  {
    item.DisplayString()
  }

  function IsDirKey(fs: FileSystem): PanelItemContext -> bool
  {
    (item: PanelItemContext) => item.IsDir(fs)
  }

  /** Each listed path as a fresh, unmarked entry. */
  function Wrapped(paths: seq<Path>): (items: seq<PanelItemContext>)
    ensures |items| == |paths|
    ensures forall i :: 0 <= i < |paths| ==> items[i] == PanelItemContext.New(paths[i])
  {
    seq(|paths|, i requires 0 <= i < |paths| => PanelItemContext.New(paths[i]))
  }

  /** What `read_files` stores for `path`: the listing sorted by display string
      and then, stably, directories first. None where the listing fails. */
  function Listing(fs: FileSystem, path: Path): (r: Option<seq<PanelItemContext>>)
    ensures r.Some? <==> fs.readDir(path).Some?
    ensures r.Some? ==> |r.value| == |ReadablePaths(fs.readDir(path).value)| + 1
  {
    match ReadFileList(fs, path)
    case None => None
    case Some(list) =>
      var sorted := DirsFirst(SortBy(Wrapped(list), DisplayKey), IsDirKey(fs));
      assert |sorted| == |multiset(sorted)| == |list|;
      Some(sorted)
  }

  /** A listing holds exactly the listed paths, unmarked, with the directories
      first and each group ordered by display string. */
  lemma ListingOrder(fs: FileSystem, path: Path)
    requires fs.readDir(path).Some?
    ensures var items := Listing(fs, path).value;
      && multiset(items) == multiset(Wrapped(ReadFileList(fs, path).value))
      && DirsBeforeFiles(items, IsDirKey(fs))
      && GroupsSortedBy(items, DisplayKey, IsDirKey(fs))
      && PanelItemContext.New(ParentEntry) in items
      && forall i :: 0 <= i < |items| ==> !items[i].marked
  {
    var list := ReadFileList(fs, path).value;
    var wrapped := Wrapped(list);
    var items := Listing(fs, path).value;
    assert items == DirsFirst(SortBy(wrapped, DisplayKey), IsDirKey(fs));
    TwoPassOrder(wrapped, DisplayKey, IsDirKey(fs));
    assert wrapped[|list| - 1] == PanelItemContext.New(ParentEntry);
    assert PanelItemContext.New(ParentEntry) in multiset(items);
    PermutedKeeps(items, wrapped, (item: PanelItemContext) => !item.marked);
  }

  class PanelContext {
    var active: bool
    var path: Path
    var items: seq<PanelItemContext>
    var index: nat

    /** The listing is never empty and the cursor is on one of its entries. */
    ghost predicate Valid()
      reads this
    {
      0 < |items| && index < |items|
    }

    constructor Init(active: bool, path: Path)
      ensures this.active == active && this.path == path && items == [] && index == 0
    {
      this.active := active;
      this.path := path;
      items := [];
      index := 0;
    }

    /** `PanelContext::new` on the working directory `cwd` (None when
        `current_dir` fails); None also when the listing fails. */
    static method New(active: bool, cwd: Option<Path>, fs: FileSystem) returns (r: Option<PanelContext>)
      ensures r.Some? <==> cwd.Some? && fs.readDir(cwd.value).Some?
      ensures r.Some? ==> fresh(r.value) && r.value.Valid()
      ensures r.Some? ==> r.value.active == active && r.value.path == cwd.value && r.value.index == 0
      ensures r.Some? ==> r.value.items == Listing(fs, cwd.value).value
    {
      if cwd.None? {
        return None;
      }
      var result := new PanelContext.Init(active, cwd.value);
      var ok := result.ReadFiles(fs);
      if !ok {
        return None;
      }
      return Some(result);
    }

    /** `current_item`: the entry under the cursor; the `expect` panics (None)
        past the end. */
    function CurrentItem(): (item: Option<PanelItemContext>)
      reads this
      ensures item.Some? <==> index < |items|
      ensures item.Some? ==> item.value == items[index]
    {
      if index < |items| then Some(items[index]) else None
    }

    function CurrentItemIsDir(fs: FileSystem): Option<bool>
      reads this
    {
      match CurrentItem()
      case None => None
      case Some(item) => Some(item.IsDir(fs))
    }

    function CurrentItemFullPath(): Option<string>
      reads this
    {
      match CurrentItem()
      case None => None
      case Some(item) => Some(item.FullPath())
    }

    function PathString(): string
      reads this
    {
      Display(path)
    }

    /** `current_filename`: `file_name` of the entry under the cursor; None
        where the `expect` panics. */
    function CurrentFilename(): (name: Option<string>)
      reads this
      ensures name.Some? <==> index < |items|
      ensures name.Some? ==> name.value == FileLists.FileName(items[index].path)
    {
      if index < |items| then Some(FileLists.FileName(items[index].path)) else None
    }

    /** `mark_current_item`: only the entry under the cursor changes, and only
        its mark. */
    method MarkCurrentItem()
      requires Valid()
      modifies this
      ensures index == old(index) && path == old(path) && active == old(active)
      ensures items == old(items)[index := old(items[index]).Mark()]
      ensures Valid()
    {
      items := items[index := items[index].Mark()];
    }

    /** `sub_index`; an empty listing would be a division by zero. */
    method SubIndex(times: Usize)
      requires |items| > 0
      modifies this
      ensures Valid()
      ensures index == RetreatIndex(old(index), |items|, times)
      ensures items == old(items) && path == old(path) && active == old(active)
    {
      index := SaturatingSub(index, times) % |items|;
    }

    /** `add_index`; an empty listing would be a division by zero. */
    method AddIndex(times: Usize)
      requires |items| > 0
      modifies this
      ensures Valid()
      ensures index == AdvanceIndex(old(index), |items|, times)
      ensures items == old(items) && path == old(path) && active == old(active)
    {
      var newIndex := SaturatingAdd(index, times) % |items|;
      if newIndex > index {
        index := newIndex;
      } else {
        index := |items| - 1;
      }
    }

    /** `read_files`: the sorted listing of the panel's own path and the cursor
        on the first entry; on an `Err` nothing changes. */
    method ReadFiles(fs: FileSystem) returns (ok: bool)
      modifies this
      ensures ok <==> fs.readDir(path).Some?
      ensures ok ==> items == Listing(fs, path).value && index == 0 && Valid()
      ensures !ok ==> items == old(items) && index == old(index)
      ensures path == old(path) && active == old(active)
    {
      var listing := Listing(fs, path);
      if listing.None? {
        return false;
      }
      items := listing.value;
      index := 0;
      return true;
    }

    /** `cd`: push the current entry's name onto the path, canonicalise it,
        make it the process's working directory and rescan. Each `?` returns
        `Err` with what was already done kept: a failed canonicalisation leaves
        the pushed path over the old listing. */
    method Cd(fs: FileSystem) returns (outcome: Outcome)
      modifies this
      ensures active == old(active)
      ensures old(index) >= |old(items)| ==>
        outcome == Panicked && path == old(path) && items == old(items) && index == old(index)
      ensures old(index) < |old(items)| ==>
        var pushed := Push(old(path), FileLists.FileName(old(items)[old(index)].path));
        var target := fs.canonicalize(pushed);
        && (target.None? ==> outcome == Err && path == pushed)
        && (target.Some? ==> path == target.value)
        && (outcome == Ok <==> target.Some? && fs.setCurrentDir(target.value) && fs.readDir(target.value).Some?)
        && (outcome == Ok ==> items == Listing(fs, path).value && index == 0)
        && (outcome != Ok ==> items == old(items) && index == old(index))
      ensures old(Valid()) ==> Valid()
    {
      var file := CurrentFilename();
      if file.None? {
        return Panicked;
      }
      path := Push(path, file.value);
      var canonical := fs.canonicalize(path);
      if canonical.None? {
        return Err;
      }
      path := canonical.value;
      if !fs.setCurrentDir(path) {
        return Err;
      }
      var ok := ReadFiles(fs);
      if !ok {
        return Err;
      }
      return Ok;
    }
  }
}
