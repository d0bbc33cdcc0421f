/** The store's state: two panels, the editor flags and the popup. */
module States {
  import opened Options
  import opened Paths
  import opened FileSystems
  import opened Navigation
  import opened Sorting
  import opened PanelItems
  import opened Actions

  /** The popup kinds; `Error` is the default. The source declares this enum
      next to the store, but `Snapshot` holds one, so it lives here with it. */
  datatype PopupType = Input | YesNo | Error

  datatype PanelData = PanelData(active: bool, path: Path, index: nat, items: seq<PanelItem>)

  /** A clone of the whole state: the value the store publishes to the UI. */
  datatype Snapshot = Snapshot(
    lPanel: PanelData,
    rPanel: PanelData,
    editorFile: Option<string>,
    editorModified: bool,
    popupMsg: string,
    popupType: PopupType,
    popupNextAction: Option<Action>,
    popupInput: string)
  {
    /** `active_panel`: the left panel when it is active, the right one otherwise. */
    function ActivePanel(): PanelData
    {
      if lPanel.active then lPanel else rPanel
    }

    /** Replaces the panel `ActivePanel` returns. */
    function WithActivePanel(p: PanelData): Snapshot
    {
      if lPanel.active then this.(lPanel := p) else this.(rPanel := p)
    }

    function Panel(position: PanelPosition): PanelData
    {
      match position
      case L => lPanel
      case R => rPanel
    }

    function WithPanel(position: PanelPosition, p: PanelData): Snapshot
    {
      match position
      case L => this.(lPanel := p)
      case R => this.(rPanel := p)
    }
  }

  ghost predicate ExactlyOneActive(s: Snapshot)
  {
    s.lPanel.active != s.rPanel.active
  }

  /** Every scan appends `..`, so a listing is never empty. */
  ghost predicate ItemsNonEmpty(s: Snapshot)
  {
    |s.lPanel.items| > 0 && |s.rPanel.items| > 0
  }

  /** An `Error` popup never carries an action waiting for confirmation. */
  ghost predicate PopupInvariant(s: Snapshot)
  {
    s.popupNextAction.Some? ==> s.popupType != Error
  }

  /** Only the active panel's index differs between `s` and `r`. */
  ghost predicate OnlyActiveIndexChanged(s: Snapshot, r: Snapshot)
  {
    r == s.WithActivePanel(s.ActivePanel().(index := r.ActivePanel().index))
  }

  function DisplayKey(item: PanelItem): string
  {
    item.DisplayString()
  }

  function IsDirKey(fs: FileSystem): PanelItem -> bool
  {
    (item: PanelItem) => item.IsDir(fs)
  }

  /** Each path wrapped in a fresh, unmarked entry. */
  function Unmarked(paths: seq<Path>): (items: seq<PanelItem>)
    ensures |items| == |paths|
    ensures forall i :: 0 <= i < |paths| ==> items[i] == PanelItem.New(paths[i])
  {
    seq(|paths|, i requires 0 <= i < |paths| => PanelItem.New(paths[i]))
  }

  /** `read_items(path)`: the readable entries and `..`, wrapped unmarked,
      sorted by display string and then, stably, directories first. None where
      `read_dir(path).unwrap()` panics. */
  function ReadItems(fs: FileSystem, path: Path): (r: Option<seq<PanelItem>>)
    ensures r.Some? <==> fs.readDir(path).Some?
    ensures r.Some? ==> |r.value| == |ReadablePaths(fs.readDir(path).value)| + 1
  {
    match fs.readDir(path)
    case None => None
    case Some(entries) =>
      var items := Unmarked(ReadablePaths(entries)) + [PanelItem.New(ParentEntry)];
      var sorted := DirsFirst(SortBy(items, DisplayKey), IsDirKey(fs));
      assert |sorted| == |multiset(sorted)| == |items|;
      Some(sorted)
  }

  /** A scan holds exactly the readable entries and `..`, all unmarked, with the
      directories first and each group ordered by display string. */
  lemma ReadItemsOrder(fs: FileSystem, path: Path)
    requires fs.readDir(path).Some?
    ensures var items := ReadItems(fs, path).value;
      && multiset(items) == multiset(Unmarked(ReadablePaths(fs.readDir(path).value)) + [PanelItem.New(ParentEntry)])
      && DirsBeforeFiles(items, IsDirKey(fs))
      && GroupsSortedBy(items, DisplayKey, IsDirKey(fs))
      && PanelItem.New(ParentEntry) in items
      && forall i :: 0 <= i < |items| ==> !items[i].marked
  {
    var listed := Unmarked(ReadablePaths(fs.readDir(path).value)) + [PanelItem.New(ParentEntry)];
    assert listed[|listed| - 1] == PanelItem.New(ParentEntry);
    ScanOrder(listed, fs);
    assert ReadItems(fs, path).value == DirsFirst(SortBy(listed, DisplayKey), IsDirKey(fs));
  }

  /** The two sorting passes applied to unmarked entries that include `..`. */
  lemma ScanOrder(listed: seq<PanelItem>, fs: FileSystem)
    requires forall k :: 0 <= k < |listed| ==> !listed[k].marked
    requires PanelItem.New(ParentEntry) in listed
    ensures var items := DirsFirst(SortBy(listed, DisplayKey), IsDirKey(fs));
      && multiset(items) == multiset(listed)
      && DirsBeforeFiles(items, IsDirKey(fs))
      && GroupsSortedBy(items, DisplayKey, IsDirKey(fs))
      && PanelItem.New(ParentEntry) in items
      && forall i :: 0 <= i < |items| ==> !items[i].marked
  {
    var items := DirsFirst(SortBy(listed, DisplayKey), IsDirKey(fs));
    TwoPassOrder(listed, DisplayKey, IsDirKey(fs));
    assert PanelItem.New(ParentEntry) in multiset(items);
    PermutedKeeps(items, listed, (item: PanelItem) => !item.marked);
  }

  /** `State::new` on the working directory `cwd` (None when `current_dir`
      fails): both panels show a scan of it, the left one active. None also
      where the scan panics. */
  function Start(cwd: Option<Path>, fs: FileSystem): (r: Option<Snapshot>)
    ensures r.Some? <==> cwd.Some? && fs.readDir(cwd.value).Some?
    ensures r.Some? ==> var s := r.value;
      && s.lPanel.active && !s.rPanel.active
      && s.lPanel.index == 0 && s.rPanel.index == 0
      && s.lPanel.path == s.rPanel.path == cwd.value
      && s.lPanel.items == s.rPanel.items == ReadItems(fs, cwd.value).value
      && s.editorFile.None? && !s.editorModified
      && s.popupMsg == "" && s.popupType == Error && s.popupNextAction.None? && s.popupInput == ""
    ensures r.Some? ==> ExactlyOneActive(r.value) && ItemsNonEmpty(r.value) && PopupInvariant(r.value)
  {
    if cwd.None? then None
    else
      match ReadItems(fs, cwd.value)
      case None => None
      case Some(items) =>
        Some(Snapshot(PanelData(true, cwd.value, 0, items), PanelData(false, cwd.value, 0, items),
                      None, false, "", Error, None, ""))
  }

  /** `set_active_panel_index`. */
  function WithActiveIndex(s: Snapshot, index: nat): (r: Snapshot)
    ensures OnlyActiveIndexChanged(s, r)
    ensures r.ActivePanel().index == index
    ensures r.ActivePanel().items == s.ActivePanel().items
  {
    s.WithActivePanel(s.ActivePanel().(index := index))
  }

  /** `add_index(times)` on a snapshot: the new index is below the item count
      even when the old one was not, and nothing but that index changes. */
  function Advanced(s: Snapshot, times: Usize): (r: Snapshot)
    requires |s.ActivePanel().items| > 0
    ensures OnlyActiveIndexChanged(s, r)
    ensures r.ActivePanel().index < |r.ActivePanel().items|
    ensures r.ActivePanel().index == AdvanceIndex(s.ActivePanel().index, |s.ActivePanel().items|, times)
  {
    var p := s.ActivePanel();
    WithActiveIndex(s, AdvanceIndex(p.index, |p.items|, times))
  }

  /** `sub_index(times)` on a snapshot. */
  function Retreated(s: Snapshot, times: Usize): (r: Snapshot)
    requires |s.ActivePanel().items| > 0
    ensures OnlyActiveIndexChanged(s, r)
    ensures r.ActivePanel().index < |r.ActivePanel().items|
    ensures r.ActivePanel().index == RetreatIndex(s.ActivePanel().index, |s.ActivePanel().items|, times)
  {
    var p := s.ActivePanel();
    WithActiveIndex(s, RetreatIndex(p.index, |p.items|, times))
  }

  /** `reload(position)`: only that panel's items change, to a rescan of its own
      path; None where the scan panics. */
  function Reloaded(s: Snapshot, position: PanelPosition, fs: FileSystem): (r: Option<Snapshot>)
    ensures r.Some? <==> fs.readDir(s.Panel(position).path).Some?
    ensures r.Some? ==> r.value.Panel(position).items == ReadItems(fs, s.Panel(position).path).value
    ensures r.Some? ==> r.value == s.WithPanel(position, s.Panel(position).(items := r.value.Panel(position).items))
    ensures r.Some? && ItemsNonEmpty(s) ==> ItemsNonEmpty(r.value)
    ensures r.Some? && ExactlyOneActive(s) ==> ExactlyOneActive(r.value)
  {
    var p := s.Panel(position);
    match ReadItems(fs, p.path)
    case None => None
    case Some(items) => Some(s.WithPanel(position, p.(items := items)))
  }

  /** `cd(dir)`: the active panel moves to the canonical form of its path with
      `dir` pushed, its index goes to 0 and it is rescanned; nothing else
      changes. None where `canonicalize().expect` or the scan panics. */
  function ChangedDir(s: Snapshot, dir: string, fs: FileSystem): (r: Option<Snapshot>)
    ensures var target := fs.canonicalize(Push(s.ActivePanel().path, dir));
      r.Some? <==> target.Some? && fs.readDir(target.value).Some?
    ensures r.Some? ==> var p := r.value.ActivePanel();
      && p.path == fs.canonicalize(Push(s.ActivePanel().path, dir)).value
      && p.index == 0
      && p.items == ReadItems(fs, p.path).value
      && p.active == s.ActivePanel().active
      && r.value == s.WithActivePanel(p)
    ensures r.Some? && ItemsNonEmpty(s) ==> ItemsNonEmpty(r.value)
    ensures r.Some? && ExactlyOneActive(s) ==> ExactlyOneActive(r.value)
  {
    var p := s.ActivePanel();
    match fs.canonicalize(Push(p.path, dir))
    case None => None
    case Some(target) =>
      match ReadItems(fs, target)
      case None => None
      case Some(items) => Some(s.WithActivePanel(p.(path := target, index := 0, items := items)))
  }

  /** The state the store owns and updates in place. */
  class State {
    var lPanel: PanelData
    var rPanel: PanelData
    var editorFile: Option<string>
    var editorModified: bool
    var popupMsg: string
    var popupType: PopupType
    var popupNextAction: Option<Action>
    var popupInput: string

    /** `state.clone()`. */
    function Value(): Snapshot
      reads this
    {
      Snapshot(lPanel, rPanel, editorFile, editorModified, popupMsg, popupType, popupNextAction, popupInput)
    }

    constructor Init(s: Snapshot)
      ensures Value() == s
    {
      lPanel, rPanel := s.lPanel, s.rPanel;
      editorFile, editorModified := s.editorFile, s.editorModified;
      popupMsg, popupType, popupNextAction, popupInput := s.popupMsg, s.popupType, s.popupNextAction, s.popupInput;
    }

    /** `State::new`. */
    static method New(cwd: Option<Path>, fs: FileSystem) returns (r: Option<State>)
      ensures r.Some? == Start(cwd, fs).Some?
      ensures r.Some? ==> fresh(r.value) && r.value.Value() == Start(cwd, fs).value
    {
      if cwd.None? {
        return None;
      }
      var path := cwd.value;
      var items := ReadItems(fs, path);
      if items.None? {
        return None;
      }
      var state := new State.Init(Snapshot(
        PanelData(true, path, 0, items.value),
        PanelData(false, path, 0, items.value),
        None, false, "", Error, None, ""));
      return Some(state);
    }

    function ActivePanel(): PanelData
      reads this
    {
      if lPanel.active then lPanel else rPanel
    }

    method SetActivePanelIndex(index: nat)
      modifies this
      ensures Value() == WithActiveIndex(old(Value()), index)
    {
      if lPanel.active {
        lPanel := lPanel.(index := index);
      } else {
        rPanel := rPanel.(index := index);
      }
    }

    /** `reload`; `ok` is false where the scan panics. */
    method Reload(position: PanelPosition, fs: FileSystem) returns (ok: bool)
      modifies this
      ensures ok == Reloaded(old(Value()), position, fs).Some?
      ensures ok ==> Value() == Reloaded(old(Value()), position, fs).value
    {
      ghost var s := Value();
      if position == L {
        var items := ReadItems(fs, lPanel.path);
        if items.None? {
          return false;
        }
        lPanel := lPanel.(items := items.value);
        assert Value() == s.WithPanel(L, s.lPanel.(items := items.value));
      } else {
        var items := ReadItems(fs, rPanel.path);
        if items.None? {
          return false;
        }
        rPanel := rPanel.(items := items.value);
        assert Value() == s.WithPanel(R, s.rPanel.(items := items.value));
      }
      return true;
    }

    /** `cd`; `ok` is false where canonicalisation or the scan panics. */
    method Cd(dir: string, fs: FileSystem) returns (ok: bool)
      modifies this
      ensures ok == ChangedDir(old(Value()), dir, fs).Some?
      ensures ok ==> Value() == ChangedDir(old(Value()), dir, fs).value
    {
      if lPanel.active {
        lPanel := lPanel.(path := Push(lPanel.path, dir));
        var canonical := fs.canonicalize(lPanel.path);
        if canonical.None? {
          return false;
        }
        lPanel := lPanel.(path := canonical.value);
        lPanel := lPanel.(index := 0);
        var items := ReadItems(fs, lPanel.path);
        if items.None? {
          return false;
        }
        lPanel := lPanel.(items := items.value);
      } else {
        rPanel := rPanel.(path := Push(rPanel.path, dir));
        var canonical := fs.canonicalize(rPanel.path);
        if canonical.None? {
          return false;
        }
        rPanel := rPanel.(path := canonical.value);
        rPanel := rPanel.(index := 0);
        var items := ReadItems(fs, rPanel.path);
        if items.None? {
          return false;
        }
        rPanel := rPanel.(items := items.value);
      }
      return true;
    }

    /** `add_index`; an empty listing would be a division by zero. */
    method AddIndex(times: Usize)
      requires |ActivePanel().items| > 0
      modifies this
      ensures Value() == Advanced(old(Value()), times)
    {
      var panel := ActivePanel();
      var newIndex := SaturatingAdd(panel.index, times) % |panel.items|;
      if newIndex > panel.index {
        SetActivePanelIndex(newIndex);
      } else {
        SetActivePanelIndex(|panel.items| - 1);
      }
    }

    /** `sub_index`; an empty listing would be a division by zero. */
    method SubIndex(times: Usize)
      requires |ActivePanel().items| > 0
      modifies this
      ensures Value() == Retreated(old(Value()), times)
    {
      SetActivePanelIndex(SaturatingSub(ActivePanel().index, times) % |ActivePanel().items|);
    }
  }

  /** `reload` keeps the index, so a listing that shrank leaves it past the
      end: a panel on the third of three entries, rescanned when its directory
      has become empty, holds index 2 over the single entry `..`. */
  lemma ReloadMayLeaveStaleIndex(s: Snapshot, fs: FileSystem)
    requires |s.lPanel.items| == 3 && s.lPanel.index == 2
    requires fs.readDir(s.lPanel.path) == Some([])
    ensures Reloaded(s, L, fs).Some?
    ensures Reloaded(s, L, fs).value.lPanel.index >= |Reloaded(s, L, fs).value.lPanel.items|
  {
    assert ReadablePaths([]) == [];
  }
}
