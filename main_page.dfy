/** The main page: two panels and the popup, and the keys of the page itself. */
module MainPages {
  import opened Options
  import opened Paths
  import opened FileSystems
  import opened Actions
  import opened PanelItems
  import opened States
  import opened Keys
  import opened Popups
  import opened Panels

  /** What the page takes from the state: which panel has the focus. */
  datatype PageProps = PageProps(activePanel: PanelPosition)

  /** The right panel is the active one exactly when the state marks it active. */
  function PagePropsFrom(state: Snapshot): (p: PageProps)
    ensures p.activePanel == R <==> state.rPanel.active
  {
    PageProps(if state.rPanel.active then R else L)
  }

  /** `opposite_panel`: the panel that is not the active one. */
  function Opposite(position: PanelPosition): (r: PanelPosition)
    ensures r != position
  {
    match position
    case L => R
    case R => L
  }

  function PanelAt(position: PanelPosition, lPanel: Panel, rPanel: Panel): Panel
  {
    match position
    case L => lPanel
    case R => rPanel
  }

  /** `Copy` of the entry under the cursor into the opposite panel's directory;
      it panics when there is no such entry or the opposite panel has no directory. */
  function CopyCurrent(current: Option<PanelItem>, oppositeDir: Option<Path>): (h: Handled)
    ensures h.panicked <==> current.None? || oppositeDir.None?
    ensures !h.panicked ==> h.actions == [Copy(current.value.FileFullPath(), Display(oppositeDir.value))]
  {
    match current
    case None => Handled([], true)
    case Some(item) =>
      match oppositeDir
      case None => Handled([], true)
      case Some(dir) => Sends([Copy(item.FileFullPath(), Display(dir))])
  }

  /** `RmYesNo` for the entry under the cursor. */
  function RemoveCurrent(current: Option<PanelItem>): (h: Handled)
    ensures h.panicked <==> current.None?
    ensures !h.panicked ==> h.actions == [RmYesNo(current.value.FileFullPath())]
  {
    match current
    case None => Handled([], true)
    case Some(item) => Sends([RmYesNo(item.FileFullPath())])
  }

  /** The keys the page itself binds: Tab, F4, F5, F7, F8, F10, `d`, `q` and `c`. */
  predicate PageKey(code: KeyCode)
  {
    code == Tab || code == Char('d') || code == Char('q') || code == Char('c')
    || (code.F? && code.n in {4, 5, 7, 8, 10})
  }

  /** The page's own keys, after the active panel has had the key. */
  function PageKeys(active: PanelPosition, lPanel: Panel, rPanel: Panel, key: KeyEvent, fs: FileSystem): (h: Handled)
    ensures |h.actions| <= 1
    ensures key.code == Tab ==> h == Sends([SwitchTabs])
    ensures key.code == F(7) ==> h == Sends([MkDirInput])
    ensures key.code == F(8) || key.code == Char('d') ==> h == RemoveCurrent(PanelAt(active, lPanel, rPanel).CurrentItem())
    ensures key.code == F(5) || (key.code == Char('c') && !key.control) ==>
      h == CopyCurrent(PanelAt(active, lPanel, rPanel).CurrentItem(), PanelAt(Opposite(active), lPanel, rPanel).CurrentDir())
    ensures key.code == F(10) || key.code == Char('q') || (key.code == Char('c') && key.control) ==> h == Sends([Exit])
    ensures key.code == F(4) ==>
      var current := PanelAt(active, lPanel, rPanel).CurrentItem();
      && (current.None? ==> h.panicked && h.actions == [])
      && (current.Some? && !current.value.IsDir(fs) ==> h == Sends([Edit(current.value.CurrentFileName())]))
      && (current.Some? && current.value.IsDir(fs) ==> h == Nothing)
    ensures !PageKey(key.code) ==> h == Nothing
  {
    var current := PanelAt(active, lPanel, rPanel).CurrentItem();
    var oppositeDir := PanelAt(Opposite(active), lPanel, rPanel).CurrentDir();
    match key.code
    case Tab => Sends([SwitchTabs])
    case F(n) =>
      if n == 4 then
        (match current
         case None => Handled([], true)
         case Some(item) => if !item.IsDir(fs) then Sends([Edit(item.CurrentFileName())]) else Nothing)
      else if n == 5 then CopyCurrent(current, oppositeDir)
      else if n == 7 then Sends([MkDirInput])
      else if n == 8 then RemoveCurrent(current)
      else if n == 10 then Sends([Exit])
      else Nothing
    case Char(c) =>
      if c == 'd' then RemoveCurrent(current)
      else if c == 'q' then Sends([Exit])
      else if c == 'c' then (if key.control then Sends([Exit]) else CopyCurrent(current, oppositeDir))
      else Nothing
    case _ => Nothing
  }

  /** A key with no popup shown: nothing unless it is a press; then the active
      panel's mapping and after it the page's. */
  function KeyActions(active: PanelPosition, lPanel: Panel, rPanel: Panel, key: KeyEvent, fs: FileSystem): (h: Handled)
    ensures key.kind != Press ==> h == Nothing
    ensures key.kind == Press ==> h == Then(PanelAt(active, lPanel, rPanel).HandleKeyEvent(key, fs),
                                           PageKeys(active, lPanel, rPanel, key, fs))
    ensures |h.actions| <= 2
  {
    if key.kind != Press then Nothing
    else
      var panel := if active == L then lPanel.HandleKeyEvent(key, fs) else rPanel.HandleKeyEvent(key, fs);
      Then(panel, PageKeys(active, lPanel, rPanel, key, fs))
  }

  class MainPage {
    var props: PageProps
    var lPanel: Panel
    var rPanel: Panel
    var popup: Popup

    /** The panels sit on their own sides and the popup has exactly one button focused. */
    ghost predicate Valid()
      reads this, popup
    {
      lPanel.placement == L && rPanel.placement == R && popup.Valid()
    }

    /** `MainPage::new`: a left and a right panel and a popup, all following `state`. */
    constructor (state: Snapshot)
      ensures fresh(popup) && Valid()
      ensures props == PagePropsFrom(state)
      ensures lPanel == Panel(Panels.Props(state.lPanel.active, state.lPanel.items, Some(state.lPanel.path), state.lPanel.index), L)
      ensures rPanel == Panel(Panels.Props(state.rPanel.active, state.rPanel.items, Some(state.rPanel.path), state.rPanel.index), R)
      ensures popup.props == Popups.PropsFrom(state) && popup.okButton.active && popup.input == EmptyTextArea
    {
      var left := Panel.New(state).SetPlacement(L);
      var right := Panel.New(state).SetPlacement(R);
      var p := new Popup(state);
      props := PagePropsFrom(state);
      lPanel := left.MoveWithState(state);
      rPanel := right.MoveWithState(state);
      popup := p;
      p.MoveWithState(state);
    }

    /** Follows a new state: props and panels are refreshed, the popup keeps its
        focus and input. */
    method MoveWithState(state: Snapshot)
      requires Valid()
      modifies this, popup
      ensures Valid() && popup == old(popup)
      ensures props == PagePropsFrom(state)
      ensures lPanel == old(lPanel).MoveWithState(state) && rPanel == old(rPanel).MoveWithState(state)
      ensures popup.props == Popups.PropsFrom(state)
      ensures popup.okButton == old(popup.okButton) && popup.cancelButton == old(popup.cancelButton)
      ensures popup.input == old(popup.input)
    {
      props := PagePropsFrom(state);
      lPanel := lPanel.MoveWithState(state);
      rPanel := rPanel.MoveWithState(state);
      popup.MoveWithState(state);
    }

    /** While the popup is shown it takes every key; otherwise the key goes to
        the active panel and then to the page. */
    method HandleKeyEvent(key: KeyEvent, fs: FileSystem, edit: TextEditor) returns (h: Handled)
      requires Valid()
      modifies popup
      ensures Valid()
      ensures old(popup.props.active) ==>
        h == Sends(Reply(old(popup.props), old(popup.cancelButton.active), old(popup.input), key, edit))
      ensures old(popup.props.active) ==>
        && popup.props == old(popup.props)
        && popup.input == EditedInput(old(popup.props), old(popup.input), key, edit)
        && (key.code == Right ==> popup.cancelButton.active && !popup.okButton.active)
        && (key.code == Left ==> popup.okButton.active && !popup.cancelButton.active)
        && (key.code != Right && key.code != Left ==>
              popup.okButton == old(popup.okButton) && popup.cancelButton == old(popup.cancelButton))
      ensures !old(popup.props.active) ==>
        h == KeyActions(props.activePanel, lPanel, rPanel, key, fs) && unchanged(popup)
    {
      if popup.Active() {
        var sent := popup.HandleKeyEvent(key, edit);
        h := Sends(sent);
      } else {
        if key.kind != Press {
          return Nothing;
        }
        if props.activePanel == L {
          h := lPanel.HandleKeyEvent(key, fs);
        } else {
          h := rPanel.HandleKeyEvent(key, fs);
        }
        h := Then(h, PageKeys(props.activePanel, lPanel, rPanel, key, fs));
      }
    }
  }
}
