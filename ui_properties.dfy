/** What a key press on the main page leads to, from the key to the store. */
module UiProperties {
  import opened Options
  import opened Paths
  import opened FileSystems
  import opened Navigation
  import opened Actions
  import opened PanelItems
  import opened States
  import opened StateStores
  import opened Keys
  import opened Popups
  import opened Panels
  import opened MainPages

  /** The page's panels and focus as `move_with_state` leaves them for `state`. */
  ghost predicate Synced(state: Snapshot, active: PanelPosition, lPanel: Panel, rPanel: Panel)
  {
    && active == PagePropsFrom(state).activePanel
    && lPanel == Panel(Panels.Props(state.lPanel.active, state.lPanel.items, Some(state.lPanel.path), state.lPanel.index), L)
    && rPanel == Panel(Panels.Props(state.rPanel.active, state.rPanel.items, Some(state.rPanel.path), state.rPanel.index), R)
  }

  /** With exactly one active panel, the page's active panel is the store's. */
  lemma ActivePanelsAgree(state: Snapshot)
    requires ExactlyOneActive(state)
    ensures state.Panel(PagePropsFrom(state).activePanel) == state.ActivePanel()
    ensures !state.Panel(Opposite(PagePropsFrom(state).activePanel)).active
  {
  }

  /** When both panels claim the focus the page follows the right one and the
      store the left one. */
  lemma BothActiveDisagree(state: Snapshot)
    requires state.lPanel.active && state.rPanel.active
    ensures PagePropsFrom(state).activePanel == R
    ensures state.ActivePanel() == state.lPanel
  {
  }

  /** F10, `q` and Ctrl-`c` all send exactly `Exit` (the panels ignore them). */
  lemma ExitKeys(active: PanelPosition, lPanel: Panel, rPanel: Panel, fs: FileSystem, control: bool)
    ensures KeyActions(active, lPanel, rPanel, KeyEvent(F(10), control, Press), fs) == Sends([Exit])
    ensures KeyActions(active, lPanel, rPanel, KeyEvent(Char('q'), control, Press), fs) == Sends([Exit])
    ensures KeyActions(active, lPanel, rPanel, KeyEvent(Char('c'), true, Press), fs) == Sends([Exit])
  {
  }

  /** F5 and a plain `c` copy alike; F8 and `d` remove alike. */
  lemma KeysAgree(active: PanelPosition, lPanel: Panel, rPanel: Panel, fs: FileSystem, control: bool)
    ensures KeyActions(active, lPanel, rPanel, KeyEvent(F(5), control, Press), fs) ==
            KeyActions(active, lPanel, rPanel, KeyEvent(Char('c'), false, Press), fs)
    ensures KeyActions(active, lPanel, rPanel, KeyEvent(F(8), control, Press), fs) ==
            KeyActions(active, lPanel, rPanel, KeyEvent(Char('d'), control, Press), fs)
  {
  }

  /** F5 copies the entry under the cursor into the other panel's directory. */
  lemma CopyKeyTargetsOppositePanel(state: Snapshot, active: PanelPosition, lPanel: Panel, rPanel: Panel,
                                    fs: FileSystem, control: bool)
    requires ExactlyOneActive(state) && Synced(state, active, lPanel, rPanel)
    requires state.ActivePanel().index < |state.ActivePanel().items|
    ensures var p := state.ActivePanel();
      var other := if state.lPanel.active then state.rPanel else state.lPanel;
      KeyActions(active, lPanel, rPanel, KeyEvent(F(5), control, Press), fs) ==
        Sends([Copy(p.items[p.index].FileFullPath(), Display(other.path))])
  {
  }

  /** A key that is not a press sends nothing, whatever the key. */
  lemma ReleasesIgnored(active: PanelPosition, lPanel: Panel, rPanel: Panel, code: KeyCode, control: bool, fs: FileSystem)
    ensures KeyActions(active, lPanel, rPanel, KeyEvent(code, control, Release), fs) == Nothing
    ensures KeyActions(active, lPanel, rPanel, KeyEvent(code, control, Repeat), fs) == Nothing
  {
  }

  /** While an input popup is shown, `q` is typed into the input: no `Exit`. */
  lemma PopupTakesQuitKey(props: Popups.Props, cancelFocused: bool, input: TextArea, edit: TextEditor, control: bool)
    requires props.popupType == Input && props.popupNextAction == Some(MkDir)
    ensures var key := KeyEvent(Char('q'), control, Press);
      Reply(props, cancelFocused, input, key, edit) == [SetInput(edit(input, key).first)]
  {
  }

  /** F4 on a file sends two edits: the panel's, with the full path, then the
      page's, with the bare file name; the store keeps the last, so the editor
      is given the file name. */
  lemma EditKeyOpensFileName(state: Snapshot, active: PanelPosition, lPanel: Panel, rPanel: Panel,
                             fs: FileSystem, env: Env, control: bool)
    requires ExactlyOneActive(state) && ItemsNonEmpty(state) && Synced(state, active, lPanel, rPanel)
    requires state.ActivePanel().index < |state.ActivePanel().items|
    requires !state.ActivePanel().items[state.ActivePanel().index].IsDir(fs)
    ensures var item := state.ActivePanel().items[state.ActivePanel().index];
      var h := KeyActions(active, lPanel, rPanel, KeyEvent(F(4), control, Press), fs);
      h == Sends([Edit(item.FileFullPath()), Edit(item.CurrentFileName())])
    ensures var item := state.ActivePanel().items[state.ActivePanel().index];
      var t := Run(state, [Act(Edit(item.FileFullPath())), Act(Edit(item.CurrentFileName()))], env);
      |t.sent| == 2 && t.sent[1].editorFile == Some(item.CurrentFileName())
  {
    var item := state.ActivePanel().items[state.ActivePanel().index];
    var events := [Act(Edit(item.FileFullPath())), Act(Edit(item.CurrentFileName()))];
    var first := Reduce(state, Edit(item.FileFullPath()), env).state;
    assert events[1..] == [Act(Edit(item.CurrentFileName()))];
    assert Run(first, events[1..], env).sent == [Reduce(first, Edit(item.CurrentFileName()), env).state];
  }

  /** Enter on a directory listed as `dir/name` sends `Cd(name)`, and the store
      then moves the active panel to the canonical form of its path with `name`
      pushed. */
  lemma EnterEntersDirectory(state: Snapshot, active: PanelPosition, lPanel: Panel, rPanel: Panel,
                             fs: FileSystem, env: Env, dir: Path, name: string, control: bool)
    requires ExactlyOneActive(state) && ItemsNonEmpty(state) && Synced(state, active, lPanel, rPanel)
    requires env.fs == fs
    requires IsPlainName(name)
    requires state.ActivePanel().index < |state.ActivePanel().items|
    requires state.ActivePanel().items[state.ActivePanel().index] == PanelItem.New(Push(dir, name))
    requires fs.isDir(Push(dir, name))
    ensures KeyActions(active, lPanel, rPanel, KeyEvent(Enter, control, Press), fs) == Sends([Cd(name)])
    ensures Reduce(state, Cd(name), env).Next? ==>
      var p := Reduce(state, Cd(name), env).state.ActivePanel();
      p.path == fs.canonicalize(Push(state.ActivePanel().path, name)).value && p.index == 0
  {
    CurrentFileNames(dir, name);
  }

  /** Down then Up from a cursor that is not on the last entry comes back to
      the same state. */
  lemma {:induction false} DownThenUp(state: Snapshot, env: Env)
    requires ItemsNonEmpty(state)
    requires state.ActivePanel().index + 1 < |state.ActivePanel().items| <= UsizeMax
    ensures var down := Reduce(state, FileItemDown(1), env).state;
      && down.ActivePanel().index == state.ActivePanel().index + 1
      && Reduce(down, FileItemUp(1), env) == Next(state)
  {
    var p := state.ActivePanel();
    AdvanceInside(p.index, |p.items|, 1);
    var down := Reduce(state, FileItemDown(1), env).state;
    assert down == Advanced(state, 1);
    RetreatInside(down.ActivePanel().index, |p.items|, 1);
    assert Retreated(down, 1) == state;
  }
}
