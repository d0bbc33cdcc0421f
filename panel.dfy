/** One file panel of the main page: what it shows and the keys it turns into
    actions. */
module Panels {
  import opened Options
  import opened Paths
  import opened FileSystems
  import opened Navigation
  import opened Actions
  import opened PanelItems
  import opened States
  import opened Keys

  /** What a panel takes from its side of the state. */
  datatype Props = Props(active: bool, items: seq<PanelItem>, directory: Option<Path>, index: nat)

  /** How far PageUp/PageDown (and Left/Right) move the cursor. */
  const PageStep: Usize := 20

  datatype Panel = Panel(props: Props, placement: PanelPosition)
  {
    /** `Panel::new`: a left panel that then takes the left side of the state. */
    static function New(state: Snapshot): (p: Panel)
      ensures p.placement == L
      ensures p.props == Props(state.lPanel.active, state.lPanel.items, Some(state.lPanel.path), state.lPanel.index)
    {
      Panel(Props(true, [], None, 0), L).MoveWithState(state)
    }

    function SetPlacement(placement: PanelPosition): (p: Panel)
      ensures p.placement == placement && p.props == props
    {
      this.(placement := placement)
    }

    /** The panel copies path, items, focus and index from its own side of the state. */
    function MoveWithState(state: Snapshot): (p: Panel)
      ensures p.placement == placement
      ensures var side := state.Panel(placement);
        p.props == Props(side.active, side.items, Some(side.path), side.index)
    {
      var side := match placement case R => state.rPanel case L => state.lPanel;
      this.(props := Props(side.active, side.items, Some(side.path), side.index))
    }

    /** `current_item`: the entry under the cursor; the `expect` panics (None)
        when the index is past the end. */
    function CurrentItem(): (item: Option<PanelItem>)
      ensures item.Some? <==> props.index < |props.items|
      ensures item.Some? ==> item.value == props.items[props.index]
    {
      if props.index < |props.items| then Some(props.items[props.index]) else None
    }

    /** `current_dir`: the panel's directory; None where the `expect` panics. */
    function CurrentDir(): Option<Path>
    {
      props.directory
    }

    /** The panel's keys: the arrows and page keys move the cursor, F4 edits a
        file by its full path, Enter enters a directory by its name or opens a
        file by its full path; every other key does nothing. */
    function HandleKeyEvent(key: KeyEvent, fs: FileSystem): (h: Handled)
      ensures |h.actions| <= 1
      ensures h.panicked <==> (key.code == F(4) || key.code == Enter) && CurrentItem().None?
      ensures key.code == Down ==> h == Sends([FileItemDown(1)])
      ensures key.code == Up ==> h == Sends([FileItemUp(1)])
      ensures key.code == PageDown || key.code == Right ==> h == Sends([FileItemDown(PageStep)])
      ensures key.code == PageUp || key.code == Left ==> h == Sends([FileItemUp(PageStep)])
      ensures (key.code == F(4) || key.code == Enter) && CurrentItem().Some? ==>
        var item := CurrentItem().value;
        h == Sends(if key.code == Enter && item.IsDir(fs) then [Cd(item.CurrentFileName())]
                   else if key.code == Enter then [Open(item.FileFullPath())]
                   else if item.IsDir(fs) then []
                   else [Edit(item.FileFullPath())])
      ensures !(key.code in {Down, Up, PageDown, PageUp, Right, Left, F(4), Enter}) ==> h == Nothing
    {
      match key.code
      case Down => Sends([FileItemDown(1)])
      case Up => Sends([FileItemUp(1)])
      case PageDown => Sends([FileItemDown(PageStep)])
      case PageUp => Sends([FileItemUp(PageStep)])
      case Right => Sends([FileItemDown(PageStep)])
      case Left => Sends([FileItemUp(PageStep)])
      case F(n) =>
        if n != 4 then Nothing
        else (match CurrentItem()
          case None => Handled([], true)
          case Some(item) => if !item.IsDir(fs) then Sends([Edit(item.FileFullPath())]) else Nothing)
      case Enter =>
        (match CurrentItem()
         case None => Handled([], true)
         case Some(item) =>
           if item.IsDir(fs) then Sends([Cd(item.CurrentFileName())])
           else Sends([Open(item.FileFullPath())]))
      case _ => Nothing
    }
  }
}
