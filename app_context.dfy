/** The first-generation application state: two panels, one of them focused. */
module AppContexts {
  import opened Options
  import opened Paths
  import opened FileSystems
  import opened Navigation
  import opened PanelItemContexts
  import opened PanelContexts

  class AppContext {
    var shouldQuit: bool
    var leftContext: PanelContext
    var rightContext: PanelContext

    /** Two distinct, valid panels, exactly one of them active. */
    ghost predicate Valid()
      reads this, leftContext, rightContext
    {
      && leftContext != rightContext
      && leftContext.active != rightContext.active
      && leftContext.Valid() && rightContext.Valid()
    }

    constructor Init(left: PanelContext, right: PanelContext)
      ensures leftContext == left && rightContext == right && !shouldQuit
    {
      shouldQuit := false;
      leftContext := left;
      rightContext := right;
    }

    /** `AppContext::new`: the left panel active, the right one not, both on
        the working directory `cwd`. None where either panel fails. */
    static method New(cwd: Option<Path>, fs: FileSystem) returns (r: Option<AppContext>)
      ensures r.Some? <==> cwd.Some? && fs.readDir(cwd.value).Some?
      ensures r.Some? ==> var app := r.value;
        && fresh(app) && fresh(app.leftContext) && fresh(app.rightContext) && app.Valid()
        && !app.shouldQuit && app.leftContext.active && !app.rightContext.active
    {
      var left := PanelContext.New(true, cwd, fs);
      if left.None? {
        return None;
      }
      var right := PanelContext.New(false, cwd, fs);
      if right.None? {
        return None;
      }
      var app := new AppContext.Init(left.value, right.value);
      return Some(app);
    }

    /** `current_panel`: the left panel when it is active, the right one otherwise. */
    function CurrentPanel(): (p: PanelContext)
      reads this, leftContext
      ensures leftContext.active ==> p == leftContext
      ensures !leftContext.active ==> p == rightContext
    {
      if leftContext.active then leftContext else rightContext
    }

    /** The panel that is not `CurrentPanel`. */
    function OtherPanel(): PanelContext
      reads this, leftContext
    {
      if leftContext.active then rightContext else leftContext
    }

    /** `tab`: both flags flip, so the focus moves to the other panel; nothing
        else changes. */
    method Tab()
      requires Valid()
      modifies leftContext, rightContext
      ensures Valid()
      ensures leftContext.active == !old(leftContext.active) && rightContext.active == !old(rightContext.active)
      ensures CurrentPanel() == old(OtherPanel()) && OtherPanel() == old(CurrentPanel())
      ensures leftContext.items == old(leftContext.items) && leftContext.index == old(leftContext.index)
      ensures rightContext.items == old(rightContext.items) && rightContext.index == old(rightContext.index)
      ensures leftContext.path == old(leftContext.path) && rightContext.path == old(rightContext.path)
    {
      leftContext.active := !leftContext.active;
      rightContext.active := !rightContext.active;
    }

    /** `key_up`: with `withSelect` the entry under the old cursor toggles its
        mark; then the cursor moves up. Only the current panel changes. */
    method KeyUp(times: Usize, withSelect: bool)
      requires Valid()
      modifies CurrentPanel()
      ensures Valid()
      ensures CurrentPanel() == old(CurrentPanel()) && OtherPanel() == old(OtherPanel())
      ensures unchanged(OtherPanel())
      ensures var p := CurrentPanel();
        && p.index == RetreatIndex(old(p.index), |old(p.items)|, times)
        && p.path == old(p.path) && p.active == old(p.active)
        && (withSelect ==> p.items == old(p.items)[old(p.index) := old(p.items[p.index]).Mark()])
        && (!withSelect ==> p.items == old(p.items))
    {
      if withSelect {
        CurrentPanel().MarkCurrentItem();
      }
      CurrentPanel().SubIndex(times);
    }

    /** `key_down`: with `withSelect` the entry under the old cursor toggles its
        mark; then the cursor moves down. Only the current panel changes. */
    method KeyDown(times: Usize, withSelect: bool)
      requires Valid()
      modifies CurrentPanel()
      ensures Valid()
      ensures CurrentPanel() == old(CurrentPanel()) && OtherPanel() == old(OtherPanel())
      ensures unchanged(OtherPanel())
      ensures var p := CurrentPanel();
        && p.index == AdvanceIndex(old(p.index), |old(p.items)|, times)
        && p.path == old(p.path) && p.active == old(p.active)
        && (withSelect ==> p.items == old(p.items)[old(p.index) := old(p.items[p.index]).Mark()])
        && (!withSelect ==> p.items == old(p.items))
    {
      if withSelect {
        CurrentPanel().MarkCurrentItem();
      }
      CurrentPanel().AddIndex(times);
    }
  }
}
