/** What the store's reductions promise, one action or a sequence of actions at a time. */
module StoreProperties {
  import opened Options
  import opened Paths
  import opened FileSystems
  import opened Navigation
  import opened Actions
  import opened States
  import opened StateStores

  /** Only the panels' `active` flags and the popup/editor fields may differ. */
  ghost predicate SamePanelsExceptActive(s: Snapshot, r: Snapshot)
  {
    r.lPanel == s.lPanel.(active := r.lPanel.active) && r.rPanel == s.rPanel.(active := r.rPanel.active)
  }

  /** `SwitchTabs` moves the focus to the other panel, and twice restores the state. */
  lemma SwitchTabsTwice(s: Snapshot, env: Env)
    requires ItemsNonEmpty(s) && ExactlyOneActive(s)
    ensures var once := Reduce(s, SwitchTabs, env).state;
      && once.ActivePanel() == (if s.lPanel.active then s.rPanel else s.lPanel).(active := true)
      && SamePanelsExceptActive(s, once)
      && once.(lPanel := s.lPanel, rPanel := s.rPanel) == s
      && Reduce(once, SwitchTabs, env) == Next(s)
  {
  }

  /** The panel arms keep the pending action, and only `Copy` touches the popup type. */
  lemma PanelArmsKeepPending(s: Snapshot, action: Action, env: Env)
    requires MovesPanels(action) && ItemsNonEmpty(s) && ReducePanels(s, action, env).Some?
    ensures var r := ReducePanels(s, action, env).value;
      && r.popupNextAction == s.popupNextAction
      && (action.Copy? ==> r.popupType == ShowFailure(s, env.run(CopyCommand(action.from, action.to))).popupType)
      && (!action.Copy? ==> r.popupType == s.popupType)
  {
    if action.Copy? {
      var shown := ShowFailure(s, env.run(CopyCommand(action.from, action.to)));
      var left := Reloaded(shown, L, env.fs).value;
      assert left.popupNextAction == s.popupNextAction && left.popupType == shown.popupType;
    }
  }

  /** A reduction breaks the popup invariant exactly when an action is pending and
      a `Copy` or `Open` command fails: those arms show an `Error` popup without
      dropping the pending action. */
  lemma PopupInvariantKept(s: Snapshot, action: Action, env: Env)
    requires ItemsNonEmpty(s) && PopupInvariant(s) && Reduce(s, action, env).Next?
    ensures !PopupInvariant(Reduce(s, action, env).state) <==>
      && s.popupNextAction.Some?
      && (action.Copy? || action.Open?)
      && env.run(CommandOf(s, action).value).Failure?
  {
    if MovesPanels(action) {
      assert Reduce(s, action, env) == Lift(ReducePanels(s, action, env));
      PanelArmsKeepPending(s, action, env);
    } else {
      assert Reduce(s, action, env) == Next(ReduceFields(s, action, env));
    }
  }

  /** A concrete case: an `Input` popup waiting for `MkDir` while a copy fails. */
  lemma FailedCopyKeepsPendingAction(s: Snapshot, from: string, to: string, env: Env)
    requires ItemsNonEmpty(s)
    requires s.popupType == Input && s.popupNextAction == Some(MkDir)
    requires env.run(CopyCommand(from, to)) == Failure("cp: permission denied")
    requires env.fs.readDir(s.lPanel.path).Some? && env.fs.readDir(s.rPanel.path).Some?
    ensures Reduce(s, Copy(from, to), env).Next?
    ensures var r := Reduce(s, Copy(from, to), env).state;
      r.popupType == Error && r.popupMsg == "cp: permission denied" && r.popupNextAction == Some(MkDir)
      && !PopupInvariant(r)
  {
    PopupInvariantKept(s, Copy(from, to), env);
    var shown := ShowFailure(s, env.run(CopyCommand(from, to)));
    assert shown.lPanel == s.lPanel && shown.rPanel == s.rPanel;
    var left := Reloaded(shown, L, env.fs).value;
    assert left.rPanel == s.rPanel;
  }

  /** A reduction consults the command runner only for the command `CommandOf`
      names: two runners that agree on it give the same reduction. */
  lemma RunnerOnlyForCommand(s: Snapshot, action: Action, fs: FileSystem,
                             run1: Command -> CommandOutput, run2: Command -> CommandOutput)
    requires ItemsNonEmpty(s)
    requires CommandOf(s, action).Some? ==> run1(CommandOf(s, action).value) == run2(CommandOf(s, action).value)
    ensures Reduce(s, action, Env(fs, run1)) == Reduce(s, action, Env(fs, run2))
  {
    match action {
      case Copy(from, to) =>
        assert ShowFailure(s, run1(CopyCommand(from, to))) == ShowFailure(s, run2(CopyCommand(from, to)));
      case MkDir =>
        assert run1(MkDirCommand(MkDirTarget(s))) == run2(MkDirCommand(MkDirTarget(s)));
      case Rm(file) =>
        assert run1(RmCommand(file)) == run2(RmCommand(file));
      case Open(file) =>
        assert run1(OpenCommand(file)) == run2(OpenCommand(file));
      case _ =>
    }
  }

  /** `RmYesNo(file)` asks for confirmation; confirming runs `rm -rf file` and
      closes the popup, or shows why it failed. */
  lemma RemoveConfirmed(s: Snapshot, file: string, env: Env)
    requires ItemsNonEmpty(s)
    ensures var asked := Reduce(s, RmYesNo(file), env).state;
      && asked.popupMsg == "Do you want to remove file? " + file
      && asked.popupType == YesNo
      && asked.popupNextAction == Some(Rm(file))
      && CommandOf(s, RmYesNo(file)).None?
      && CommandOf(asked, asked.popupNextAction.value) == Some(Command("rm", ["-rf", file]))
    ensures var asked := Reduce(s, RmYesNo(file), env).state;
      var done := Reduce(asked, Rm(file), env).state;
      && done.popupNextAction.None?
      && done.lPanel == s.lPanel && done.rPanel == s.rPanel
      && (env.run(RmCommand(file)).Success? ==> done.popupMsg == "" && done.popupType == YesNo)
      && (env.run(RmCommand(file)).Failure? ==>
            done.popupMsg == env.run(RmCommand(file)).stderr && done.popupType == Error)
  {
  }

  /** Cancelling the confirmation closes the popup, drops the pending `Rm` and runs nothing. */
  lemma RemoveCancelled(s: Snapshot, file: string, env: Env)
    requires ItemsNonEmpty(s)
    ensures var asked := Reduce(s, RmYesNo(file), env).state;
      var cancelled := Reduce(asked, Cancel, env).state;
      && CommandOf(asked, Cancel).None?
      && cancelled.popupMsg == "" && cancelled.popupNextAction.None?
      && cancelled.popupType == YesNo
      && cancelled.(popupMsg := s.popupMsg, popupType := s.popupType, popupNextAction := s.popupNextAction) == s
  {
  }

  /** `Cancel`, in any state and whatever popup is shown (it is also how an
      `Error` popup is dismissed), clears the message and the pending action,
      keeps the popup type and runs nothing. */
  lemma CancelClosesPopup(s: Snapshot, env: Env)
    requires ItemsNonEmpty(s)
    ensures CommandOf(s, Cancel).None?
    ensures Reduce(s, Cancel, env) == Next(s.(popupMsg := "", popupNextAction := None))
    ensures PopupInvariant(Reduce(s, Cancel, env).state)
  {
  }

  /** `MkDirInput`, typing `name`, then confirming creates the directory `name`
      inside the active panel's directory. */
  lemma MakeDirectoryFlow(s: Snapshot, name: string, env: Env)
    requires ItemsNonEmpty(s)
    ensures var asked := Reduce(s, MkDirInput, env).state;
      && asked.popupMsg == "Create directory:" && asked.popupType == Input
      && asked.popupNextAction == Some(MkDir)
    ensures var asked := Reduce(s, MkDirInput, env).state;
      var typed := Reduce(asked, SetInput(name), env).state;
      var target := Display(s.ActivePanel().path) + "/" + name;
      var done := Reduce(typed, MkDir, env).state;
      && typed.popupNextAction == Some(MkDir)
      && CommandOf(typed, MkDir) == Some(Command("mkdir", [target]))
      && done.popupNextAction.None?
      && done.popupInput == name
      && done.lPanel == s.lPanel && done.rPanel == s.rPanel
      && (env.run(MkDirCommand(target)).Success? ==> done.popupMsg == "")
      && (env.run(MkDirCommand(target)).Failure? ==>
            done.popupMsg == env.run(MkDirCommand(target)).stderr && done.popupType == Error)
  {
  }

  /** `Copy` runs `cp -r from to`, then rescans both panels in place (paths and
      indices kept); a failure shows its standard error, a success leaves the
      popup alone. */
  lemma CopyOutcome(s: Snapshot, from: string, to: string, env: Env)
    requires ItemsNonEmpty(s)
    ensures CommandOf(s, Copy(from, to)) == Some(Command("cp", ["-r", from, to]))
    ensures Reduce(s, Copy(from, to), env).Panic? <==>
      env.fs.readDir(s.lPanel.path).None? || env.fs.readDir(s.rPanel.path).None?
    ensures Reduce(s, Copy(from, to), env).Next? ==>
      var r := Reduce(s, Copy(from, to), env).state;
      var output := env.run(CopyCommand(from, to));
      && r.lPanel == s.lPanel.(items := ReadItems(env.fs, s.lPanel.path).value)
      && r.rPanel == s.rPanel.(items := ReadItems(env.fs, s.rPanel.path).value)
      && r.popupNextAction == s.popupNextAction && r.popupInput == s.popupInput
      && r.editorFile == s.editorFile && r.editorModified == s.editorModified
      && (output.Success? ==> r.popupMsg == s.popupMsg && r.popupType == s.popupType)
      && (output.Failure? ==> r.popupMsg == output.stderr && r.popupType == Error)
  {
    assert CommandOf(s, Copy(from, to)) == Some(CopyCommand(from, to));
    var output := env.run(CopyCommand(from, to));
    var shown := ShowFailure(s, output);
    assert Reduce(s, Copy(from, to), env) == Lift(Copied(s, from, to, env));
    assert shown.lPanel == s.lPanel && shown.rPanel == s.rPanel;
    if env.fs.readDir(s.lPanel.path).None? {
      assert Copied(s, from, to, env).None?;
    } else {
      var left := Reloaded(shown, L, env.fs).value;
      assert left == shown.(lPanel := s.lPanel.(items := ReadItems(env.fs, s.lPanel.path).value));
      if env.fs.readDir(s.rPanel.path).None? {
        assert Copied(s, from, to, env).None?;
      } else {
        var right := Reloaded(left, R, env.fs).value;
        assert right == left.(rPanel := s.rPanel.(items := ReadItems(env.fs, s.rPanel.path).value));
        assert Copied(s, from, to, env) == Some(right);
      }
    }
  }

  /** `Open` changes nothing unless the command fails, and then only the popup. */
  lemma OpenOutcome(s: Snapshot, file: string, env: Env)
    requires ItemsNonEmpty(s)
    ensures var r := Reduce(s, Open(file), env).state;
      && CommandOf(s, Open(file)) == Some(Command("open", [file]))
      && (env.run(OpenCommand(file)).Success? ==> r == s)
      && (env.run(OpenCommand(file)).Failure? ==>
            r == s.(popupMsg := env.run(OpenCommand(file)).stderr, popupType := Error))
  {
  }

  /** An edit session: `Edit` opens the file unmodified, `EditorModified` marks it,
      `EditorExit` closes it but keeps the modified flag. */
  lemma EditorSession(s: Snapshot, file: string, env: Env)
    requires ItemsNonEmpty(s)
    ensures var editing := Reduce(s, Edit(file), env).state;
      var changed := Reduce(editing, EditorModified, env).state;
      var saved := Reduce(changed, EditorResedModified, env).state;
      var closed := Reduce(changed, EditorExit, env).state;
      && editing.editorFile == Some(file) && !editing.editorModified
      && changed.editorFile == Some(file) && changed.editorModified
      && saved.editorFile == Some(file) && !saved.editorModified
      && closed.editorFile.None? && closed.editorModified
      && closed.(editorFile := s.editorFile, editorModified := s.editorModified) == s
  {
  }

  /** `Exit` ends the loop at once and publishes nothing more. */
  lemma ExitEndsRun(s: Snapshot, rest: seq<Event>, env: Env)
    requires ItemsNonEmpty(s)
    ensures Run(s, [Act(Exit)] + rest, env) == Trace([], Exited)
  {
    assert ([Act(Exit)] + rest)[0] == Act(Exit);
  }

  /** Every published snapshot keeps non-empty listings and, from a state with
      one active panel, exactly one active panel. */
  lemma {:induction false} RunKeepsInvariants(s: Snapshot, events: seq<Event>, env: Env)
    requires ItemsNonEmpty(s) && ExactlyOneActive(s)
    ensures forall i :: 0 <= i < |Run(s, events, env).sent| ==>
      ItemsNonEmpty(Run(s, events, env).sent[i]) && ExactlyOneActive(Run(s, events, env).sent[i])
    decreases |events|
  {
    if events != [] && events[0].Act? && Reduce(s, events[0].action, env).Next? {
      var next := Reduce(s, events[0].action, env).state;
      RunKeepsInvariants(next, events[1..], env);
      var rest := Run(next, events[1..], env);
      assert Run(s, events, env).sent == [next] + rest.sent;
      forall i | 0 <= i < |Run(s, events, env).sent|
        ensures ItemsNonEmpty(Run(s, events, env).sent[i]) && ExactlyOneActive(Run(s, events, env).sent[i])
      {
        if i > 0 {
          assert Run(s, events, env).sent[i] == rest.sent[i - 1];
        }
      }
    }
  }

  /** Events after the loop has stopped are never looked at: running a longer
      event list that starts with a stopping prefix gives the same trace. */
  lemma {:induction false} RunIgnoresAfterStop(s: Snapshot, events: seq<Event>, more: seq<Event>, env: Env)
    requires ItemsNonEmpty(s)
    requires !Run(s, events, env).end.Waiting?
    ensures Run(s, events + more, env) == Run(s, events, env)
    decreases |events|
  {
    assert events != [];
    assert (events + more)[0] == events[0];
    assert (events + more)[1..] == events[1..] + more;
    if events[0].Act? && Reduce(s, events[0].action, env).Next? {
      var next := Reduce(s, events[0].action, env).state;
      RunIgnoresAfterStop(next, events[1..], more, env);
    }
  }
}
