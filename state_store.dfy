/** The state store: the single owner of the state, reducing one action at a
    time and publishing a snapshot after each. */
module StateStores {
  import opened Options
  import opened Paths
  import opened FileSystems
  import opened Navigation
  import opened Actions
  import opened States

  /** An external program with its arguments (the non-Windows commands). */
  datatype Command = Command(program: string, args: seq<string>)

  /** What running a command gives: success, or failure with its standard error. */
  datatype CommandOutput = Success | Failure(stderr: string)

  /** Everything outside the store: the file system and the command runner. */
  datatype Env = Env(fs: FileSystem, run: Command -> CommandOutput)

  /** Why the loop stopped. */
  datatype Interrupted = UserInt | OsSigInt

  /** What reaches the loop first: an action, or the termination signal. */
  datatype Event = Act(action: Action) | Interrupt(reason: Interrupted)

  /** One reduction: the next state, the end of the loop (`Exit`), or a panic. */
  datatype Reduction = Next(state: Snapshot) | Terminate | Panic

  function CopyCommand(from: string, to: string): Command
  {
    Command("cp", ["-r", from, to])
  }

  function MkDirCommand(path: string): Command
  {
    Command("mkdir", [path])
  }

  function RmCommand(file: string): Command
  {
    Command("rm", ["-rf", file])
  }

  function OpenCommand(file: string): Command
  {
    Command("open", [file])
  }

  /** `get_error_msg`: the text of the command's standard error. */
  function ErrorMsg(output: CommandOutput): string
    requires output.Failure?
  {
    output.stderr
  }

  /** A failed command shows its standard error in an `Error` popup. */
  function ShowFailure(s: Snapshot, output: CommandOutput): Snapshot
  {
    if output.Failure? then s.(popupMsg := ErrorMsg(output), popupType := Error) else s
  }

  /** After `MkDir` or `Rm`: no action is pending any more; a failure shows an
      `Error` popup, a success closes the popup. */
  function Settled(s: Snapshot, output: CommandOutput): Snapshot
  {
    var cleared := s.(popupNextAction := None);
    if output.Failure? then cleared.(popupMsg := ErrorMsg(output), popupType := Error)
    else cleared.(popupMsg := "")
  }

  /** The directory `MkDir` creates: the active panel's path, the separator and
      the popup's input. */
  function MkDirTarget(s: Snapshot): string
  {
    Display(s.ActivePanel().path) + [MainSeparator] + s.popupInput
  }

  function Lift(r: Option<Snapshot>): Reduction
  {
    match r
    case None => Panic
    case Some(s) => Next(s)
  }

  /** The command a reduction runs, if any. */
  function CommandOf(s: Snapshot, action: Action): Option<Command>
  {
    match action
    case Copy(from, to) => Some(CopyCommand(from, to))
    case MkDir => Some(MkDirCommand(MkDirTarget(s)))
    case Rm(file) => Some(RmCommand(file))
    case Open(file) => Some(OpenCommand(file))
    case _ => None
  }

  /** The actions that touch the panels. */
  predicate MovesPanels(action: Action)
  {
    action.SwitchTabs? || action.Reload? || action.FileItemDown? || action.FileItemUp? ||
    action.Cd? || action.Copy?
  }

  /** `Copy`: run `cp -r`, show a failure, then rescan the left and the right panel. */
  function Copied(s: Snapshot, from: string, to: string, env: Env): (r: Option<Snapshot>)
    ensures r.Some? <==> Reloaded(ShowFailure(s, env.run(CopyCommand(from, to))), L, env.fs).Some? &&
                         Reloaded(Reloaded(ShowFailure(s, env.run(CopyCommand(from, to))), L, env.fs).value, R, env.fs).Some?
    ensures r.Some? && ItemsNonEmpty(s) ==> ItemsNonEmpty(r.value)
    ensures r.Some? && ExactlyOneActive(s) ==> ExactlyOneActive(r.value)
  {
    var shown := ShowFailure(s, env.run(CopyCommand(from, to)));
    match Reloaded(shown, L, env.fs)
    case None => None
    case Some(left) => Reloaded(left, R, env.fs)
  }

  /** The arms that touch the panels; `None` is a panic. */
  function ReducePanels(s: Snapshot, action: Action, env: Env): (r: Option<Snapshot>)
    requires MovesPanels(action) && ItemsNonEmpty(s)
    ensures r.None? ==> action.Reload? || action.Cd? || action.Copy?
    ensures r.Some? ==> ItemsNonEmpty(r.value)
    ensures r.Some? && ExactlyOneActive(s) ==> ExactlyOneActive(r.value)
  {
    match action
    case SwitchTabs =>
      Some(s.(lPanel := s.lPanel.(active := !s.lPanel.active),
              rPanel := s.rPanel.(active := !s.rPanel.active)))
    case Reload(position) => Reloaded(s, position, env.fs)
    case FileItemDown(times) => Some(Advanced(s, times))
    case FileItemUp(times) => Some(Retreated(s, times))
    case Cd(dir) => ChangedDir(s, dir, env.fs)
    case Copy(from, to) => Copied(s, from, to, env)
  }

  /** The arms that touch only the popup and the editor fields. */
  function ReduceFields(s: Snapshot, action: Action, env: Env): (r: Snapshot)
    requires !MovesPanels(action) && !action.Exit?
    ensures r.lPanel == s.lPanel && r.rPanel == s.rPanel
  {
    match action
    case MkDirInput =>
      s.(popupMsg := "Create directory:", popupType := Input, popupNextAction := Some(MkDir))
    case SetInput(value) => s.(popupInput := value)
    case MkDir => Settled(s, env.run(MkDirCommand(MkDirTarget(s))))
    case RmYesNo(file) =>
      s.(popupMsg := "Do you want to remove file? " + file, popupType := YesNo,
         popupNextAction := Some(Rm(file)))
    case Rm(file) => Settled(s, env.run(RmCommand(file)))
    case Open(file) => ShowFailure(s, env.run(OpenCommand(file)))
    case Edit(file) => s.(editorFile := Some(file), editorModified := false)
    case EditorResedModified => s.(editorModified := false)
    case EditorModified => s.(editorModified := true)
    case EditorExit => s.(editorFile := None)
    case Cancel => s.(popupMsg := "", popupNextAction := None)
  }

  /** One arm of the loop's `match action`. */
  function Reduce(s: Snapshot, action: Action, env: Env): (r: Reduction)
    requires ItemsNonEmpty(s)
    ensures r.Terminate? <==> action.Exit?
    ensures r.Panic? ==> action.Reload? || action.Cd? || action.Copy?
    ensures r.Next? ==> ItemsNonEmpty(r.state)
    ensures r.Next? && ExactlyOneActive(s) ==> ExactlyOneActive(r.state)
  {
    if action.Exit? then Terminate
    else if MovesPanels(action) then Lift(ReducePanels(s, action, env))
    else Next(ReduceFields(s, action, env))
  }

  /** How the loop ended. */
  datatype LoopEnd =
    | Exited                         // an `Exit` action: termination requested, `UserInt` returned
    | Stopped(reason: Interrupted)   // the termination signal arrived first
    | Panicked
    | Waiting                        // no more events: the loop is still waiting
    | NoCurrentDir                   // `env::current_dir` failed: `main_loop` returns the error

  /** The snapshots published after the initial one, and how the loop ended. */
  datatype Trace = Trace(sent: seq<Snapshot>, end: LoopEnd)

  /** The loop, event by event, from state `s`. */
  function Run(s: Snapshot, events: seq<Event>, env: Env): (t: Trace)
    requires ItemsNonEmpty(s)
    ensures |t.sent| <= |events|
    ensures t.end.Waiting? ==> |t.sent| == |events|
    ensures t.end.Exited? || t.end.Panicked? || t.end.Waiting? || t.end.Stopped?
    decreases |events|
  {
    if events == [] then Trace([], Waiting)
    else
      match events[0]
      case Interrupt(reason) => Trace([], Stopped(reason))
      case Act(action) =>
        match Reduce(s, action, env)
        case Terminate => Trace([], Exited)
        case Panic => Trace([], Panicked)
        case Next(next) =>
          var rest := Run(next, events[1..], env);
          Trace([next] + rest.sent, rest.end)
  }

  /** The first event of `Run`, unfolded. */
  lemma RunFirst(s: Snapshot, events: seq<Event>, env: Env)
    requires ItemsNonEmpty(s) && events != []
    ensures events[0].Interrupt? ==> Run(s, events, env) == Trace([], Stopped(events[0].reason))
    ensures events[0].Act? && Reduce(s, events[0].action, env).Terminate? ==>
      Run(s, events, env) == Trace([], Exited)
    ensures events[0].Act? && Reduce(s, events[0].action, env).Panic? ==>
      Run(s, events, env) == Trace([], Panicked)
  {
  }

  /** The run from `initial` over `events` has published `sent` and reached `s`
      after the first `i` events. */
  ghost predicate RunReached(initial: Snapshot, events: seq<Event>, i: nat, s: Snapshot, sent: seq<Snapshot>, env: Env)
    requires ItemsNonEmpty(initial) && ItemsNonEmpty(s) && i <= |events|
  {
    var t := Run(s, events[i..], env);
    Run(initial, events, env) == Trace(sent + t.sent, t.end)
  }

  /** A run that reached `s` and stops there without publishing ends as the rest ends. */
  lemma RunEnds(initial: Snapshot, events: seq<Event>, i: nat, s: Snapshot, sent: seq<Snapshot>, env: Env, end: LoopEnd)
    requires ItemsNonEmpty(initial) && ItemsNonEmpty(s) && i <= |events|
    requires RunReached(initial, events, i, s, sent, env)
    requires Run(s, events[i..], env) == Trace([], end)
    ensures Run(initial, events, env) == Trace(sent, end)
  {
    assert sent + [] == sent;
  }

  /** A run that reached `s` goes on with the snapshot the next action leads to. */
  lemma RunResumes(initial: Snapshot, events: seq<Event>, i: nat, s: Snapshot, sent: seq<Snapshot>, env: Env)
    requires ItemsNonEmpty(initial) && ItemsNonEmpty(s) && i < |events| && events[i].Act?
    requires Reduce(s, events[i].action, env).Next?
    requires RunReached(initial, events, i, s, sent, env)
    ensures RunReached(initial, events, i + 1, Reduce(s, events[i].action, env).state,
                       sent + [Reduce(s, events[i].action, env).state], env)
  {
    var next := Reduce(s, events[i].action, env).state;
    assert events[i..][1..] == events[i + 1..];
    var rest := Run(next, events[i + 1..], env);
    assert Run(s, events[i..], env) == Trace([next] + rest.sent, rest.end);
    assert sent + ([next] + rest.sent) == (sent + [next]) + rest.sent;
  }

  datatype Flow = Continue | Break | Crash

  function FlowOf(r: Reduction): Flow
  {
    match r
    case Next(_) => Continue
    case Terminate => Break
    case Panic => Crash
  }

  class StateStore {
    /** Every snapshot sent on the state channel, in order. */
    var published: seq<Snapshot>
    /** Whether the store asked the terminator to stop the program. */
    var terminateRequested: bool

    constructor ()
      ensures published == [] && !terminateRequested
    {
      published := [];
      terminateRequested := false;
    }

    /** One arm of the `match action`, applied to the state in place: `Exit`
        breaks out of the loop, the other arms are grouped by what they touch. */
    method Apply(state: State, action: Action, env: Env) returns (flow: Flow)
      requires ItemsNonEmpty(state.Value())
      modifies state
      ensures flow == FlowOf(Reduce(old(state.Value()), action, env))
      ensures flow == Continue ==> state.Value() == Reduce(old(state.Value()), action, env).state
    {
      if action.Exit? {
        return Break;
      } else if MovesPanels(action) {
        var ok := ApplyPanels(state, action, env);
        flow := if ok then Continue else Crash;
      } else {
        ApplyFields(state, action, env);
        flow := Continue;
      }
    }

    /** The arms that touch the panels; `false` where the source panics. */
    method ApplyPanels(state: State, action: Action, env: Env) returns (ok: bool)
      requires MovesPanels(action) && ItemsNonEmpty(state.Value())
      modifies state
      ensures ok == ReducePanels(old(state.Value()), action, env).Some?
      ensures ok ==> state.Value() == ReducePanels(old(state.Value()), action, env).value
    {
      ghost var s0 := state.Value();
      match action {
        case SwitchTabs =>
          state.lPanel := state.lPanel.(active := !state.lPanel.active);
          state.rPanel := state.rPanel.(active := !state.rPanel.active);
          ok := true;
        case Reload(position) =>
          ok := state.Reload(position, env.fs);
        case FileItemDown(times) =>
          state.AddIndex(times);
          ok := true;
        case FileItemUp(times) =>
          state.SubIndex(times);
          ok := true;
        case Cd(dir) =>
          ok := state.Cd(dir, env.fs);
        case Copy(from, to) =>
          var output := env.run(CopyCommand(from, to));
          if output.Failure? {
            state.popupMsg := ErrorMsg(output);
            state.popupType := Error;
          }
          ghost var shown := state.Value();
          assert shown == ShowFailure(s0, output);
          ok := state.Reload(L, env.fs);
          if !ok {
            return;
          }
          ok := state.Reload(R, env.fs);
      }
    }

    /** The arms that touch only the popup and the editor fields. */
    method ApplyFields(state: State, action: Action, env: Env)
      requires !MovesPanels(action) && !action.Exit?
      modifies state
      ensures state.Value() == ReduceFields(old(state.Value()), action, env)
    {
      match action {
        case MkDirInput =>
          state.popupMsg := "Create directory:";
          state.popupType := Input;
          state.popupNextAction := Some(MkDir);
        case SetInput(value) =>
          state.popupInput := value;
        case MkDir =>
          ghost var s0 := state.Value();
          state.popupNextAction := None;
          var fullPath := if state.lPanel.active then Display(state.lPanel.path) else Display(state.rPanel.path);
          fullPath := fullPath + [MainSeparator];
          fullPath := fullPath + state.popupInput;
          assert fullPath == MkDirTarget(s0);
          var output := env.run(MkDirCommand(fullPath));
          if output.Failure? {
            state.popupMsg := ErrorMsg(output);
            state.popupType := Error;
          } else {
            state.popupMsg := "";
          }
        case RmYesNo(file) =>
          var msg := "Do you want to remove file? ";
          msg := msg + file;
          state.popupMsg := msg;
          state.popupType := YesNo;
          state.popupNextAction := Some(Rm(file));
        case Rm(file) =>
          state.popupNextAction := None;
          var output := env.run(RmCommand(file));
          if output.Failure? {
            state.popupMsg := ErrorMsg(output);
            state.popupType := Error;
          } else {
            state.popupMsg := "";
          }
        case Open(file) =>
          var output := env.run(OpenCommand(file));
          if output.Failure? {
            state.popupMsg := ErrorMsg(output);
            state.popupType := Error;
          }
        case Edit(file) =>
          state.editorFile := Some(file);
          state.editorModified := false;
        case EditorResedModified =>
          state.editorModified := false;
        case EditorModified =>
          state.editorModified := true;
        case EditorExit =>
          state.editorFile := None;
        case Cancel =>
          state.popupMsg := "";
          state.popupNextAction := None;
      }
    }

    /** `main_loop`: build the state, publish it, then serve the events. */
    method MainLoop(cwd: Option<Path>, events: seq<Event>, env: Env) returns (end: LoopEnd)
      modifies this
      ensures cwd.None? ==> end == NoCurrentDir && published == old(published)
      ensures cwd.Some? && Start(cwd, env.fs).None? ==> end == Panicked && published == old(published)
      ensures Start(cwd, env.fs).Some? ==>
        var t := Run(Start(cwd, env.fs).value, events, env);
        end == t.end && published == old(published) + [Start(cwd, env.fs).value] + t.sent
      ensures terminateRequested <==> old(terminateRequested) || end == Exited
    {
      if cwd.None? {
        return NoCurrentDir;
      }
      var started := State.New(cwd, env.fs);
      if started.None? {
        return Panicked;
      }
      var state := started.value;
      published := published + [state.Value()];
      end := Serve(state, events, env);
    }

    /** The `loop` of `main_loop`: reduce event after event, publishing the
        state after each action that neither exits nor panics. */
    method Serve(state: State, events: seq<Event>, env: Env) returns (end: LoopEnd)
      requires ItemsNonEmpty(state.Value())
      modifies this, state
      ensures var t := Run(old(state.Value()), events, env);
        end == t.end && published == old(published) + t.sent
      ensures terminateRequested <==> old(terminateRequested) || end == Exited
    {
      ghost var initial := state.Value();
      ghost var sent: seq<Snapshot> := [];
      var i := 0;
      assert events[i..] == events;
      while i < |events|
        invariant 0 <= i <= |events|
        invariant ItemsNonEmpty(state.Value())
        invariant terminateRequested == old(terminateRequested)
        invariant published == old(published) + sent
        invariant RunReached(initial, events, i, state.Value(), sent, env)
      {
        end := HandleEvent(state, events, i, initial, sent, env);
        if end != Waiting {
          return;
        }
        sent := sent + [state.Value()];
        i := i + 1;
      }
      assert events[i..] == [];
      RunEnds(initial, events, i, state.Value(), sent, env, Waiting);
      return Waiting;
    }

    /** One turn of the loop on `events[i]`: an interrupt or `Exit` ends the loop,
        a panic ends it too, any other action is applied and the state published
        (`Waiting` for the next event). */
    method HandleEvent(state: State, events: seq<Event>, i: nat, ghost initial: Snapshot,
                       ghost sent: seq<Snapshot>, env: Env) returns (end: LoopEnd)
      requires i < |events| && ItemsNonEmpty(initial) && ItemsNonEmpty(state.Value())
      requires RunReached(initial, events, i, state.Value(), sent, env)
      modifies this, state
      ensures terminateRequested <==> old(terminateRequested) || end == Exited
      ensures end.Waiting? ==>
        && ItemsNonEmpty(state.Value())
        && published == old(published) + [state.Value()]
        && RunReached(initial, events, i + 1, state.Value(), sent + [state.Value()], env)
      ensures !end.Waiting? ==> published == old(published) && Run(initial, events, env) == Trace(sent, end)
    {
      ghost var before := state.Value();
      RunFirst(before, events[i..], env);
      var event := events[i];
      if event.Interrupt? {
        RunEnds(initial, events, i, before, sent, env, Stopped(event.reason));
        return Stopped(event.reason);
      }
      var flow := Apply(state, event.action, env);
      if flow == Break {
        RunEnds(initial, events, i, before, sent, env, Exited);
        terminateRequested := true;
        return Exited;
      }
      if flow == Crash {
        RunEnds(initial, events, i, before, sent, env, Panicked);
        return Panicked;
      }
      RunResumes(initial, events, i, before, sent, env);
      published := published + [state.Value()];
      return Waiting;
    }
  }
}
