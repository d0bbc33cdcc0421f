# fir: a verified model of the panel state engine

fir is a dual-pane terminal file manager. This project models, in Dafny, the
part of it that decides what happens when a key is pressed. It covers the
newer Redux-like pipeline and the older panel model:

- **State and reducer (new generation).** `States` models `State` and `PanelData`
  (`State` is a class whose fields the methods overwrite, with a `Snapshot` value
  for the cloned state). `StateStores` models the per-action reduction inside
  `StateStore::main_loop`. It is written once as the specification function
  `Reduce` and once as the imperative `StateStore.Apply`. Then `Run` (a fold over
  an event sequence) is the specification of the `Serve` loop, which publishes
  one snapshot per handled action.
- **Key dispatch (new generation).** `Buttons`, `Popups`, `Panels` and `MainPages`
  model the main page's components: how props are refreshed from a state, the
  popup's focus machine and its modal capture of keys, and which `Action`s each
  key emits. "Send on the channel" is modelled as the returned sequence of
  actions. An `.expect` that fails is modelled as the `panicked` flag.
- **Old generation.** `PanelItemContexts`, `PanelContexts`, `AppContexts` and
  `FileLists` model `PanelItemContext`, `PanelContext` (a class) and `AppContext`
  (a class): item marking, index movement, tab switching, directory change and
  the directory listing.
- **Shared algorithms.** `Navigation` holds the `usize` index arithmetic used by
  both generations. Saturation at `usize::MAX` is explicit. `Sorting` and `Lex`
  model the two-pass listing order: a stable sort by display string, then a
  stable partition that puts directories first. `Paths` models `PathBuf`
  components, `push`, `file_name` and `display`.

The filesystem and the command runner are oracles passed in as parameters.
`FileSystems.FileSystem` holds total functions for `read_dir`, `is_dir`,
`canonicalize` and `set_current_dir`. `StateStores.Env.run` maps a `Command`
(program plus arguments) to `Success` or `Failure(stderr)`. The text editor
widget behind the popup input is a `TextEditor` function.

Behaviours of the code a reader may not expect:

- `add_index` computes `(index + times) % len` (saturating addition) and keeps
  that value only when it is greater than `index`. Otherwise it jumps to the
  last item. So it does not always land on the last item when it overshoots:
  with 5 items, index 1 and 7 steps the result is 3 (`Navigation.AdvanceExamples`).
- `src/state_management/action.rs` lacks `SetInput`, `MkDirInput` and `MkDir`,
  which the store and the popup use. `Actions.Action` is the union of the
  variants and keeps the spelling `EditorResedModified`.
- `read_files` in the old panel stores the listed paths as items. They are
  modelled as wrapped, unmarked `PanelItemContext`s.

## Model

| member | source | states |
|---|---|---|
| Navigation.AdvanceIndex | src/state_management/state.rs:97-105 | the new index is below the item count; it is the wrapped saturating sum `(index + times) % len` exactly when that is greater than the old index, and the last index otherwise, however many laps the move wraps |
| Navigation.RetreatIndex | src/state_management/state.rs:107-111 | the new index (saturating difference modulo the count) is below the item count |
| Navigation.AdvanceInside | src/state_management/state.rs:99-104 | inside the list a move of `t > 0` lands exactly `t` further, and `add_index(0)` jumps to the last item |
| Navigation.AdvancePastEnd | src/state_management/state.rs:99-104 | a move that overshoots the end by less than one lap snaps to the last item |
| Navigation.RetreatInside | src/state_management/state.rs:107-111 | from a valid index `sub_index` saturates at 0 and never wraps to the end |
| Navigation.AdvanceExamples | src/state_management/state.rs:99-104 | the edge cases: len 5, index 4, +1 gives 4; +0 gives 4; index 1, +7 gives 3; index 1, +1 gives 2 |
| Lex.LexLeReflexive | src/state_management/state.rs:122 | the string order used by the display-string sort is reflexive |
| Lex.LexLeTotal | src/state_management/state.rs:122 | the string order is total, so any two display strings compare |
| Lex.LexLeTransitive | src/state_management/state.rs:122 | the string order is transitive |
| Lex.LexLeAntisymmetric | src/state_management/state.rs:122 | the string order is antisymmetric |
| Sorting.Insert | src/state_management/state.rs:122 | one insertion step of the stable sort adds exactly the inserted element |
| Sorting.SortBy | src/state_management/state.rs:122 | the stable sort by key returns a permutation of its input |
| Sorting.Filter | src/state_management/state.rs:123 | every element kept by one group of the partition satisfies the group's predicate |
| Sorting.DirsFirst | src/state_management/state.rs:123 | `sort_by_key(!is_dir)` returns a permutation of its input |
| Sorting.FilterSplits | src/state_management/state.rs:123 | the directory group and the file group together hold exactly the input |
| Sorting.InsertLowerBound | src/state_management/state.rs:122 | an insertion keeps every key above a common lower bound |
| Sorting.InsertSorted | src/state_management/state.rs:122 | inserting into a sorted list keeps it sorted |
| Sorting.SortBySorted | src/state_management/state.rs:122 | the result of the display-string sort is sorted by display string |
| Sorting.FilterLowerBound | src/state_management/state.rs:123 | a group keeps every key above a lower bound of the input |
| Sorting.FilterSorted | src/state_management/state.rs:123 | the stable partition keeps each group in its sorted order |
| Sorting.PartitionOrder | src/state_management/state.rs:123 | partitioning a sorted sequence puts directories before files and keeps each group sorted |
| Sorting.TwoPassOrder | src/state_management/state.rs:122-123 | the two passes give a permutation in which directories precede files and each group is sorted by display string |
| FileSystems.ReadablePaths | src/state_management/state.rs:116-118 | `filter_map(path.ok())` keeps exactly the entries that could be read |
| Paths.FileNameOfPush | src/state_management/panel_item.rs:23-32 | the file name of `dir` pushed with a plain name is that name |
| PanelItems.PanelItem.New | src/state_management/panel_item.rs:16-21 | a new item has the given path and is unmarked |
| PanelItems.PanelItem.FileFullPath | src/state_management/panel_item.rs:38-44 | `file_full_path` equals `display_string` |
| PanelItems.PanelItem.CurrentFileName | src/state_management/panel_item.rs:46-48 | `current_file_name` is `file_name` of the item's own path |
| PanelItems.CurrentFileNames | src/state_management/panel_item.rs:23-32 | an entry `dir/name` is named `name`, and the `..` entry is named ".." because it has no file name |
| States.Unmarked | src/state_management/state.rs:116-118 | every read path becomes an unmarked item, in order |
| States.ReadItems | src/state_management/state.rs:114-125 | the scan fails exactly when `read_dir` fails, and otherwise has one more item than there are readable entries |
| States.ReadItemsOrder | src/state_management/state.rs:114-125 | the scan is a permutation of the readable entries plus `..`, all unmarked; directories precede files and each group is sorted by display string |
| States.ScanOrder | src/state_management/state.rs:121-123 | sorting unmarked entries that include `..` keeps them all, unmarked, with `..` among them, directories first and each group sorted |
| States.Start | src/state_management/state.rs:36-55 | a new state has the left panel active and the right not, both at index 0 with the same path and items; editor and popup fields are at their defaults; exactly one panel is active, items are non-empty and the popup invariant holds |
| States.Advanced | src/state_management/state.rs:97-105 | `add_index` changes only the active panel's index, and the new index is in range even when the old one was stale |
| States.Retreated | src/state_management/state.rs:107-111 | `sub_index` changes only the active panel's index, and the new index is in range |
| States.Reloaded | src/state_management/state.rs:72-81 | `reload` replaces only that panel's items with a rescan of its own path, and keeps the panel invariants |
| States.ChangedDir | src/state_management/state.rs:83-95 | `cd` changes only the active panel: its path is the canonical form of path/dir, its index is 0 and its items are a rescan; it fails exactly when canonicalisation or the scan fails |
| States.State.Init | src/state_management/state.rs:19-33 | the state object holds the given snapshot |
| States.State.New | src/state_management/state.rs:36-55 | `State::new` fails exactly when there is no current directory or it cannot be read, and otherwise yields the start state |
| States.WithActiveIndex | src/state_management/state.rs:64-70 | only the active panel's index changes, to the given value; its items stay the same |
| States.State.SetActivePanelIndex | src/state_management/state.rs:64-70 | only the active panel's index is overwritten |
| States.State.Reload | src/state_management/state.rs:72-81 | the object's new value is `Reloaded` of its old value |
| States.State.Cd | src/state_management/state.rs:83-95 | the object's new value is `ChangedDir` of its old value |
| States.State.AddIndex | src/state_management/state.rs:97-105 | the object's new value is `Advanced` of its old value |
| States.State.SubIndex | src/state_management/state.rs:107-111 | the object's new value is `Retreated` of its old value |
| States.ReloadMayLeaveStaleIndex | src/state_management/state.rs:72-81 | a reload that shrinks the listing keeps the old index, which then points past the last item |
| StateStores.Copied | src/state_management/state_store.rs:68-88 | `Copy` shows the failure, then reloads the left and the right panel; it fails only when a reload fails, and it keeps the panel invariants |
| StateStores.ReducePanels | src/state_management/state_store.rs:52-88 | the arms that move panels keep the items non-empty and exactly one panel active; only `Reload`, `Cd` and `Copy` can panic |
| StateStores.ReduceFields | src/state_management/state_store.rs:89-183 | the popup and editor arms leave both panels untouched |
| StateStores.Reduce | src/state_management/state_store.rs:51-188 | one step terminates exactly on `Exit`, panics only on `Reload`, `Cd` or `Copy`, and otherwise keeps the panel invariants |
| StateStores.Run | src/state_management/state_store.rs:38-200 | the loop publishes at most one snapshot per event; it publishes one for every event when it is still waiting at the end; it ends exited, stopped, panicked or waiting |
| StateStores.RunFirst | src/state_management/state_store.rs:184-193 | an interrupt or an `Exit` as the next event ends the loop without publishing; a panicking step ends it too |
| StateStores.RunResumes | src/state_management/state_store.rs:49-196 | after a step that continues, the loop resumes from the next event with the new state published |
| StateStores.RunEnds | src/state_management/state_store.rs:184-197 | a loop that stops at an event without publishing ends with exactly what it had published so far |
| StateStores.StateStore.constructor | src/state_management/state_store.rs:32-36 | nothing is published and no termination is requested |
| StateStores.StateStore.Apply | src/state_management/state_store.rs:51-188 | applying an action in place continues, breaks or crashes as `Reduce` says, and leaves the state equal to `Reduce`'s result |
| StateStores.StateStore.ApplyPanels | src/state_management/state_store.rs:52-88 | the panel arms applied in place agree with `ReducePanels` |
| StateStores.StateStore.ApplyFields | src/state_management/state_store.rs:89-183 | the popup and editor arms applied in place agree with `ReduceFields` |
| StateStores.StateStore.MainLoop | src/state_management/state_store.rs:38-200 | the initial state is published once, followed by what `Run` publishes; termination is requested exactly when the loop exits through `Exit`; with no current directory it returns the error (`NoCurrentDir`) and with an unreadable one it panics, publishing nothing in either case |
| StateStores.StateStore.Serve | src/state_management/state_store.rs:49-197 | the loop publishes exactly the snapshots `Run` sends and ends as `Run` ends |
| StateStores.StateStore.HandleEvent | src/state_management/state_store.rs:50-196 | one turn of the loop: an interrupt, `Exit` or a panic ends the run with what was published so far (termination requested only on `Exit`); any other action publishes the new state and the run goes on from the next event |
| StoreProperties.SwitchTabsTwice | src/state_management/state_store.rs:52-55 | `SwitchTabs` makes the other panel active and changes nothing else; two `SwitchTabs` restore the state |
| StoreProperties.PanelArmsKeepPending | src/state_management/state_store.rs:52-88 | the panel arms keep the pending action, and only a failing `Copy` changes the popup type |
| StoreProperties.PopupInvariantKept | src/state_management/state_store.rs:68-183 | "a pending action is never paired with an Error popup" is broken by a step exactly when an action is pending and a `Copy` or `Open` fails |
| StoreProperties.FailedCopyKeepsPendingAction | src/state_management/state_store.rs:82-85 | a failing copy while a `MkDir` is pending yields an Error popup that still holds `MkDir` |
| StoreProperties.RunnerOnlyForCommand | src/state_management/state_store.rs:68-166 | a step depends on the command runner only through the one command it runs |
| StoreProperties.RemoveConfirmed | src/state_management/state_store.rs:124-150 | `RmYesNo` asks "Do you want to remove file? " + file and stores `Rm(file)`; `Rm` runs `rm -rf file`, clears the pending action, and shows stderr as an Error on failure or an empty message on success |
| StoreProperties.CancelClosesPopup | src/state_management/state_store.rs:180-183 | in every state `Cancel` clears the message and the pending action, keeps the popup type, runs nothing and leaves the popup invariant holding |
| StoreProperties.RemoveCancelled | src/state_management/state_store.rs:124-130 | after `RmYesNo`, `Cancel` clears the message and the pending action and changes nothing else |
| StoreProperties.MakeDirectoryFlow | src/state_management/state_store.rs:89-123 | `MkDirInput` asks "Create directory:" and stores `MkDir`; `MkDir` runs `mkdir` on the active path + separator + the typed input, clears the pending action and reports failure as an Error |
| StoreProperties.CopyOutcome | src/state_management/state_store.rs:68-88 | `Copy` runs `cp -r from to` and reloads both panels whatever the outcome; the popup changes only on failure, to stderr and Error |
| StoreProperties.OpenOutcome | src/state_management/state_store.rs:151-166 | `Open` runs `open file` and changes nothing on success; on failure it shows stderr as an Error |
| StoreProperties.EditorSession | src/state_management/state_store.rs:167-179 | `Edit` opens the file unmodified; `EditorModified` and `EditorResedModified` set and clear the flag; `EditorExit` closes the file but keeps the flag |
| StoreProperties.ExitEndsRun | src/state_management/state_store.rs:184-188 | `Exit` ends the loop at once and publishes nothing more |
| StoreProperties.RunKeepsInvariants | src/state_management/state_store.rs:38-200 | every published snapshot has non-empty item lists and exactly one active panel |
| StoreProperties.RunIgnoresAfterStop | src/state_management/state_store.rs:184-193 | once the loop has stopped, later events change nothing |
| Keys.Then | src/ui_management/pages/main_page/main_page.rs:107-155 | the page's actions follow the panel's, unless the panel's handler panicked |
| Buttons.Button.New | src/ui_management/pages/main_page/components/button.rs:28-40 | a new button is inactive and titled "Ok" |
| Buttons.Button.Title | src/ui_management/pages/main_page/components/button.rs:21-24 | `title` replaces the title only |
| Buttons.Button.MoveWithState | src/ui_management/pages/main_page/components/button.rs:42-47 | a state change leaves the button unchanged |
| Buttons.Button.HandleKeyEvent | src/ui_management/pages/main_page/components/button.rs:53-57 | the button emits `Cancel` exactly when it is active and the key is Enter or space, and nothing otherwise |
| Popups.PropsFrom | src/ui_management/pages/main_page/components/popup.rs:23-32 | the popup is active exactly when the message is non-empty; type and pending action are copied verbatim |
| Popups.TextArea.Lines | src/ui_management/pages/main_page/components/popup.rs:166 | the input always has a first line |
| Popups.EnterActions | src/ui_management/pages/main_page/components/popup.rs:155-161 | Enter emits `Cancel` on an Error popup or when Cancel is focused, otherwise the pending action if any |
| Popups.EditedInput | src/ui_management/pages/main_page/components/popup.rs:162-167 | the input buffer changes only for Input popups and only on keys the popup does not handle |
| Popups.Reply | src/ui_management/pages/main_page/components/popup.rs:138-169 | at most one action: Esc emits `Cancel`, Left and Right emit nothing, Enter follows `EnterActions`, any other key emits `SetInput` of the first input line |
| Popups.Popup.constructor | src/ui_management/pages/main_page/components/popup.rs:98-122 | a new popup has Ok focused, Cancel not, and an empty input |
| Popups.Popup.MoveWithState | src/ui_management/pages/main_page/components/popup.rs:124-132 | a state change refreshes the props only; focus and input persist |
| Popups.Popup.HandleKeyEvent | src/ui_management/pages/main_page/components/popup.rs:138-169 | emits `Reply`; Right moves focus from Ok to Cancel only when Ok is focused, Left the reverse; exactly one button stays focused |
| Panels.Panel.New | src/ui_management/pages/main_page/components/panel.rs:62-87 | a new panel is placed left and shows the left panel's data |
| Panels.Panel.SetPlacement | src/ui_management/pages/main_page/components/panel.rs:34-36 | only the placement changes |
| Panels.Panel.MoveWithState | src/ui_management/pages/main_page/components/panel.rs:89-117 | the props copy active flag, items, path and index from the side the panel is placed on |
| Panels.Panel.CurrentItem | src/ui_management/pages/main_page/components/panel.rs:38-43 | the current item exists exactly when the index is below the item count |
| Panels.Panel.HandleKeyEvent | src/ui_management/pages/main_page/components/panel.rs:126-163 | Down/Up move by 1, PageDown/Right and PageUp/Left by 20; Enter enters a directory or opens a file; F4 edits a file's full path; other keys emit nothing; F4 and Enter panic without a current item |
| MainPages.PagePropsFrom | src/ui_management/pages/main_page/main_page.rs:19-29 | the active panel is R exactly when the right panel is active |
| MainPages.Opposite | src/ui_management/pages/main_page/main_page.rs:50-55 | the opposite panel is the other one |
| MainPages.CopyCurrent | src/ui_management/pages/main_page/main_page.rs:123-127 | copy sends the current full path and the opposite directory, and panics when either is missing |
| MainPages.RemoveCurrent | src/ui_management/pages/main_page/main_page.rs:131-134 | remove asks about the current full path, and panics without a current item |
| MainPages.PageKeys | src/ui_management/pages/main_page/main_page.rs:113-155 | Tab sends `SwitchTabs`; F7 sends `MkDirInput`; F8 and `d` ask to remove the current entry; F5 and a plain `c` copy it to the opposite panel; F10, `q` and Ctrl-c send `Exit`; F4 sends `Edit` with the current file name for a file, nothing for a directory, and panics with no current entry; every other key sends nothing; at most one action |
| MainPages.KeyActions | src/ui_management/pages/main_page/main_page.rs:102-155 | non-Press events emit nothing; otherwise the active panel's actions come first, then the page's |
| MainPages.MainPage.constructor | src/ui_management/pages/main_page/main_page.rs:63-80 | the panels are placed left and right and show their sides of the state; the popup starts with Ok focused |
| MainPages.MainPage.MoveWithState | src/ui_management/pages/main_page/main_page.rs:82-93 | props, both panels and the popup props are refreshed; focus and input persist |
| MainPages.MainPage.HandleKeyEvent | src/ui_management/pages/main_page/main_page.rs:99-157 | while the popup is active only the popup handles the key: the page sends its `Reply`, the popup keeps its props, its input becomes `EditedInput`, Right focuses Cancel, Left focuses Ok and other keys keep the focus; otherwise the popup is untouched and the key goes to `KeyActions` |
| UiProperties.ActivePanelsAgree | src/ui_management/pages/main_page/main_page.rs:19-29 | with exactly one active panel the page and the state agree on which panel is active, and the page's opposite panel is the inactive one |
| UiProperties.BothActiveDisagree | src/ui_management/pages/main_page/main_page.rs:22-26 | if both panels were active, the page would pick the right one while the state picks the left one |
| UiProperties.ExitKeys | src/ui_management/pages/main_page/main_page.rs:135-147 | F10, q and Ctrl-c emit exactly `Exit` |
| UiProperties.KeysAgree | src/ui_management/pages/main_page/main_page.rs:123-153 | F5 acts like a plain c, and F8 acts like d |
| UiProperties.CopyKeyTargetsOppositePanel | src/ui_management/pages/main_page/main_page.rs:123-127 | F5 copies the current item's full path into the other panel's directory |
| UiProperties.ReleasesIgnored | src/ui_management/pages/main_page/main_page.rs:103-105 | key release and repeat events emit nothing |
| UiProperties.PopupTakesQuitKey | src/ui_management/pages/main_page/main_page.rs:100-101 | while a directory name is typed, q becomes input and does not quit |
| UiProperties.EditKeyOpensFileName | src/ui_management/pages/main_page/main_page.rs:117-122 | F4 on a file sends `Edit(full path)` then `Edit(file name)`, so the editor ends up holding the bare file name |
| UiProperties.EnterEntersDirectory | src/ui_management/pages/main_page/components/panel.rs:152-156 | Enter on a directory sends `Cd(name)`, and the reducer moves the active panel to its canonical path at index 0 |
| UiProperties.DownThenUp | src/state_management/state_store.rs:59-64 | inside the list, one step down and one step up restore the state |
| FileLists.ReadFileList | src/filelist.rs:5-12 | the listing fails exactly when `read_dir` fails; otherwise it holds the readable entries in order followed by exactly one ".." |
| FileLists.FileName | src/filelist.rs:14-23 | the last path component, or ".." when there is none |
| FileLists.FileNameOfListing | src/filelist.rs:8-10 | the last listed entry is named "..", and an entry pushed with a plain name is named by it |
| PanelItemContexts.PanelItemContext.New | src/app_context/panel_item_context.rs:10-15 | a new item has the given path and is unmarked |
| PanelItemContexts.PanelItemContext.FullPath | src/app_context/panel_item_context.rs:21-31 | `full_path` equals `display_string` |
| PanelItemContexts.PanelItemContext.Mark | src/app_context/panel_item_context.rs:37-39 | `mark` negates the mark and keeps the path |
| PanelItemContexts.MarkTwice | src/app_context/panel_item_context.rs:37-39 | marking twice restores the item, and marking once always changes it |
| PanelContexts.Wrapped | src/app_context/panel_context.rs:92 | every listed path becomes an unmarked item, in order |
| PanelContexts.Listing | src/app_context/panel_context.rs:91-95 | the listing fails exactly when `read_dir` fails, and otherwise has one more item than there are readable entries |
| PanelContexts.ListingOrder | src/app_context/panel_context.rs:91-95 | the listing is a permutation of the wrapped file list, all unmarked, with directories first and each group sorted by display string |
| PanelContexts.PanelContext.Init | src/app_context/panel_context.rs:19-24 | a fresh panel has the given flag and path, no items and index 0 |
| PanelContexts.PanelContext.New | src/app_context/panel_context.rs:17-27 | `new` fails exactly when there is no current directory or it cannot be read; otherwise the panel has the given flag, index 0 and the sorted listing |
| PanelContexts.PanelContext.CurrentItem | src/app_context/panel_context.rs:29-33 | the current item exists exactly when the index is below the item count |
| PanelContexts.PanelContext.CurrentFilename | src/app_context/panel_context.rs:81-89 | the current file name is `file_name` of the item at the index, and exists exactly when the index is in range |
| PanelContexts.PanelContext.MarkCurrentItem | src/app_context/panel_context.rs:60-62 | only the mark of the item at the index flips |
| PanelContexts.PanelContext.SubIndex | src/app_context/panel_context.rs:64-66 | the index becomes `RetreatIndex` of the old index; nothing else changes |
| PanelContexts.PanelContext.AddIndex | src/app_context/panel_context.rs:68-75 | the index becomes `AdvanceIndex` of the old index; nothing else changes |
| PanelContexts.PanelContext.ReadFiles | src/app_context/panel_context.rs:91-98 | on success the items are the sorted listing and the index is 0; on failure items and index are unchanged |
| PanelContexts.PanelContext.Cd | src/app_context/panel_context.rs:51-58 | `cd` pushes the current file name, canonicalises, changes the process directory and rescans; each failure is an error and leaves items and index, and a failed canonicalisation leaves the pushed path |
| AppContexts.AppContext.Init | src/app_context.rs:24-31 | the context holds the two panels and does not quit |
| AppContexts.AppContext.New | src/app_context.rs:24-31 | the left panel starts active and the right inactive |
| AppContexts.AppContext.CurrentPanel | src/app_context.rs:33-39 | the current panel is the left one exactly when the left one is active |
| AppContexts.AppContext.Tab | src/app_context.rs:72-75 | `tab` negates both flags, so current and other panel swap, and nothing else changes |
| AppContexts.AppContext.KeyUp | src/app_context.rs:77-82 | with select, the mark at the old index flips, then the index retreats; only the current panel changes |
| AppContexts.AppContext.KeyDown | src/app_context.rs:84-89 | with select, the mark at the old index flips, then the index advances; only the current panel changes |

## Left out

- External commands (`cp`, `mkdir`, `rm`, `open`) are not executed. The runner is the oracle `Env.run`. The Windows variants (`start`, and the other `cfg(windows)` branches) are not modelled.
- A command that cannot be spawned (the `.expect` on `output()`) is not modelled. The runner always returns an output.
- `get_error_msg` decodes stderr lossily from UTF-8. The model takes stderr as a string already, so `StateStores.ErrorMsg` is just the stderr field.
- Filesystem calls are the `FileSystem` oracle. `set_current_dir` changes the whole process's directory, and that global effect is not modelled beyond its success flag.
- `Paths.Push` treats the pushed name as one component. A name that contains a separator is not split, and an absolute name does not replace the path.
- `to_str` failing on a non-UTF-8 file name (a panic in `file_name`) is not modelled. Names are strings.
- The tokio `select!` between actions and interrupts, the channels, send errors and channel closure are not modelled. The loop receives one sequence of events, in which each event is an action or an interrupt. `Terminator::terminate` is modelled only as the `terminateRequested` flag, because `crate::termination` is not part of this model.
- StateStores.StateStore.MainLoop: the loop is the separate method `Serve`, one turn of it is `HandleEvent`, and the match is split into `ApplyPanels` and `ApplyFields`. These are the same steps in the same order, grouped so that each proof stays small.
- Popups.Popup.HandleKeyEvent: the `match` on the key code is written as an if-chain. The branches are the same.
- The `tui_textarea` widget is an oracle `TextEditor` from input and key to the new input. Only its first line (`lines()[0]`) is observed.
- Key modifiers other than CONTROL are not modelled. Ctrl-q and Ctrl-d act like q and d, as in the code.
- The `notify` watchers, `check` and the panics when a watcher cannot be created are left out. This is operating-system event I/O.
- All rendering is left out: `render`, `centered_rect`, `help_line`, the `ListItem` colouring, `src/panel.rs`, `src/root.rs` and `src/editor.rs`.
- The editor page, `src/app_context/editor_context.rs` and `AppContext::apply_cmd` are left out. They do file I/O through the text editor widget.
- The page router (`src/ui_management/pages/mod.rs`) is left out. Its one rule is that the editor is shown when `editor_file` is set.
- Terminal setup, polling and the command line (`src/app.rs`, `src/cli.rs`, `src/main.rs`, `src/event.rs`) are left out. So is `src/components/help.rs`, which refers to modules that are not in the tree.
- `sort_by` and `sort_by_key` are modelled by functions with the same result: a stable insertion sort and a stable partition. They do not reorder a vector in place. `PanelContexts.PanelContext.ReadFiles` assigns the result of `PanelContexts.Listing`, which applies the two sorts to the file list.
- PanelContexts.PanelContext.MarkCurrentItem: the mutable borrow of one item is modelled as replacing that element of `items`.
- States.State.AddIndex and States.State.SubIndex require a non-empty list. The code divides by the item count, which panics on an empty list. `States.ReadItems` always adds `..`, so the lists in every reachable state are non-empty, and `StoreProperties.RunKeepsInvariants` proves this for the published snapshots.
- PanelContexts.PanelContext.AddIndex, PanelContexts.PanelContext.SubIndex, AppContexts.AppContext.KeyUp and AppContexts.AppContext.KeyDown require a non-empty list (and `KeyUp`/`KeyDown` an index in range) for the same reason.
- `Panels.Panel.CurrentDir` and `MainPages.CopyCurrent` model `.expect("No directory set for panel")` as a panic. A panel built from a state always has a directory.

The model also records behaviours of the code that may surprise a reader:

- `reload` keeps the index, so after a rescan that shrinks a directory the index can point past the end (`States.ReloadMayLeaveStaleIndex`).
- A failing `Copy` or `Open` does not clear a pending action, so an Error popup can carry one (`StoreProperties.FailedCopyKeepsPendingAction`).
- A failure with an empty stderr sets the popup type to Error and leaves the message empty, so the popup stays hidden.
- F4 on a file sends two `Edit` actions, and the second one, with the bare file name, wins (`UiProperties.EditKeyOpensFileName`).
- `EditorExit` keeps the modified flag (`StoreProperties.EditorSession`).
- If both panels were active, the page would treat the right one as active and the state the left one (`UiProperties.BothActiveDisagree`).
- In the old panel, a failed canonicalisation in `cd` leaves the pushed path in place over the old listing (`PanelContexts.PanelContext.Cd`).
