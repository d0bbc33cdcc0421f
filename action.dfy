/** The messages the UI sends to the state store. */
module Actions {
  import opened Navigation

  /** Which of the two panels. */
  datatype PanelPosition = L | R

  /** Every variant the store and the UI use (the variant list in the action
      file lacks `SetInput`, `MkDirInput` and `MkDir`, which the store and the
      popup use); `EditorResedModified` keeps the program's spelling. */
  datatype Action =
    | Edit(file: string)
    | EditorResedModified
    | EditorModified
    | EditorExit
    | FileItemUp(times: Usize)
    | FileItemDown(times: Usize)
    | Cd(dir: string)
    | Open(file: string)
    | Copy(from: string, to: string)
    | SetInput(value: string)
    | MkDirInput
    | MkDir
    | RmYesNo(file: string)
    | Rm(file: string)
    | SwitchTabs
    | Reload(position: PanelPosition)
    | Cancel
    | Exit
}
