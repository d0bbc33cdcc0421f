/** Terminal key events, as the components receive them. */
module Keys {
  import opened Actions

  datatype KeyCode =
    | Backspace | Enter | Left | Right | Up | Down | Home | End | PageUp | PageDown
    | Tab | BackTab | Delete | Insert | F(n: nat) | Char(c: char) | Null | Esc

  datatype KeyEventKind = Press | Repeat | Release

  /** A key event; of the modifiers only CONTROL is consulted anywhere. */
  datatype KeyEvent = KeyEvent(code: KeyCode, control: bool, kind: KeyEventKind)

  /** What a key handler did: the actions it sent, in order, and whether it then
      panicked (an `expect` on a missing item or directory). */
  datatype Handled = Handled(actions: seq<Action>, panicked: bool)

  const Nothing: Handled := Handled([], false)

  function Sends(actions: seq<Action>): Handled
  {
    Handled(actions, false)
  }

  /** `a` then `b`: `b` does not run once `a` has panicked. */
  function Then(a: Handled, b: Handled): (r: Handled)
    ensures a.panicked ==> r == a
    ensures !a.panicked ==> r.actions == a.actions + b.actions && r.panicked == b.panicked
  {
    if a.panicked then a else Handled(a.actions + b.actions, b.panicked)
  }
}
