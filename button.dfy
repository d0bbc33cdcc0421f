/** A popup button: a focus flag and a title. */
module Buttons {
  import opened States
  import opened Actions
  import opened Keys

  datatype Button = Button(active: bool, title: string)
  {
    /** `Button::new`: not focused, titled "Ok". */
    static function New(): (b: Button)
      ensures !b.active && b.title == "Ok"
    {
      Button(false, "Ok")
    }

    /** `title`: only the title changes. */
    function Title(title: string): (b: Button)
      ensures b.title == title && b.active == active
    {
      this.(title := title)
    }

    /** A button takes nothing from the state. */
    function MoveWithState(state: Snapshot): (b: Button)
      ensures b == this
    {
      this
    }

    /** A focused button sends `Cancel` on Enter or space, and nothing otherwise. */
    function HandleKeyEvent(key: KeyEvent): (sent: seq<Action>)
      ensures sent == [Cancel] <==> active && (key.code == Enter || key.code == Char(' '))
      ensures sent == [] <==> !(active && (key.code == Enter || key.code == Char(' ')))
    {
      if active && (key.code == Enter || key.code == Char(' ')) then [Cancel] else []
    }
  }
}
