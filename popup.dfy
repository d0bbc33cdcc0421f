/** The modal popup: error messages, yes/no confirmations and text input. */
module Popups {
  import opened Options
  import opened Actions
  import opened States
  import opened Keys
  import opened Buttons

  /** What the popup takes from a state snapshot. */
  datatype Props = Props(popupMsg: string, popupType: PopupType, active: bool, popupNextAction: Option<Action>)

  /** The popup is shown exactly when there is a message; type and pending action
      are copied as they are. */
  function PropsFrom(state: Snapshot): (p: Props)
    ensures p.active <==> |state.popupMsg| > 0
    ensures p.popupMsg == state.popupMsg && p.popupType == state.popupType
    ensures p.popupNextAction == state.popupNextAction
  {
    Props(state.popupMsg, state.popupType, state.popupMsg != "", state.popupNextAction)
  }

  /** The text input: it always has a first line. */
  datatype TextArea = TextArea(first: string, rest: seq<string>)
  {
    function Lines(): (lines: seq<string>)
      ensures |lines| == |rest| + 1 && lines[0] == first
    {
      [first] + rest
    }
  }

  const EmptyTextArea: TextArea := TextArea("", [])

  /** How the text input reacts to a key; the editing widget is a library and
      is given as this function. */
  type TextEditor = (TextArea, KeyEvent) -> TextArea

  /** What Enter sends: `Cancel` for an error or when Cancel is focused, otherwise
      the pending action, if any. */
  function EnterActions(props: Props, cancelFocused: bool): (sent: seq<Action>)
    ensures |sent| <= 1
    ensures sent == [Cancel] <== props.popupType == Error || cancelFocused
    ensures !(props.popupType == Error || cancelFocused) ==>
      sent == (if props.popupNextAction.Some? then [props.popupNextAction.value] else [])
  {
    if props.popupType == Error || cancelFocused then [Cancel]
    else match props.popupNextAction
      case Some(action) => [action]
      case None => []
  }

  /** The keys the popup handles itself; every other key goes to the input. */
  predicate PopupKey(code: KeyCode)
  {
    code == Right || code == Left || code == Esc || code == Enter
  }

  /** The input after a key: only an `Input` popup edits it, and only with the
      keys it does not handle itself. */
  function EditedInput(props: Props, input: TextArea, key: KeyEvent, edit: TextEditor): (r: TextArea)
    ensures PopupKey(key.code) || props.popupType != Input ==> r == input
  {
    if PopupKey(key.code) || props.popupType != Input then input else edit(input, key)
  }

  /** What the popup sends for a key. Whatever the key, it sends at most one
      action, and that is `Cancel`, an input update or the pending action. */
  function Reply(props: Props, cancelFocused: bool, input: TextArea, key: KeyEvent, edit: TextEditor): (sent: seq<Action>)
    ensures |sent| <= 1
    ensures forall a <- sent :: a == Cancel || a.SetInput? || props.popupNextAction == Some(a)
    ensures key.code == Esc ==> sent == [Cancel]
    ensures key.code == Right || key.code == Left ==> sent == []
    ensures key.code == Enter ==> sent == EnterActions(props, cancelFocused)
    ensures !PopupKey(key.code) ==> sent == [SetInput(EditedInput(props, input, key, edit).Lines()[0])]
  {
    match key.code
    case Right => []
    case Left => []
    case Esc => [Cancel]
    case Enter => EnterActions(props, cancelFocused)
    case _ => [SetInput(EditedInput(props, input, key, edit).first)]
  }

  class Popup {
    var props: Props
    var okButton: Button
    var cancelButton: Button
    var input: TextArea

    /** Exactly one of the two buttons has the focus. */
    ghost predicate Valid()
      reads this
    {
      okButton.active != cancelButton.active
    }

    /** `Popup::new`: Ok focused, Cancel not, an empty input. */
    constructor (state: Snapshot)
      ensures props == PropsFrom(state)
      ensures okButton == Button(true, "Ok") && cancelButton == Button(false, "Cancel")
      ensures input == EmptyTextArea
      ensures Valid()
    {
      var ok := Button.New().Title("Ok");
      okButton := ok.(active := true);
      cancelButton := Button.New().Title("Cancel");
      input := EmptyTextArea;
      props := PropsFrom(state);
    }

    function Active(): bool
      reads this
    {
      props.active
    }

    /** Only the props follow the state; focus and input stay. */
    method MoveWithState(state: Snapshot)
      modifies this
      ensures props == PropsFrom(state)
      ensures okButton == old(okButton) && cancelButton == old(cancelButton) && input == old(input)
    {
      props := PropsFrom(state);
    }

    method HandleKeyEvent(key: KeyEvent, edit: TextEditor) returns (sent: seq<Action>)
      modifies this
      ensures sent == Reply(old(props), old(cancelButton.active), old(input), key, edit)
      ensures props == old(props)
      ensures input == EditedInput(props, old(input), key, edit)
      ensures old(Valid()) ==> Valid()
      ensures okButton.title == old(okButton.title) && cancelButton.title == old(cancelButton.title)
      ensures key.code == Right ==>
        if old(okButton.active) then !okButton.active && cancelButton.active
        else okButton == old(okButton) && cancelButton == old(cancelButton)
      ensures key.code == Left ==>
        if old(cancelButton.active) then okButton.active && !cancelButton.active
        else okButton == old(okButton) && cancelButton == old(cancelButton)
      ensures key.code != Right && key.code != Left ==>
        okButton == old(okButton) && cancelButton == old(cancelButton)
    {
      if key.code == Right {
        if okButton.active {
          okButton := okButton.(active := false);
          cancelButton := cancelButton.(active := true);
        }
        sent := [];
      } else if key.code == Left {
        if cancelButton.active {
          okButton := okButton.(active := true);
          cancelButton := cancelButton.(active := false);
        }
        sent := [];
      } else if key.code == Esc {
        sent := [Cancel];
      } else if key.code == Enter {
        if props.popupType == Error || cancelButton.active {
          sent := [Cancel];
        } else if props.popupNextAction.Some? {
          sent := [props.popupNextAction.value];
        } else {
          sent := [];
        }
      } else {
        if props.popupType == Input {
          input := edit(input, key);
        }
        sent := [SetInput(input.Lines()[0])];
      }
    }
  }
}
