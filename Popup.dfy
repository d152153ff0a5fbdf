/** The quit prompt (`src/components/popups/popup.rs`) and the session states
    of the application (`src/app.rs`; `src/task_timer/session_manager.rs`
    declares the same three states). */
module Popups {
  import opened Keys

  datatype SessionState = Running | AwaitingPrompt | Quitting

  datatype PopupType = NoPopup | ConfirmQuit

  /** `confirm_quit`: 'y' quits, 'n' goes back to work, anything else keeps
      the prompt up. */
  function ConfirmQuitKey(key: KeyCode): (s: SessionState)
    ensures s == Quitting <==> key == Char('y')
    ensures s == Running <==> key == Char('n')
    ensures s == AwaitingPrompt <==> key != Char('y') && key != Char('n')
  {
    match key
    case Char('y') => Quitting
    case Char('n') => Running
    case _ => AwaitingPrompt
  }

  /** `PopupType::handle_events`: only the quit prompt reacts to keys; with
      no popup every key leaves the session running. */
  function HandleEvents(p: PopupType, key: KeyCode): (s: SessionState)
    ensures p == NoPopup ==> s == Running
    ensures p == ConfirmQuit ==> (s == Quitting <==> key == Char('y'))
    ensures p == ConfirmQuit ==> (s == Running <==> key == Char('n'))
  {
    match p
    case ConfirmQuit => ConfirmQuitKey(key)
    case _ => Running
  }
}
