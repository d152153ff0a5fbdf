/** The event loop's state machine of the task-timer window
    (`src/task_timer/session_manager.rs`): running, waiting for an answer to
    the quit prompt, or quitting, and the line the cursor is on.  The window
    it drives is outside the model except for its content height and whether
    its popup is shown. */
module Sessions {
  import opened Keys
  import opened Popups
  import opened Numbers

  /** A terminal event: a key press, or anything else (a resize, the mouse). */
  datatype Event = Key(code: KeyCode) | NonKey

  /** `handle_prompt_event`: 'y' or Esc quit, 'n' returns to work, anything
      else keeps waiting. */
  function HandlePromptEvent(key: KeyCode): (s: SessionState)
    ensures s == Quitting <==> key == Char('y') || key == Esc
    ensures s == Running <==> key == Char('n')
    ensures s == AwaitingPrompt <==> key !in {Char('y'), Esc, Char('n')}
  {
    match key
    case Char('y') => Quitting
    case Esc => Quitting
    case Char('n') => Running
    case _ => AwaitingPrompt
  }

  /** The session manager answers the prompt as the popup does, except that
      Esc also quits. */
  lemma PromptAgreesWithPopup(key: KeyCode)
    ensures key != Esc ==> HandlePromptEvent(key) == ConfirmQuitKey(key)
    ensures HandlePromptEvent(Esc) == Quitting && ConfirmQuitKey(Esc) == AwaitingPrompt
  {
  }

  class SessionManager {
    var currentLine: nat
    /** The window's content height. */
    var contentHeight: nat
    var sessionState: SessionState
    /** Whether the window shows the quit popup. */
    var popupShown: bool

    /** The cursor is on a line, counted from 1.  It may lie below the
        content: the window re-sets its height on every draw without moving
        the cursor. */
    predicate Valid()
      reads this
    {
      1 <= currentLine
    }

    /** The cursor is on a line of the content, or on line 1 when there is
        none. */
    predicate InContent()
      reads this
    {
      1 <= currentLine <= Max(1, contentHeight)
    }

    /** `SessionManager::new`: line 1, running, over an empty window. */
    constructor ()
      ensures currentLine == 1 && contentHeight == 0 && sessionState == Running && !popupShown
      ensures Valid() && InContent()
    {
      currentLine := 1;
      contentHeight := 0;
      sessionState := Running;
      popupShown := false;
    }

    /** `handle_normal_events`: 'j' moves the cursor down while it is above
        the content height, 'k' moves it up while it is below line 1, 'o' and
        'c' open or close every heading and return to line 1, Esc and 'q'
        raise the quit prompt; everything else is the window's business and
        keeps the session running.  A cursor already in the content stays
        there. */
    method HandleNormalEvents(key: KeyCode) returns (s: SessionState)
      requires Valid()
      modifies this
      ensures Valid()
      ensures key == Char('j') ==>
        currentLine == if old(currentLine) < contentHeight then old(currentLine) + 1 else old(currentLine)
      ensures key == Char('k') ==>
        currentLine == if old(currentLine) > 1 then old(currentLine) - 1 else old(currentLine)
      ensures key == Char('o') || key == Char('c') ==> currentLine == 1
      ensures key !in {Char('j'), Char('k'), Char('o'), Char('c')} ==> currentLine == old(currentLine)
      ensures old(InContent()) ==> InContent()
      ensures s == AwaitingPrompt <==> key == Esc || key == Char('q')
      ensures s != Quitting
      ensures popupShown == (old(popupShown) || key == Esc || key == Char('q'))
      ensures contentHeight == old(contentHeight) && sessionState == old(sessionState)
    {
      match key {
        case Char('j') =>
          if currentLine < contentHeight {
            currentLine := currentLine + 1;
          }
          s := Running;
        case Char('k') =>
          if currentLine > 1 {
            currentLine := currentLine - 1;
          }
          s := Running;
        case Char('o') =>
          currentLine := 1;
          s := Running;
        case Char('c') =>
          currentLine := 1;
          s := Running;
        case Esc =>
          popupShown := true;
          s := AwaitingPrompt;
        case Char('q') =>
          popupShown := true;
          s := AwaitingPrompt;
        case _ =>
          s := Running;
      }
    }

    /** `handle_events`: a non-key event keeps the state; a key is handled by
        the current state, quitting is final, and the popup goes away exactly
        when a prompt is answered with "go on". */
    method HandleEvents(event: Event) returns (s: SessionState)
      requires Valid()
      modifies this
      ensures Valid()
      ensures event.NonKey? ==> s == old(sessionState) && currentLine == old(currentLine) && popupShown == old(popupShown)
      ensures old(sessionState) == Quitting ==> s == Quitting
      ensures event.Key? && old(sessionState) == AwaitingPrompt ==>
        s == HandlePromptEvent(event.code) && currentLine == old(currentLine)
      ensures event.Key? && old(sessionState) == AwaitingPrompt && s == Running ==> !popupShown
      ensures !(event.Key? && old(sessionState) == AwaitingPrompt && s == Running) && event.Key? && old(sessionState) != Running ==>
        popupShown == old(popupShown)
      ensures event.Key? && old(sessionState) == Running ==>
        s != Quitting && (s == AwaitingPrompt <==> event.code == Esc || event.code == Char('q')) &&
        popupShown == (old(popupShown) || event.code == Esc || event.code == Char('q'))
      ensures old(InContent()) ==> InContent()
      ensures sessionState == old(sessionState) && contentHeight == old(contentHeight)
    {
      if event.NonKey? {
        return sessionState;
      }
      var newState: SessionState;
      match sessionState {
        case Running => newState := HandleNormalEvents(event.code);
        case AwaitingPrompt => newState := HandlePromptEvent(event.code);
        case Quitting => newState := Quitting;
      }
      if sessionState == AwaitingPrompt && newState == Running {
        popupShown := false;
      }
      return newState;
    }

    /** One turn of the event loop: the state becomes what `handle_events`
        answers. */
    method Step(event: Event)
      requires Valid()
      modifies this
      ensures Valid()
      ensures old(sessionState) == Quitting ==> sessionState == Quitting
      ensures old(sessionState) == Running && event == Key(Esc) ==> sessionState == AwaitingPrompt && popupShown
      ensures old(sessionState) == AwaitingPrompt && event == Key(Char('n')) ==> sessionState == Running && !popupShown
      ensures old(sessionState) == AwaitingPrompt && event == Key(Char('y')) ==> sessionState == Quitting
    {
      sessionState := HandleEvents(event);
    }
  }
}
