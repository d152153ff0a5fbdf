/** The record kinds of the task-timer log (`src/task_timer/views/log/log_type.rs`
    and, for the later log view, `src/log_type.rs`): an informational record
    carries a sub-kind, an error record does not. */
module LogTypes {
  import IS = InfoSubtypes

  /** The earlier set of informational sub-kinds; the later set in
      `src/info_subtype.rs` adds `Save` before `None`. */
  datatype InfoSubType =
    | General
    | EnterSubheading
    | EnterParent
    | CompleteTask
    | UncompleteTask
    | StartTimer
    | StopTimer
    | None

  /** The name each sub-kind is displayed under. */
  function DisplayName(t: InfoSubType): (r: string)
    ensures r == "Node Traverse" <==> t == EnterSubheading || t == EnterParent
  {
    match t
    case General => "General"
    case EnterSubheading => "Node Traverse"
    case EnterParent => "Node Traverse"
    case CompleteTask => "Complete Task"
    case UncompleteTask => "Uncomplete Task"
    case StartTimer => "Starting Timer"
    case StopTimer => "Stopping Timer"
    case None => "None"
  }

  /** The two moves through the tree are the only sub-kinds that share a
      display name. */
  lemma SharedDisplayName(a: InfoSubType, b: InfoSubType)
    requires a != b
    ensures DisplayName(a) == DisplayName(b) <==>
      (a == EnterSubheading && b == EnterParent) || (a == EnterParent && b == EnterSubheading)
  {
    if DisplayName(a) == DisplayName(b) {
      assert |DisplayName(a)| == |DisplayName(b)|;
      assert DisplayName(a)[0] == DisplayName(b)[0];
      assert DisplayName(a)[1] == DisplayName(b)[1];
    }
  }

  /** The same sub-kind in the later set. */
  function Later(t: InfoSubType): (r: IS.InfoSubType)
    ensures r != IS.Save
    ensures t == None <==> r == IS.InfoSubType.None
  {
    match t
    case General => IS.General
    case EnterSubheading => IS.EnterSubheading
    case EnterParent => IS.EnterParent
    case CompleteTask => IS.CompleteTask
    case UncompleteTask => IS.UncompleteTask
    case StartTimer => IS.StartTimer
    case StopTimer => IS.StopTimer
    case None => IS.InfoSubType.None
  }

  /** `message`: the fixed phrase of the six navigation, task and timer
      kinds followed by the information, and "erm" for the other two. */
  function Message(t: InfoSubType, info: string): (r: string)
    ensures t == General || t == None ==> r == "erm"
    ensures t != General && t != None ==> r == IS.Phrase(Later(t)) + info
  {
    match t
    case EnterSubheading => "Entering subheading:  " + info
    case EnterParent => "Entering parent: " + info
    case CompleteTask => "Completing task: " + info
    case UncompleteTask => "Cancelling completion of task: " + info
    case StartTimer => "Starting time on task at line: " + info
    case StopTimer => "Stopping timer on task at line: " + info
    case _ => "erm"
  }

  /** The earlier `message` says what the later one says for every sub-kind
      both sets have. */
  lemma MessageAsLater(t: InfoSubType, info: string)
    ensures Message(t, info) == IS.Message(Later(t), info)
  {
  }

  /** A log record's kind, over either set of sub-kinds. */
  datatype LogType<S> = INFO(subtype: S) | ERROR

  datatype Color = Blue | Red

  /** `LogType::color`. */
  function ColorOf<S>(l: LogType<S>): (c: Color)
    ensures c == Blue <==> l.INFO?
    ensures c == Red <==> l.ERROR?
  {
    match l
    case INFO(_) => Blue
    case ERROR => Red
  }
}
