/** The kinds of informational log records (`src/info_subtype.rs`), their
    messages and stepping through them in declaration order. */
module InfoSubtypes {
  import Wrappers

  datatype InfoSubType =
    | General
    | EnterSubheading
    | EnterParent
    | CompleteTask
    | UncompleteTask
    | StartTimer
    | StopTimer
    | Save
    | None

  /** The discriminant: the position in declaration order. */
  function Index(t: InfoSubType): (r: nat)
    ensures r < 9
  {
    match t
    case General => 0
    case EnterSubheading => 1
    case EnterParent => 2
    case CompleteTask => 3
    case UncompleteTask => 4
    case StartTimer => 5
    case StopTimer => 6
    case Save => 7
    case None => 8
  }

  /** `from_repr`: the variant with a given discriminant, if there is one. */
  function FromIndex(i: nat): (r: Wrappers.Option<InfoSubType>)
    ensures r.Some? <==> i < 9
    ensures r.Some? ==> Index(r.value) == i
  {
    if i == 0 then Wrappers.Some(General)
    else if i == 1 then Wrappers.Some(EnterSubheading)
    else if i == 2 then Wrappers.Some(EnterParent)
    else if i == 3 then Wrappers.Some(CompleteTask)
    else if i == 4 then Wrappers.Some(UncompleteTask)
    else if i == 5 then Wrappers.Some(StartTimer)
    else if i == 6 then Wrappers.Some(StopTimer)
    else if i == 7 then Wrappers.Some(Save)
    else if i == 8 then Wrappers.Some(InfoSubType.None)
    else Wrappers.Option.None
  }

  lemma IndexInjective(a: InfoSubType, b: InfoSubType)
    requires Index(a) == Index(b)
    ensures a == b
  {
  }

  /** `prev`: the variant before, staying at `General`. */
  function Prev(t: InfoSubType): (r: InfoSubType)
    ensures Index(r) == if Index(t) == 0 then 0 else Index(t) - 1
  {
    var i := if Index(t) == 0 then 0 else Index(t) - 1;
    match FromIndex(i)
    case Some(p) => p
    case _ => t
  }

  /** `next`: the variant after, staying at `None`. */
  function Next(t: InfoSubType): (r: InfoSubType)
    ensures Index(r) == if Index(t) == 8 then 8 else Index(t) + 1
  {
    match FromIndex(Index(t) + 1)
    case Some(n) => n
    case _ => t
  }

  /** Stepping back undoes stepping forward everywhere but at the end, and
      the other way round everywhere but at the start. */
  lemma StepsUndo(t: InfoSubType)
    ensures t != InfoSubType.None ==> Prev(Next(t)) == t
    ensures t != General ==> Next(Prev(t)) == t
  {
    if t != InfoSubType.None { IndexInjective(Prev(Next(t)), t); }
    if t != General { IndexInjective(Next(Prev(t)), t); }
  }

  /** `message`: a fixed phrase followed by the information for the six
      navigation, task and timer kinds; a fixed sentence for `Save`; "erm"
      otherwise. */
  function Message(t: InfoSubType, info: string): (r: string)
    ensures t.General? || t.None? ==> r == "erm"
    ensures t.Save? ==> r == "Successfully saved the project"
    ensures !(t.General? || t.None? || t.Save?) ==> r == Phrase(t) + info
  {
    match t
    case EnterSubheading => "Entering subheading:  " + info
    case EnterParent => "Entering parent: " + info
    case CompleteTask => "Completing task: " + info
    case UncompleteTask => "Cancelling completion of task: " + info
    case StartTimer => "Starting time on task at line: " + info
    case StopTimer => "Stopping timer on task at line: " + info
    case Save => "Successfully saved the project"
    case _ => "erm"
  }

  /** The fixed phrase a message of kind `t` starts with. */
  function Phrase(t: InfoSubType): string
  {
    match t
    case EnterSubheading => "Entering subheading:  "
    case EnterParent => "Entering parent: "
    case CompleteTask => "Completing task: "
    case UncompleteTask => "Cancelling completion of task: "
    case StartTimer => "Starting time on task at line: "
    case StopTimer => "Stopping timer on task at line: "
    case _ => ""
  }

  /** A message of one of the six phrased kinds gives back its information:
      stripping the phrase recovers `info`, so distinct infos give distinct
      messages. */
  lemma MessageKeepsInfo(t: InfoSubType, info: string)
    requires !(t.General? || t.None? || t.Save?)
    ensures |Message(t, info)| == |Phrase(t)| + |info|
    ensures Message(t, info)[|Phrase(t)|..] == info
  {
  }
}
