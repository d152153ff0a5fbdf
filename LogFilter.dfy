/** The tab that narrows the log to one kind of record
    (`src/task_timer/views/log/filter.rs`; `src/components/log_view.rs` holds
    a copy over the later record kinds). */
module LogFilters {
  import LT = LogTypes

  datatype Filter = ALL | INFO | ERROR

  /** `Filter::default()`. */
  const DefaultFilter: Filter := ALL

  /** The discriminant: the position in declaration order. */
  function Index(f: Filter): (r: nat)
    ensures r < 3
  {
    match f
    case ALL => 0
    case INFO => 1
    case ERROR => 2
  }

  /** `from_repr`, falling back to `f` (`unwrap_or(self)`). */
  function FromIndexOr(i: nat, f: Filter): (r: Filter)
    ensures i < 3 ==> Index(r) == i
    ensures i >= 3 ==> r == f
  {
    if i == 0 then ALL else if i == 1 then INFO else if i == 2 then ERROR else f
  }

  /** `prev`: one tab to the left, staying on `ALL`. */
  function Prev(f: Filter): (r: Filter)
    ensures Index(r) == if Index(f) == 0 then 0 else Index(f) - 1
  {
    FromIndexOr(if Index(f) == 0 then 0 else Index(f) - 1, f)
  }

  /** `next`: one tab to the right, staying on `ERROR`. */
  function Next(f: Filter): (r: Filter)
    ensures Index(r) == if Index(f) == 2 then 2 else Index(f) + 1
  {
    FromIndexOr(Index(f) + 1, f)
  }

  /** Stepping right then left returns to the start everywhere but at the
      right end, and the other way round everywhere but at the left end. */
  lemma PrevUndoesNext(f: Filter)
    ensures f != ERROR ==> Prev(Next(f)) == f
    ensures f != ALL ==> Next(Prev(f)) == f
  {
    assert Index(Prev(Next(f))) == Index(f) || f == ERROR;
    assert Index(Next(Prev(f))) == Index(f) || f == ALL;
  }

  /** `includes`: `ALL` lets everything through, `INFO` only informational
      records and `ERROR` only error records. */
  function Includes<S>(f: Filter, l: LT.LogType<S>): (b: bool)
    ensures f == ALL ==> b
    ensures f == INFO ==> (b <==> l.INFO?)
    ensures f == ERROR ==> (b <==> l.ERROR?)
  {
    if f == ALL then true
    else if l.INFO? && f == INFO then true
    else if l.ERROR? && f == ERROR then true
    else false
  }

  /** Every record shows under exactly one of the two narrowing tabs, the
      one whose colour it is drawn in. */
  lemma ExactlyOneNarrowTab<S>(l: LT.LogType<S>)
    ensures Includes(INFO, l) != Includes(ERROR, l)
    ensures Includes(ERROR, l) <==> LT.ColorOf(l) == LT.Red
  {
  }
}
