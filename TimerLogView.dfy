/** The log tab of the task-timer window (`src/task_timer/views/log/log_view.rs`):
    at most thirty-nine records and a filter tab stepped with 'h' and 'l'. */
module TimerLogView {
  import opened Wrappers
  import opened LogBuffers
  import opened TimeStamps
  import opened Keys
  import LT = LogTypes
  import F = LogFilters

  datatype LogEntry = LogEntry(logType: LT.LogType<LT.InfoSubType>, timeStamp: TimeStamp, message: string)

  /** The list length at which the oldest record is dropped. */
  const Limit: nat := 40

  class LogView {
    var logs: seq<LogEntry>
    var selectedFilter: F.Filter

    predicate Valid()
      reads this
    {
      |logs| < Limit
    }

    /** `LogView::new`: no records, the default tab. */
    constructor ()
      ensures logs == [] && selectedFilter == F.DefaultFilter && Valid()
    {
      logs := [];
      selectedFilter := F.DefaultFilter;
    }

    /** `prev_filter`. */
    method PrevFilter()
      modifies this
      ensures selectedFilter == F.Prev(old(selectedFilter)) && logs == old(logs)
    {
      selectedFilter := F.Prev(selectedFilter);
    }

    /** `next_filter`. */
    method NextFilter()
      modifies this
      ensures selectedFilter == F.Next(old(selectedFilter)) && logs == old(logs)
    {
      selectedFilter := F.Next(selectedFilter);
    }

    /** `log`: append the record made at `stamp`, dropping the oldest once the
        list has reached forty. */
    method Log(message: string, logType: LT.LogType<LT.InfoSubType>, stamp: TimeStamp)
      requires Valid()
      modifies this
      ensures logs == Appended(old(logs), LogEntry(logType, stamp, message), Limit)
      ensures selectedFilter == old(selectedFilter) && Valid()
    {
      logs := logs + [LogEntry(logType, stamp, message)];
      if |logs| >= Limit {
        logs := logs[1..];
      }
      AppendedStaysBelow(old(logs), LogEntry(logType, stamp, message), Limit);
    }

    /** `recent`: the last fifteen records. */
    function RecentEntries(): (r: seq<LogEntry>)
      reads this
      ensures |r| == if |logs| >= 15 then 15 else |logs|
      ensures r == logs[|logs| - |r|..]
    {
      Recent(logs, 15)
    }

    /** `handle_events`: 'h' and 'l' step the filter tab; every key reports
        nothing to log. */
    method HandleEvents(key: KeyCode) returns (r: Result<LT.InfoSubType, string>)
      modifies this
      ensures r == Ok(LT.None) && logs == old(logs)
      ensures selectedFilter ==
        if key == Char('h') then F.Prev(old(selectedFilter))
        else if key == Char('l') then F.Next(old(selectedFilter))
        else old(selectedFilter)
    {
      match key {
        case Char('h') => PrevFilter();
        case Char('l') => NextFilter();
        case _ =>
      }
      return Ok(LT.None);
    }
  }
}
