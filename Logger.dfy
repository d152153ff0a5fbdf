/** The status-line logger (`src/task_timer/logger.rs`): at most nineteen
    stamped messages, oldest first. */
module Logging {
  import opened LogBuffers
  import opened TimeStamps

  datatype LogRecord = LogRecord(stamp: TimeStamp, message: string)

  /** The list length at which the oldest record is dropped. */
  const Limit: nat := 20

  class Logger {
    var messages: seq<LogRecord>

    /** The list never reaches its limit between calls. */
    predicate Valid()
      reads this
    {
      |messages| < Limit
    }

    /** `Logger::new`. */
    constructor ()
      ensures messages == [] && Valid()
    {
      messages := [];
    }

    /** `log`: append the record made at `stamp`, then drop the oldest once
        the list has reached twenty. */
    method Log(stamp: TimeStamp, message: string)
      requires Valid()
      modifies this
      ensures messages == Appended(old(messages), LogRecord(stamp, message), Limit)
      ensures Valid()
    {
      messages := messages + [LogRecord(stamp, message)];
      if |messages| >= Limit {
        messages := messages[1..];
      }
      AppendedStaysBelow(old(messages), LogRecord(stamp, message), Limit);
    }

    /** `recent`: the last four records. */
    function RecentRecords(): (r: seq<LogRecord>)
      reads this
      ensures |r| == if |messages| >= 4 then 4 else |messages|
      ensures r == messages[|messages| - |r|..]
    {
      Recent(messages, 4)
    }
  }
}
