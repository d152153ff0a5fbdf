/** The later log tab (`src/components/log_view.rs`): at most ninety-nine
    records paged eight at a time, a filter tab and, under the `INFO` tab, a
    row of sub-filter tabs, one per informational sub-kind present in the
    log. */
module ComponentLogView {
  import opened Wrappers
  import opened LogBuffers
  import opened TimeStamps
  import opened Keys
  import opened Pagination
  import IS = InfoSubtypes
  import LT = LogTypes
  import F = LogFilters

  datatype LogEntry = LogEntry(logType: LT.LogType<IS.InfoSubType>, timeStamp: TimeStamp, message: string)

  /** A sub-filter tab: an informational sub-kind and whether it is the one
      selected when the tabs were built. */
  datatype SubFilter = SubFilter(infoType: IS.InfoSubType, selected: bool)

  /** The list length at which the oldest record is dropped. */
  const Limit: nat := 100

  const PageSize: nat := 8

  /** The informational sub-kinds of `logs`, each once, in order of first
      occurrence. */
  function InfoKinds(logs: seq<LogEntry>): seq<IS.InfoSubType>
  {
    if |logs| == 0 then []
    else
      var prior := InfoKinds(logs[..|logs| - 1]);
      var last := logs[|logs| - 1].logType;
      if last.INFO? && last.subtype !in prior then prior + [last.subtype] else prior
  }

  /** No sub-kind appears twice. */
  lemma {:induction false} InfoKindsDistinct(logs: seq<LogEntry>)
    ensures forall i, j :: 0 <= i < j < |InfoKinds(logs)| ==> InfoKinds(logs)[i] != InfoKinds(logs)[j]
  {
    if |logs| > 0 {
      InfoKindsDistinct(logs[..|logs| - 1]);
    }
  }

  /** A sub-kind is listed exactly when some record of the log carries it. */
  lemma {:induction false} InfoKindsComplete(logs: seq<LogEntry>, t: IS.InfoSubType)
    ensures t in InfoKinds(logs) <==> exists i :: 0 <= i < |logs| && logs[i].logType == LT.INFO(t)
  {
    if |logs| > 0 {
      var prefix := logs[..|logs| - 1];
      InfoKindsComplete(prefix, t);
      if exists i :: 0 <= i < |prefix| && prefix[i].logType == LT.INFO(t) {
        var i :| 0 <= i < |prefix| && prefix[i].logType == LT.INFO(t);
        assert logs[i] == prefix[i];
      }
      if exists i :: 0 <= i < |logs| && logs[i].logType == LT.INFO(t) {
        var i :| 0 <= i < |logs| && logs[i].logType == LT.INFO(t);
        if i < |prefix| {
          assert prefix[i] == logs[i];
        }
      }
    }
  }

  /** One tab per sub-kind, marked when it is the current one. */
  function Tabs(kinds: seq<IS.InfoSubType>, current: IS.InfoSubType): (r: seq<SubFilter>)
    ensures |r| == |kinds|
    ensures forall i :: 0 <= i < |kinds| ==> r[i] == SubFilter(kinds[i], kinds[i] == current)
  {
    seq(|kinds|, i requires 0 <= i < |kinds| => SubFilter(kinds[i], kinds[i] == current))
  }

  /** What `available_subfilters` builds: nothing without a selected
      sub-filter, otherwise a tab per sub-kind in the log. */
  function AvailableFor(logs: seq<LogEntry>, selected: Option<SubFilter>): seq<SubFilter>
  {
    if selected.None? then [] else Tabs(InfoKinds(logs), selected.value.infoType)
  }

  /** `iter().position(|e| e.info_type == t)`: the first tab of sub-kind `t`. */
  function Position(tabs: seq<SubFilter>, t: IS.InfoSubType): (r: Option<nat>)
    ensures r.Some? ==> r.value < |tabs| && tabs[r.value].infoType == t
    ensures r.Some? ==> forall j :: 0 <= j < r.value ==> tabs[j].infoType != t
    ensures r.None? ==> forall j :: 0 <= j < |tabs| ==> tabs[j].infoType != t
  {
    if |tabs| == 0 then None
    else if tabs[0].infoType == t then Some(0)
    else match Position(tabs[1..], t)
      case Some(k) => Some(k + 1)
      case None => None
  }

  /** The tab index after `p` among `n`, wrapping to the first. */
  function NextIndex(p: nat, n: nat): (r: nat)
    requires p < n
    ensures r < n
    ensures p + 1 < n ==> r == p + 1
    ensures p + 1 == n ==> r == 0
  {
    (p + 1) % n
  }

  /** The tab index before `p` among `n`, wrapping to the last. */
  function PrevIndex(p: nat, n: nat): (r: nat)
    requires p < n
    ensures r < n
  {
    if p == 0 then n - 1 else p - 1
  }

  /** Moving one tab right and one tab left, in either order, returns to
      the same tab. */
  lemma IndexStepsUndo(p: nat, n: nat)
    requires p < n
    ensures PrevIndex(NextIndex(p, n), n) == p
    ensures NextIndex(PrevIndex(p, n), n) == p
  {
  }

  /** Among tabs of distinct sub-kinds, the tab reached by a step is found
      again at the index the step went to, so the next step starts from
      there. */
  lemma PositionOfDistinct(tabs: seq<SubFilter>, k: nat)
    requires k < |tabs|
    requires forall i, j :: 0 <= i < j < |tabs| ==> tabs[i].infoType != tabs[j].infoType
    ensures Position(tabs, tabs[k].infoType) == Some(k)
  {
    var r := Position(tabs, tabs[k].infoType);
    assert r.Some?;
    assert !(r.value < k);
    assert !(r.value > k);
  }

  class LogView {
    var logs: seq<LogEntry>
    var selectedFilter: F.Filter
    var selectedSubfilter: Option<SubFilter>
    var availableSubfilters: seq<SubFilter>
    var paginator: Paginator
    var keyConfig: KeyConfig

    /** The list stays below its limit, pages hold eight records, and the
        page count never runs ahead of the records logged. */
    predicate Valid()
      reads this, paginator
    {
      |logs| < Limit && paginator.pageSize == PageSize && paginator.Valid() &&
      paginator.entryLen <= |logs| + 1
    }

    /** A filter step has selected `f`: the `INFO` tab starts on the
        `General` sub-filter, the others have none; the records, the tabs and
        the pages are kept. */
    twostate predicate FilterSelected(f: F.Filter)
      reads this, paginator
    {
      selectedFilter == f &&
      selectedSubfilter == (if f == F.INFO then Some(SubFilter(IS.General, true)) else None) &&
      logs == old(logs) && availableSubfilters == old(availableSubfilters) &&
      paginator == old(paginator) && unchanged(paginator) && keyConfig == old(keyConfig)
    }

    /** A sub-filter step, forward or back: nothing happens without a
        selected sub-filter; a selected sub-kind that has a tab moves to the
        next or previous tab, wrapping around; one without a tab is kept and
        an error record is logged at `stamp`. */
    twostate predicate SubfilterStepped(forward: bool, stamp: TimeStamp)
      reads this, paginator
    {
      availableSubfilters == old(availableSubfilters) && selectedFilter == old(selectedFilter) &&
      paginator == old(paginator) && paginator.page == old(paginator.page) &&
      paginator.pageSize == old(paginator.pageSize) && keyConfig == old(keyConfig) &&
      match old(selectedSubfilter)
      case None => unchanged(this) && unchanged(paginator)
      case Some(current) =>
        var p := Position(availableSubfilters, current.infoType);
        if p.Some? then
          var n := |availableSubfilters|;
          selectedSubfilter == Some(availableSubfilters[if forward then NextIndex(p.value, n) else PrevIndex(p.value, n)]) &&
          logs == old(logs) && paginator.entryLen == old(paginator.entryLen)
        else
          selectedSubfilter == old(selectedSubfilter) &&
          logs == Appended(old(logs), LogEntry(LT.ERROR, stamp,
                    if forward then "Could not select next subfilter. Current subfilter not found"
                    else "Could not select previous subfilter. Current subfilter not found"), Limit) &&
          paginator.entryLen == |old(logs)| + 1
    }

    /** A page step, forward or back: `next_page` or `prev_page` on the
        paginator and nothing else. */
    twostate predicate PageStepped(forward: bool)
      reads this, paginator
    {
      unchanged(this) && paginator.pageSize == old(paginator.pageSize) &&
      paginator.entryLen == old(paginator.entryLen) &&
      paginator.page ==
        if forward then
          (if (old(paginator.page) + 1) * old(paginator.pageSize) < old(paginator.entryLen)
           then old(paginator.page) + 1 else old(paginator.page))
        else if old(paginator.page) == 0 then 0 else old(paginator.page) - 1
    }

    /** `LogView::new`. */
    constructor (keyConfig: KeyConfig)
      ensures logs == [] && selectedFilter == F.DefaultFilter && selectedSubfilter == None
      ensures availableSubfilters == [] && paginator.page == 0 && paginator.entryLen == 0
      ensures this.keyConfig == keyConfig && Valid()
    {
      logs := [];
      selectedFilter := F.DefaultFilter;
      selectedSubfilter := None;
      availableSubfilters := [];
      paginator := new Paginator(PageSize);
      this.keyConfig := keyConfig;
    }

    /** `available_subfilters`. */
    method AvailableSubfilters() returns (found: seq<SubFilter>)
      ensures found == AvailableFor(logs, selectedSubfilter)
    {
      found := [];
      if selectedSubfilter.None? {
        return;
      }
      var current := selectedSubfilter.value.infoType;
      var i := 0;
      while i < |logs|
        invariant 0 <= i <= |logs|
        invariant found == Tabs(InfoKinds(logs[..i]), current)
      {
        assert logs[..i + 1][..i] == logs[..i];
        var logType := logs[i].logType;
        if logType.INFO? {
          var subType := logType.subtype;
          var entry := SubFilter(subType, subType == current);
          assert entry in found <==> subType in InfoKinds(logs[..i]) by {
            if entry in found {
              var k :| 0 <= k < |found| && found[k] == entry;
              assert InfoKinds(logs[..i])[k] == subType;
            }
            if subType in InfoKinds(logs[..i]) {
              var k :| 0 <= k < |InfoKinds(logs[..i])| && InfoKinds(logs[..i])[k] == subType;
              assert found[k] == entry;
            }
          }
          if entry !in found {
            found := found + [entry];
          }
        }
        i := i + 1;
      }
      assert logs[..i] == logs;
    }

    /** `update`: rebuild the sub-filter tabs. */
    method Update()
      modifies this
      ensures availableSubfilters == AvailableFor(logs, selectedSubfilter)
      ensures logs == old(logs) && selectedFilter == old(selectedFilter)
      ensures selectedSubfilter == old(selectedSubfilter) && paginator == old(paginator)
      ensures keyConfig == old(keyConfig)
    {
      availableSubfilters := AvailableSubfilters();
    }

    /** `log`: append the record made at `stamp`, count the records before
        trimming as the paginator's length, and drop the oldest once the list
        has reached a hundred. */
    method Log(message: string, logType: LT.LogType<IS.InfoSubType>, stamp: TimeStamp)
      requires Valid()
      modifies this, paginator
      ensures logs == Appended(old(logs), LogEntry(logType, stamp, message), Limit)
      ensures paginator.entryLen == |old(logs)| + 1 && paginator.page == old(paginator.page)
      ensures selectedFilter == old(selectedFilter) && selectedSubfilter == old(selectedSubfilter)
      ensures availableSubfilters == old(availableSubfilters) && paginator == old(paginator)
      ensures keyConfig == old(keyConfig)
      ensures Valid()
    {
      logs := logs + [LogEntry(logType, stamp, message)];
      paginator.entryLen := |logs|;
      if |logs| >= Limit {
        logs := logs[1..];
      }
      AppendedStaysBelow(old(logs), LogEntry(logType, stamp, message), Limit);
    }

    /** `recent`: the last fifteen records. */
    function RecentEntries(): (r: seq<LogEntry>)
      reads this
      ensures |r| == if |logs| >= 15 then 15 else |logs|
      ensures r == logs[|logs| - |r|..]
    {
      Recent(logs, 15)
    }

    /** `prev_filter`: one tab left; the `INFO` tab starts on the `General`
        sub-filter, the others have none. */
    method PrevFilter()
      modifies this
      ensures FilterSelected(F.Prev(old(selectedFilter)))
    {
      selectedFilter := F.Prev(selectedFilter);
      if selectedFilter == F.INFO {
        selectedSubfilter := Some(SubFilter(IS.General, true));
      } else {
        selectedSubfilter := None;
      }
    }

    /** `next_filter`: one tab right, with the same sub-filter rule. */
    method NextFilter()
      modifies this
      ensures FilterSelected(F.Next(old(selectedFilter)))
    {
      selectedFilter := F.Next(selectedFilter);
      if selectedFilter == F.INFO {
        selectedSubfilter := Some(SubFilter(IS.General, true));
      } else {
        selectedSubfilter := None;
      }
    }

    /** `prev_subfilter`: select the tab before the current sub-kind's,
        wrapping to the last; when the current sub-kind has no tab, log an
        error instead. */
    method PrevSubfilter(stamp: TimeStamp)
      requires Valid()
      modifies this, paginator
      ensures Valid() && SubfilterStepped(false, stamp)
    {
      if selectedSubfilter.None? {
        return;
      }
      var currentSubfilter := selectedSubfilter.value.infoType;
      var foundIdx := Position(availableSubfilters, currentSubfilter);
      if foundIdx.Some? {
        var prevIdx := if foundIdx.value == 0 then |availableSubfilters| - 1 else foundIdx.value - 1;
        selectedSubfilter := Some(availableSubfilters[prevIdx]);
      } else {
        Log("Could not select previous subfilter. Current subfilter not found", LT.ERROR, stamp);
      }
    }

    /** `next_subfilter`: select the tab after the current sub-kind's,
        wrapping to the first; when the current sub-kind has no tab, log an
        error instead. */
    method NextSubfilter(stamp: TimeStamp)
      requires Valid()
      modifies this, paginator
      ensures Valid() && SubfilterStepped(true, stamp)
    {
      if selectedSubfilter.None? {
        return;
      }
      var currentSubfilter := selectedSubfilter.value.infoType;
      var foundIdx := Position(availableSubfilters, currentSubfilter);
      if foundIdx.Some? {
        var nextIdx := (foundIdx.value + 1) % |availableSubfilters|;
        selectedSubfilter := Some(availableSubfilters[nextIdx]);
      } else {
        Log("Could not select next subfilter. Current subfilter not found", LT.ERROR, stamp);
      }
    }

    /** `event`: the bindings for the filter tabs, the sub-filter tabs and the
        pages, tested in that order; any of them is consumed. */
    method Event(key: KeyCode, stamp: TimeStamp) returns (state: EventState)
      requires Valid()
      modifies this, paginator
      ensures Valid()
      ensures state == Consumed <==> key in LogViewKeys(old(keyConfig))
      ensures FirstMatch(key, LogViewKeys(old(keyConfig))) == 0 ==> FilterSelected(F.Prev(old(selectedFilter)))
      ensures FirstMatch(key, LogViewKeys(old(keyConfig))) == 1 ==> FilterSelected(F.Next(old(selectedFilter)))
      ensures FirstMatch(key, LogViewKeys(old(keyConfig))) == 2 ==> SubfilterStepped(false, stamp)
      ensures FirstMatch(key, LogViewKeys(old(keyConfig))) == 3 ==> SubfilterStepped(true, stamp)
      ensures FirstMatch(key, LogViewKeys(old(keyConfig))) == 4 ==> PageStepped(true)
      ensures FirstMatch(key, LogViewKeys(old(keyConfig))) == 5 ==> PageStepped(false)
      ensures state == NotConsumed ==> unchanged(this) && unchanged(paginator)
      ensures keyConfig == old(keyConfig) && paginator == old(paginator)
    {
      var binding := FirstMatch(key, LogViewKeys(keyConfig));
      state := Consumed;
      if binding == 0 {
        PrevFilter();
      } else if binding == 1 {
        NextFilter();
      } else if binding == 2 {
        PrevSubfilter(stamp);
      } else if binding == 3 {
        NextSubfilter(stamp);
      } else if binding == 4 {
        paginator.NextPage();
      } else if binding == 5 {
        paginator.PrevPage();
      } else {
        state := NotConsumed;
      }
    }
  }

  /** Built tabs hold distinct sub-kinds, so after a sub-filter step the
      selected sub-kind is found at the index the step went to, and the next
      step in the other direction comes back. */
  lemma SubfilterStepsUndo(logs: seq<LogEntry>, current: IS.InfoSubType, p: nat)
    requires p < |Tabs(InfoKinds(logs), current)|
    ensures var tabs := Tabs(InfoKinds(logs), current);
      Position(tabs, tabs[NextIndex(p, |tabs|)].infoType) == Some(NextIndex(p, |tabs|)) &&
      PrevIndex(NextIndex(p, |tabs|), |tabs|) == p
  {
    var tabs := Tabs(InfoKinds(logs), current);
    InfoKindsDistinct(logs);
    PositionOfDistinct(tabs, NextIndex(p, |tabs|));
    IndexStepsUndo(p, |tabs|);
  }
}
