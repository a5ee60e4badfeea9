/**
 * The lead-time service: for the sprint it was given, it computes one
 * bucket-statistics entry per sprint day and the list of story lead times, and
 * publishes them as seven chart series (each point an x label and a y value).
 *
 * Dates are day numbers (`LocalDate`) or millisecond counts (`Date`). The
 * conversions between them and the lead-time helper of the sprint's project
 * are foreign calls, given as the functions of a `Foreign` value.
 */
module LeadTime {
  import opened Optional
  import opened CycleTime
  import Streams

  /** A `LocalDate`, as a day number */
  type Day = int

  /** A reference to a user story */
  type Story = int

  /** A project identifier */
  type Project = int

  /** A `LeadTimeStoryEntry`: a `CycleTimeEntry` whose story may be null */
  type StoryEntry = Entry<Option<Story>>

  /** The six bucket getters of `LeadTimeStats` */
  datatype Bucket = NotCreated | InBacklog | InSprint | InProgress | InTest | InDone

  /** A `LeadTimeStats`: a date and the stories in each bucket on that date */
  datatype Stats = Stats(
    date: Long,
    notCreated: seq<Story>, inBacklog: seq<Story>, inSprint: seq<Story>,
    inProgress: seq<Story>, inTest: seq<Story>, inDone: seq<Story>)

  /** The getter a `LeadTimeCallback` selects */
  function Stories(st: Stats, b: Bucket): seq<Story> {
    match b
    case NotCreated => st.notCreated
    case InBacklog => st.inBacklog
    case InSprint => st.inSprint
    case InProgress => st.inProgress
    case InTest => st.inTest
    case InDone => st.inDone
  }

  /** The sprint fields the service reads */
  datatype Sprint = Sprint(project: Project, estimatedStart: Long, estimatedFinish: Long)

  /**
   * The calls into code this model does not contain: `DateUtil.toLocal`,
   * `DateUtil.toDate`, and, for the `LeadTimeHelper` of a project,
   * `getLeadTimeStatsForDate` and `getAllStoryLeadTimes`.
   */
  datatype Foreign = Foreign(
    toLocal: Long -> Day,
    toDate: Day -> Long,
    statsForDate: (Project, Long) -> Stats,
    allStoryLeadTimes: Project -> seq<StoryEntry>)

  /** A chart point; the x label stands for the date it formats */
  datatype Point = Point(x: Long, y: int)

  // ---------------------------------------------------------------------------
  // Dates of the sprint

  /** `start.datesUntil(endExclusive)`: the days from `start` up to but excluding `endExclusive`; `None` where it throws */
  function DatesUntil(start: Day, endExclusive: Day): (r: Option<seq<Day>>)
    ensures r.None? <==> endExclusive < start
    ensures r.Some? ==> |r.value| == endExclusive - start
    ensures r.Some? ==> forall i :: 0 <= i < |r.value| ==> r.value[i] == start + i
    decreases endExclusive - start
  {
    if endExclusive < start then None
    else if endExclusive == start then Some([])
    else Some([start] + DatesUntil(start + 1, endExclusive).value)
  }

  /** The first sprint day, `toLocal(estimatedStart)` */
  function FirstDay(sprint: Sprint, f: Foreign): Day {
    f.toLocal(sprint.estimatedStart)
  }

  /** The last sprint day, `toLocal(estimatedFinish)` */
  function LastDay(sprint: Sprint, f: Foreign): Day {
    f.toLocal(sprint.estimatedFinish)
  }

  /** `start.datesUntil(end.plusDays(1))` */
  function SprintDates(sprint: Sprint, f: Foreign): Option<seq<Day>> {
    DatesUntil(FirstDay(sprint, f), LastDay(sprint, f) + 1)
  }

  /**
   * The sprint's days run from the first to the last, inclusive and ascending;
   * there are none when the last day is the day before the first, and the
   * enumeration throws when the last day is earlier still.
   */
  lemma SprintDatesInclusive(sprint: Sprint, f: Foreign)
    ensures var start, end, ds := FirstDay(sprint, f), LastDay(sprint, f), SprintDates(sprint, f);
      (end >= start - 1 <==> ds.Some?) &&
      (ds.Some? ==> |ds.value| == end - start + 1) &&
      (ds.Some? ==> forall i :: 0 <= i < |ds.value| ==> ds.value[i] == start + i) &&
      (end == start - 1 ==> ds == Some([])) &&
      (start <= end ==> ds.value[0] == start && ds.value[|ds.value| - 1] == end)
  {
  }

  // ---------------------------------------------------------------------------
  // getAllLeadTimeStats

  /** The helper's statistics for each sprint day, in day order */
  function LeadTimeStatsFor(sprint: Sprint, f: Foreign): (r: Option<seq<Stats>>)
    ensures r.Some? <==> SprintDates(sprint, f).Some?
    ensures r.Some? ==> |r.value| == |SprintDates(sprint, f).value|
    ensures r.Some? ==> forall i :: 0 <= i < |r.value| ==>
      r.value[i] == f.statsForDate(sprint.project, f.toDate(SprintDates(sprint, f).value[i]))
  {
    match SprintDates(sprint, f)
    case None => None
    case Some(ds) => Some(seq(|ds|, i requires 0 <= i < |ds| => f.statsForDate(sprint.project, f.toDate(ds[i]))))
  }

  /** `getAllLeadTimeStats`: one helper lookup per sprint day, appended in order */
  method GetAllLeadTimeStats(sprint: Sprint, f: Foreign) returns (r: Option<seq<Stats>>)
    ensures r == LeadTimeStatsFor(sprint, f)
  {
    var dates := SprintDates(sprint, f);
    if dates.None? {
      return None;
    }
    var ds := dates.value;
    var stats: seq<Stats> := [];
    for i := 0 to |ds|
      invariant |stats| == i
      invariant forall j :: 0 <= j < i ==> stats[j] == f.statsForDate(sprint.project, f.toDate(ds[j]))
    {
      stats := stats + [f.statsForDate(sprint.project, f.toDate(ds[i]))];
    }
    assert stats == LeadTimeStatsFor(sprint, f).value;
    r := Some(stats);
  }

  // ---------------------------------------------------------------------------
  // getAllStoryLeadTimes

  /**
   * The story window: an end date that is present, strictly before midnight
   * of the day after the last sprint day, and strictly after the sprint's
   * estimated start
   */
  predicate InWindow(e: StoryEntry, sprint: Sprint, f: Foreign) {
    && e.endDate.Some?
    && e.endDate.value < f.toDate(LastDay(sprint, f) + 1)
    && e.endDate.value > sprint.estimatedStart
  }

  /** The stream filter's predicate */
  function WindowOf(sprint: Sprint, f: Foreign): StoryEntry -> bool {
    (e: StoryEntry) => InWindow(e, sprint, f)
  }

  /** The helper's story entries that fall in the window, in the helper's order */
  function KeptStories(sprint: Sprint, f: Foreign): seq<StoryEntry> {
    Streams.Filter(f.allStoryLeadTimes(sprint.project), WindowOf(sprint, f))
  }

  /** The placeholder added for a day: no story, both dates that day, not valid */
  function Placeholder(date: Long): StoryEntry {
    Entry(None, Some(date), Some(date), false)
  }

  /** The window's stories followed by one placeholder per sprint day */
  function StoryLeadTimesFor(sprint: Sprint, f: Foreign): (r: Option<seq<StoryEntry>>)
    ensures r.Some? <==> SprintDates(sprint, f).Some?
    ensures r.Some? ==> |r.value| == |KeptStories(sprint, f)| + |SprintDates(sprint, f).value|
  {
    match SprintDates(sprint, f)
    case None => None
    case Some(ds) => Some(KeptStories(sprint, f) + seq(|ds|, i requires 0 <= i < |ds| => Placeholder(f.toDate(ds[i]))))
  }

  /** `getAllStoryLeadTimes`: the filtered stories, then a placeholder appended per day */
  method GetAllStoryLeadTimes(sprint: Sprint, f: Foreign) returns (r: Option<seq<StoryEntry>>)
    ensures r == StoryLeadTimesFor(sprint, f)
  {
    var dates := SprintDates(sprint, f);
    if dates.None? {
      return None;
    }
    var ds := dates.value;
    var kept := KeptStories(sprint, f);
    var entries := kept;
    for i := 0 to |ds|
      invariant |entries| == |kept| + i
      invariant entries[..|kept|] == kept
      invariant forall j :: 0 <= j < i ==> entries[|kept| + j] == Placeholder(f.toDate(ds[j]))
    {
      entries := entries + [Placeholder(f.toDate(ds[i]))];
    }
    assert entries == StoryLeadTimesFor(sprint, f).value;
    r := Some(entries);
  }

  /** A story entry is kept exactly when it is one of the helper's and lies in the window. */
  lemma KeptStoriesIff(sprint: Sprint, f: Foreign, e: StoryEntry)
    ensures e in KeptStories(sprint, f) <==> e in f.allStoryLeadTimes(sprint.project) && InWindow(e, sprint, f)
  {
    var all := f.allStoryLeadTimes(sprint.project);
    var kept := KeptStories(sprint, f);
    if e in kept {
      var i :| 0 <= i < |kept| && kept[i] == e;
    }
    if e in all && InWindow(e, sprint, f) {
      var i :| 0 <= i < |all| && all[i] == e;
    }
  }

  /**
   * The story lead times are the kept stories followed by one placeholder for
   * each sprint day, so there are as many as both together, and every one has
   * an end date.
   */
  lemma StoryLeadTimesShape(sprint: Sprint, f: Foreign)
    requires SprintDates(sprint, f).Some?
    ensures var r, kept, ds := StoryLeadTimesFor(sprint, f).value, KeptStories(sprint, f), SprintDates(sprint, f).value;
      |r| == |kept| + |ds| &&
      r[..|kept|] == kept &&
      (forall j :: 0 <= j < |ds| ==>
        r[|kept| + j].story.None? && !r[|kept| + j].valid &&
        r[|kept| + j].startDate == r[|kept| + j].endDate == Some(f.toDate(ds[j]))) &&
      (forall e :: e in r ==> e.endDate.Some?)
  {
    var r, kept, ds := StoryLeadTimesFor(sprint, f).value, KeptStories(sprint, f), SprintDates(sprint, f).value;
    forall e | e in r ensures e.endDate.Some? {
      var i :| 0 <= i < |r| && r[i] == e;
      if i < |kept| {
        assert e in kept;
        KeptStoriesIff(sprint, f, e);
      }
    }
  }

  /** A placeholder plots at 0 and takes no time. */
  lemma PlaceholderIsZero(date: Long)
    ensures !Placeholder(date).valid && StoryY(Placeholder(date)) == 0
    ensures Placeholder(date).TimeTaken() == 0 && Placeholder(date).DaysTaken() == 0
  {
  }

  // ---------------------------------------------------------------------------
  // updateStoryLeadTimes and updateLeadTimes

  /** The sort key `getEndDate`; every entry that reaches the sort has one */
  function EndKey(e: StoryEntry): int {
    e.endDate.GetOr(0)
  }

  /** The y value of a story point: the days taken when valid, else 0 */
  function StoryY(e: StoryEntry): int {
    if e.valid then e.DaysTaken() else 0
  }

  /** The points `updateStoryLeadTimes` sets: the entries sorted by end date, each mapped to a point */
  function StorySeries(entries: seq<StoryEntry>): (r: seq<Point>)
    requires forall e :: e in entries ==> e.endDate.Some?
    ensures |r| == |entries|
  {
    var sorted := Streams.SortBy(entries, EndKey);
    seq(|sorted|, i requires 0 <= i < |sorted| => Point(sorted[i].endDate.value, StoryY(sorted[i])))
  }

  /**
   * One point per entry, in non-decreasing end-date order; the point at `i`
   * is that of the `i`-th entry of a stable reordering of the input by end
   * date: its end date as x and its days taken (if valid, else 0) as y.
   */
  lemma StorySeriesSpec(entries: seq<StoryEntry>)
    requires forall e :: e in entries ==> e.endDate.Some?
    ensures var r, sorted := StorySeries(entries), Streams.SortBy(entries, EndKey);
      |r| == |entries| &&
      (forall i, j :: 0 <= i < j < |r| ==> r[i].x <= r[j].x) &&
      (forall i :: 0 <= i < |r| ==> r[i].x == sorted[i].endDate.value && r[i].y == StoryY(sorted[i])) &&
      multiset(sorted) == multiset(entries) &&
      (forall k :: Streams.SameKey(sorted, EndKey, k) == Streams.SameKey(entries, EndKey, k))
  {
    var r, sorted := StorySeries(entries), Streams.SortBy(entries, EndKey);
    forall i, j | 0 <= i < j < |r| ensures r[i].x <= r[j].x {
      assert sorted[i] in entries && sorted[j] in entries;
      assert EndKey(sorted[i]) <= EndKey(sorted[j]);
    }
    forall k ensures Streams.SameKey(sorted, EndKey, k) == Streams.SameKey(entries, EndKey, k) {
      Streams.SortByStable(entries, EndKey, k);
    }
  }

  /** The sort key `LeadTimeStats::getDate` */
  function StatsDate(st: Stats): int {
    st.date
  }

  /** The points `updateLeadTimes` sets: the stats sorted by date, each mapped to the size of its bucket */
  function BucketSeries(stats: seq<Stats>, b: Bucket): (r: seq<Point>)
    ensures |r| == |stats|
  {
    var sorted := Streams.SortBy(stats, StatsDate);
    seq(|sorted|, i requires 0 <= i < |sorted| => Point(sorted[i].date, |Stories(sorted[i], b)|))
  }

  /**
   * One point per stats entry, in non-decreasing date order, whose y value is
   * the number of stories in the selected bucket; the entries are a stable
   * reordering of the input by date.
   */
  lemma BucketSeriesSpec(stats: seq<Stats>, b: Bucket)
    ensures var r, sorted := BucketSeries(stats, b), Streams.SortBy(stats, StatsDate);
      |r| == |stats| &&
      (forall i, j :: 0 <= i < j < |r| ==> r[i].x <= r[j].x) &&
      (forall i :: 0 <= i < |r| ==> r[i].x == sorted[i].date && r[i].y == |Stories(sorted[i], b)|) &&
      multiset(sorted) == multiset(stats) &&
      (forall k :: Streams.SameKey(sorted, StatsDate, k) == Streams.SameKey(stats, StatsDate, k))
  {
    var r, sorted := BucketSeries(stats, b), Streams.SortBy(stats, StatsDate);
    forall i, j | 0 <= i < j < |r| ensures r[i].x <= r[j].x {
      assert StatsDate(sorted[i]) <= StatsDate(sorted[j]);
    }
    forall k ensures Streams.SameKey(sorted, StatsDate, k) == Streams.SameKey(stats, StatsDate, k) {
      Streams.SortByStable(stats, StatsDate, k);
    }
  }

  // ---------------------------------------------------------------------------
  // The service

  /** The seven published series */
  datatype Charts = Charts(
    storyLeadTimes: seq<Point>,
    notCreated: seq<Point>, inBacklog: seq<Point>, inSprint: seq<Point>,
    inProgress: seq<Point>, readyForTest: seq<Point>, done: seq<Point>)
  {
    /** These charts with the series of bucket list `l` replaced by `points` */
    function WithSeries(l: BucketList, points: seq<Point>): Charts {
      match l
      case NotCreatedList => this.(notCreated := points)
      case InBacklogList => this.(inBacklog := points)
      case InSprintList => this.(inSprint := points)
      case InProgressList => this.(inProgress := points)
      case ReadyForTestList => this.(readyForTest := points)
      case DoneList => this.(done := points)
    }
  }

  /** Replacing the story series and then the six bucket series, in `call()`'s order, leaves only the new series. */
  lemma ReplaceAll(c: Charts, n: Charts)
    ensures c.(storyLeadTimes := n.storyLeadTimes)
      .WithSeries(NotCreatedList, n.notCreated).WithSeries(InBacklogList, n.inBacklog)
      .WithSeries(InSprintList, n.inSprint).WithSeries(InProgressList, n.inProgress)
      .WithSeries(ReadyForTestList, n.readyForTest).WithSeries(DoneList, n.done) == n
  {
  }

  /** The six per-bucket series fields */
  datatype BucketList = NotCreatedList | InBacklogList | InSprintList | InProgressList | ReadyForTestList | DoneList

  /** How the task's `call()` ended */
  datatype TaskOutcome = Returned | Threw

  /** What one run for a sprint publishes, or `None` when the date enumeration throws */
  function ChartsFor(sprint: Sprint, f: Foreign): (r: Option<Charts>)
    ensures r.Some? <==> SprintDates(sprint, f).Some?
  {
    match (LeadTimeStatsFor(sprint, f), StoryLeadTimesFor(sprint, f))
    case (Some(stats), Some(entries)) =>
      StoryLeadTimesShape(sprint, f);
      Some(Charts(
        StorySeries(entries),
        BucketSeries(stats, NotCreated), BucketSeries(stats, InBacklog), BucketSeries(stats, InSprint),
        BucketSeries(stats, InProgress), BucketSeries(stats, InTest), BucketSeries(stats, InDone)))
    case _ => None
  }

  class LeadTimeService {
    var sprint: Option<Sprint>
    var storyLeadTimes: seq<Point>
    var notCreatedStories: seq<Point>
    var inBacklogStories: seq<Point>
    var inSprintStories: seq<Point>
    var inProgressStories: seq<Point>
    var readyForTestStories: seq<Point>
    var doneStories: seq<Point>

    /** All seven series, as currently published */
    function Published(): Charts
      reads this
    {
      Charts(storyLeadTimes, notCreatedStories, inBacklogStories, inSprintStories,
             inProgressStories, readyForTestStories, doneStories)
    }

    constructor ()
      ensures sprint.None?
      ensures Published() == Charts([], [], [], [], [], [], [])
    {
      sprint := None;
      storyLeadTimes, notCreatedStories, inBacklogStories, inSprintStories := [], [], [], [];
      inProgressStories, readyForTestStories, doneStories := [], [], [];
    }

    function GetStoryLeadTimes(): seq<Point> reads this { storyLeadTimes }
    function GetNotCreatedStories(): seq<Point> reads this { notCreatedStories }
    function GetInBacklogStories(): seq<Point> reads this { inBacklogStories }
    /** As written, this returns the in-sprint series */
    function GetInProgressStories(): seq<Point> reads this { inSprintStories }
    /** As written, this returns the in-progress series */
    function GetInSprintStories(): seq<Point> reads this { inProgressStories }
    function GetReadyForTestStories(): seq<Point> reads this { readyForTestStories }
    function GetDoneStories(): seq<Point> reads this { doneStories }

    /** `updateStoryLeadTimes(storyLeadTimes, entries)`: `setAll` with the sorted, mapped entries */
    method UpdateStoryLeadTimes(entries: seq<StoryEntry>)
      requires forall e :: e in entries ==> e.endDate.Some?
      modifies this
      ensures Published() == old(Published()).(storyLeadTimes := StorySeries(entries))
      ensures sprint == old(sprint)
    {
      storyLeadTimes := StorySeries(entries);
    }

    /** `updateLeadTimes(l, entries, callback for b)`: `setAll` on one bucket list with the sizes of bucket `b` */
    method UpdateLeadTimes(l: BucketList, entries: seq<Stats>, b: Bucket)
      modifies this
      ensures Published() == old(Published()).WithSeries(l, BucketSeries(entries, b))
      ensures sprint == old(sprint)
    {
      var points := BucketSeries(entries, b);
      match l
      case NotCreatedList => notCreatedStories := points;
      case InBacklogList => inBacklogStories := points;
      case InSprintList => inSprintStories := points;
      case InProgressList => inProgressStories := points;
      case ReadyForTestList => readyForTestStories := points;
      case DoneList => doneStories := points;
    }

    /**
     * The task's `call()`: nothing happens without a sprint; a date
     * enumeration that throws fails the task before anything is published;
     * otherwise all seven series are replaced.
     */
    method Call(f: Foreign) returns (outcome: TaskOutcome)
      modifies this
      ensures sprint == old(sprint)
      ensures outcome == Threw <==> sprint.Some? && ChartsFor(sprint.value, f).None?
      ensures Published() == if sprint.Some? && ChartsFor(sprint.value, f).Some?
        then ChartsFor(sprint.value, f).value else old(Published())
    {
      if sprint.None? {
        return Returned;
      }
      var s := sprint.value;
      var stats := GetAllLeadTimeStats(s, f);
      if stats.None? {
        return Threw;
      }
      var entries := GetAllStoryLeadTimes(s, f);
      StoryLeadTimesShape(s, f);
      assert entries.Some?;
      ghost var charts := Charts(
        StorySeries(entries.value),
        BucketSeries(stats.value, NotCreated), BucketSeries(stats.value, InBacklog),
        BucketSeries(stats.value, InSprint), BucketSeries(stats.value, InProgress),
        BucketSeries(stats.value, InTest), BucketSeries(stats.value, InDone));
      assert ChartsFor(s, f) == Some(charts);
      ghost var before := Published();
      UpdateStoryLeadTimes(entries.value);
      UpdateLeadTimes(NotCreatedList, stats.value, NotCreated);
      UpdateLeadTimes(InBacklogList, stats.value, InBacklog);
      UpdateLeadTimes(InSprintList, stats.value, InSprint);
      UpdateLeadTimes(InProgressList, stats.value, InProgress);
      UpdateLeadTimes(ReadyForTestList, stats.value, InTest);
      UpdateLeadTimes(DoneList, stats.value, InDone);
      ReplaceAll(before, charts);
      outcome := Returned;
    }

    /** `recalculate(sprint)`: record the sprint, then run the task to its end */
    method Recalculate(s: Option<Sprint>, f: Foreign) returns (outcome: TaskOutcome)
      modifies this
      ensures sprint == s
      ensures outcome == Threw <==> s.Some? && ChartsFor(s.value, f).None?
      ensures Published() == if s.Some? && ChartsFor(s.value, f).Some?
        then ChartsFor(s.value, f).value else old(Published())
    {
      sprint := s;
      outcome := Call(f);
    }

    /**
     * After a run that publishes, each getter returns the series of its list;
     * the in-progress and in-sprint getters return each other's bucket.
     */
    lemma GettersAfterRun(s: Sprint, f: Foreign)
      requires sprint == Some(s) && ChartsFor(s, f).Some? && Published() == ChartsFor(s, f).value
      ensures var stats := LeadTimeStatsFor(s, f).value;
        GetStoryLeadTimes() == StorySeries(StoryLeadTimesFor(s, f).value) &&
        GetNotCreatedStories() == BucketSeries(stats, NotCreated) &&
        GetInBacklogStories() == BucketSeries(stats, InBacklog) &&
        GetInProgressStories() == BucketSeries(stats, InSprint) &&
        GetInSprintStories() == BucketSeries(stats, InProgress) &&
        GetReadyForTestStories() == BucketSeries(stats, InTest) &&
        GetDoneStories() == BucketSeries(stats, InDone)
    {
    }
  }
}
