# Lead-time metrics: cycle-time entries, project slugs and chart series

A Dafny model of three pieces of a sprint-analytics client for the Taiga
project tracker:

- **`CycleTimeEntry`** (`cycle_time.dfy`, module `CycleTime`): the immutable
  record of a story, an optional start date, an optional end date and a
  validity flag, with the elapsed milliseconds and whole days it derives.
- **`ProjectSelection.extractSlug`** (`slug.dfy`, module `Slug`): the project
  slug taken from a `https://tree.taiga.io/project/<slug>` URL, else from the
  first slug-shaped word of the input, else null.
- **`LeadTimeService`** (`lead_time.dfy`, module `LeadTime`, with the stream
  operations in `streams.dfy`, module `Streams`): the sequential body of the
  service's task. It enumerates the sprint's days, looks up one statistics
  entry per day, filters the story lead times to the sprint window, pads them
  with one invalid placeholder per day, sorts stably by date and replaces its
  seven chart series.

`optional.dfy` holds the `Option` type that stands for a nullable reference.

Modelling choices:

- A `java.util.Date` is its millisecond count, a signed 64-bit `long` (`Long`).
  A null date is `None`.
- `getTimeTaken` subtracts two `long`s and wraps around on overflow
  (`WrapLong`).
- `TimeUnit.MILLISECONDS.toDays` divides by 86 400 000 and rounds toward zero
  (`TruncDiv`). It is not Dafny's Euclidean `/`.
- Java's `\w` is `[A-Za-z0-9_]`.
- `Matcher.find` tries start positions left to right. At a start it returns the
  first match its backtracking search reaches. For `\w+-[\w-]+` that is the
  longest slug-shaped text from that start. `MatchAt` computes it with
  greedy runs, and `MatchAtSound`/`MatchAtLongest` prove it matches the
  pattern's meaning (`IsSlug`).
- A `LocalDate` is a day number. The code this model does not contain is taken
  as uninterpreted functions, bundled in a `Foreign` value:
  `DateUtil.toLocal`, `DateUtil.toDate`, and, per project, the
  `LeadTimeHelper` calls `getLeadTimeStatsForDate` and `getAllStoryLeadTimes`.
- `LeadTimeStoryEntry` has the shape of `CycleTimeEntry` with a nullable story.
  `LeadTimeStats` is a date and six story lists, one per bucket getter.
- `datesUntil` throws when the end is before the start. The model returns
  `None` there. The task then ends as `Threw` and publishes nothing.
- A chart point's x label stands for the date it formats.
- The service is a class whose seven series are `seq<Point>` fields.
  `UpdateStoryLeadTimes` and `UpdateLeadTimes` replace one field wholesale, as
  `setAll` does. `Call` is the task's `call()` and `Recalculate` assigns the
  sprint and runs it.
- The private helpers `getAllLeadTimeStats` and `getAllStoryLeadTimes` read
  `this.sprint`. Their models take the sprint as a parameter. `Call` passes the
  field, after the null-sprint guard.
- The getters `getInProgressStories` and `getInSprintStories` return each
  other's list in the source. The model keeps that (`GettersAfterRun`).

## Model

| member | source | states |
|---|---|---|
| CycleTime.Entry | src/main/java/taiga/util/timeAnalysis/CycleTimeEntry.java:14-19 | the four-argument constructor: story, startDate, endDate and valid are the arguments as given and never change; they are what `get`, `getStartDate`, `getEndDate` (:25-31, :40-42) and `isValid` (:48-50) return (its use: `ValidityIgnoresDates`) |
| CycleTime.NewEntry | src/main/java/taiga/util/timeAnalysis/CycleTimeEntry.java:21-23 | the three-argument constructor keeps story and both dates as given, and is valid even when a date is null |
| CycleTime.Entry.TimeTaken | src/main/java/taiga/util/timeAnalysis/CycleTimeEntry.java:33-38 | is 0 when either date is null; with both dates it agrees with end minus start modulo 2^64, that is the `long` subtraction (exact values: `TimeTakenIsDifference`, `PostEpochTimeTaken`) |
| CycleTime.Entry.DaysTaken | src/main/java/taiga/util/timeAnalysis/CycleTimeEntry.java:44-46 | is the time taken in whole days rounded toward zero: for t >= 0, d*86400000 <= t < (d+1)*86400000 with d >= 0; for t < 0 the same bound on the magnitudes with d <= 0 |
| CycleTime.ValidityIgnoresDates | src/main/java/taiga/util/timeAnalysis/CycleTimeEntry.java:14-23 | validity is the constructor flag: an entry with both dates can be invalid; one with none is valid with 0 days |
| CycleTime.MissingDateTakesNoTime | src/main/java/taiga/util/timeAnalysis/CycleTimeEntry.java:33-46 | a null start or end gives time taken 0 and days taken 0 |
| CycleTime.WrapLong | src/main/java/taiga/util/timeAnalysis/CycleTimeEntry.java:37 | the `long` subtraction agrees with the exact difference modulo 2^64 and equals it when it fits |
| CycleTime.TimeTakenIsDifference | src/main/java/taiga/util/timeAnalysis/CycleTimeEntry.java:33-38 | with both dates, when the difference fits in a `long` (otherwise see `WrapLong`), time taken is end minus start in milliseconds, negative exactly when the end precedes the start (no clamping) |
| CycleTime.PostEpochTimeTaken | src/main/java/taiga/util/timeAnalysis/CycleTimeEntry.java:37 | dates at or after the epoch never overflow: time taken is exactly end minus start |
| CycleTime.TruncDiv | src/main/java/taiga/util/timeAnalysis/CycleTimeEntry.java:45 | division rounding toward zero: for a >= 0 the quotient q has q*b <= a < (q+1)*b; for a < 0 the same bound holds for the magnitudes and q <= 0 |
| CycleTime.DaysTakenBounds | src/main/java/taiga/util/timeAnalysis/CycleTimeEntry.java:44-46 | days taken d of a time t >= 0 satisfies d*86400000 <= t < (d+1)*86400000; for t < 0, d = -(abs(t) / 86400000) <= 0 |
| Slug.IsWordChar | src/main/java/ui/screens/ProjectSelection.java:72 | Java's `\w`, the ASCII class `[A-Za-z0-9_]` (its use in the pattern's meaning: `MatchAtSound`, `MatchAtLongest`, `ExtractSlugMaximal`) |
| Slug.IsSlugChar | src/main/java/ui/screens/ProjectSelection.java:72 | the class `[\w-]`, a word character or a hyphen (its use: `MatchAtSound`, `ExtractSlugMaximal`, `NoUrlInSlugChars`) |
| Slug.UrlAt | src/main/java/ui/screens/ProjectSelection.java:72 | the URL literal occurs at position i (its meaning: `UrlAtIff`, the 30-character slice equals the literal) |
| Slug.RunEnd | src/main/java/ui/screens/ProjectSelection.java:71-75 | a greedy character-class run from i stops inside the input, at the end or at a character outside the class; with `RunEndInClass` (everything before it is in the class) that is the first such character |
| Slug.RunEndInClass | src/main/java/ui/screens/ProjectSelection.java:71-75 | every character a greedy run consumes is in its class |
| Slug.RunEndAt | src/main/java/ui/screens/ProjectSelection.java:71-75 | a run reaches at least as far as any stretch of class characters from its start, and stops exactly where such a stretch is followed by a character outside the class |
| Slug.MatchAt | src/main/java/ui/screens/ProjectSelection.java:72 | a match of `\w+-[\w-]+` from i ends at least 3 characters later, inside the input (its meaning: `MatchAtSound`, `MatchAtLongest`, `MatchAtNone`) |
| Slug.MatchAtSound | src/main/java/ui/screens/ProjectSelection.java:72-75 | a match found at a start is slug-shaped, at least 3 characters, and the next character is not in `[\w-]` |
| Slug.MatchAtLongest | src/main/java/ui/screens/ProjectSelection.java:72-75 | every slug-shaped substring starting at i is matched there, and is no longer than the match |
| Slug.MatchAtNone | src/main/java/ui/screens/ProjectSelection.java:75-76 | no match at i exactly when no slug-shaped substring starts at i |
| Slug.FindSlugFrom | src/main/java/ui/screens/ProjectSelection.java:75-81 | the span `find` returns is non-empty, inside the input, and is the match at its start |
| Slug.FindSlugFromLeftmost | src/main/java/ui/screens/ProjectSelection.java:75-81 | `find` passes over no start that has a match: it returns a match that starts no later |
| Slug.UrlAtIff | src/main/java/ui/screens/ProjectSelection.java:71-72 | when 30 characters remain from i, the URL position test holds there exactly when they are the literal `https://tree.taiga.io/project/` |
| Slug.FindUrlFrom | src/main/java/ui/screens/ProjectSelection.java:71-79 | the slug span the URL `find` returns is non-empty, inside the input, and leaves room for the literal before it |
| Slug.FindUrlFromFound | src/main/java/ui/screens/ProjectSelection.java:71-79 | the URL `find` returns the match that directly follows an occurrence of the URL literal |
| Slug.UrlMatchSound | src/main/java/ui/screens/ProjectSelection.java:71-72 | a match right after an occurrence of the URL literal is a URL literal directly followed by slug-shaped text |
| Slug.FindUrlFromLeftmost | src/main/java/ui/screens/ProjectSelection.java:71-79 | the URL `find` passes over no URL literal that a match follows: it returns one that starts no later |
| Slug.UrlFindSound | src/main/java/ui/screens/ProjectSelection.java:71-79 | what the URL `find` returns is a URL literal directly followed by slug-shaped text |
| Slug.UrlSlugFound | src/main/java/ui/screens/ProjectSelection.java:71-79 | any URL literal directly followed by a slug makes the URL `find` succeed, at it or at an earlier literal |
| Slug.UrlLeftmost | src/main/java/ui/screens/ProjectSelection.java:71-79 | no URL literal before the one the URL `find` settles on is directly followed by a slug |
| Slug.UrlResultAt | src/main/java/ui/screens/ProjectSelection.java:71-79 | the URL `find` settles on a slug that directly follows an occurrence of the URL literal |
| Slug.UrlResultSlug | src/main/java/ui/screens/ProjectSelection.java:71-79 | the slug the URL `find` settles on is slug-shaped and the character after it is not in `[\w-]` |
| Slug.SlugFound | src/main/java/ui/screens/ProjectSelection.java:75-81 | any slug-shaped substring makes the bare `find` succeed, at its start or earlier |
| Slug.ExtractSlugSpan | src/main/java/ui/screens/ProjectSelection.java:78-83 | the span the result is cut from is non-empty and inside the input |
| Slug.ExtractSlug | src/main/java/ui/screens/ProjectSelection.java:70-84 | a non-null result has at least 3 characters and is no longer than the input (its meaning: `ExtractSlugSpanInside`, `ExtractSlugShape`, `ExtractSlugNoneIff`, `ExtractSlugPrefersUrl`, `ExtractSlugLeftmostFallback`) |
| Slug.ExtractSlugSpanInside | src/main/java/ui/screens/ProjectSelection.java:78-81 | the result is exactly the text of the found span, which lies inside the input and is slug-shaped |
| Slug.ExtractSlugShape | src/main/java/ui/screens/ProjectSelection.java:72-81 | a non-null result matches `\w+-[\w-]+` in full and is a contiguous substring of the input |
| Slug.ExtractSlugNoneIff | src/main/java/ui/screens/ProjectSelection.java:75-83 | the result is null if and only if no substring of the input is slug-shaped |
| Slug.ExtractSlugPrefersUrl | src/main/java/ui/screens/ProjectSelection.java:71-79 | if some URL literal is directly followed by a slug, the result is the longest slug after the leftmost such literal |
| Slug.ExtractSlugLeftmostFallback | src/main/java/ui/screens/ProjectSelection.java:75-81 | without a URL followed by a slug, no slug-shaped substring starts before the result, and none from its start is longer |
| Slug.ExtractSlugMaximal | src/main/java/ui/screens/ProjectSelection.java:72-75 | the character after the result is not in `[\w-]`, and the one before it is not in `\w` |
| Slug.NoUrlInSlugChars | src/main/java/ui/screens/ProjectSelection.java:72 | the URL literal (which holds ':') never occurs in text made of slug characters |
| Slug.NoUrlMatchInSlugChars | src/main/java/ui/screens/ProjectSelection.java:72-78 | on text made of slug characters the URL `find` fails from any position |
| Slug.SlugAtSlice | src/main/java/ui/screens/ProjectSelection.java:79-81 | a slug-shaped stretch of the input, cut out, matches `\w+-[\w-]+` in full |
| Slug.SlugExtractsToItself | src/main/java/ui/screens/ProjectSelection.java:70-84 | a slug-shaped input extracts to itself |
| Slug.ExtractSlugIdempotent | src/main/java/ui/screens/ProjectSelection.java:70-84 | extracting from a non-null result gives that result again |
| Streams.Filter | src/main/java/ui/services/LeadTimeService.java:110-113 | an element is in the filtered list exactly when it is in the input and satisfies the predicate |
| Streams.FilterConcat | src/main/java/ui/services/LeadTimeService.java:110-113 | filtering keeps relative order: the filter of a concatenation is the concatenation of the filters (so the window filter of `getAllStoryLeadTimes` keeps the order of the entries it keeps) |
| Streams.SortBy | src/main/java/ui/services/LeadTimeService.java:123-125 | the sorted list is a permutation of the input in non-decreasing key order |
| Streams.InsertSorted | src/main/java/ui/services/LeadTimeService.java:123-125 | inserting into a list in key order keeps it in key order |
| Streams.InsertSameKey | src/main/java/ui/services/LeadTimeService.java:123-125 | inserting an element puts it before every element that shares its key, and moves none of them |
| Streams.SortByStable | src/main/java/ui/services/LeadTimeService.java:123-125 | the sort is stable: for every key, the elements with that key appear in their input order |
| Streams.SortBySorted | src/main/java/ui/services/LeadTimeService.java:123-125 | a general fact about the stable sort used at :124 and :158: a list already in key order is left as it is |
| LeadTime.DatesUntil | src/main/java/ui/services/LeadTimeService.java:86 | `datesUntil` throws exactly when the exclusive end precedes the start; otherwise it lists start, start+1, ... up to the end |
| LeadTime.FirstDay | src/main/java/ui/services/LeadTimeService.java:84 | the first sprint day, `toLocal` of the estimated start (its use: `SprintDatesInclusive`) |
| LeadTime.LastDay | src/main/java/ui/services/LeadTimeService.java:85 | the last sprint day, `toLocal` of the estimated finish (its use: `SprintDatesInclusive`) |
| LeadTime.SprintDates | src/main/java/ui/services/LeadTimeService.java:86 | `start.datesUntil(end.plusDays(1))`, also at :109 (its meaning: `SprintDatesInclusive`) |
| LeadTime.SprintDatesInclusive | src/main/java/ui/services/LeadTimeService.java:84-86 | the sprint days run from the first to the last day inclusive, end-start+1 of them; none when end = start-1; a throw when end < start-1 |
| LeadTime.LeadTimeStatsFor | src/main/java/ui/services/LeadTimeService.java:88-93 | one stats entry per sprint day; the i-th is the helper's result for the i-th day |
| LeadTime.GetAllLeadTimeStats | src/main/java/ui/services/LeadTimeService.java:81-94 | the loop appends exactly the per-day stats list, and fails exactly when the date enumeration throws |
| LeadTime.InWindow | src/main/java/ui/services/LeadTimeService.java:112 | the filter's predicate: a non-null end date before `toDate(end+1)` and after the estimated start (its use: `KeptStoriesIff`) |
| LeadTime.WindowOf | src/main/java/ui/services/LeadTimeService.java:112 | the filter lambda as a function value, true exactly where `InWindow` holds (its use: `KeptStoriesIff`) |
| LeadTime.KeptStories | src/main/java/ui/services/LeadTimeService.java:110-113 | the helper's entries that pass the filter, in the helper's order (its meaning: `KeptStoriesIff`, `Streams.FilterConcat`) |
| LeadTime.KeptStoriesIff | src/main/java/ui/services/LeadTimeService.java:110-113 | a story entry is kept iff it is the helper's, its end date is non-null, before midnight of end+1 and after the sprint's estimated start |
| LeadTime.StoryLeadTimesFor | src/main/java/ui/services/LeadTimeService.java:105-119 | the story list exists exactly when the sprint's dates do, and has one entry per kept story plus one per day (contents: `StoryLeadTimesShape`) |
| LeadTime.GetAllStoryLeadTimes | src/main/java/ui/services/LeadTimeService.java:105-119 | the loop yields the kept entries followed by one placeholder per day, and fails exactly when the date enumeration throws |
| LeadTime.StoryLeadTimesShape | src/main/java/ui/services/LeadTimeService.java:114-118 | length is kept + days; the kept entries come first; each placeholder has a null story, start = end = its day, and is invalid; every entry has an end date |
| LeadTime.Placeholder | src/main/java/ui/services/LeadTimeService.java:116 | the entry added per day: no story, both dates that day, invalid (its meaning: `PlaceholderIsZero`, `StoryLeadTimesShape`) |
| LeadTime.PlaceholderIsZero | src/main/java/ui/services/LeadTimeService.java:116 | a placeholder is invalid, plots at 0, and takes 0 time and 0 days |
| LeadTime.StoryY | src/main/java/ui/services/LeadTimeService.java:129-134 | a story point's y: days taken when valid, else 0 (its use: `StorySeriesSpec`, `PlaceholderIsZero`) |
| LeadTime.EndKey | src/main/java/ui/services/LeadTimeService.java:124 | the sort key `LeadTimeStoryEntry::getEndDate`; its default for a missing end date never takes effect, because `StorySeries` and `UpdateStoryLeadTimes` require every end date, where the source's comparator would throw (its use: `StorySeriesSpec`) |
| LeadTime.StorySeries | src/main/java/ui/services/LeadTimeService.java:123-135 | one point per story entry (order and values: `StorySeriesSpec`) |
| LeadTime.StorySeriesSpec | src/main/java/ui/services/LeadTimeService.java:123-134 | one point per entry in non-decreasing end-date order, from a stable permutation of the entries; y is days taken if valid, else 0 |
| LeadTime.Stories | src/main/java/ui/services/LeadTimeService.java:181-186 | the bucket list each `LeadTimeStats::get…` callback selects (its use: `BucketSeriesSpec`, `ChartsFor`) |
| LeadTime.StatsDate | src/main/java/ui/services/LeadTimeService.java:158 | the sort key `LeadTimeStats::getDate` (its use: `BucketSeriesSpec`) |
| LeadTime.BucketSeries | src/main/java/ui/services/LeadTimeService.java:156-163 | one point per stats entry (order and values: `BucketSeriesSpec`) |
| LeadTime.BucketSeriesSpec | src/main/java/ui/services/LeadTimeService.java:156-163 | one point per stats entry in non-decreasing date order, from a stable permutation; y is the size of the selected bucket's story list |
| LeadTime.ChartsFor | src/main/java/ui/services/LeadTimeService.java:176-188 | a run publishes charts exactly when the sprint's date enumeration does not throw |
| LeadTime.LeadTimeService.constructor | src/main/java/ui/services/LeadTimeService.java:38-46 | a new service has no sprint and seven empty series |
| LeadTime.LeadTimeService.UpdateStoryLeadTimes | src/main/java/ui/services/LeadTimeService.java:121-136 | replaces the story series wholesale with the sorted, mapped entries; nothing else changes |
| LeadTime.LeadTimeService.UpdateLeadTimes | src/main/java/ui/services/LeadTimeService.java:153-164 | replaces the one selected bucket series wholesale; the other series and the sprint do not change |
| LeadTime.LeadTimeService.Call | src/main/java/ui/services/LeadTimeService.java:167-193 | without a sprint nothing changes; when the dates throw the task fails and nothing changes; otherwise all seven series are replaced together (taking the tooltip loop as completing; see "Left out") |
| LeadTime.LeadTimeService.Recalculate | src/main/java/ui/services/LeadTimeService.java:76-79 | records the sprint (null allowed), then runs the task with the outcome `Call` states |
| LeadTime.LeadTimeService.GetStoryLeadTimes | src/main/java/ui/services/LeadTimeService.java:48-50 | returns the story series (after a run: `GettersAfterRun`) |
| LeadTime.LeadTimeService.GetNotCreatedStories | src/main/java/ui/services/LeadTimeService.java:52-54 | returns the not-created series (after a run: `GettersAfterRun`) |
| LeadTime.LeadTimeService.GetInBacklogStories | src/main/java/ui/services/LeadTimeService.java:56-58 | returns the in-backlog series (after a run: `GettersAfterRun`) |
| LeadTime.LeadTimeService.GetInProgressStories | src/main/java/ui/services/LeadTimeService.java:60-62 | returns the in-sprint series, as written (after a run: `GettersAfterRun`) |
| LeadTime.LeadTimeService.GetInSprintStories | src/main/java/ui/services/LeadTimeService.java:64-66 | returns the in-progress series, as written (after a run: `GettersAfterRun`) |
| LeadTime.LeadTimeService.GetReadyForTestStories | src/main/java/ui/services/LeadTimeService.java:68-70 | returns the ready-for-test series (after a run: `GettersAfterRun`) |
| LeadTime.LeadTimeService.GetDoneStories | src/main/java/ui/services/LeadTimeService.java:72-74 | returns the done series (after a run: `GettersAfterRun`) |
| LeadTime.LeadTimeService.GettersAfterRun | src/main/java/ui/services/LeadTimeService.java:48-74 | after a publishing run each getter returns its series; `getInProgressStories` returns the in-sprint bucket and `getInSprintStories` the in-progress bucket |

## Left out

- JavaFX concurrency is left out: `Service.restart`, the `Task` object, cancellation, `Platform.runLater` and the `failed()` stack-trace print. `Recalculate` runs the task at once, and the `runLater` block runs before `Call` returns.
- The getters return the current value of a series. They do not return an aliased observable list that later updates would change.
- Tooltips and node visibility, set by the loop at the end of `updateStoryLeadTimes`, are display state and are left out. So is the unchecked `UserStoryDetail` cast in that loop. The `SimpleDateFormat("MMM dd")` labels are left out because they are locale-dependent. That loop runs after the story series' `setAll` and before the six `updateLeadTimes` calls. It can throw: on the cast, on a null chart node, or on a valid entry whose story is null. If it throws, the story series is already new and the six bucket series keep their old points. The model takes the loop as completing.
- `LeadTimeHelper`, `LeadTimeStats`, `LeadTimeStoryEntry` and `DateUtil`, with its time-zone conversion, are not part of this model. They enter as uninterpreted functions. It is not specified how stories fall into buckets.
- LeadTime.LeadTimeService.UpdateStoryLeadTimes: it requires every entry to have an end date. The source's comparator would throw a `NullPointerException` on a null one. The only caller passes entries that all have one (`StoryLeadTimesShape`).
- Sprint estimated dates are taken as non-null. `end.plusDays(1)` overflowing past `LocalDate.MAX` is not modelled.
- `CycleTimeEntry.toString` is left out, because its output is for debugging only. Generic story values stand for the story objects.
- Dates are taken as values. A `java.util.Date` is mutable, and the getters share the entry's own objects, so a caller could change an entry's dates later. That is not modelled.
- The rest of `ProjectSelection` is left out: `initialize`, `handleSearch`, its widget state and its network call are UI and I/O.
- A null input to `extractSlug` is not modelled: the source throws a `NullPointerException` at `urlPattern.matcher(value)`. `ExtractSlug` takes a string.
- `Burndown.java` and `Routes.java` are presentation and routing plumbing.
