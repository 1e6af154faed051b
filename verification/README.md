# Shift-work diary plotter: data pipeline and layout

This project models, in Dafny, the part of the shift-work plotter that turns
a diary of episodes into the geometry of a day-by-day bar chart. Each
episode is a sleep, wake or shift interval of one subject. The drawing
itself is done by a charting library and is not modelled.

One render of the chart, `Plotter.PlotChart`, runs four steps:

- **Normalisation** (module `Normalizer`). It keeps the selected subject's
  episodes and sorts them by start with a stable sort. It then moves every
  start and end by one timezone offset, read at the first episode's start.
  Last, it gives every "shift" episode the chosen shift length in hours in
  place of its recorded end.
- **Day slicing** (module `DaySlicer`). It cuts each episode at every
  midnight it crosses. The result is a list of segments, each within one
  calendar day.
- **Day count** (module `DayCount`). It counts the distinct date keys of the
  episodes.
- **Layout** (module `Layout`). It sizes the plot width and height, the
  fonts and the bar height from the day count and the window size.

Instants are integer milliseconds since the epoch, in UTC. A viewer's
zone is given by an `offset`: UTC minus local time, in milliseconds. This is
how the browser reports a timezone offset, times 60 000. A local midnight
is an instant `m` where `m - offset` is a multiple of one day
(86 400 000 ms). `Calendar.Day(t, offset)` is the local midnight that
begins `t`'s day, and `Calendar.NextDay(m, offset)` is the local midnight
one day after `m`. These two play the roles of the charting library's day
floor and day offset. Layout lengths are exact `real`s.

The timezone lookup is an environment call, so it becomes a parameter
`zone: int -> int` that gives the offset in minutes at an instant. The
chart reads it once, at the first sorted episode's raw start
(`Normalizer.SubjectOffset`). It adds that offset to every start and end,
then cuts the moved episodes at that zone's local midnights. So every bar
is the episode's interval before the move, cut at midnight UTC and then
moved by the offset (`DaySlicer.SlicesMoveWithZone`,
`Plotter.BarsAreUtcDays`). For a shift that interval runs from its start to
that start plus the shift length, not to its recorded end. On the viewer's
local clock, each bar reads as the UTC times of that interval. The chart
element's width and the window's height are plain parameters.

Some checks are absent from the code, and some guarantees do not hold
there. The model follows the code:

- The normaliser has no empty-dataset error and no check on the shift
  length. It reads the first episode unchecked, so `Normalize` requires that
  the subject has an episode. Any integer shift length is accepted.
- The layout has no check on the day count. Once normalisation has
  succeeded, the day count is at least one, so `PlanChart` requires
  `numDays >= 1`.
- A normalised episode need not have `start <= end`. A recorded episode
  whose end is before its start keeps that order. A shift episode ends
  before it starts when the shift length is negative. `Normalize` promises
  `start < end` only for shift episodes with a positive shift length.
- The plot width and height are not always positive. The width is at most
  zero when the chart element is 230 pixels wide or less
  (`WidthIsPositiveIff`). The height is at most zero whenever there is a
  single day (`HeightIsPositiveIff`). With a single day, every bar gets a
  negative height of at most -5 pixels (`SingleDayCollapses`).

## Model

| member | source | states |
|---|---|---|
| Calendar.Day | plotter.js:158-159 | the local day of `t` is a local midnight of the zone within one day's length at or before `t` |
| Calendar.NextDay | plotter.js:162 | the next local midnight is later than `m`, and every instant in between has day `m` |
| Calendar.DayIsMonotone | plotter.js:158-161 | a later instant never has an earlier day, so the loop bound is well placed |
| Calendar.DayMovesWithZone | plotter.js:158-159 | moving an instant by the zone's offset moves it to the local day that begins at its UTC day plus the offset |
| DaySlicer.DaySlice | plotter.js:157-170 | the slicing loop computes the day-by-day reference `Slices`; a non-empty episode's slices tile it, an empty or reversed one has none, and every slice keeps the episode's type |
| DaySlicer.SlicesPartition | plotter.js:157-169 | for `start < end` the first slice starts at `start`, each ends where the next starts, the last ends at `end`, and each lies within one calendar day; for `start >= end` there are no slices |
| DaySlicer.SlicesCoverEpisode | plotter.js:157-169 | the slices of a non-empty episode hold exactly its instants, each in one slice only, and are in strictly increasing order |
| DaySlicer.SlicesKind | plotter.js:163-167 | every slice carries the episode's type unchanged |
| DaySlicer.SlicesCount | plotter.js:161-168 | a non-empty episode has `(day(end) - day(start)) / D` slices, plus one exactly when `end` is not a midnight, so an episode ending at midnight gets no zero-length slice |
| DaySlicer.SlicesSingleDay | plotter.js:161-168 | an episode within one day is exactly one slice `(start, end, type)` |
| DaySlicer.SliceOfSlice | plotter.js:157-170 | slicing a one-day segment returns that segment alone |
| DaySlicer.SlicesAreIdempotent | plotter.js:157-170 | re-slicing any slice of an episode returns that slice alone |
| DaySlicer.SlicesSplitAtMidnight | plotter.js:161-165 | splitting an episode at an inner midnight and slicing both parts gives the slices of the whole |
| DaySlicer.ThreeDayScenario | plotter.js:157-170 | in any zone, 08:00 local time on day 1 to 08:00 on day 3 gives the three slices up to local midnight of day 2, up to that of day 3, and up to 08:00 |
| DaySlicer.SlicesMoveWithZone | plotter.js:157-170 | slicing an episode moved by the offset at that zone's local midnights gives its slices at midnight UTC, each moved by the offset |
| Episodes.TilesAreOrdered | plotter.js:161-168 | the slices of a tiling are in strictly increasing order, do not overlap, and lie within the episode |
| Episodes.TilesCoverExactly | plotter.js:161-168 | a tiling holds every instant of the episode and no other, each in exactly one slice |
| Normalizer.OfSubject | plotter.js:46 | the filter keeps each episode of the subject as often as it occurs in the input, and nothing else |
| Normalizer.SortByStart | plotter.js:49 | the sort returns a permutation of its input ordered by start |
| Normalizer.InsertKeepsOrder | plotter.js:49 | inserting into a start-ordered list keeps it ordered |
| Normalizer.SortIsStable | plotter.js:49 | the episodes sharing a start keep their relative order through the sort |
| Normalizer.FilterCommutes | plotter.js:46-49 | keeping the subject's episodes and then those with one start equals keeping those with that start and then the subject's |
| Normalizer.Selected | plotter.js:46-49 | the selection holds exactly the subject's input episodes, ordered by start; the episodes with any one start are the subject's episodes with that start, in input order |
| Normalizer.SubjectIsSelected | plotter.js:46-50 | a subject with an episode has a first selected episode to read the offset from |
| Normalizer.Adjusted | plotter.js:52-63 | an episode moves by the offset; a shift then lasts exactly the shift length, any other episode keeps its length and identity fields |
| Normalizer.AdjustedAll | plotter.js:52-63 | every episode moves by the same offset and order by start is kept |
| Normalizer.Normalize | plotter.js:46-63 | the subject's episodes in stable start order, all moved by one offset read at the first episode's start; a shift ends `shiftDuration` hours after its start, which is after it when that length is positive; any other episode keeps its length |
| DayCount.CountDays | plotter.js:65-70 | the running count equals the number of distinct dates, is at most the episode count, and is at least 1 for a non-empty list |
| DayCount.DatesAtMostEpisodes | plotter.js:65-70 | there are no more distinct dates than episodes |
| DayCount.SelectedDates | plotter.js:65-70 | the dates of the sorted selection are the dates of the subject's input episodes |
| DayCount.NormalizedDates | plotter.js:46-70 | the days counted are the dates of the subject's input episodes, whatever the offset and shift length |
| Layout.DesiredHeight | plotter.js:82 | the desired height times `numDays` is `(numDays - 1)` times the width |
| Layout.FloorDiv | plotter.js:148 | the bar height is the greatest integer whose multiple of the divisor does not exceed the dividend |
| Layout.PlanChart | plotter.js:76-86 | width is the smaller of the available width and 2000; height is the smaller of the desired and available heights; fonts are small exactly below 600 pixels; the bar height is the floor of the plot height less 50 over `numDays + 10` |
| Layout.WidthIsPositiveIff | plotter.js:79-80 | the plot has positive width exactly when the chart element is wider than 230 pixels |
| Layout.DesiredHeightWithinWidth | plotter.js:82 | for a non-negative width the desired height lies in `[0, width]`, is zero exactly for one day or zero width, and is below a positive width |
| Layout.MoreDaysAreTaller | plotter.js:82 | more days never give a smaller desired height |
| Layout.HeightIsPositiveIff | plotter.js:82-84 | the height is positive exactly when there are two or more days, positive width and positive available height |
| Layout.SingleDayCollapses | plotter.js:148 | with one day the desired height is 0, the height is at most 0, and the bar height is at most -5 |
| Layout.SingleDayScenario | plotter.js:76-86 | one day in a 1000 by 800 window gives width 770, height 0, normal fonts and bar height -5 |
| Plotter.SliceAll | plotter.js:141-148 | each episode's bars are its day slices at the zone's local midnights: they tile it, or are absent when it is empty, carry its type, and are the episode cut at midnight UTC moved by the offset |
| Plotter.PlotChart | plotter.js:42-86 | a render normalises the episodes, counts the subject's distinct input dates (at least one, at most the episode count), and sizes the layout from that count. Each episode's bars are its day slices at the local midnights of the offset the normaliser moved the first episode by: they tile it, or are absent when it is empty, and carry its type |
| Plotter.BarsAreUtcDays | plotter.js:50-56 | bars cut at the zone's local midnights are the episode moved back by the offset, cut at midnight UTC, and moved forward again |
| Plotter.OvernightShiftScenario | plotter.js:50-63 | in a zone any number of minutes behind UTC, a shift from 22:00 UTC with an 8-hour length ends at 06:00 UTC next day, whatever end was recorded; both ends move by the offset, and the two bars are split where the zone's clock reads midnight |
| Plotter.WesternZoneScenario | plotter.js:50-56 | a sleep from 22:00 to 06:00 UTC viewed five hours behind UTC becomes 03:00 to 11:00 UTC, split at 05:00 UTC, the zone's local midnight |

## Left out

- Data loading (plotter.js:3-4): fetching and parsing the diary file is I/O. The model takes the episodes as a sequence.
- The subject and shift-length dropdowns and their change listeners (plotter.js:11-36): DOM work and global mutable state. Their values are parameters of `PlotChart`.
- Drawing (plotter.js:88-151): scales, axes, the SVG element, hover handlers and attribute setting are calls into the charting library. Only the bar-height formula at plotter.js:148 is kept.
- `hours` and `formatHours` (plotter.js:172-181): they compute floating-point hour fractions and format labels for the axis. So does the bar width `x(hours(end) || 24)`.
- The timezone lookup (plotter.js:50) is the parameter `zone`.
- Calendar.Day: the model finds local midnights with the one offset read at the first episode (plotter.js:50). The charting library's day floor uses the offset in force at each instant. The two agree unless the zone's offset changes within the data, as at a daylight-saving change.
- Instants are unbounded integers. A JavaScript `Date` holds at most 8.64e15 ms either side of the epoch, and beyond that it is an invalid date for which the slicer returns no slices; only absurd shift lengths reach that range, so it is not modelled.
- Days of 23 or 25 hours around a daylight-saving change are not modelled. Every day lasts exactly 86 400 000 ms.
- Loose equality on `record_id` (plotter.js:46) is not modelled: record ids are strings compared exactly. Timestamps are integers, so the comparator's subtraction (plotter.js:49) never meets a string or `NaN`.
- `parseInt` of the shift length producing `NaN` is not modelled: the shift length is an integer.
- Copying the episodes before editing them (plotter.js:48), and the in-place `Date` updates (plotter.js:53-62), need no counterpart: episodes are immutable values, so the input is never changed.
- Layout.DesiredHeight: the chart computes `(1 - 1/numDays) * width` in floating point. The model computes it in exact reals, so rounding is not modelled.
- Layout.PlanChart: the chart's lengths are floating-point numbers. The model uses exact reals, so rounding in the height and in the bar-height division is not modelled.
