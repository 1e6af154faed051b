/**
 * One render of the chart, from the diary to the geometry handed to the
 * drawing library: the subject's episodes are normalised, each is cut into
 * per-day bars, the distinct days are counted, and the layout is sized.
 */
module Plotter {
  import opened Calendar
  import opened Episodes
  import opened DaySlicer
  import opened Normalizer
  import opened DayCount
  import opened Layout

  /** One render: the normalised episodes, the per-day bars of each, the
      day count, the layout, and the zone offset (UTC minus local time, in
      milliseconds) that both the normaliser and the day floor use. */
  datatype Chart = Chart(episodes: seq<Episode>, bars: seq<seq<Segment>>, numDays: int, plan: Plan, offset: int)

  /** The bars of each episode, in episode order, as the chart's per-episode
      groups bind the slicer, cut at the local midnights of the zone whose
      offset is `offset`. */
  method SliceAll(episodes: seq<Episode>, offset: int) returns (bars: seq<seq<Segment>>)
    ensures |bars| == |episodes|
    ensures forall i :: 0 <= i < |bars| ==> bars[i] == Slices(episodes[i].start, episodes[i].end, episodes[i].kind, offset)
    ensures forall i :: 0 <= i < |bars| ==> BarsOf(bars[i], episodes[i], offset)
    ensures CutAtUtcMidnight(bars, episodes, offset)
  {
    bars := [];
    for i := 0 to |episodes|
      invariant |bars| == i
      invariant forall k :: 0 <= k < i ==> bars[k] == Slices(episodes[k].start, episodes[k].end, episodes[k].kind, offset)
      invariant forall k :: 0 <= k < i ==> BarsOf(bars[k], episodes[k], offset)
    {
      var slices := DaySlice(episodes[i].start, episodes[i].end, episodes[i].kind, offset);
      bars := bars + [slices];
    }
    BarsAreUtcDays(episodes, bars, offset);
  }

  /** `bars` tile the episode `e` at the local midnights of `offset` when it
      is not empty, are absent when it is, and all carry its kind. */
  predicate BarsOf(bars: seq<Segment>, e: Episode, offset: int) {
    && (e.start < e.end ==> Tiles(bars, e.start, e.end, offset))
    && (e.start >= e.end ==> bars == [])
    && forall j :: 0 <= j < |bars| ==> bars[j].kind == e.kind
  }

  /** Everything the chart draws for `subject`: `bars[i]` are the per-day
      bars of `episodes[i]`. The one offset read at the first selected
      episode both moves the episodes and places the local midnights, so by
      `BarsAreUtcDays` the bars are the episodes cut at midnight UTC, then
      moved by that offset. */
  method PlotChart(all: seq<Episode>, subject: string, shiftHours: int, zone: int -> int,
                   clientWidth: int, innerHeight: int) returns (chart: Chart)
    requires exists i :: 0 <= i < |all| && all[i].recordId == subject
    ensures chart.episodes == Normalize(all, subject, shiftHours, zone)
    ensures chart.offset == chart.episodes[0].start - Selected(all, subject)[0].start
    ensures chart.numDays == |set e | e in all && e.recordId == subject :: e.date|
    ensures 1 <= chart.numDays <= |chart.episodes|
    ensures chart.plan == PlanChart(chart.numDays, clientWidth, innerHeight)
    ensures |chart.bars| == |chart.episodes|
    ensures forall i :: 0 <= i < |chart.bars| ==> BarsOf(chart.bars[i], chart.episodes[i], chart.offset)
    ensures forall i :: 0 <= i < |chart.bars| ==>
      chart.bars[i] == Slices(chart.episodes[i].start, chart.episodes[i].end, chart.episodes[i].kind, chart.offset)
  {
    var episodes := Normalize(all, subject, shiftHours, zone);
    var offset := SubjectOffset(all, subject, zone);
    var numDays := CountDays(episodes);
    NormalizedDates(all, subject, shiftHours, zone);
    var plan := PlanChart(numDays, clientWidth, innerHeight);
    var bars := SliceAll(episodes, offset);
    chart := Chart(episodes, bars, numDays, plan, offset);
  }

  /** Each episode's bars are the episode moved back by `offset`, cut at
      midnight UTC, and moved forward again. */
  predicate CutAtUtcMidnight(bars: seq<seq<Segment>>, episodes: seq<Episode>, offset: int)
    requires |bars| == |episodes|
  {
    forall i :: 0 <= i < |bars| ==>
      bars[i] == Moved(Slices(episodes[i].start - offset, episodes[i].end - offset, episodes[i].kind, 0), offset)
  }

  /** Bars cut at the local midnights of `offset` are the episodes moved
      back by `offset`, cut at midnight UTC, and moved forward again. */
  lemma BarsAreUtcDays(episodes: seq<Episode>, bars: seq<seq<Segment>>, offset: int)
    requires |bars| == |episodes|
    requires forall i :: 0 <= i < |bars| ==> bars[i] == Slices(episodes[i].start, episodes[i].end, episodes[i].kind, offset)
    ensures CutAtUtcMidnight(bars, episodes, offset)
  {
    forall i | 0 <= i < |bars|
      ensures bars[i] == Moved(Slices(episodes[i].start - offset, episodes[i].end - offset, episodes[i].kind, 0), offset)
    {
      var e := episodes[i];
      SlicesMoveWithZone(e.start - offset, e.end - offset, e.kind, offset);
      assert e.start - offset + offset == e.start && e.end - offset + offset == e.end;
    }
  }

  /** A shift starting at 22:00 UTC with an eight-hour shift length, viewed
      in a zone `minutes` behind UTC, ends at 06:00 UTC the next day,
      whatever end was recorded. Both instants are moved by that zone's
      offset, and the two bars are split where the zone's clock reads
      midnight, so they show 22:00 to 24:00 and 00:00 to 06:00. */
  lemma OvernightShiftScenario(recordedEnd: int, minutes: int)
    ensures
      var off := minutes * MillisPerMinute;
      var day1 := 19723 * MillisPerDay;
      var day2 := day1 + MillisPerDay;
      var start := day1 + 22 * MillisPerHour;
      var all := [Episode("s1", Shift, "2024-01-01", start, recordedEnd)];
      && all[0].recordId == "s1"
      && var r := Normalize(all, "s1", 8, t => minutes);
      && r == [Episode("s1", Shift, "2024-01-01", start + off, day2 + 6 * MillisPerHour + off)]
      && Slices(r[0].start, r[0].end, Shift, off)
         == [Segment(start + off, day2 + off, Shift), Segment(day2 + off, day2 + 6 * MillisPerHour + off, Shift)]
  {
    var off := minutes * MillisPerMinute;
    var day1 := 19723 * MillisPerDay;
    var day2 := day1 + MillisPerDay;
    var start := day1 + 22 * MillisPerHour;
    var end := day2 + 6 * MillisPerHour;
    var all := [Episode("s1", Shift, "2024-01-01", start, recordedEnd)];
    assert OfSubject(all, "s1") == all;
    assert SortByStart(all) == all;
    var r := Normalize(all, "s1", 8, t => minutes);
    assert r == [Episode("s1", Shift, "2024-01-01", start + off, end + off)];
    assert Day(start + off, off) == day1 + off;
    assert Day(end + off, off) == day2 + off;
    assert Day(day2 + off, off) == day2 + off;
    assert Slices(day2 + off, end + off, Shift, off) == [Segment(day2 + off, end + off, Shift)];
    assert Slices(start + off, end + off, Shift, off) == [Segment(start + off, day2 + off, Shift)] + Slices(day2 + off, end + off, Shift, off);
  }

  /** A sleep from 22:00 UTC to 06:00 UTC the next day, viewed five hours
      behind UTC, is drawn as two bars split at 05:00 UTC, the zone's local
      midnight once the five hours are added: 03:00 to 05:00 and 05:00 to
      11:00 UTC, which the local clock shows as 22:00 to 24:00 and 00:00 to
      06:00. */
  lemma WesternZoneScenario(shiftHours: int, clientWidth: int, innerHeight: int)
    ensures
      var day1 := 19723 * MillisPerDay;
      var day2 := day1 + MillisPerDay;
      var all := [Episode("s1", "sleep", "2024-01-01", day1 + 22 * MillisPerHour, day2 + 6 * MillisPerHour)];
      && all[0].recordId == "s1"
      && var r := Normalize(all, "s1", shiftHours, t => 300);
      && r == [Episode("s1", "sleep", "2024-01-01", day2 + 3 * MillisPerHour, day2 + 11 * MillisPerHour)]
      && Slices(r[0].start, r[0].end, "sleep", 300 * MillisPerMinute)
         == [Segment(day2 + 3 * MillisPerHour, day2 + 5 * MillisPerHour, "sleep"),
             Segment(day2 + 5 * MillisPerHour, day2 + 11 * MillisPerHour, "sleep")]
  {
    var day1 := 19723 * MillisPerDay;
    var day2 := day1 + MillisPerDay;
    var off := 300 * MillisPerMinute;
    var all := [Episode("s1", "sleep", "2024-01-01", day1 + 22 * MillisPerHour, day2 + 6 * MillisPerHour)];
    assert OfSubject(all, "s1") == all;
    assert SortByStart(all) == all;
    var r := Normalize(all, "s1", shiftHours, t => 300);
    var a := day2 + 3 * MillisPerHour;
    var m := day2 + 5 * MillisPerHour;
    var b := day2 + 11 * MillisPerHour;
    assert r == [Episode("s1", "sleep", "2024-01-01", a, b)];
    assert Day(a, off) == m - MillisPerDay;
    assert Day(b, off) == m;
    assert Day(m, off) == m;
    assert Slices(m, b, "sleep", off) == [Segment(m, b, "sleep")];
    assert Slices(a, b, "sleep", off) == [Segment(a, m, "sleep")] + Slices(m, b, "sleep", off);
  }
}
