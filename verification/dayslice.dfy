/**
 * Cutting one episode into per-day segments.
 *
 * `Slices` is the reference definition, one day at a time: the first piece
 * runs from the start to the next midnight and the rest is sliced the same
 * way; once start and end share a day, one last piece remains if the
 * interval is not empty. `DaySlice` is the loop the chart runs, which walks
 * the day boundaries with a cursor, and is proved to compute `Slices`.
 */
module DaySlicer {
  import opened Calendar
  import opened Episodes

  function Slices(start: int, end: int, kind: string, offset: int): seq<Segment>
    decreases Day(end, offset) - Day(start, offset)
  {
    if Day(start, offset) < Day(end, offset) then
      var boundary := NextDay(Day(start, offset), offset);
      DayOfMidnight(boundary, offset);
      [Segment(start, boundary, kind)] + Slices(boundary, end, kind, offset)
    else if start < end then
      [Segment(start, end, kind)]
    else
      []
  }

  /** The loop of the chart: advance a day boundary from the start's day
      towards the end's day, emitting a segment up to each boundary, then a
      last segment up to the end unless the cursor already reached it. */
  method DaySlice(start: int, end: int, kind: string, offset: int) returns (slices: seq<Segment>)
    ensures slices == Slices(start, end, kind, offset)
    ensures start < end ==> Tiles(slices, start, end, offset)
    ensures start >= end ==> slices == []
    ensures forall i :: 0 <= i < |slices| ==> slices[i].kind == kind
  {
    var cursor := start;
    var startDay := Day(start, offset);
    var endDay := Day(end, offset);
    slices := [];
    while startDay < endDay
      invariant startDay == Day(cursor, offset)
      invariant slices + Slices(cursor, end, kind, offset) == Slices(start, end, kind, offset)
      decreases endDay - startDay
    {
      startDay := NextDay(startDay, offset);
      DayOfMidnight(startDay, offset);
      slices := slices + [Segment(cursor, startDay, kind)];
      cursor := startDay;
    }
    if cursor < end {
      slices := slices + [Segment(cursor, end, kind)];
    }
    SlicesPartition(start, end, kind, offset);
    SlicesKind(start, end, kind, offset);
  }

  /** When the episode is not empty, its slices tile it: the first starts at
      the episode's start, each ends where the next starts, the last ends at
      the episode's end, and each lies within one calendar day. An empty or
      reversed episode has no slices. */
  lemma {:induction false} SlicesPartition(start: int, end: int, kind: string, offset: int)
    ensures start < end ==> Tiles(Slices(start, end, kind, offset), start, end, offset)
    ensures start >= end ==> Slices(start, end, kind, offset) == []
    decreases Day(end, offset) - Day(start, offset)
  {
    if Day(start, offset) < Day(end, offset) {
      var boundary := NextDay(Day(start, offset), offset);
      DayOfMidnight(boundary, offset);
      DayIsMonotone(start, end, offset);
      SlicesPartition(boundary, end, kind, offset);
      var rest := Slices(boundary, end, kind, offset);
      var s := Slices(start, end, kind, offset);
      assert s == [Segment(start, boundary, kind)] + rest;
      assert WithinOneDay(s[0], offset);
      if boundary < end {
        forall i | 0 < i < |s|
          ensures s[i - 1].end == s[i].start
        {
          if i > 1 {
            assert s[i - 1] == rest[i - 2] && s[i] == rest[i - 1];
          }
        }
        forall i | 0 <= i < |s|
          ensures WithinOneDay(s[i], offset)
        {
          if i > 0 {
            assert s[i] == rest[i - 1];
          }
        }
      } else {
        assert boundary == end by {
          assert Day(end, offset) <= end;
          DayGap(Day(start, offset), Day(end, offset), offset);
        }
        assert s == [Segment(start, end, kind)];
      }
    } else if start < end {
      DayIsMonotone(start, end, offset);
      assert WithinOneDay(Segment(start, end, kind), offset);
    }
  }

  /** The slices of a non-empty episode hold exactly its instants, each in
      exactly one slice, in strictly increasing order. */
  lemma SlicesCoverEpisode(start: int, end: int, kind: string, offset: int)
    requires start < end
    ensures var s := Slices(start, end, kind, offset);
      && (forall t :: start <= t < end <==> Covers(s, t))
      && (forall t, i, j :: 0 <= i < |s| && 0 <= j < |s| && Holds(s[i], t) && Holds(s[j], t) ==> i == j)
      && (forall i, j :: 0 <= i < j < |s| ==> s[i].start < s[i].end <= s[j].start < s[j].end)
  {
    SlicesPartition(start, end, kind, offset);
    TilesAreOrdered(Slices(start, end, kind, offset), start, end, offset);
    TilesCoverExactly(Slices(start, end, kind, offset), start, end, offset);
  }

  /** Every slice carries the episode's kind unchanged. */
  lemma {:induction false} SlicesKind(start: int, end: int, kind: string, offset: int)
    ensures forall i :: 0 <= i < |Slices(start, end, kind, offset)| ==> Slices(start, end, kind, offset)[i].kind == kind
    decreases Day(end, offset) - Day(start, offset)
  {
    if Day(start, offset) < Day(end, offset) {
      var boundary := NextDay(Day(start, offset), offset);
      DayOfMidnight(boundary, offset);
      SlicesKind(boundary, end, kind, offset);
    }
  }

  /** A non-empty episode is cut once at every midnight strictly between
      its start and end: it has one slice per day boundary it crosses, plus
      one more when it does not end exactly at a midnight. An episode that
      ends at midnight gets no trailing zero-length slice. */
  lemma {:induction false} SlicesCount(start: int, end: int, kind: string, offset: int)
    requires start < end
    ensures |Slices(start, end, kind, offset)| == (Day(end, offset) - Day(start, offset)) / MillisPerDay + (if IsMidnight(end, offset) then 0 else 1)
    decreases Day(end, offset) - Day(start, offset)
  {
    if Day(start, offset) < Day(end, offset) {
      var boundary := NextDay(Day(start, offset), offset);
      DayOfMidnight(boundary, offset);
      DayGap(Day(start, offset), Day(end, offset), offset);
      if boundary < end {
        SlicesCount(boundary, end, kind, offset);
        assert (Day(end, offset) - Day(start, offset)) / MillisPerDay == (Day(end, offset) - boundary) / MillisPerDay + 1;
      } else {
        assert boundary == end by {
          assert Day(end, offset) <= end;
        }
        DayOfMidnight(end, offset);
        assert (Day(end, offset) - Day(start, offset)) / MillisPerDay == 1;
      }
    } else {
      DayIsMonotone(start, end, offset);
      if IsMidnight(end, offset) {
        DayOfMidnight(end, offset);
      }
    }
  }

  /** An episode within a single day is a single slice, equal to itself. */
  lemma SlicesSingleDay(start: int, end: int, kind: string, offset: int)
    requires Day(start, offset) == Day(end, offset) && start < end
    ensures Slices(start, end, kind, offset) == [Segment(start, end, kind)]
  {
  }

  /** Slicing a slice gives back just that slice: slicing is idempotent. */
  lemma SliceOfSlice(g: Segment, offset: int)
    requires WithinOneDay(g, offset)
    ensures Slices(g.start, g.end, g.kind, offset) == [g]
  {
    if Day(g.start, offset) < Day(g.end, offset) {
      var boundary := NextDay(Day(g.start, offset), offset);
      assert boundary == g.end;
      DayOfMidnight(boundary, offset);
      assert Slices(boundary, g.end, g.kind, offset) == [];
    }
  }

  /** Re-slicing every slice of an episode reproduces each slice alone. */
  lemma SlicesAreIdempotent(start: int, end: int, kind: string, offset: int)
    ensures forall i :: 0 <= i < |Slices(start, end, kind, offset)| ==>
      var g := Slices(start, end, kind, offset)[i]; Slices(g.start, g.end, g.kind, offset) == [g]
  {
    SlicesPartition(start, end, kind, offset);
    SlicesKind(start, end, kind, offset);
    var s := Slices(start, end, kind, offset);
    forall i | 0 <= i < |s|
      ensures Slices(s[i].start, s[i].end, s[i].kind, offset) == [s[i]]
    {
      SliceOfSlice(s[i], offset);
    }
  }

  /** Cutting an episode first at a midnight `m` inside it and slicing the
      two parts gives the same slices as slicing the whole. */
  lemma {:induction false} SlicesSplitAtMidnight(start: int, m: int, end: int, kind: string, offset: int)
    requires IsMidnight(m, offset) && start <= m <= end
    ensures Slices(start, m, kind, offset) + Slices(m, end, kind, offset) == Slices(start, end, kind, offset)
    decreases m - start
  {
    DayOfMidnight(m, offset);
    if Day(start, offset) < m {
      var boundary := NextDay(Day(start, offset), offset);
      DayOfMidnight(boundary, offset);
      DayIsMonotone(m, end, offset);
      DayGap(Day(start, offset), m, offset);
      SlicesSplitAtMidnight(boundary, m, end, kind, offset);
      assert Slices(start, m, kind, offset) == [Segment(start, boundary, kind)] + Slices(boundary, m, kind, offset);
      assert Slices(start, end, kind, offset) == [Segment(start, boundary, kind)] + Slices(boundary, end, kind, offset);
    } else {
      assert start == m;
      assert Slices(m, m, kind, offset) == [];
    }
  }

  /** In any zone, an episode from 08:00 local time on one day to 08:00
      two days later becomes three slices: the rest of the first day, the
      whole second day, and the third day up to 08:00. */
  lemma ThreeDayScenario(offset: int)
    ensures
      var day1 := 19723 * MillisPerDay + offset;
      var day2 := day1 + MillisPerDay;
      var day3 := day2 + MillisPerDay;
      var h8 := 8 * MillisPerHour;
      Slices(day1 + h8, day3 + h8, "sleep", offset)
      == [Segment(day1 + h8, day2, "sleep"), Segment(day2, day3, "sleep"), Segment(day3, day3 + h8, "sleep")]
  {
    var day1 := 19723 * MillisPerDay + offset;
    var day2 := day1 + MillisPerDay;
    var day3 := day2 + MillisPerDay;
    var h8 := 8 * MillisPerHour;
    assert Day(day1 + h8, offset) == day1;
    assert Day(day2, offset) == day2;
    assert Day(day3, offset) == day3;
    assert Day(day3 + h8, offset) == day3;
    assert Slices(day3, day3 + h8, "sleep", offset) == [Segment(day3, day3 + h8, "sleep")];
    assert Slices(day2, day3 + h8, "sleep", offset) == [Segment(day2, day3, "sleep")] + Slices(day3, day3 + h8, "sleep", offset);
    assert Slices(day1 + h8, day3 + h8, "sleep", offset) == [Segment(day1 + h8, day2, "sleep")] + Slices(day2, day3 + h8, "sleep", offset);
  }

  /** Slicing at local midnights is slicing at UTC midnights seen from the
      zone: moving an episode by the zone's offset and slicing it at that
      zone's midnights gives the slices of the unmoved episode cut at offset
      zero, each moved by the offset. */
  lemma {:induction false} SlicesMoveWithZone(start: int, end: int, kind: string, offset: int)
    ensures Slices(start + offset, end + offset, kind, offset) == Moved(Slices(start, end, kind, 0), offset)
    decreases Day(end, 0) - Day(start, 0)
  {
    DayMovesWithZone(start, offset);
    DayMovesWithZone(end, offset);
    if Day(start, 0) < Day(end, 0) {
      var boundary := Day(start, 0) + MillisPerDay;
      DayOfMidnight(boundary, 0);
      SlicesMoveWithZone(boundary, end, kind, offset);
      FirstSliceMoves(start, end, kind, offset);
    } else {
      NoMidnightMoves(start, end, kind, offset);
    }
  }

  /** The step of `SlicesMoveWithZone` for an episode that crosses a
      midnight: its first slice moves with the zone, so the whole does when
      the rest does. */
  lemma FirstSliceMoves(start: int, end: int, kind: string, offset: int)
    requires Day(start, 0) < Day(end, 0)
    requires Day(start + offset, offset) == Day(start, 0) + offset
    requires Day(end + offset, offset) == Day(end, 0) + offset
    requires var boundary := Day(start, 0) + MillisPerDay;
      Slices(boundary + offset, end + offset, kind, offset) == Moved(Slices(boundary, end, kind, 0), offset)
    ensures Slices(start + offset, end + offset, kind, offset) == Moved(Slices(start, end, kind, 0), offset)
  {
    var boundary := Day(start, 0) + MillisPerDay;
    var first := [Segment(start, boundary, kind)];
    var rest := Slices(boundary, end, kind, 0);
    var later := Slices(boundary + offset, end + offset, kind, offset);
    FirstSlice(start, end, kind, 0);
    FirstSlice(start + offset, end + offset, kind, offset);
    assert Slices(start + offset, end + offset, kind, offset) == Moved(first, offset) + later by {
      assert Moved(first, offset)[0] == Segment(start + offset, boundary + offset, kind);
    }
    MovedConcat(first, rest, offset);
  }

  /** The step of `SlicesMoveWithZone` for an episode within one day. */
  lemma NoMidnightMoves(start: int, end: int, kind: string, offset: int)
    requires Day(start, 0) >= Day(end, 0)
    requires Day(start + offset, offset) >= Day(end + offset, offset)
    ensures Slices(start + offset, end + offset, kind, offset) == Moved(Slices(start, end, kind, 0), offset)
  {
  }

  /** An episode that crosses a midnight starts with a slice up to the next
      midnight, followed by the slices of the rest. */
  lemma FirstSlice(start: int, end: int, kind: string, offset: int)
    requires Day(start, offset) < Day(end, offset)
    ensures var boundary := Day(start, offset) + MillisPerDay;
      Slices(start, end, kind, offset) == [Segment(start, boundary, kind)] + Slices(boundary, end, kind, offset)
  {
  }
}
