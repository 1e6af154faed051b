/**
 * The records the chart works on.
 *
 * An `Episode` is one diary entry of a subject: a labelled interval of time
 * (its `kind` is "sleep", "wake", "shift", ...) together with the calendar-day
 * key `date` it was filed under. A `Segment` is the piece of an episode that
 * falls within one calendar day; the chart draws one bar per segment.
 */
module Episodes {
  import opened Calendar

  datatype Episode = Episode(recordId: string, kind: string, date: string, start: int, end: int)

  datatype Segment = Segment(start: int, end: int, kind: string)

  /** A segment that is not empty and does not cross into a second local
      day: it may end exactly at the midnight that closes its day. */
  predicate WithinOneDay(g: Segment, offset: int) {
    && g.start < g.end
    && (Day(g.start, offset) == Day(g.end, offset) || g.end == NextDay(Day(g.start, offset), offset))
  }

  /** Each segment ends where the next one starts. */
  predicate Contiguous(s: seq<Segment>) {
    forall i :: 0 < i < |s| ==> s[i - 1].end == s[i].start
  }

  /** `s` cuts the interval `[a, b)` into contiguous pieces, each within
      one local day: it starts at `a`, ends at `b`, and leaves no gap in
      between. */
  predicate Tiles(s: seq<Segment>, a: int, b: int, offset: int) {
    && |s| > 0
    && s[0].start == a
    && s[|s| - 1].end == b
    && Contiguous(s)
    && forall i :: 0 <= i < |s| ==> WithinOneDay(s[i], offset)
  }

  /** The segments `s`, each moved later by `d`. */
  function Moved(s: seq<Segment>, d: int): seq<Segment> {
    seq(|s|, i requires 0 <= i < |s| => Segment(s[i].start + d, s[i].end + d, s[i].kind))
  }

  /** Moving a concatenation moves each part. */
  lemma MovedConcat(a: seq<Segment>, b: seq<Segment>, d: int)
    ensures Moved(a + b, d) == Moved(a, d) + Moved(b, d)
  {
    var l := Moved(a + b, d);
    var r := Moved(a, d) + Moved(b, d);
    forall i | 0 <= i < |l|
      ensures l[i] == r[i]
    {
      if i < |a| {
        assert (a + b)[i] == a[i];
      } else {
        assert (a + b)[i] == b[i - |a|];
      }
    }
  }

  /** The segment `g` holds the instant `t`. */
  predicate Holds(g: Segment, t: int) {
    g.start <= t < g.end
  }

  /** Some segment of `s` holds the instant `t`. */
  predicate Covers(s: seq<Segment>, t: int) {
    exists i :: 0 <= i < |s| && Holds(s[i], t)
  }

  /** A tiling is in strictly increasing order: a later segment starts no
      earlier than an earlier one ends, so no two segments overlap, and all
      of them lie within `[a, b]`. */
  lemma {:induction false} TilesAreOrdered(s: seq<Segment>, a: int, b: int, offset: int)
    requires Tiles(s, a, b, offset)
    ensures forall i, j :: 0 <= i < j < |s| ==> s[i].end <= s[j].start
    ensures forall i :: 0 <= i < |s| ==> a <= s[i].start < s[i].end <= b
  {
    forall i, j | 0 <= i < j < |s|
      ensures s[i].end <= s[j].start
    {
      EndsBefore(s, i, j);
    }
    forall i | 0 <= i < |s|
      ensures a <= s[i].start < s[i].end <= b
    {
      if 0 < i {
        EndsBefore(s, 0, i);
      }
      if i < |s| - 1 {
        EndsBefore(s, i, |s| - 1);
      }
    }
  }

  lemma {:induction false} EndsBefore(s: seq<Segment>, i: int, j: int)
    requires Contiguous(s)
    requires forall k :: 0 <= k < |s| ==> s[k].start < s[k].end
    requires 0 <= i < j < |s|
    ensures s[i].end <= s[j].start
    decreases j - i
  {
    if i + 1 < j {
      EndsBefore(s, i, j - 1);
    }
  }

  /** A tiling of `[a, b)` holds exactly the instants of `[a, b)`, each in
      exactly one segment. */
  lemma {:induction false} TilesCoverExactly(s: seq<Segment>, a: int, b: int, offset: int)
    requires Tiles(s, a, b, offset)
    ensures forall t :: a <= t < b <==> Covers(s, t)
    ensures forall t, i, j :: 0 <= i < |s| && 0 <= j < |s| && Holds(s[i], t) && Holds(s[j], t) ==> i == j
  {
    TilesAreOrdered(s, a, b, offset);
    forall t | a <= t < b
      ensures Covers(s, t)
    {
      CoverFrom(s, 0, t);
    }
  }

  lemma {:induction false} CoverFrom(s: seq<Segment>, i: int, t: int)
    requires Contiguous(s)
    requires 0 <= i < |s|
    requires s[i].start <= t < s[|s| - 1].end
    ensures Covers(s, t)
    decreases |s| - i
  {
    if t < s[i].end {
      assert Holds(s[i], t);
    } else {
      CoverFrom(s, i + 1, t);
    }
  }
}
