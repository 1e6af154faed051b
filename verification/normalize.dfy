/**
 * Preparing a subject's episodes for the chart.
 *
 * The chart keeps the episodes whose record id is the selected subject,
 * orders them by start (a stable sort: equal starts keep their order),
 * moves every start and end by one timezone offset, and, for a "shift"
 * episode, replaces the recorded end by the start plus the chosen shift
 * length in hours. Episodes are values, so the input collection is never
 * changed; the copy the chart makes before editing is implicit here.
 */
module Normalizer {
  import opened Calendar
  import opened Episodes

  const Shift: string := "shift"

  /** The episodes of `subject`, in their original order. */
  function OfSubject(s: seq<Episode>, subject: string): (r: seq<Episode>)
    ensures forall e :: multiset(r)[e] == if e.recordId == subject then multiset(s)[e] else 0
    ensures forall i :: 0 <= i < |r| ==> r[i].recordId == subject
  {
    if |s| == 0 then
      []
    else
      assert s == [s[0]] + s[1..];
      (if s[0].recordId == subject then [s[0]] else []) + OfSubject(s[1..], subject)
  }

  /** The episodes that start at instant `k`, in their order in `s`. */
  function WithStart(s: seq<Episode>, k: int): seq<Episode> {
    if |s| == 0 then []
    else (if s[0].start == k then [s[0]] else []) + WithStart(s[1..], k)
  }

  predicate SortedByStart(s: seq<Episode>) {
    forall i, j :: 0 <= i < j < |s| ==> s[i].start <= s[j].start
  }

  /** Places `x` before the first episode of `t` that starts no earlier. */
  function Insert(x: Episode, t: seq<Episode>): (r: seq<Episode>)
    ensures multiset(r) == multiset(t) + multiset{x}
    ensures forall y :: y in r ==> y == x || y in t
  {
    if |t| == 0 || x.start <= t[0].start then
      [x] + t
    else
      assert t == [t[0]] + t[1..];
      [t[0]] + Insert(x, t[1..])
  }

  lemma {:induction false} InsertKeepsOrder(x: Episode, t: seq<Episode>)
    requires SortedByStart(t)
    ensures SortedByStart(Insert(x, t))
  {
    if |t| == 0 || x.start <= t[0].start {
    } else {
      var rest := Insert(x, t[1..]);
      InsertKeepsOrder(x, t[1..]);
      var r := [t[0]] + rest;
      forall i, j | 0 <= i < j < |r|
        ensures r[i].start <= r[j].start
      {
        if i > 0 {
          assert r[i] == rest[i - 1] && r[j] == rest[j - 1];
        } else {
          var y := rest[j - 1];
          assert y in rest;
          if y != x {
            var m :| 0 <= m < |t[1..]| && t[1..][m] == y;
            assert t[m + 1] == y;
          }
        }
      }
    }
  }

  /** Insertion sort by start: each episode is placed ahead of the later
      ones that start no earlier, so the sort is stable. */
  function SortByStart(s: seq<Episode>): (r: seq<Episode>)
    ensures multiset(r) == multiset(s)
    ensures SortedByStart(r)
  {
    if |s| == 0 then
      []
    else
      assert s == [s[0]] + s[1..];
      InsertKeepsOrder(s[0], SortByStart(s[1..]));
      Insert(s[0], SortByStart(s[1..]))
  }

  lemma {:induction false} InsertKeepsEqualStarts(x: Episode, t: seq<Episode>, k: int)
    ensures WithStart(Insert(x, t), k) == (if x.start == k then [x] else []) + WithStart(t, k)
  {
    if |t| == 0 || x.start <= t[0].start {
      assert [x] + t == [x] + t[0..];
      assert ([x] + t)[1..] == t;
    } else {
      InsertKeepsEqualStarts(x, t[1..], k);
      var r := [t[0]] + Insert(x, t[1..]);
      assert r[1..] == Insert(x, t[1..]);
    }
  }

  /** The sort is stable: the episodes sharing any one start value appear
      in the same relative order before and after sorting. */
  lemma {:induction false} SortIsStable(s: seq<Episode>, k: int)
    ensures WithStart(SortByStart(s), k) == WithStart(s, k)
  {
    if |s| > 0 {
      SortIsStable(s[1..], k);
      InsertKeepsEqualStarts(s[0], SortByStart(s[1..]), k);
    }
  }

  /** Keeping one subject's episodes and keeping the episodes with one start
      value can be done in either order. */
  lemma {:induction false} FilterCommutes(s: seq<Episode>, subject: string, k: int)
    ensures WithStart(OfSubject(s, subject), k) == OfSubject(WithStart(s, k), subject)
  {
    if |s| > 0 {
      FilterCommutes(s[1..], subject, k);
      var rest := OfSubject(s[1..], subject);
      var later := WithStart(s[1..], k);
      if s[0].recordId == subject {
        assert OfSubject(s, subject) == [s[0]] + rest;
        assert ([s[0]] + rest)[1..] == rest;
      } else {
        assert OfSubject(s, subject) == rest;
      }
      if s[0].start == k {
        assert WithStart(s, k) == [s[0]] + later;
        assert ([s[0]] + later)[1..] == later;
      } else {
        assert WithStart(s, k) == later;
      }
    }
  }

  /** The subject's episodes, sorted by start. */
  function Selected(all: seq<Episode>, subject: string): (r: seq<Episode>)
    ensures forall e :: multiset(r)[e] == if e.recordId == subject then multiset(all)[e] else 0
    ensures forall i :: 0 <= i < |r| ==> r[i].recordId == subject
    ensures SortedByStart(r)
    ensures forall k :: WithStart(r, k) == OfSubject(WithStart(all, k), subject)
  {
    var r := SortByStart(OfSubject(all, subject));
    assert forall i :: 0 <= i < |r| ==> r[i] in multiset(OfSubject(all, subject));
    forall k
      ensures WithStart(r, k) == OfSubject(WithStart(all, k), subject)
    {
      SortIsStable(OfSubject(all, subject), k);
      FilterCommutes(all, subject, k);
    }
    r
  }

  /** A subject with an episode has a non-empty selection. */
  lemma SubjectIsSelected(all: seq<Episode>, subject: string)
    requires exists i :: 0 <= i < |all| && all[i].recordId == subject
    ensures |Selected(all, subject)| > 0
  {
    var i :| 0 <= i < |all| && all[i].recordId == subject;
    assert multiset(all)[all[i]] > 0;
    assert multiset(Selected(all, subject))[all[i]] > 0;
  }

  /** Moves an episode by `offset` and, for a shift, fixes its length to
      `shiftHours` hours; any other episode keeps its length. */
  function Adjusted(e: Episode, offset: int, shiftHours: int): (r: Episode)
    ensures r.recordId == e.recordId && r.kind == e.kind && r.date == e.date
    ensures r.start - e.start == offset
    ensures r.kind == Shift ==> r.end - r.start == shiftHours * MillisPerHour
    ensures r.kind != Shift ==> r.end - r.start == e.end - e.start
  {
    var start := e.start + offset;
    var end := e.end + offset;
    e.(start := start, end := if e.kind == Shift then start + shiftHours * MillisPerHour else end)
  }

  /** Moves every episode of `s` by the same `offset`, applying the shift
      length to each shift. */
  function AdjustedAll(s: seq<Episode>, offset: int, shiftHours: int): (r: seq<Episode>)
    ensures |r| == |s|
    ensures forall i :: 0 <= i < |r| ==>
      && r[i].recordId == s[i].recordId
      && r[i].kind == s[i].kind
      && r[i].date == s[i].date
      && r[i].start - s[i].start == offset
      && (r[i].kind == Shift ==> r[i].end - r[i].start == shiftHours * MillisPerHour)
      && (r[i].kind != Shift ==> r[i].end - r[i].start == s[i].end - s[i].start)
    ensures SortedByStart(s) ==> SortedByStart(r)
  {
    seq(|s|, i requires 0 <= i < |s| => Adjusted(s[i], offset, shiftHours))
  }

  /** The offset, UTC minus local time in milliseconds, that the chart
      reads for `subject`: the zone's offset at the first selected episode's
      start, converted from minutes. */
  function SubjectOffset(all: seq<Episode>, subject: string, zone: int -> int): int
    requires exists i :: 0 <= i < |all| && all[i].recordId == subject
  {
    SubjectIsSelected(all, subject);
    zone(Selected(all, subject)[0].start) * MillisPerMinute
  }

  /** The normalised episodes of `subject`. `zone(t)` is the viewer's
      timezone offset in minutes at instant `t`; it is read once, at the
      first episode's start, and that one offset moves every episode. The
      chart reads the first episode without checking that there is one, so
      the subject must have an episode. */
  function Normalize(all: seq<Episode>, subject: string, shiftHours: int, zone: int -> int): (r: seq<Episode>)
    requires exists i :: 0 <= i < |all| && all[i].recordId == subject
    ensures var sel := Selected(all, subject);
      && |r| == |sel| > 0
      && r[0].start - sel[0].start == zone(sel[0].start) * MillisPerMinute
      && forall i :: 0 <= i < |r| ==>
        && r[i].recordId == sel[i].recordId == subject
        && r[i].kind == sel[i].kind
        && r[i].date == sel[i].date
        && r[i].start - sel[i].start == r[0].start - sel[0].start
        && (r[i].kind != Shift ==> r[i].end - r[i].start == sel[i].end - sel[i].start)
    ensures forall i :: 0 <= i < |r| && r[i].kind == Shift ==> r[i].end == r[i].start + shiftHours * MillisPerHour
    ensures shiftHours > 0 ==> forall i :: 0 <= i < |r| && r[i].kind == Shift ==> r[i].start < r[i].end
    ensures SortedByStart(r)
  {
    var sel := Selected(all, subject);
    SubjectIsSelected(all, subject);
    AdjustedAll(sel, zone(sel[0].start) * MillisPerMinute, shiftHours)
  }
}
