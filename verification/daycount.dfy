/**
 * Counting the calendar days a subject's chart spans.
 *
 * The chart counts the distinct `date` keys of the normalised episodes,
 * walking them once and remembering the keys already seen. The count sizes
 * the chart's height and bars.
 */
module DayCount {
  import opened Episodes
  import opened Normalizer

  /** The distinct date keys of the episodes `s`. */
  function Dates(s: seq<Episode>): set<string> {
    set i | 0 <= i < |s| :: s[i].date
  }

  lemma DatesOfExtension(s: seq<Episode>, i: int)
    requires 0 <= i < |s|
    ensures Dates(s[..i + 1]) == Dates(s[..i]) + {s[i].date}
  {
    var p := s[..i + 1];
    assert p[i] == s[i];
    assert forall j :: 0 <= j < i ==> p[j] == s[..i][j];
  }

  /** There are never more distinct dates than episodes. */
  lemma {:induction false} DatesAtMostEpisodes(s: seq<Episode>)
    ensures |Dates(s)| <= |s|
  {
    if |s| > 0 {
      var n := |s| - 1;
      DatesAtMostEpisodes(s[..n]);
      DatesOfExtension(s, n);
      assert s[..n + 1] == s;
    }
  }

  /** The reduce of the chart: a running count that grows by one at each
      date not seen before. */
  method CountDays(episodes: seq<Episode>) returns (numDays: int)
    ensures numDays == |Dates(episodes)|
    ensures numDays <= |episodes|
    ensures |episodes| > 0 ==> numDays >= 1
  {
    var uniqueDays: set<string> := {};
    numDays := 0;
    for i := 0 to |episodes|
      invariant uniqueDays == Dates(episodes[..i])
      invariant numDays == |uniqueDays|
    {
      DatesOfExtension(episodes, i);
      if episodes[i].date !in uniqueDays {
        uniqueDays := uniqueDays + {episodes[i].date};
        numDays := numDays + 1;
      }
    }
    assert episodes[..|episodes|] == episodes;
    DatesAtMostEpisodes(episodes);
    if |episodes| > 0 {
      assert episodes[0].date in Dates(episodes);
    }
  }

  lemma SameDates(a: seq<Episode>, b: seq<Episode>)
    requires |a| == |b|
    requires forall i :: 0 <= i < |a| ==> a[i].date == b[i].date
    ensures Dates(a) == Dates(b)
  {
    forall d | d in Dates(a)
      ensures d in Dates(b)
    {
      var i :| 0 <= i < |a| && a[i].date == d;
      assert b[i].date == d;
    }
  }

  /** The date keys of the sorted selection are those of the subject's
      episodes in the input. */
  lemma SelectedDates(all: seq<Episode>, subject: string)
    ensures Dates(Selected(all, subject)) == set e | e in all && e.recordId == subject :: e.date
  {
    SelectedDatesAreInput(all, subject);
    InputDatesAreSelected(all, subject);
  }

  lemma SelectedDatesAreInput(all: seq<Episode>, subject: string)
    ensures Dates(Selected(all, subject)) <= set e | e in all && e.recordId == subject :: e.date
  {
    var sel := Selected(all, subject);
    forall d | d in Dates(sel)
      ensures d in set e | e in all && e.recordId == subject :: e.date
    {
      var i :| 0 <= i < |sel| && sel[i].date == d;
      InSelection(all, subject, sel[i]);
    }
  }

  lemma InputDatesAreSelected(all: seq<Episode>, subject: string)
    ensures (set e | e in all && e.recordId == subject :: e.date) <= Dates(Selected(all, subject))
  {
    var sel := Selected(all, subject);
    forall d | d in set e | e in all && e.recordId == subject :: e.date
      ensures d in Dates(sel)
    {
      var e :| e in all && e.recordId == subject && e.date == d;
      InSelection(all, subject, e);
      var i :| 0 <= i < |sel| && sel[i] == e;
    }
  }

  lemma InSelection(all: seq<Episode>, subject: string, e: Episode)
    ensures e in Selected(all, subject) <==> e in all && e.recordId == subject
  {
    var sel := Selected(all, subject);
    assert e in sel <==> e in multiset(sel);
    assert e in all <==> e in multiset(all);
  }

  /** The days of a subject's chart are exactly the date keys of the
      subject's episodes in the input: sorting, the timezone offset and the
      shift length change none of them. */
  lemma NormalizedDates(all: seq<Episode>, subject: string, shiftHours: int, zone: int -> int)
    requires exists i :: 0 <= i < |all| && all[i].recordId == subject
    ensures Dates(Normalize(all, subject, shiftHours, zone)) == set e | e in all && e.recordId == subject :: e.date
  {
    SameDates(Normalize(all, subject, shiftHours, zone), Selected(all, subject));
    SelectedDates(all, subject);
  }
}
