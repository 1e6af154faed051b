/**
 * Calendar arithmetic on instants, which are integer milliseconds since the
 * epoch (UTC).
 *
 * The chart groups time by the viewer's local calendar day. A viewer's zone
 * is given by its `offset`: UTC minus local time, in milliseconds, the way
 * the browser reports a timezone offset (times 60000). Local midnight is
 * then an instant `m` with `m - offset` a multiple of a day. `Day(t, offset)`
 * is the local midnight that begins the day holding `t` (the role of
 * `d3.timeDay(t)`), and `NextDay(m, offset)` is the local midnight one day
 * later (the role of `d3.timeDay.offset(m)`). A day has the fixed length
 * `MillisPerDay`: days of 23 or 25 hours around a daylight-saving change are
 * not modelled.
 */
module Calendar {

  const MillisPerMinute: int := 60000
  const MillisPerHour: int := 3600000
  const MillisPerDay: int := 86400000

  /** True when `t` is the first instant of a local calendar day. */
  predicate IsMidnight(t: int, offset: int) {
    (t - offset) % MillisPerDay == 0
  }

  /** The local midnight that begins the day holding `t`. */
  function Day(t: int, offset: int): (m: int)
    ensures IsMidnight(m, offset)
    ensures m <= t < m + MillisPerDay
  {
    t - (t - offset) % MillisPerDay
  }

  /** The local midnight that follows the local midnight `m`. */
  function NextDay(m: int, offset: int): (n: int)
    requires IsMidnight(m, offset)
    ensures IsMidnight(n, offset) && m < n
    ensures forall t :: m <= t < n ==> Day(t, offset) == m
  {
    DayIsUnique(m, offset);
    m + MillisPerDay
  }

  /** Only one local midnight lies within a day's length at or before `t`. */
  lemma DayIsUnique(m: int, offset: int)
    requires IsMidnight(m, offset)
    ensures forall t :: m <= t < m + MillisPerDay ==> Day(t, offset) == m
  {
    forall t | m <= t < m + MillisPerDay
      ensures Day(t, offset) == m
    {
      var k := (m - offset) / MillisPerDay;
      assert m - offset == k * MillisPerDay;
      assert t - offset == k * MillisPerDay + (t - m);
      assert 0 <= t - m < MillisPerDay;
      assert (t - offset) % MillisPerDay == t - m;
    }
  }

  /** A midnight is its own day. */
  lemma DayOfMidnight(m: int, offset: int)
    requires IsMidnight(m, offset)
    ensures Day(m, offset) == m
  {
    DayIsUnique(m, offset);
  }

  /** `Day` never decreases as time moves forward. */
  lemma DayIsMonotone(s: int, t: int, offset: int)
    requires s <= t
    ensures Day(s, offset) <= Day(t, offset)
  {
    if Day(t, offset) < Day(s, offset) {
      DayGap(Day(t, offset), Day(s, offset), offset);
      assert false;
    }
  }

  /** Two distinct midnights are at least a day apart. */
  lemma DayGap(a: int, b: int, offset: int)
    requires IsMidnight(a, offset) && IsMidnight(b, offset) && a < b
    ensures a + MillisPerDay <= b
  {
    var i := (a - offset) / MillisPerDay;
    var j := (b - offset) / MillisPerDay;
    assert a - offset == i * MillisPerDay;
    assert b - offset == j * MillisPerDay;
    assert i < j;
    assert (j - i) * MillisPerDay >= MillisPerDay;
  }

  /** Moving an instant by the zone's offset moves its local day by the same
      amount from the day of the unmoved instant at offset zero. */
  lemma DayMovesWithZone(t: int, offset: int)
    ensures Day(t + offset, offset) == Day(t, 0) + offset
  {
    assert (t + offset) - offset == t;
  }
}
