/** Quiet hours in IST. Instants are microseconds; IST is UTC plus five and a half hours, always. */
module QuietHours {

  const MINUTE := 60000000
  const HOUR := 3600000000
  const DAY := 86400000000
  const IST_OFFSET := 19800000000

  type Hour = h: int | 0 <= h < 24

  function IstHour(t: int): (h: Hour) {
    ((t + IST_OFFSET) % DAY) / HOUR
  }

  predicate InQuietHours(t: int, start: Hour, end: Hour) {
    if start == end then false
    else if start > end then IstHour(t) >= start || IstHour(t) < end
    else start <= IstHour(t) < end
  }

  /** Counting hours round the clock from the start, quiet is what comes before the end. */
  lemma QuietRoundTheClock(t: int, start: Hour, end: Hour)
    ensures InQuietHours(t, start, end) <==> (IstHour(t) - start) % 24 < (end - start) % 24
  {
    hide IstHour;
  }

  /** The next `end:releaseMinute` in IST, or the moment itself when sending is already allowed. */
  function NextRelease(t: int, start: Hour, end: Hour, releaseMinute: int): int {
    if !InQuietHours(t, start, end) then t
    else
      var midnight := (t + IST_OFFSET) - (t + IST_OFFSET) % DAY;
      var release := midnight + end * HOUR + releaseMinute * MINUTE;
      (if release <= t + IST_OFFSET then release + DAY else release) - IST_OFFSET
  }

  /** Hour of an instant a given way past an IST midnight. */
  lemma HourPastMidnight(midnight: int, past: int)
    requires midnight % DAY == 0 && 0 <= past < 2 * DAY
    ensures IstHour(midnight + past - IST_OFFSET) == (past % DAY) / HOUR
  {
    assert (midnight + past) % DAY == past % DAY by {
      var k := midnight / DAY;
      assert midnight == k * DAY;
      assert midnight + past == k * DAY + past;
    }
  }

  /** A moment and its release, both counted from the IST midnight before the moment. */
  lemma ReleasePastMidnight(t: int, start: Hour, end: Hour, releaseMinute: int)
    requires 0 <= releaseMinute < 60 && InQuietHours(t, start, end)
    ensures var midnight, past := (t + IST_OFFSET) - (t + IST_OFFSET) % DAY, (t + IST_OFFSET) % DAY;
            var due := end * HOUR + releaseMinute * MINUTE;
            && midnight % DAY == 0 && 0 <= past < DAY && midnight + past == t + IST_OFFSET
            && NextRelease(t, start, end, releaseMinute) == midnight + (if due <= past then due + DAY else due) - IST_OFFSET
  {
  }

  /** Quiet hours by the time of day alone. */
  predicate QuietTime(past: int, start: Hour, end: Hour) {
    var hour := (past % DAY) / HOUR;
    if start == end then false else if start > end then hour >= start || hour < end else start <= hour < end
  }

  /** From a quiet time of day to the end hour all is quiet; the release after it is not, and is within a day. */
  lemma QuietUntilTheEndHour(past: int, start: Hour, end: Hour, releaseMinute: int)
    requires 0 <= releaseMinute < 60 && 0 <= past < DAY && QuietTime(past, start, end)
    ensures var due := end * HOUR + releaseMinute * MINUTE;
            var r := if due <= past then due + DAY else due;
            && past < r - releaseMinute * MINUTE && r < past + DAY
            && !QuietTime(r, start, end)
            && forall u :: past <= u < r - releaseMinute * MINUTE ==> QuietTime(u, start, end)
  {
  }

  /**
   Outside quiet hours the release is now. Inside, it is later, within a day and not quiet itself,
   and every instant up to the end hour is quiet: the hold outlasts the quiet by the release minute.
   */
  lemma ReleaseEndsTheQuiet(t: int, start: Hour, end: Hour, releaseMinute: int)
    requires 0 <= releaseMinute < 60
    ensures var r := NextRelease(t, start, end, releaseMinute);
            && (!InQuietHours(t, start, end) ==> r == t)
            && !InQuietHours(r, start, end)
            && (InQuietHours(t, start, end) ==>
                 && t < r < t + DAY
                 && t < r - releaseMinute * MINUTE
                 && forall u :: t <= u < r - releaseMinute * MINUTE ==> InQuietHours(u, start, end))
  {
    if InQuietHours(t, start, end) {
      var r := NextRelease(t, start, end, releaseMinute);
      var midnight, past := (t + IST_OFFSET) - (t + IST_OFFSET) % DAY, (t + IST_OFFSET) % DAY;
      ReleasePastMidnight(t, start, end, releaseMinute);
      HourPastMidnight(midnight, past);
      assert QuietTime(past, start, end);
      QuietUntilTheEndHour(past, start, end, releaseMinute);
      var due := r + IST_OFFSET - midnight;
      HourPastMidnight(midnight, due);
      hide NextRelease, IstHour;
      forall u | t <= u < r - releaseMinute * MINUTE ensures InQuietHours(u, start, end) {
        HourPastMidnight(midnight, u + IST_OFFSET - midnight);
        assert QuietTime(u + IST_OFFSET - midnight, start, end);
      }
    }
  }

  lemma DayRemainder(k: int, m: int)
    requires 0 <= m < DAY
    ensures (k * DAY + m) % DAY == m
  {
  }

  lemma HourRemainder(k: int, m: int)
    requires 0 <= m < HOUR
    ensures (k * HOUR + m) % HOUR == m && (k * HOUR + m) / HOUR == k
  {
  }

  /** A release is in the end hour, at the release minute sharp. */
  lemma ReleaseIsAtTheEndHour(t: int, start: Hour, end: Hour, releaseMinute: int)
    requires 0 <= releaseMinute < 60 && InQuietHours(t, start, end)
    ensures var r := NextRelease(t, start, end, releaseMinute);
            IstHour(r) == end && (r + 19800 * 1000000) % (3600 * 1000000) == releaseMinute * 60 * 1000000
  {
    var midnight, past := (t + IST_OFFSET) - (t + IST_OFFSET) % DAY, (t + IST_OFFSET) % DAY;
    var due, minutes := end * HOUR + releaseMinute * MINUTE, releaseMinute * MINUTE;
    ReleasePastMidnight(t, start, end, releaseMinute);
    var r := NextRelease(t, start, end, releaseMinute) + IST_OFFSET;
    hide NextRelease, InQuietHours;
    var day := if due <= past then midnight / DAY + 1 else midnight / DAY;
    assert r == day * DAY + due;
    DayRemainder(day, due);
    HourRemainder(end, minutes);
    HourRemainder(day * 24 + end, minutes);
    assert r == (day * 24 + end) * HOUR + minutes;
  }
}
