/** The 24-character storage text of an instant: written, read back, and sorted as text. */
module Timestamps {
  import opened Text

  /** An instant by its UTC fields. */
  datatype Utc = Utc(year: nat, month: nat, day: nat, hour: nat, minute: nat, second: nat, micro: nat)

  /** A datetime as handed over; the shift of an aware one to UTC is the platform's. */
  datatype Moment = Aware(utc: Utc) | Naive

  predicate Leap(y: int) { y % 4 == 0 && (y % 100 != 0 || y % 400 == 0) }

  function DaysIn(y: int, m: int): int {
    if m == 2 then (if Leap(y) then 29 else 28) else if m in {4, 6, 9, 11} then 30 else 31
  }

  predicate ValidDate(y: int, m: int, d: int) { 1 <= m <= 12 && 1 <= d <= DaysIn(y, m) }

  /** Four-digit years: the range in which the text has its fixed width. */
  predicate Valid(t: Utc) {
    && 1000 <= t.year <= 9999 && ValidDate(t.year, t.month, t.day)
    && t.hour < 24 && t.minute < 60 && t.second < 60 && t.micro < 1000000
  }

  /** The dates of the calendar: thirty days have April, June, September and November, and February is by the leap rule. */
  lemma DatesOfTheCalendar(y: int, m: int, d: int)
    ensures ValidDate(y, m, d) <==>
      || (m in {1, 3, 5, 7, 8, 10, 12} && 1 <= d <= 31)
      || (m in {4, 6, 9, 11} && 1 <= d <= 30)
      || (m == 2 && 1 <= d <= 28)
      || (m == 2 && d == 29 && y % 4 == 0 && (y % 100 == 0 ==> y % 400 == 0))
    ensures forall t: Utc :: Valid(t) <==>
      && 1000 <= t.year < 10000 && ValidDate(t.year, t.month, t.day)
      && t.hour <= 23 && t.minute <= 59 && t.second <= 59 && t.micro <= 999999
  {
  }

  // --------------------------------------------------------------------------
  // Text.

  function Pow10(w: nat): nat { if w == 0 then 1 else 10 * Pow10(w - 1) }

  function Pad(n: nat, w: nat): (r: string)
    ensures |r| == w && forall i :: 0 <= i < w ==> IsDigit(r[i])
  {
    if w == 0 then "" else Pad(n / 10, w - 1) + [Digit(n % 10)]
  }

  function Strftime(t: Utc): string {
    Pad(t.year, 4) + "-" + Pad(t.month, 2) + "-" + Pad(t.day, 2) + "T"
    + Pad(t.hour, 2) + ":" + Pad(t.minute, 2) + ":" + Pad(t.second, 2) + "." + Pad(t.micro, 6)
  }

  /** A naive datetime is refused; otherwise the last three digits of the microseconds are cut. */
  function ToDbIso(m: Moment): Option<string> {
    match m
    case Naive => None
    case Aware(t) => var s := Strftime(t); Some(s[..|s| - 3] + "Z")
  }

  /** Numbers of fixed width, each with the character after it. */
  datatype Numbers = End | Number(n: nat, width: nat, sep: char, rest: Numbers)

  function Values(t: Utc): Numbers {
    Number(t.year, 4, '-', Number(t.month, 2, '-', Number(t.day, 2, 'T', TimeValues(t))))
  }

  function TimeValues(t: Utc): Numbers {
    Number(t.hour, 2, ':', Number(t.minute, 2, ':', Number(t.second, 2, '.', Number(t.micro / 1000, 3, 'Z', End))))
  }

  const SHAPE := Values(Utc(0, 0, 0, 0, 0, 0, 0))

  function Written(v: Numbers): string {
    match v
    case End => ""
    case Number(n, width, sep, rest) => Pad(n, width) + [sep] + Written(rest)
  }

  predicate AllDigits(s: string) { forall i :: 0 <= i < |s| ==> IsDigit(s[i]) }

  function Value(s: string): nat
    requires AllDigits(s)
  {
    if s == "" then 0
    else
      assert IsDigit(s[|s| - 1]);
      Value(s[..|s| - 1]) * 10 + (s[|s| - 1] as int - '0' as int)
  }

  /** The numbers of a text, if it has this shape. */
  function Parsed(s: string, shape: Numbers): Option<Numbers>
    decreases shape
  {
    match shape
    case End => if s == "" then Some(End) else None
    case Number(_, w, sep, rest) =>
      if |s| <= w || s[w] != sep || !AllDigits(s[..w]) then None
      else
        match Parsed(s[w + 1..], rest)
        case None => None
        case Some(v) => Some(Number(Value(s[..w]), w, sep, v))
  }

  predicate SameShape(v: Numbers, shape: Numbers) {
    match (v, shape)
    case (End, End) => true
    case (Number(_, w1, c1, r1), Number(_, w2, c2, r2)) => w1 == w2 && c1 == c2 && SameShape(r1, r2)
    case _ => false
  }

  predicate Fits(v: Numbers) {
    match v case End => true case Number(n, w, _, rest) => n < Pow10(w) && Fits(rest)
  }

  /** Three digits of fraction count thousandths of a second. */
  function FromDbIso(s: string): Option<Utc> {
    match Parsed(s, SHAPE)
    case Some(Number(y, _, _, Number(mo, _, _, Number(d, _, _,
         Number(h, _, _, Number(mi, _, _, Number(sec, _, _, Number(ms, _, _, End)))))))) =>
      var t := Utc(y, mo, d, h, mi, sec, ms * 1000);
      if Valid(t) then Some(t) else None
    case _ => None
  }

  lemma CutOne(s: string, c: char, k: nat)
    requires k <= |s|
    ensures (s + [c])[..k] == s[..k]
  {
  }

  lemma PadCut(n: nat)
    ensures Pad(n, 6)[..3] == Pad(n / 1000, 3)
  {
    var a, b, c := Pad(n / 1000, 3), Pad(n / 100, 4), Pad(n / 10, 5);
    assert n / 10 / 10 == n / 100 && n / 100 / 10 == n / 1000;
    assert Pad(n, 6) == c + [Digit(n % 10)];
    assert c == b + [Digit(n / 10 % 10)];
    assert b == a + [Digit(n / 100 % 10)];
    hide Pad;
    CutOne(c, Digit(n % 10), 3);
    CutOne(b, Digit(n / 10 % 10), 3);
    CutOne(a, Digit(n / 100 % 10), 3);
  }

  lemma TimeWritten(t: Utc)
    ensures Written(TimeValues(t))
            == Pad(t.hour, 2) + ":" + Pad(t.minute, 2) + ":" + Pad(t.second, 2) + "." + Pad(t.micro / 1000, 3) + "Z"
  {
    var ms := Number(t.micro / 1000, 3, 'Z', End);
    var sec := Number(t.second, 2, '.', ms);
    var min := Number(t.minute, 2, ':', sec);
    hide Pad;
    assert Written(ms) == Pad(t.micro / 1000, 3) + "Z";
    assert Written(sec) == Pad(t.second, 2) + "." + Written(ms);
    assert Written(min) == Pad(t.minute, 2) + ":" + Written(sec);
  }

  /** The text is seven zero-padded numbers with their separators, the last one milliseconds. */
  lemma IsoIsWritten(t: Utc)
    ensures ToDbIso(Aware(t)) == Some(Written(Values(t)))
    ensures |Written(Values(t))| == 24
  {
    PadCut(t.micro);
    TimeWritten(t);
    hide Pad, TimeValues;
    var day := Number(t.day, 2, 'T', TimeValues(t));
    var month := Number(t.month, 2, '-', day);
    assert Written(day) == Pad(t.day, 2) + "T" + Written(TimeValues(t));
    assert Written(month) == Pad(t.month, 2) + "-" + Written(day);
    assert Written(Values(t)) == Pad(t.year, 4) + "-" + Written(month);
    var before := Pad(t.year, 4) + "-" + Pad(t.month, 2) + "-" + Pad(t.day, 2) + "T"
      + Pad(t.hour, 2) + ":" + Pad(t.minute, 2) + ":" + Pad(t.second, 2) + ".";
    var s := Strftime(t);
    assert s == before + Pad(t.micro, 6);
    assert s[..|s| - 3] == before + Pad(t.micro, 6)[..3];
    assert Written(Values(t)) == before + Pad(t.micro / 1000, 3) + "Z";
  }

  // --------------------------------------------------------------------------
  // Round trips.

  lemma {:induction false} ValueOfPad(n: nat, w: nat)
    requires n < Pow10(w)
    ensures Value(Pad(n, w)) == n
  {
    if w > 0 {
      ValueOfPad(n / 10, w - 1);
      var p := Pad(n, w);
      assert p[..|p| - 1] == Pad(n / 10, w - 1);
    }
  }

  lemma {:induction false} PadOfValue(s: string)
    requires AllDigits(s)
    ensures Value(s) < Pow10(|s|) && Pad(Value(s), |s|) == s
  {
    if s != "" {
      PadOfValue(s[..|s| - 1]);
      assert IsDigit(s[|s| - 1]);
      assert s == s[..|s| - 1] + [s[|s| - 1]];
    }
  }

  /** Reading what was written gives the numbers back. */
  lemma {:induction false} ParsedWritten(v: Numbers, shape: Numbers)
    requires Fits(v) && SameShape(v, shape)
    ensures Parsed(Written(v), shape) == Some(v)
  {
    match v
    case End =>
    case Number(n, w, sep, rest) =>
      var s := Written(v);
      assert s[..w] == Pad(n, w) && s[w] == sep && s[w + 1..] == Written(rest);
      ValueOfPad(n, w);
      ParsedWritten(rest, shape.rest);
  }

  /** Writing what was read gives the text back. */
  lemma {:induction false} WrittenParsed(s: string, shape: Numbers)
    requires Parsed(s, shape).Some?
    ensures var v := Parsed(s, shape).value; Fits(v) && SameShape(v, shape) && Written(v) == s
    decreases shape
  {
    match shape
    case End =>
    case Number(_, w, sep, rest) =>
      WrittenParsed(s[w + 1..], rest);
      PadOfValue(s[..w]);
      assert s == s[..w] + [s[w]] + s[w + 1..];
  }

  lemma AlikeInShape(a: Utc, b: Utc)
    ensures SameShape(Values(a), Values(b))
  {
    var u, v := TimeValues(a), TimeValues(b);
    assert SameShape(u.rest.rest.rest, v.rest.rest.rest);
    assert SameShape(u.rest, v.rest);
    hide TimeValues;
    assert SameShape(Values(a).rest.rest, Values(b).rest.rest);
  }

  function ToMillisecond(t: Utc): Utc { t.(micro := t.micro / 1000 * 1000) }

  lemma ValuesFit(t: Utc)
    requires Valid(t)
    ensures Fits(Values(t)) && SameShape(Values(t), SHAPE)
  {
    assert Pow10(2) == 100 && Pow10(3) == 1000 && Pow10(4) == 10000;
    assert Fits(TimeValues(t).rest.rest.rest);
    assert Fits(TimeValues(t).rest);
    assert Fits(TimeValues(t));
    assert Fits(Values(t).rest.rest);
    AlikeInShape(t, Utc(0, 0, 0, 0, 0, 0, 0));
  }

  /**
   A stored instant is 24 characters, reads back as itself cut to the millisecond, and is written
   again as the very same text: what was hashed before the database is hashed alike after it.
   */
  lemma StoredInstantRoundTrips(t: Utc)
    requires Valid(t)
    ensures var s := ToDbIso(Aware(t)).value;
            && |s| == 24
            && FromDbIso(s) == Some(ToMillisecond(t))
            && ToDbIso(Aware(ToMillisecond(t))) == Some(s)
  {
    IsoIsWritten(t);
    ValuesFit(t);
    ParsedWritten(Values(t), SHAPE);
    IsoIsWritten(ToMillisecond(t));
    assert Values(ToMillisecond(t)) == Values(t);
    hide Written, Parsed, Strftime, Fits, SameShape;
  }

  /** Every text that reads as an instant is that instant's own text: the form is canonical. */
  lemma StorageTextIsCanonical(s: string)
    requires FromDbIso(s).Some?
    ensures ToDbIso(Aware(FromDbIso(s).value)) == Some(s) && |s| == 24
  {
    WrittenParsed(s, SHAPE);
    var v, t := Parsed(s, SHAPE).value, FromDbIso(s).value;
    assert SameShape(v.rest, SHAPE.rest);
    assert SameShape(v.rest.rest, SHAPE.rest.rest);
    assert SameShape(v.rest.rest.rest, SHAPE.rest.rest.rest);
    assert SameShape(v.rest.rest.rest.rest, SHAPE.rest.rest.rest.rest);
    assert SameShape(v.rest.rest.rest.rest.rest, SHAPE.rest.rest.rest.rest.rest);
    assert SameShape(v.rest.rest.rest.rest.rest.rest, SHAPE.rest.rest.rest.rest.rest.rest);
    assert v == Values(t);
    IsoIsWritten(t);
    hide Written, Parsed, Strftime, Values, Fits, SameShape;
  }

  // --------------------------------------------------------------------------
  // Order.

  /** How the database compares text. */
  predicate TextBefore(a: string, b: string) {
    if b == "" then false
    else if a == "" then true
    else a[0] < b[0] || (a[0] == b[0] && TextBefore(a[1..], b[1..]))
  }

  predicate Before(a: Numbers, b: Numbers) {
    a.Number? && b.Number? && (a.n < b.n || (a.n == b.n && Before(a.rest, b.rest)))
  }

  lemma {:induction false} TextBeforeConcat(a: string, b: string, x: string, y: string)
    requires |a| == |b|
    ensures TextBefore(a + x, b + y) <==> TextBefore(a, b) || (a == b && TextBefore(x, y))
  {
    if a == "" {
      assert a + x == x && b + y == y;
    } else {
      TextBeforeConcat(a[1..], b[1..], x, y);
      assert (a + x)[1..] == a[1..] + x && (b + y)[1..] == b[1..] + y;
      assert a == [a[0]] + a[1..] && b == [b[0]] + b[1..];
    }
  }

  lemma {:induction false} PadOrder(m: nat, n: nat, w: nat)
    requires m < Pow10(w) && n < Pow10(w)
    ensures TextBefore(Pad(m, w), Pad(n, w)) <==> m < n
  {
    if w > 0 {
      PadOrder(m / 10, n / 10, w - 1);
      ValueOfPad(m / 10, w - 1);
      ValueOfPad(n / 10, w - 1);
      TextBeforeConcat(Pad(m / 10, w - 1), Pad(n / 10, w - 1), [Digit(m % 10)], [Digit(n % 10)]);
    }
  }

  lemma {:induction false} WrittenOrder(a: Numbers, b: Numbers)
    requires Fits(a) && Fits(b) && SameShape(a, b)
    ensures TextBefore(Written(a), Written(b)) <==> Before(a, b)
  {
    if a.Number? {
      var w, sep := a.width, [a.sep];
      WrittenOrder(a.rest, b.rest);
      PadOrder(a.n, b.n, w);
      TextBeforeConcat(Pad(a.n, w) + sep, Pad(b.n, w) + sep, Written(a.rest), Written(b.rest));
      TextBeforeConcat(Pad(a.n, w), Pad(b.n, w), sep, sep);
      ValueOfPad(a.n, w);
      ValueOfPad(b.n, w);
      assert (Pad(a.n, w) + sep)[..w] == Pad(a.n, w) && (Pad(b.n, w) + sep)[..w] == Pad(b.n, w);
    }
  }

  /** Days from the first of January of year 1. */
  function DaysBeforeYear(y: int): int { (y - 1) * 365 + (y - 1) / 4 - (y - 1) / 100 + (y - 1) / 400 }

  function DaysBeforeMonth(y: int, m: int): int
    decreases m
  {
    if m <= 1 then 0 else DaysBeforeMonth(y, m - 1) + DaysIn(y, m - 1)
  }

  function Ordinal(y: int, m: int, d: int): int { DaysBeforeYear(y) + DaysBeforeMonth(y, m) + d }

  function Seconds(t: Utc): int {
    ((Ordinal(t.year, t.month, t.day) * 24 + t.hour) * 60 + t.minute) * 60 + t.second
  }

  /** Microseconds since the day before the first instant of year 1. */
  function Ticks(t: Utc): int { Seconds(t) * 1000000 + t.micro }

  lemma Milliseconds(t: Utc)
    ensures Ticks(t) / 1000 == Seconds(t) * 1000 + t.micro / 1000
  {
  }

  lemma {:induction false} MonthsGrow(y: int, m: int, n: int)
    requires 1 <= m <= n
    ensures DaysBeforeMonth(y, m) <= DaysBeforeMonth(y, n)
    ensures m < n ==> DaysBeforeMonth(y, m) + DaysIn(y, m) <= DaysBeforeMonth(y, n)
    decreases n
  {
    if m < n {
      MonthsGrow(y, m, n - 1);
    }
  }

  lemma YearsGrow(x: int, y: int)
    requires x <= y
    ensures DaysBeforeYear(x) <= DaysBeforeYear(y)
    decreases y - x
  {
  }

  lemma YearHasItsDays(y: int)
    ensures DaysBeforeMonth(y, 13) == DaysBeforeYear(y + 1) - DaysBeforeYear(y)
  {
    LeapRule(y);
    hide DaysBeforeYear;
    var feb := DaysIn(y, 2);
    assert DaysBeforeMonth(y, 2) == 31;
    assert DaysBeforeMonth(y, 3) == 31 + feb;
    assert DaysBeforeMonth(y, 4) == 62 + feb;
    assert DaysBeforeMonth(y, 5) == 92 + feb;
    assert DaysBeforeMonth(y, 6) == 123 + feb;
    assert DaysBeforeMonth(y, 7) == 153 + feb;
    assert DaysBeforeMonth(y, 8) == 184 + feb;
    assert DaysBeforeMonth(y, 9) == 215 + feb;
    assert DaysBeforeMonth(y, 10) == 245 + feb;
    assert DaysBeforeMonth(y, 11) == 276 + feb;
    assert DaysBeforeMonth(y, 12) == 306 + feb;
    assert DaysBeforeMonth(y, 13) == 337 + feb;
  }

  lemma LeapRule(y: int)
    ensures DaysBeforeYear(y + 1) - DaysBeforeYear(y) == if Leap(y) then 366 else 365
  {
    assert y / 4 - (y - 1) / 4 == if y % 4 == 0 then 1 else 0;
    assert y / 100 - (y - 1) / 100 == if y % 100 == 0 then 1 else 0;
    assert y / 400 - (y - 1) / 400 == if y % 400 == 0 then 1 else 0;
    assert y % 400 == 0 ==> y % 100 == 0;
    assert y % 100 == 0 ==> y % 4 == 0;
  }

  lemma DatesInOrder(y1: int, m1: int, d1: int, y2: int, m2: int, d2: int)
    requires ValidDate(y1, m1, d1) && ValidDate(y2, m2, d2)
    requires y1 < y2 || (y1 == y2 && (m1 < m2 || (m1 == m2 && d1 < d2)))
    ensures Ordinal(y1, m1, d1) < Ordinal(y2, m2, d2)
  {
    if y1 < y2 {
      MonthsGrow(y1, m1, 13);
      YearHasItsDays(y1);
      YearsGrow(y1 + 1, y2);
      MonthsGrow(y2, 1, m2);
    } else {
      MonthsGrow(y1, m1, m2);
    }
  }

  lemma TimesInOrder(a: Utc, b: Utc)
    requires Valid(a) && Valid(b) && Before(TimeValues(a), TimeValues(b))
    requires a.year == b.year && a.month == b.month && a.day == b.day
    ensures Ticks(a) / 1000 < Ticks(b) / 1000
  {
    var u, v := TimeValues(a), TimeValues(b);
    assert Before(u.rest, v.rest) <==> a.minute < b.minute || (a.minute == b.minute && Before(u.rest.rest, v.rest.rest));
    assert Before(u.rest.rest, v.rest.rest) <==>
             a.second < b.second || (a.second == b.second && a.micro / 1000 < b.micro / 1000) by {
      assert !Before(u.rest.rest.rest.rest, v.rest.rest.rest.rest);
      assert Before(u.rest.rest.rest, v.rest.rest.rest) <==> a.micro / 1000 < b.micro / 1000;
    }
    Milliseconds(a);
    Milliseconds(b);
    hide Ordinal, Ticks, Before;
  }

  lemma EarlierIsSmaller(a: Utc, b: Utc)
    requires Valid(a) && Valid(b) && Before(Values(a), Values(b))
    ensures Ticks(a) / 1000 < Ticks(b) / 1000
  {
    var u, v := Values(a), Values(b);
    assert Before(u.rest, v.rest) <==> a.month < b.month || (a.month == b.month && Before(u.rest.rest, v.rest.rest));
    assert Before(u.rest.rest, v.rest.rest) <==> a.day < b.day || (a.day == b.day && Before(TimeValues(a), TimeValues(b)));
    hide TimeValues, Ordinal, Ticks;
    if a.year == b.year && a.month == b.month && a.day == b.day {
      TimesInOrder(a, b);
    } else {
      DatesInOrder(a.year, a.month, a.day, b.year, b.month, b.day);
      Milliseconds(a);
      Milliseconds(b);
    }
  }

  lemma {:induction false} BeforeIsTotal(a: Numbers, b: Numbers)
    requires SameShape(a, b)
    ensures Before(a, b) || Before(b, a) || a == b
  {
    if a.Number? {
      BeforeIsTotal(a.rest, b.rest);
    }
  }

  lemma SameValuesSameMillisecond(a: Utc, b: Utc)
    requires Values(a) == Values(b)
    ensures Ticks(a) / 1000 == Ticks(b) / 1000
  {
    hide Ordinal;
  }

  /** Sorting the stored text sorts the instants, to the millisecond. */
  lemma TextOrderIsTimeOrder(a: Utc, b: Utc)
    requires Valid(a) && Valid(b)
    ensures var s, t := ToDbIso(Aware(a)).value, ToDbIso(Aware(b)).value;
            && (TextBefore(s, t) <==> Ticks(a) / 1000 < Ticks(b) / 1000)
            && (s == t <==> Ticks(a) / 1000 == Ticks(b) / 1000)
  {
    hide Written, Parsed, Strftime, Ticks, Before, TextBefore, Valid, Values, Fits, SameShape;
    var u, v := Values(a), Values(b);
    IsoIsWritten(a);
    IsoIsWritten(b);
    ValuesFit(a);
    ValuesFit(b);
    AlikeInShape(a, b);
    AlikeInShape(b, a);
    WrittenOrder(u, v);
    WrittenOrder(v, u);
    ParsedWritten(u, SHAPE);
    ParsedWritten(v, SHAPE);
    BeforeIsTotal(u, v);
    if Before(u, v) {
      EarlierIsSmaller(a, b);
      NotBeforeItself(Written(u));
    } else if Before(v, u) {
      EarlierIsSmaller(b, a);
      NotBeforeItself(Written(u));
    } else {
      SameValuesSameMillisecond(a, b);
    }
  }

  lemma {:induction false} NotBeforeItself(s: string)
    ensures !TextBefore(s, s)
  {
    if s != "" {
      NotBeforeItself(s[1..]);
    }
  }
}
