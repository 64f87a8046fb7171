/** Wilson intervals on exact reals, and the index of rails that ranks by them. */
module RailHealth {
  import opened Text

  const Z_95 := 1.96
  const MIN_SAMPLE := 8

  /** A square root, exact; floating-point error is not part of this model. */
  ghost predicate SquareRoot(root: real -> real) {
    forall x: real :: x >= 0.0 ==> root(x) >= 0.0 && root(x) * root(x) == x
  }

  datatype Interval = Interval(low: real, high: real)

  function Max(a: real, b: real): real { if a < b then b else a }

  function Min(a: real, b: real): real { if b < a then b else a }

  function Denominator(n: real, z: real): real
    requires n > 0.0
  {
    1.0 + z * z / n
  }

  function Centre(p: real, n: real, z: real): real
    requires n > 0.0
  {
    p + z * z / (2.0 * n)
  }

  function Margin(p: real, n: real, z: real, root: real -> real): real
    requires n > 0.0
  {
    z * root(p * (1.0 - p) / n + z * z / (4.0 * n * n))
  }

  /** The two ends before they are clamped into [0, 1]. */
  function RawBounds(successes: int, trials: int, z: real, root: real -> real): Interval
    requires trials > 0
  {
    var n := trials as real;
    var p := successes as real / n;
    var denom := Denominator(n, z);
    if denom == 0.0 then Interval(0.0, 1.0)
    else Interval((Centre(p, n, z) - Margin(p, n, z, root)) / denom, (Centre(p, n, z) + Margin(p, n, z, root)) / denom)
  }

  /** Complete uncertainty without trials; a count out of range is an error. */
  function WilsonBounds(successes: int, trials: int, z: real, root: real -> real): Option<Interval> {
    if trials <= 0 then Some(Interval(0.0, 1.0))
    else if successes < 0 || successes > trials then None
    else var raw := RawBounds(successes, trials, z, root); Some(Interval(Max(0.0, raw.low), Min(1.0, raw.high)))
  }

  lemma Product(x: real, y: real)
    requires x >= 0.0 && y >= 0.0
    ensures x * y >= 0.0
  {
  }

  lemma StrictProduct(x: real, y: real)
    requires x > 0.0 && y > 0.0
    ensures x * y > 0.0
  {
  }

  lemma SquaresInOrder(x: real, y: real)
    requires y >= 0.0 && x * x <= y * y
    ensures x <= y
  {
    assert (x - y) * (x + y) == x * x - y * y;
    if x > y {
      StrictProduct(x - y, x + y);
    }
  }

  /** With a = z*z/n: the margin is no more than the centre. */
  lemma MarginBelowCentre(a: real, p: real, m: real)
    requires a >= 0.0 && 0.0 <= p <= 1.0
    requires m * m == a * (p * (1.0 - p)) + a * a / 4.0
    ensures m <= p + a / 2.0
  {
    var square := p * p;
    Product(p, p);
    Product(a, square);
    assert p * (1.0 - p) == p - square;
    assert a * (p - square) == a * p - a * square;
    assert (p + a / 2.0) * (p + a / 2.0) == square + a * p + a * a / 4.0;
    SquaresInOrder(m, p + a / 2.0);
  }

  /** The margin covers the pull of the centre toward one half. */
  lemma MarginCoversThePull(a: real, p: real, m: real)
    requires a >= 0.0 && 0.0 <= p <= 1.0 && m >= 0.0
    requires m * m == a * (p * (1.0 - p)) + a * a / 4.0
    ensures a / 2.0 - p * a <= m && p * a - a / 2.0 <= m
  {
    var pq, pull := p * (1.0 - p), 0.5 - p;
    Product(p, 1.0 - p);
    Product(a, pq);
    Product(a, a);
    Product(a * a, pq);
    assert pull * pull == 0.25 - pq;
    var d := a * pull;
    assert d == a / 2.0 - p * a;
    assert d * d == a * a * (pull * pull);
    assert a * a * (0.25 - pq) == a * a / 4.0 - a * a * pq;
    SquaresInOrder(d, m);
    assert (0.0 - d) * (0.0 - d) == d * d;
    SquaresInOrder(0.0 - d, m);
  }

  lemma Quotient(x: real, y: real, d: real)
    requires d > 0.0
    ensures x <= y * d ==> x / d <= y
    ensures x >= y * d ==> x / d >= y
  {
  }

  lemma QuotientSign(x: real, d: real)
    requires x >= 0.0 && d > 0.0
    ensures x / d >= 0.0
  {
  }

  lemma QuarterShare(n: real, a: real, t: real)
    requires n > 0.0 && t == a * n / (4.0 * n * n)
    ensures n * t == a / 4.0
  {
  }

  lemma HalfShare(n: real, a: real)
    requires n > 0.0
    ensures a * n / (2.0 * n) == a / 2.0
  {
  }

  /** The square of the margin in terms of a. */
  lemma MarginSquared(n: real, p: real, z: real, root: real -> real)
    requires SquareRoot(root) && n > 0.0 && z >= 0.0 && 0.0 <= p <= 1.0
    ensures var a, m := z * z / n, Margin(p, n, z, root);
            m >= 0.0 && a >= 0.0 && m * m == a * (p * (1.0 - p)) + a * a / 4.0 && z * z / (2.0 * n) == a / 2.0
  {
    var a := z * z / n;
    var t := z * z / (4.0 * n * n);
    var w := p * (1.0 - p);
    var x := w / n + t;
    Product(p, 1.0 - p);
    Product(z, z);
    QuotientSign(z * z, n);
    QuotientSign(w, n);
    assert a * n == z * z;
    QuarterShare(n, a, t);
    HalfShare(n, a);
    Positive(n, t, a);
    RootSquared(n, w, t, z, a, root);
  }

  lemma Positive(n: real, t: real, a: real)
    requires n > 0.0 && a >= 0.0 && n * t == a / 4.0
    ensures t >= 0.0
  {
  }

  lemma RootSquared(n: real, w: real, t: real, z: real, a: real, root: real -> real)
    requires SquareRoot(root) && n > 0.0 && w >= 0.0 && t >= 0.0 && z >= 0.0 && z * z == a * n && n * t == a / 4.0
    ensures var m := z * root(w / n + t); m >= 0.0 && m * m == a * w + a * a / 4.0
  {
  }

  lemma Ends(a: real, p: real, m: real)
    requires a >= 0.0 && 0.0 <= p <= 1.0 && m >= 0.0
    requires m * m == a * (p * (1.0 - p)) + a * a / 4.0
    ensures 0.0 <= (p + a / 2.0 - m) / (1.0 + a) <= p <= (p + a / 2.0 + m) / (1.0 + a) <= 1.0
  {
    MarginBelowCentre(a, p, m);
    assert (1.0 - p) * (1.0 - (1.0 - p)) == p * (1.0 - p);
    MarginBelowCentre(a, 1.0 - p, m);
    MarginCoversThePull(a, p, m);
    var denom := 1.0 + a;
    assert p * denom == p + p * a;
    Quotient(p + a / 2.0 - m, 0.0, denom);
    Quotient(p + a / 2.0 - m, p, denom);
    Quotient(p + a / 2.0 + m, p, denom);
    Quotient(p + a / 2.0 + m, 1.0, denom);
  }

  lemma RateInRange(successes: int, trials: int)
    requires 0 <= successes <= trials && trials > 0
    ensures 0.0 <= successes as real / trials as real <= 1.0
  {
  }

  lemma RawEnds(p: real, n: real, z: real, root: real -> real)
    requires SquareRoot(root) && z >= 0.0 && 0.0 <= p <= 1.0 && n > 0.0
    ensures Denominator(n, z) > 0.0
    ensures 0.0 <= (Centre(p, n, z) - Margin(p, n, z, root)) / Denominator(n, z) <= p
    ensures p <= (Centre(p, n, z) + Margin(p, n, z, root)) / Denominator(n, z) <= 1.0
  {
    MarginSquared(n, p, z, root);
    Ends(z * z / n, p, Margin(p, n, z, root));
    hide Margin, SquareRoot;
  }

  /** Before any clamping the interval lies in [0, 1] and holds the observed rate. */
  lemma WilsonHoldsTheRate(successes: int, trials: int, z: real, root: real -> real)
    requires SquareRoot(root) && z >= 0.0 && 0 <= successes <= trials && trials > 0
    ensures var raw := RawBounds(successes, trials, z, root);
            0.0 <= raw.low <= successes as real / trials as real <= raw.high <= 1.0
    ensures WilsonBounds(successes, trials, z, root) == Some(RawBounds(successes, trials, z, root))
  {
    RateInRange(successes, trials);
    RawEnds(successes as real / trials as real, trials as real, z, root);
    hide Margin, Denominator, Centre, SquareRoot;
  }

  lemma ZeroProduct(d: real, y: real)
    requires d > 0.0 && d * y == 0.0
    ensures y == 0.0
  {
  }

  lemma ScoreRoot(a: real, p: real, e: real, x: real)
    requires a >= 0.0 && x * (1.0 + a) == p + a / 2.0 + e && e * e == a * (p * (1.0 - p)) + a * a / 4.0
    ensures (p - x) * (p - x) == a * (x * (1.0 - x))
  {
    var d, h, pp, xx, ax, px := 1.0 + a, p + a / 2.0, p * p, x * x, a * x, p * x;
    var big := h + e;
    var y := pp - 2.0 * px + xx - ax + a * xx;
    assert (p - x) * (p - x) == pp - 2.0 * px + xx;
    assert a * (x * (1.0 - x)) == ax - a * xx by {
      assert x * (1.0 - x) == x - xx;
    }
    assert big * big == h * h + 2.0 * (h * e) + e * e;
    assert h * h == pp + a * p + a * a / 4.0;
    assert e * e == a * p - a * pp + a * a / 4.0 by {
      assert p * (1.0 - p) == p - pp;
    }
    assert d * xx == x * big by {
      assert d * x == big;
    }
    assert y == x * big - (2.0 * px + ax) + pp by {
      assert d * xx == xx + a * xx;
    }
    assert d * (x * big) == big * big by {
      assert d * x == big;
    }
    assert d * (2.0 * px + ax) == (2.0 * p + a) * big by {
      assert 2.0 * px + ax == (2.0 * p + a) * x;
      assert d * x == big;
    }
    assert (2.0 * p + a) * big == 2.0 * (h * big) && h * big == h * h + h * e;
    assert d * pp == pp + a * pp;
    assert d * y == 0.0;
    ZeroProduct(d, y);
  }

  lemma ScoreEnd(n: real, a: real, zz: real, p: real, e: real, d: real, top: real, x: real)
    requires n > 0.0 && a >= 0.0 && a == zz / n && d == 1.0 + a && top == p + a / 2.0 + e && x == top / d
    requires e * e == a * (p * (1.0 - p)) + a * a / 4.0
    ensures n * ((p - x) * (p - x)) == zz * (x * (1.0 - x))
  {
    Back(top, d, x);
    ScoreRoot(a, p, e, x);
    TimesN(n, a, zz, (p - x) * (p - x), x * (1.0 - x));
  }

  lemma RawEndsAre(successes: int, trials: int, z: real, root: real -> real)
    requires trials > 0 && z >= 0.0
    ensures var n := trials as real;
            var p := successes as real / n;
            var d, c, m, raw := Denominator(n, z), Centre(p, n, z), Margin(p, n, z, root), RawBounds(successes, trials, z, root);
            d > 0.0 && raw.low == (c - m) / d && raw.high == (c + m) / d
  {
    Product(z, z);
    QuotientSign(z * z, trials as real);
    hide Margin, Centre;
  }

  /**
   The ends are the two rates that lie exactly z standard errors from the observed one, which is what makes
   this the score interval: n (p - x)^2 = z^2 x (1 - x).
   */
  lemma EndsAreTheScoreInterval(successes: int, trials: int, z: real, root: real -> real)
    requires SquareRoot(root) && z >= 0.0 && 0 <= successes <= trials && trials > 0
    ensures var b, n, p := WilsonBounds(successes, trials, z, root), trials as real, successes as real / trials as real;
            && b.Some? && b.value.low <= p <= b.value.high
            && n * ((p - b.value.low) * (p - b.value.low)) == z * z * (b.value.low * (1.0 - b.value.low))
            && n * ((p - b.value.high) * (p - b.value.high)) == z * z * (b.value.high * (1.0 - b.value.high))
  {
    hide SquareRoot, Margin, WilsonBounds, RawBounds, Centre, Denominator;
    WilsonHoldsTheRate(successes, trials, z, root);
    RawScore(successes, trials, z, root);
  }

  lemma RawScore(successes: int, trials: int, z: real, root: real -> real)
    requires SquareRoot(root) && z >= 0.0 && 0 <= successes <= trials && trials > 0
    ensures var b, n, p := RawBounds(successes, trials, z, root), trials as real, successes as real / trials as real;
            && n * ((p - b.low) * (p - b.low)) == z * z * (b.low * (1.0 - b.low))
            && n * ((p - b.high) * (p - b.high)) == z * z * (b.high * (1.0 - b.high))
  {
    var n, p := trials as real, successes as real / trials as real;
    var m, d, c := Margin(p, n, z, root), Denominator(n, z), Centre(p, n, z);
    assert d == 1.0 + z * z / n && c == p + z * z / (2.0 * n);
    hide SquareRoot, Margin, RawBounds, Centre, Denominator;
    RateInRange(successes, trials);
    RawEndsAre(successes, trials, z, root);
    MarginSquared(n, p, z, root);
    var raw := RawBounds(successes, trials, z, root);
    BothEnds(n, z * z / n, z * z, p, m, d, c, raw.low, raw.high);
  }

  lemma BothEnds(n: real, a: real, zz: real, p: real, m: real, d: real, c: real, low: real, high: real)
    requires n > 0.0 && a >= 0.0 && a == zz / n && d == 1.0 + a && c == p + a / 2.0
    requires low == (c - m) / d && high == (c + m) / d && m * m == a * (p * (1.0 - p)) + a * a / 4.0
    ensures n * ((p - low) * (p - low)) == zz * (low * (1.0 - low))
    ensures n * ((p - high) * (p - high)) == zz * (high * (1.0 - high))
  {
    Negated(m);
    ScoreEnd(n, a, zz, p, m, d, c + m, high);
    ScoreEnd(n, a, zz, p, 0.0 - m, d, c - m, low);
  }

  /** A count out of range has no interval; no trials leave every rate open. */
  lemma OutOfRangeIsRefused(successes: int, trials: int, z: real, root: real -> real)
    ensures trials > 0 && (successes < 0 || successes > trials) ==> WilsonBounds(successes, trials, z, root).None?
    ensures trials <= 0 ==> WilsonBounds(successes, trials, z, root) == Some(Interval(0.0, 1.0))
  {
  }

  lemma Negated(m: real)
    ensures (0.0 - m) * (0.0 - m) == m * m
  {
  }

  lemma Back(x: real, d: real, q: real)
    requires d > 0.0 && q == x / d
    ensures q * d == x
  {
  }

  lemma TimesN(n: real, a: real, zz: real, left: real, right: real)
    requires n > 0.0 && a == zz / n && left == a * right
    ensures n * left == zz * right
  {
    assert n * a == zz;
    assert n * left == (n * a) * right;
  }

  // --------------------------------------------------------------------------
  // The index.

  datatype RailKey = RailKey(method_: string, issuer: Option<string>)

  datatype Record = Record(method_: Option<string>, issuer: Option<string>, succeeded: bool, attemptedAt: int)

  datatype Stats = Stats(key: RailKey, attempts: int, successes: int)

  function RawRate(s: Stats): real { if s.attempts == 0 then 0.0 else s.successes as real / s.attempts as real }

  /** `stats` is in the order rails were first seen. */
  datatype Index = Index(stats: seq<Stats>, attempts: int, successes: int)

  function KeyOf(r: Record): RailKey
    requires r.method_.Some?
  {
    RailKey(r.method_.value, if r.issuer.Some? && r.issuer.value != "" then r.issuer else None)
  }

  /** A record counts when it reached a rail, inside the window and not in the future. */
  predicate Counts(r: Record, cutoff: int, now: int) {
    r.method_.Some? && cutoff <= r.attemptedAt <= now
  }

  /** An empty issuer is none; any other is kept. */
  lemma RailOfARecord(r: Record)
    requires r.method_.Some?
    ensures KeyOf(r) == RailKey(r.method_.value, if r.issuer == Some("") then None else r.issuer)
  {
  }

  function AttemptsOf(records: seq<Record>, cutoff: int, now: int, key: RailKey): nat {
    if records == [] then 0
    else
      var last := records[|records| - 1];
      AttemptsOf(records[..|records| - 1], cutoff, now, key)
      + if Counts(last, cutoff, now) && KeyOf(last) == key then 1 else 0
  }

  function WinsOf(records: seq<Record>, cutoff: int, now: int, key: RailKey): nat {
    if records == [] then 0
    else
      var last := records[|records| - 1];
      WinsOf(records[..|records| - 1], cutoff, now, key)
      + if Counts(last, cutoff, now) && KeyOf(last) == key && last.succeeded then 1 else 0
  }

  /** One record counts once, for its own rail, if it reached one within the window, both ends included. */
  lemma OneRecordCounts(r: Record, now: int, window: int, key: RailKey)
    ensures var mine := && r.method_.Some? && key.method_ == r.method_.value && key.issuer == (if r.issuer == Some("") then None else r.issuer)
                        && r.attemptedAt <= now && now - r.attemptedAt <= window;
            && AttemptsOf([r], now - window, now, key) == (if mine then 1 else 0)
            && WinsOf([r], now - window, now, key) == if mine && r.succeeded then 1 else 0
  {
    assert [r][..0] == [];
    assert AttemptsOf([], now - window, now, key) == 0 && WinsOf([], now - window, now, key) == 0;
  }

  function TotalAttempts(stats: seq<Stats>): int {
    if stats == [] then 0 else TotalAttempts(stats[..|stats| - 1]) + stats[|stats| - 1].attempts
  }

  function TotalSuccesses(stats: seq<Stats>): int {
    if stats == [] then 0 else TotalSuccesses(stats[..|stats| - 1]) + stats[|stats| - 1].successes
  }

  function Place(stats: seq<Stats>, key: RailKey): (i: nat)
    ensures i <= |stats|
    ensures i < |stats| ==> stats[i].key == key
    ensures forall j :: 0 <= j < i ==> stats[j].key != key
  {
    if stats == [] then 0 else if stats[0].key == key then 0 else 1 + Place(stats[1..], key)
  }

  predicate WellCounted(s: Stats) { 0 <= s.successes <= s.attempts && s.attempts > 0 }

  predicate Sound(ix: Index) {
    && (forall i :: 0 <= i < |ix.stats| ==> WellCounted(ix.stats[i]))
    && (forall i, j :: 0 <= i < j < |ix.stats| ==> ix.stats[i].key != ix.stats[j].key)
    && ix.attempts == TotalAttempts(ix.stats) && ix.successes == TotalSuccesses(ix.stats)
  }

  function Bumped(s: Stats, won: bool): Stats {
    s.(attempts := s.attempts + 1, successes := s.successes + if won then 1 else 0)
  }

  lemma {:induction false} BumpTotals(stats: seq<Stats>, i: nat, won: bool)
    requires i < |stats|
    ensures TotalAttempts(stats[i := Bumped(stats[i], won)]) == TotalAttempts(stats) + 1
    ensures TotalSuccesses(stats[i := Bumped(stats[i], won)]) == TotalSuccesses(stats) + if won then 1 else 0
  {
    var n := |stats| - 1;
    var bumped := stats[i := Bumped(stats[i], won)];
    if i < n {
      BumpTotals(stats[..n], i, won);
      assert bumped[..n] == stats[..n][i := Bumped(stats[..n][i], won)];
    } else {
      assert bumped[..n] == stats[..n];
    }
  }

  predicate FaithfulAt(ix: Index, records: seq<Record>, cutoff: int, now: int, key: RailKey) {
    var i := Place(ix.stats, key);
    && AttemptsOf(records, cutoff, now, key) == (if i < |ix.stats| then ix.stats[i].attempts else 0)
    && WinsOf(records, cutoff, now, key) == (if i < |ix.stats| then ix.stats[i].successes else 0)
  }

  /** Each rail's counts are those of its own records in the window; a rail without records is absent. */
  ghost predicate Faithful(ix: Index, records: seq<Record>, cutoff: int, now: int) {
    forall key :: FaithfulAt(ix, records, cutoff, now, key)
  }

  lemma PlaceIs(stats: seq<Stats>, key: RailKey, i: nat)
    requires i <= |stats| && (i < |stats| ==> stats[i].key == key) && forall j :: 0 <= j < i ==> stats[j].key != key
    ensures Place(stats, key) == i
  {
  }

  /** One more record, counted or not. */
  function Recorded(ix: Index, r: Record, cutoff: int, now: int): Index {
    if !Counts(r, cutoff, now) then ix
    else
      var i, won := Place(ix.stats, KeyOf(r)), if r.succeeded then 1 else 0;
      Index(if i < |ix.stats| then ix.stats[i := Bumped(ix.stats[i], r.succeeded)] else ix.stats + [Stats(KeyOf(r), 1, won)],
            ix.attempts + 1, ix.successes + won)
  }

  lemma AppendTotals(stats: seq<Stats>, s: Stats)
    ensures TotalAttempts(stats + [s]) == TotalAttempts(stats) + s.attempts
    ensures TotalSuccesses(stats + [s]) == TotalSuccesses(stats) + s.successes
  {
  }

  lemma RecordedTotals(ix: Index, r: Record, cutoff: int, now: int)
    requires ix.attempts == TotalAttempts(ix.stats) && ix.successes == TotalSuccesses(ix.stats)
    ensures var jx := Recorded(ix, r, cutoff, now);
            jx.attempts == TotalAttempts(jx.stats) && jx.successes == TotalSuccesses(jx.stats)
  {
    hide TotalAttempts, TotalSuccesses, Place;
    if Counts(r, cutoff, now) {
      var at := Place(ix.stats, KeyOf(r));
      if at < |ix.stats| {
        BumpTotals(ix.stats, at, r.succeeded);
      } else {
        AppendTotals(ix.stats, Stats(KeyOf(r), 1, if r.succeeded then 1 else 0));
      }
    }
  }

  lemma RecordedSound(ix: Index, r: Record, cutoff: int, now: int)
    requires Sound(ix)
    ensures Sound(Recorded(ix, r, cutoff, now))
  {
    RecordedTotals(ix, r, cutoff, now);
    hide TotalAttempts, TotalSuccesses, Place;
    if Counts(r, cutoff, now) {
      var at := Place(ix.stats, KeyOf(r));
      var jx := Recorded(ix, r, cutoff, now);
      assert forall i :: 0 <= i < |ix.stats| ==> jx.stats[i].key == ix.stats[i].key;
      assert forall i :: 0 <= i < |ix.stats| && i != at ==> jx.stats[i] == ix.stats[i];
    }
  }

  /** Where a rail stands after one more record of `bumped`. */
  function NewPlace(ix: Index, jx: Index, bumped: RailKey, key: RailKey): nat {
    var at := Place(ix.stats, key);
    if key == bumped || at < |ix.stats| then at else |jx.stats|
  }

  lemma RecordedAt(ix: Index, records: seq<Record>, r: Record, cutoff: int, now: int, key: RailKey)
    requires FaithfulAt(ix, records, cutoff, now, key)
    ensures FaithfulAt(Recorded(ix, r, cutoff, now), records + [r], cutoff, now, key)
  {
    assert (records + [r])[..|records|] == records;
    if Counts(r, cutoff, now) {
      var jx := Recorded(ix, r, cutoff, now);
      PlaceIs(jx.stats, key, NewPlace(ix, jx, KeyOf(r), key));
    }
  }

  lemma RecordedKeeps(ix: Index, records: seq<Record>, r: Record, cutoff: int, now: int)
    requires Sound(ix) && Faithful(ix, records, cutoff, now)
    ensures Sound(Recorded(ix, r, cutoff, now)) && Faithful(Recorded(ix, r, cutoff, now), records + [r], cutoff, now)
  {
    RecordedSound(ix, r, cutoff, now);
    hide Sound, Recorded, FaithfulAt;
    forall key ensures FaithfulAt(Recorded(ix, r, cutoff, now), records + [r], cutoff, now, key) {
      RecordedAt(ix, records, r, cutoff, now, key);
    }
  }

  /** The rails in the order in which the records first reach them. */
  function RailsSeen(records: seq<Record>, cutoff: int, now: int): seq<RailKey> {
    if records == [] then []
    else
      var seen, last := RailsSeen(records[..|records| - 1], cutoff, now), records[|records| - 1];
      if Counts(last, cutoff, now) && KeyOf(last) !in seen then seen + [KeyOf(last)] else seen
  }

  function Keys(stats: seq<Stats>): (r: seq<RailKey>)
    ensures |r| == |stats| && forall i :: 0 <= i < |r| ==> r[i] == stats[i].key
  {
    seq(|stats|, i requires 0 <= i < |stats| => stats[i].key)
  }

  lemma RecordedInOrder(ix: Index, records: seq<Record>, r: Record, cutoff: int, now: int)
    requires Keys(ix.stats) == RailsSeen(records, cutoff, now)
    ensures Keys(Recorded(ix, r, cutoff, now).stats) == RailsSeen(records + [r], cutoff, now)
  {
    assert (records + [r])[..|records|] == records;
    if Counts(r, cutoff, now) {
      var at := Place(ix.stats, KeyOf(r));
      if at < |ix.stats| {
        assert Keys(ix.stats)[at] == KeyOf(r);
      } else {
        assert KeyOf(r) !in Keys(ix.stats);
      }
    }
  }

  method FromAttempts(records: seq<Record>, now: int, window: int) returns (ix: Index)
    ensures Sound(ix) && Faithful(ix, records, now - window, now)
    ensures Keys(ix.stats) == RailsSeen(records, now - window, now)
  {
    var cutoff := now - window;
    var buckets: seq<Stats> := [];
    var total, wins := 0, 0;
    for i := 0 to |records|
      invariant Sound(Index(buckets, total, wins)) && Faithful(Index(buckets, total, wins), records[..i], cutoff, now)
      invariant Keys(buckets) == RailsSeen(records[..i], cutoff, now)
    {
      hide Sound, Faithful, RailsSeen;
      var r := records[i];
      RecordedInOrder(Index(buckets, total, wins), records[..i], r, cutoff, now);
      RecordedKeeps(Index(buckets, total, wins), records[..i], r, cutoff, now);
      assert records[..i + 1] == records[..i] + [r];
      ghost var before, next := buckets, Recorded(Index(buckets, total, wins), r, cutoff, now);
      if r.method_.None? || r.attemptedAt < cutoff || r.attemptedAt > now {
        continue;
      }
      var at := Place(buckets, KeyOf(r));
      if at == |buckets| {
        buckets := buckets + [Stats(KeyOf(r), 0, 0)];
      }
      buckets := buckets[at := Bumped(buckets[at], r.succeeded)];
      total := total + 1;
      if r.succeeded {
        wins := wins + 1;
      }
      assert at == |before| ==> buckets == before + [Stats(KeyOf(r), 1, if r.succeeded then 1 else 0)];
      assert Index(buckets, total, wins) == next;
    }
    assert records[..|records|] == records;
    ix := Index(buckets, total, wins);
  }
}
