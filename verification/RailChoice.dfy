/** Queries of the rail index: a rail's own evidence, who is degraded, and where a retry may go. */
module RailChoice {
  import opened Text
  import opened RailHealth

  function Low(s: Stats, root: real -> real): real {
    var b := WilsonBounds(s.successes, s.attempts, Z_95, root);
    if b.Some? then b.value.low else 0.0
  }

  function High(s: Stats, root: real -> real): real {
    var b := WilsonBounds(s.successes, s.attempts, Z_95, root);
    if b.Some? then b.value.high else 1.0
  }

  /** The overall success rate, or an even one without evidence. */
  function Baseline(ix: Index): real {
    if ix.attempts == 0 then 0.5 else ix.successes as real / ix.attempts as real
  }

  predicate Degraded(s: Stats, baseline: real, root: real -> real) {
    s.attempts >= MIN_SAMPLE && High(s, root) < baseline
  }

  /** The evidence about a whole method. */
  function Merged(stats: seq<Stats>, m: string): Stats {
    if stats == [] then Stats(RailKey(m, None), 0, 0)
    else
      var rest, last := Merged(stats[..|stats| - 1], m), stats[|stats| - 1];
      if last.key.method_ == m then rest.(attempts := rest.attempts + last.attempts, successes := rest.successes + last.successes)
      else rest
  }

  /** The exact rail, else its method as a whole, else nothing. */
  function Lookup(ix: Index, m: string, issuer: Option<string>): Option<Stats> {
    var at := Place(ix.stats, RailKey(m, issuer));
    if at < |ix.stats| then Some(ix.stats[at])
    else if issuer.None? then None
    else if Merged(ix.stats, m).attempts == 0 then None
    else Some(Merged(ix.stats, m))
  }

  method Get(ix: Index, m: string, issuer: Option<string>) returns (r: Option<Stats>)
    ensures r == Lookup(ix, m, issuer)
  {
    var at := Place(ix.stats, RailKey(m, issuer));
    if at < |ix.stats| {
      return Some(ix.stats[at]);
    }
    if issuer.None? {
      return None;
    }
    var attempts, successes := 0, 0;
    for i := 0 to |ix.stats|
      invariant Stats(RailKey(m, None), attempts, successes) == Merged(ix.stats[..i], m)
    {
      assert ix.stats[..i + 1][..i] == ix.stats[..i];
      if ix.stats[i].key.method_ == m {
        attempts := attempts + ix.stats[i].attempts;
        successes := successes + ix.stats[i].successes;
      }
    }
    assert ix.stats[..|ix.stats|] == ix.stats;
    if attempts == 0 {
      return None;
    }
    return Some(Stats(RailKey(m, None), attempts, successes));
  }

  lemma {:induction false} MergedIsCounted(stats: seq<Stats>, m: string)
    requires forall i :: 0 <= i < |stats| ==> WellCounted(stats[i])
    ensures 0 <= Merged(stats, m).successes <= Merged(stats, m).attempts
  {
    if stats != [] {
      assert WellCounted(stats[|stats| - 1]);
      MergedIsCounted(stats[..|stats| - 1], m);
    }
  }

  /** Every answer is evidence: some attempts, and no more successes than attempts. */
  lemma LookupIsCounted(ix: Index, m: string, issuer: Option<string>)
    requires Sound(ix)
    ensures Lookup(ix, m, issuer).Some? ==> WellCounted(Lookup(ix, m, issuer).value)
  {
    MergedIsCounted(ix.stats, m);
  }

  /** Who answers for a rail: itself if it is in the index, else its method as a whole if that has any attempts, else nobody. */
  lemma LookupAnswers(ix: Index, m: string, issuer: Option<string>)
    ensures var r := Lookup(ix, m, issuer);
            if exists s :: s in ix.stats && s.key == RailKey(m, issuer)
            then r.Some? && r.value in ix.stats && r.value.key == RailKey(m, issuer)
            else if issuer.None? || MethodAttempts(ix.stats, m) == 0 then r.None?
            else r == Some(Stats(RailKey(m, None), MethodAttempts(ix.stats, m), MethodSuccesses(ix.stats, m)))
  {
    MergedIsTheMethod(ix.stats, m);
    var at := Place(ix.stats, RailKey(m, issuer));
    if at < |ix.stats| {
      assert ix.stats[at] in ix.stats;
    } else {
      forall s | s in ix.stats ensures s.key != RailKey(m, issuer) {
        var j :| 0 <= j < |ix.stats| && ix.stats[j] == s;
      }
    }
    hide Merged, Place;
  }

  /** A method's evidence read from the first rail on. */
  function MethodAttempts(stats: seq<Stats>, m: string): int {
    if stats == [] then 0 else (if stats[0].key.method_ == m then stats[0].attempts else 0) + MethodAttempts(stats[1..], m)
  }

  function MethodSuccesses(stats: seq<Stats>, m: string): int {
    if stats == [] then 0 else (if stats[0].key.method_ == m then stats[0].successes else 0) + MethodSuccesses(stats[1..], m)
  }

  lemma {:induction false} MethodLast(stats: seq<Stats>, s: Stats, m: string)
    ensures MethodAttempts(stats + [s], m) == MethodAttempts(stats, m) + if s.key.method_ == m then s.attempts else 0
    ensures MethodSuccesses(stats + [s], m) == MethodSuccesses(stats, m) + if s.key.method_ == m then s.successes else 0
  {
    if stats != [] {
      MethodLast(stats[1..], s, m);
      assert (stats + [s])[1..] == stats[1..] + [s];
    } else {
      assert (stats + [s])[1..] == [];
    }
  }

  lemma {:induction false} MergedIsTheMethod(stats: seq<Stats>, m: string)
    ensures Merged(stats, m) == Stats(RailKey(m, None), MethodAttempts(stats, m), MethodSuccesses(stats, m))
  {
    if stats != [] {
      var n := |stats| - 1;
      MergedIsTheMethod(stats[..n], m);
      MethodLast(stats[..n], stats[n], m);
      assert stats == stats[..n] + [stats[n]];
    }
  }

  /** An index without attempts reads as even: no rail looks broken for want of evidence. */
  lemma EmptyIndexIsNeutral(ix: Index)
    requires Sound(ix)
    ensures ix.stats == [] ==> Baseline(ix) == 0.5
    ensures ix.stats != [] ==> ix.attempts > 0 && Baseline(ix) * ix.attempts as real == ix.successes as real
  {
    if ix.stats != [] {
      var n := |ix.stats| - 1;
      assert WellCounted(ix.stats[n]);
      AttemptsCounted(ix.stats[..n]);
      BaselineIsTheAverage(ix);
    }
  }

  lemma {:induction false} AttemptsCounted(stats: seq<Stats>)
    requires forall i :: 0 <= i < |stats| ==> WellCounted(stats[i])
    ensures TotalAttempts(stats) >= 0
  {
    if stats != [] {
      assert WellCounted(stats[|stats| - 1]);
      AttemptsCounted(stats[..|stats| - 1]);
    }
  }

  /** The rate lies within the interval of the rail's evidence. */
  predicate Plausible(s: Stats, rate: real, root: real -> real) {
    Low(s, root) <= rate <= High(s, root)
  }

  /**
   A rail is called degraded exactly on the evidence of eight attempts or more, and if every rate that is
   plausible of it is below the baseline.
   */
  lemma DegradedExactlyOnEvidence(s: Stats, baseline: real, root: real -> real)
    requires SquareRoot(root) && WellCounted(s)
    ensures Degraded(s, baseline, root) <==> s.attempts >= 8 && forall rate :: Plausible(s, rate, root) ==> rate < baseline
  {
    hide Low, High, SquareRoot, RawRate;
    RateBetween(s, root);
    assert Plausible(s, High(s, root), root);
  }

  /** Without any attempt every rate is plausible. */
  lemma NothingIsKnownWithoutAttempts(s: Stats, root: real -> real)
    requires s.attempts <= 0
    ensures Low(s, root) == 0.0 && High(s, root) == 1.0
  {
  }

  /** The readings are the ends of the score interval at 1.96 standard errors. */
  lemma ReadingsAreTheScoreInterval(s: Stats, root: real -> real)
    requires SquareRoot(root) && WellCounted(s)
    ensures var n, p, x, y := s.attempts as real, s.successes as real / s.attempts as real, Low(s, root), High(s, root);
            && x <= p <= y
            && n * ((p - x) * (p - x)) == 3.8416 * (x * (1.0 - x)) && n * ((p - y) * (p - y)) == 3.8416 * (y * (1.0 - y))
  {
    hide SquareRoot, WilsonBounds, RawBounds;
    EndsAreTheScoreInterval(s.successes, s.attempts, Z_95, root);
    assert Z_95 * Z_95 == 3.8416;
  }

  /** The observed rate lies between the pessimistic and the optimistic reading. */
  lemma RateBetween(s: Stats, root: real -> real)
    requires SquareRoot(root) && WellCounted(s)
    ensures 0.0 <= Low(s, root) <= RawRate(s) <= High(s, root) <= 1.0
  {
    WilsonHoldsTheRate(s.successes, s.attempts, Z_95, root);
    hide SquareRoot, RawBounds;
  }

  /** Degraded means observed below the baseline, not merely unlucky. */
  lemma DegradedIsBelowBaseline(s: Stats, baseline: real, root: real -> real)
    requires SquareRoot(root) && WellCounted(s) && Degraded(s, baseline, root)
    ensures RawRate(s) < baseline
  {
    RateBetween(s, root);
  }

  lemma RateTimesAttempts(s: Stats, b: real)
    requires WellCounted(s) && RawRate(s) < b
    ensures s.successes as real < b * s.attempts as real
  {
  }

  lemma {:induction false} TotalsBelow(stats: seq<Stats>, b: real)
    requires stats != [] && forall i :: 0 <= i < |stats| ==> WellCounted(stats[i]) && RawRate(stats[i]) < b
    ensures TotalSuccesses(stats) as real < b * TotalAttempts(stats) as real && TotalAttempts(stats) > 0
  {
    var n := |stats| - 1;
    var last := stats[n];
    assert WellCounted(last) && RawRate(last) < b;
    RateTimesAttempts(last, b);
    hide RawRate;
    if n > 0 {
      TotalsBelow(stats[..n], b);
      assert b * TotalAttempts(stats) as real == b * TotalAttempts(stats[..n]) as real + b * last.attempts as real;
    } else {
      assert stats[..n] == [];
    }
  }

  lemma BaselineIsTheAverage(ix: Index)
    requires ix.attempts != 0
    ensures Baseline(ix) * ix.attempts as real == ix.successes as real
  {
  }

  lemma AllBelow(stats: seq<Stats>, b: real, root: real -> real)
    requires SquareRoot(root) && forall i :: 0 <= i < |stats| ==> WellCounted(stats[i]) && Degraded(stats[i], b, root)
    ensures forall i :: 0 <= i < |stats| ==> WellCounted(stats[i]) && RawRate(stats[i]) < b
  {
    forall i | 0 <= i < |stats| ensures RawRate(stats[i]) < b {
      DegradedIsBelowBaseline(stats[i], b, root);
    }
  }

  /** The baseline is the rails' own average, so in an index with any rail at least one is not degraded. */
  lemma NotEveryRailIsDegraded(ix: Index, root: real -> real)
    requires SquareRoot(root) && Sound(ix) && ix.stats != []
    ensures exists i :: 0 <= i < |ix.stats| && !Degraded(ix.stats[i], Baseline(ix), root)
  {
    hide Baseline, Degraded, SquareRoot, RawRate, WellCounted, TotalAttempts, TotalSuccesses;
    if forall i :: 0 <= i < |ix.stats| ==> Degraded(ix.stats[i], Baseline(ix), root) {
      AllBelow(ix.stats, Baseline(ix), root);
      TotalsBelow(ix.stats, Baseline(ix));
      BaselineIsTheAverage(ix);
    }
  }

  // --------------------------------------------------------------------------
  // Where to go when a rail has failed.

  predicate Candidate(s: Stats, failed: RailKey, least: int) {
    s.key != failed && s.attempts >= least && s.key.method_ != "emandate"
  }

  function Candidates(stats: seq<Stats>, failed: RailKey, least: int): seq<Stats> {
    if stats == [] then []
    else
      Candidates(stats[..|stats| - 1], failed, least)
      + if Candidate(stats[|stats| - 1], failed, least) then [stats[|stats| - 1]] else []
  }

  /** Strictly ahead in score, or level with more attempts. */
  predicate Beats(a: Stats, b: Stats, root: real -> real) {
    Low(a, root) > Low(b, root) || (Low(a, root) == Low(b, root) && a.attempts > b.attempts)
  }

  /** The first of the best. */
  function Best(candidates: seq<Stats>, root: real -> real): Stats
    requires candidates != []
  {
    var n := |candidates| - 1;
    if n == 0 then candidates[0]
    else
      var best := Best(candidates[..n], root);
      if Beats(candidates[n], best, root) then candidates[n] else best
  }

  function BestAlternative(ix: Index, m: string, issuer: Option<string>, least: int, root: real -> real): Option<Stats> {
    var candidates := Candidates(ix.stats, RailKey(m, issuer), least);
    if candidates == [] then None
    else
      var best, failed := Best(candidates, root), Lookup(ix, m, issuer);
      if failed.Some? && failed.value.attempts >= least && Low(best, root) <= High(failed.value, root) then None
      else Some(best)
  }

  lemma {:induction false} CandidatesAre(stats: seq<Stats>, failed: RailKey, least: int)
    ensures forall s :: s in Candidates(stats, failed, least) <==> s in stats && Candidate(s, failed, least)
  {
    if stats != [] {
      CandidatesAre(stats[..|stats| - 1], failed, least);
      assert stats == stats[..|stats| - 1] + [stats[|stats| - 1]];
    }
  }

  lemma {:induction false} BestIsBest(candidates: seq<Stats>, root: real -> real)
    requires candidates != []
    ensures Best(candidates, root) in candidates
    ensures forall s :: s in candidates ==> !Beats(s, Best(candidates, root), root)
  {
    hide Low;
    var n := |candidates| - 1;
    if n > 0 {
      BestIsBest(candidates[..n], root);
      assert candidates == candidates[..n] + [candidates[n]];
    }
  }

  /** Of rails level in score and attempts, the one the index saw first. */
  lemma {:induction false} TheFirstOfTheBest(candidates: seq<Stats>, root: real -> real) returns (i: nat)
    requires candidates != []
    ensures i < |candidates| && Best(candidates, root) == candidates[i]
    ensures forall j :: 0 <= j < i ==> Beats(candidates[i], candidates[j], root)
    ensures forall j :: i <= j < |candidates| ==> !Beats(candidates[j], candidates[i], root)
  {
    hide Low;
    var n := |candidates| - 1;
    i := 0;
    if n > 0 {
      i := TheFirstOfTheBest(candidates[..n], root);
      assert forall j :: 0 <= j < n ==> candidates[..n][j] == candidates[j];
      if Beats(candidates[n], candidates[i], root) {
        i := n;
      }
    }
  }

  /**
   A retry moves to another rail with evidence of its own, best among those; and when the failed rail has
   enough evidence too, only to one whose observed rate is strictly higher.
   */
  lemma SwitchIsAnImprovement(ix: Index, m: string, issuer: Option<string>, least: int, root: real -> real)
    requires SquareRoot(root) && Sound(ix)
    requires BestAlternative(ix, m, issuer, least, root).Some?
    ensures var best, failed := BestAlternative(ix, m, issuer, least, root).value, Lookup(ix, m, issuer);
            && best in ix.stats && best.key != RailKey(m, issuer) && best.attempts >= least && best.key.method_ != "emandate"
            && (forall s :: s in ix.stats && s.key != RailKey(m, issuer) && s.attempts >= least && s.key.method_ != "emandate" ==>
                 Low(s, root) < Low(best, root) || (Low(s, root) == Low(best, root) && s.attempts <= best.attempts))
            && (failed.Some? && failed.value.attempts >= least ==> High(failed.value, root) < Low(best, root))
            && (failed.Some? && failed.value.attempts >= least ==> RawRate(failed.value) < RawRate(best))
  {
    var candidates := Candidates(ix.stats, RailKey(m, issuer), least);
    CandidatesAre(ix.stats, RailKey(m, issuer), least);
    BestIsBest(candidates, root);
    LookupIsCounted(ix, m, issuer);
    var best := Best(candidates, root);
    RateBetween(best, root);
    if Lookup(ix, m, issuer).Some? {
      RateBetween(Lookup(ix, m, issuer).value, root);
    }
    hide Lookup, Low, High, RawRate, Candidates, Best, SquareRoot;
  }

  /** No switch is advised exactly when no candidate's pessimistic reading beats the failed rail's optimistic one. */
  lemma StaysExactlyWithoutABetterRail(ix: Index, m: string, issuer: Option<string>, least: int, root: real -> real)
    ensures BestAlternative(ix, m, issuer, least, root).None? <==>
              forall s :: s in ix.stats && s.key != RailKey(m, issuer) && s.attempts >= least && s.key.method_ != "emandate" ==>
                var failed := Lookup(ix, m, issuer);
                failed.Some? && failed.value.attempts >= least && Low(s, root) <= High(failed.value, root)
  {
    var candidates := Candidates(ix.stats, RailKey(m, issuer), least);
    CandidatesAre(ix.stats, RailKey(m, issuer), least);
    hide Lookup, Low, High, Candidates;
    if candidates != [] {
      BestIsBest(candidates, root);
      var best := Best(candidates, root);
      assert best in ix.stats && Candidate(best, RailKey(m, issuer), least);
    }
  }
}
