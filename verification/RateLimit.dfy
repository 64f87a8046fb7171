/** Quota control: a token bucket per minute, a persisted counter per IST day. Times are seconds. */
module RateLimit {

  /** One slot granted: the monotonic reading and the IST day it was granted on. */
  datatype Grant = Grant(at: real, day: int)

  /** `log` is history: what was granted so far. */
  datatype Limiter = Limiter(rpm: int, rpd: int, tokens: real, last: real, counts: map<int, int>, log: seq<Grant>)

  datatype Reply = Granted | DailyExhausted | NoSlot

  function Rate(l: Limiter): real { l.rpm as real / 60.0 }

  function MinReal(a: real, b: real): real { if b < a then b else a }

  function Used(counts: map<int, int>, day: int): int { if day in counts then counts[day] else 0 }

  function Fresh(rpm: int, rpd: int, start: real, store: map<int, int>): Limiter {
    Limiter(rpm, rpd, rpm as real, start, store, [])
  }

  function Refilled(l: Limiter, now: real): Limiter {
    var elapsed := if now - l.last > 0.0 then now - l.last else 0.0;
    l.(last := now, tokens := MinReal(l.rpm as real, l.tokens + elapsed * Rate(l)))
  }

  function Try(l: Limiter, now: real, day: int): (Limiter, Reply) {
    if Used(l.counts, day) >= l.rpd then (l, DailyExhausted)
    else
      var m := Refilled(l, now);
      if m.tokens < 1.0 then (m, NoSlot)
      else (m.(tokens := m.tokens - 1.0, counts := m.counts[day := Used(m.counts, day) + 1], log := m.log + [Grant(now, day)]),
            Granted)
  }

  /** The reply on the facts: the day's quota first, then a whole token, of which the time since the last look has added its share. */
  lemma RepliesExactly(l: Limiter, now: real, day: int)
    ensures var (m, reply) := Try(l, now, day);
            var used := if day in l.counts then l.counts[day] else 0;
            var filled := l.tokens + (if now > l.last then (now - l.last) * (l.rpm as real / 60.0) else 0.0);
            && (reply.DailyExhausted? <==> used >= l.rpd)
            && (reply.Granted? <==> used < l.rpd && l.rpm >= 1 && filled >= 1.0)
            && (reply.DailyExhausted? ==> m == l)
            && (reply.NoSlot? ==> m.counts == l.counts && m.log == l.log && m.last == now)
            && (reply.Granted? ==>
                 && m.counts == l.counts[day := used + 1] && m.log == l.log + [Grant(now, day)] && m.last == now
                 && m.tokens == (if filled <= l.rpm as real then filled else l.rpm as real) - 1.0)
  {
  }

  lemma NotLess(x: real, y: real)
    requires x >= 0.0 && y >= 0.0
    ensures x * y >= 0.0
  {
  }

  /** A limiter starts with a full bucket: its first call is granted unless the day is spent. */
  lemma FirstCallIsGranted(rpm: int, rpd: int, start: real, store: map<int, int>, now: real, day: int)
    requires rpm >= 1 && rpd >= 1
    ensures day !in store ==> Try(Fresh(rpm, rpd, start, store), now, day).1.Granted?
    ensures day in store ==> (Try(Fresh(rpm, rpd, start, store), now, day).1.Granted? <==> store[day] < rpd)
  {
    RepliesExactly(Fresh(rpm, rpd, start, store), now, day);
    if now > start {
      NotLess(now - start, rpm as real / 60.0);
    }
    hide Try;
  }

  /** How long until one whole token; the bucket is refilled on the way. */
  function Missing(l: Limiter): real
    requires l.rpm >= 1
  {
    if l.tokens >= 1.0 then 0.0 else (1.0 - l.tokens) * (60.0 / l.rpm as real)
  }

  datatype Call = TryAcquire(now: real, day: int) | SecondsUntilSlot(now: real)

  function Apply(l: Limiter, c: Call): Limiter {
    match c
    case TryAcquire(now, day) => Try(l, now, day).0
    case SecondsUntilSlot(now) => Refilled(l, now)
  }

  function Exec(l: Limiter, calls: seq<Call>): Limiter {
    if calls == [] then l else Apply(Exec(l, calls[..|calls| - 1]), calls[|calls| - 1])
  }

  /** A monotonic clock never reads less than before. */
  predicate Monotonic(start: real, calls: seq<Call>) {
    forall i :: 0 <= i < |calls| ==> start <= calls[i].now && forall j :: i <= j < |calls| ==> calls[i].now <= calls[j].now
  }

  function GrantsOn(log: seq<Grant>, day: int): nat {
    if log == [] then 0
    else GrantsOn(log[..|log| - 1], day) + if log[|log| - 1].day == day then 1 else 0
  }

  /** Grants from the i-th on are paid for by a full bucket and the time since, less what is left. */
  predicate PaidFor(l: Limiter, i: nat)
    requires i < |l.log|
  {
    (|l.log| - i) as real <= l.rpm as real + (l.last - l.log[i].at) * Rate(l) - l.tokens
  }

  /** At most a full bucket plus the refill of the time between two grants lies between them. */
  predicate WindowBounded(rpm: int, log: seq<Grant>, i: nat, j: nat)
    requires i <= j < |log|
  {
    (j - i + 1) as real <= rpm as real + (log[j].at - log[i].at) * (rpm as real / 60.0)
  }

  ghost predicate Sane(l: Limiter, store: map<int, int>) {
    && l.rpm >= 1 && l.rpd >= 1
    && 0.0 <= l.tokens <= l.rpm as real
    && (forall i :: 0 <= i < |l.log| ==> PaidFor(l, i))
    && (forall i, j :: 0 <= i <= j < |l.log| ==> WindowBounded(l.rpm, l.log, i, j))
    && (forall d :: Used(l.counts, d) == Used(store, d) + GrantsOn(l.log, d))
    && (forall d :: GrantsOn(l.log, d) > 0 ==> Used(l.counts, d) <= l.rpd)
  }

  /** Waiting earns no more tokens than it pays for. */
  lemma RefillKeeps(l: Limiter, now: real, store: map<int, int>)
    requires Sane(l, store) && l.last <= now
    ensures Sane(Refilled(l, now), store)
  {
    var m := Refilled(l, now);
    var earned := (now - l.last) * Rate(l);
    assert earned >= 0.0;
    assert m.tokens <= l.tokens + earned && m.tokens >= 0.0;
    forall i | 0 <= i < |m.log| ensures PaidFor(m, i) {
      assert PaidFor(l, i);
      assert (now - l.log[i].at) * Rate(l) == (l.last - l.log[i].at) * Rate(l) + earned;
    }
    forall i, j | 0 <= i <= j < |m.log| ensures WindowBounded(m.rpm, m.log, i, j) {
      assert WindowBounded(l.rpm, l.log, i, j);
    }
  }

  /** The limiter after a grant. */
  function Spent(m: Limiter, day: int): Limiter {
    m.(tokens := m.tokens - 1.0, counts := m.counts[day := Used(m.counts, day) + 1], log := m.log + [Grant(m.last, day)])
  }

  lemma GrantIsPaidFor(m: Limiter, day: int, i: nat)
    requires i < |m.log| + 1 && (i < |m.log| ==> PaidFor(m, i)) && m.tokens <= m.rpm as real
    ensures PaidFor(Spent(m, day), i)
  {
    assert (m.last - m.last) * Rate(m) == 0.0;
  }

  lemma GrantInWindow(m: Limiter, day: int, i: nat, j: nat)
    requires i <= j < |m.log| + 1 && PaidFor(Spent(m, day), i) && m.tokens >= 1.0
    requires j < |m.log| ==> WindowBounded(m.rpm, m.log, i, j)
    ensures WindowBounded(m.rpm, Spent(m, day).log, i, j)
  {
  }

  lemma GrantKeeps(m: Limiter, day: int, store: map<int, int>)
    requires Sane(m, store) && m.tokens >= 1.0 && Used(m.counts, day) < m.rpd
    ensures Sane(Spent(m, day), store)
  {
    var n := Spent(m, day);
    assert n.log[..|m.log|] == m.log;
    hide PaidFor, WindowBounded;
    forall i | 0 <= i < |n.log| ensures PaidFor(n, i) {
      GrantIsPaidFor(m, day, i);
    }
    forall i, j | 0 <= i <= j < |n.log| ensures WindowBounded(n.rpm, n.log, i, j) {
      GrantInWindow(m, day, i, j);
    }
    forall d ensures GrantsOn(n.log, d) == GrantsOn(m.log, d) + if d == day then 1 else 0 {
    }
  }

  lemma CallKeeps(l: Limiter, c: Call, store: map<int, int>)
    requires Sane(l, store) && l.last <= c.now
    ensures Sane(Apply(l, c), store) && Apply(l, c).last <= c.now
    ensures Apply(l, c).rpm == l.rpm && Apply(l, c).rpd == l.rpd
  {
    RefillKeeps(l, c.now, store);
    if c.TryAcquire? && Try(l, c.now, c.day).1.Granted? {
      GrantKeeps(Refilled(l, c.now), c.day, store);
    }
    hide Sane;
  }

  lemma {:induction false} RunKeeps(rpm: int, rpd: int, start: real, store: map<int, int>, calls: seq<Call>)
    requires rpm >= 1 && rpd >= 1 && Monotonic(start, calls)
    ensures var l := Exec(Fresh(rpm, rpd, start, store), calls);
            && Sane(l, store) && l.rpm == rpm && l.rpd == rpd
            && l.last <= if calls == [] then start else calls[|calls| - 1].now
  {
    if calls != [] {
      var n := |calls| - 1;
      RunKeeps(rpm, rpd, start, store, calls[..n]);
      assert n > 0 ==> calls[..n][n - 1] == calls[n - 1];
      CallKeeps(Exec(Fresh(rpm, rpd, start, store), calls[..n]), calls[n], store);
      hide Sane, Apply;
    }
  }

  /**
   Over every run on a monotonic clock: between any two grants there are at most the bucket's size plus
   the refill of the time between them, and no IST day grants past the daily limit, whatever was stored.
   */
  lemma QuotaHolds(rpm: int, rpd: int, start: real, store: map<int, int>, calls: seq<Call>)
    requires rpm >= 1 && rpd >= 1 && Monotonic(start, calls)
    ensures var log := Exec(Fresh(rpm, rpd, start, store), calls).log;
            && (forall i, j :: 0 <= i <= j < |log| ==> WindowBounded(rpm, log, i, j))
            && (forall d :: GrantsOn(log, d) > 0 ==> Used(store, d) + GrantsOn(log, d) <= rpd)
  {
    RunKeeps(rpm, rpd, start, store, calls);
  }

  /** A refused caller who waits just as long as it is told to gets the slot, if the day has quota left. */
  lemma WaitingIsEnough(l: Limiter, now: real, day: int)
    requires l.rpm >= 1 && l.tokens >= 0.0 && Used(l.counts, day) < l.rpd && l.last <= now
    ensures var m := Refilled(l, now); Try(m, now + Missing(m), day).1.Granted?
  {
  }

  // --------------------------------------------------------------------------

  datatype Reading = Reading(mono: real, day: int)

  lemma OneMoreCall(l: Limiter, calls: seq<Call>, c: Call)
    ensures Exec(l, calls + [c]) == Apply(Exec(l, calls), c)
  {
    assert (calls + [c])[..|calls|] == calls;
  }

  function Latest(start: real, calls: seq<Call>): real {
    if calls == [] then start else calls[|calls| - 1].now
  }

  /** A clock that runs on from a reading and never goes back. */
  ghost predicate RunsOn(clock: nat -> Reading, from: real) {
    forall i: nat :: from <= clock(i).mono && forall j: nat :: i <= j ==> clock(i).mono <= clock(j).mono
  }

  /** Each call of `more` was made at the next reading of the clock. */
  predicate ReadFrom(clock: nat -> Reading, more: seq<Call>) {
    forall i :: 0 <= i < |more| ==> more[i].now == clock(i).mono
  }

  lemma StillMonotonic(start: real, calls: seq<Call>, more: seq<Call>, clock: nat -> Reading)
    requires Monotonic(start, calls) && RunsOn(clock, Latest(start, calls)) && ReadFrom(clock, more)
    ensures Monotonic(start, calls + more)
  {
    var all, n := calls + more, |calls|;
    assert start <= Latest(start, calls);
    forall i, j | 0 <= i <= j < |all| ensures start <= all[i].now <= all[j].now {
      if i < n <= j {
        assert calls[i].now <= Latest(start, calls) <= clock(j - n).mono;
      } else if n <= i {
        assert clock(i - n).mono <= clock(j - n).mono;
      }
    }
  }

  /** `calls` is every call made of it, since `start` and over the counts then stored. */
  class RateLimiter {
    const rpm: int
    const rpd: int
    var tokens: real
    var last: real
    var counts: map<int, int>
    ghost var log: seq<Grant>
    ghost var calls: seq<Call>
    ghost const start: real
    ghost const store: map<int, int>

    ghost function View(): Limiter
      reads this
    {
      Limiter(rpm, rpd, tokens, last, counts, log)
    }

    ghost predicate Valid()
      reads this
    {
      && rpm >= 1 && rpd >= 1 && 0.0 <= tokens <= rpm as real
      && View() == Exec(Fresh(rpm, rpd, start, store), calls)
    }

    constructor (rpmLimit: int, rpdLimit: int, now: real, stored: map<int, int>)
      requires rpmLimit >= 1 && rpdLimit >= 1
      ensures Valid() && View() == Fresh(rpmLimit, rpdLimit, now, stored)
      ensures calls == [] && start == now && store == stored
    {
      rpm, rpd, tokens, last, counts, log := rpmLimit, rpdLimit, rpmLimit as real, now, stored, [];
      calls, start, store := [], now, stored;
    }

    method Refill(now: real)
      requires rpm >= 1 && 0.0 <= tokens <= rpm as real
      modifies this`tokens, this`last
      ensures 0.0 <= tokens <= rpm as real && View() == Refilled(old(View()), now)
    {
      var elapsed := if now - last > 0.0 then now - last else 0.0;
      last := now;
      assert elapsed * (rpm as real / 60.0) >= 0.0;
      tokens := MinReal(rpm as real, tokens + elapsed * (rpm as real / 60.0));
    }

    method TryAcquire(r: Reading) returns (reply: Reply)
      requires Valid()
      modifies this
      ensures Valid() && calls == old(calls) + [Call.TryAcquire(r.mono, r.day)]
      ensures (View(), reply) == Try(old(View()), r.mono, r.day)
      ensures log == old(log) + if reply.Granted? then [Grant(r.mono, r.day)] else []
    {
      hide Exec, Fresh, Refilled;
      OneMoreCall(Fresh(rpm, rpd, start, store), calls, Call.TryAcquire(r.mono, r.day));
      calls := calls + [Call.TryAcquire(r.mono, r.day)];
      var used := Used(counts, r.day);
      if used >= rpd {
        return DailyExhausted;
      }
      Refill(r.mono);
      if tokens < 1.0 {
        return NoSlot;
      }
      tokens := tokens - 1.0;
      counts := counts[r.day := used + 1];
      log := log + [Grant(r.mono, r.day)];
      return Granted;
    }

    method SecondsUntilSlot(now: real) returns (seconds: real)
      requires Valid()
      modifies this`tokens, this`last, this`calls
      ensures Valid() && calls == old(calls) + [Call.SecondsUntilSlot(now)]
      ensures View() == Refilled(old(View()), now)
      ensures seconds == Missing(View()) && seconds >= 0.0
    {
      hide Exec, Fresh, Refilled;
      OneMoreCall(Fresh(rpm, rpd, start, store), calls, Call.SecondsUntilSlot(now));
      calls := calls + [Call.SecondsUntilSlot(now)];
      Refill(now);
      if tokens >= 1.0 {
        return 0.0;
      }
      assert (1.0 - tokens) * (60.0 / rpm as real) >= 0.0;
      return (1.0 - tokens) * (60.0 / rpm as real);
    }

    /**
     Sleeps between tries, `clock(k)` being the k-th reading taken; never sleeps longer than allowed in
     all, gives up for want of a slot only once the whole allowance is spent, and makes only calls read off
     the clock: on one that runs on from the last call, the history stays monotonic.
     */
    method Acquire(maxWait: real, clock: nat -> Reading) returns (reply: Reply, waited: real, ghost delays: seq<real>)
      requires Valid()
      modifies this
      ensures Valid()
      ensures 0.0 <= waited <= if maxWait > 0.0 then maxWait else 0.0
      ensures reply.NoSlot? ==> waited == if maxWait > 0.0 then maxWait else 0.0
      ensures |log| == |old(log)| + (if reply.Granted? then 1 else 0) && old(log) <= log
      ensures old(calls) <= calls && ReadFrom(clock, calls[|old(calls)|..])
      ensures waited == Sum(delays) && Slept(old(View()), calls[|old(calls)|..], delays, maxWait)
      ensures reply.DailyExhausted? ==> calls != [] && calls[|calls| - 1].TryAcquire? && Used(counts, calls[|calls| - 1].day) >= rpd
      ensures Monotonic(start, old(calls)) && RunsOn(clock, Latest(start, old(calls))) ==> Monotonic(start, calls)
    {
      hide Monotonic, RunsOn, Exec, Fresh, Refilled, Missing, Latest, RoundsLeft, Slept, Sum;
      waited, delays := 0.0, [];
      var k: nat := 0;
      ghost var before, more, v0 := calls, [], View();
      NothingSlept(v0, maxWait);
      while true
        invariant Valid() && log == old(log)
        invariant calls == before + more && |more| == k && ReadFrom(clock, more)
        invariant 0.0 <= waited <= if maxWait > 0.0 then maxWait else 0.0
        invariant View() == Exec(v0, more) && waited == Sum(delays) && |more| == 2 * |delays| && Slept(v0, more, delays, maxWait)
        decreases RoundsLeft(maxWait - waited)
      {
        ghost var asked := more;
        OneMoreCall(v0, more, Call.TryAcquire(clock(k).mono, clock(k).day));
        reply := TryAcquire(clock(k));
        more := more + [Call.TryAcquire(clock(k).mono, clock(k).day)];
        StillSlept(v0, asked, more, delays, maxWait);
        if !reply.NoSlot? {
          break;
        }
        OneMoreCall(v0, more, Call.SecondsUntilSlot(clock(k + 1).mono));
        var seconds := SecondsUntilSlot(clock(k + 1).mono);
        more := more + [Call.SecondsUntilSlot(clock(k + 1).mono)];
        StillSlept(v0, asked, more, delays, maxWait);
        var delay := MinReal(seconds + 0.05, maxWait - waited);
        if delay <= 0.0 {
          break;
        }
        FewerRounds(maxWait - waited, delay);
        SleptOnce(v0, more, delays, maxWait, delay);
        waited, delays := waited + delay, delays + [delay];
        k := k + 2;
      }
      assert calls == before + more && calls[|before|..] == more;
      if Monotonic(start, before) && RunsOn(clock, Latest(start, before)) {
        StillMonotonic(start, before, more, clock);
      }
    }
  }

  function Sum(delays: seq<real>): real {
    if delays == [] then 0.0 else Sum(delays[..|delays| - 1]) + delays[|delays| - 1]
  }

  /** After each refusal a sleep of just what the missing token takes and a twentieth of a second, or of what is left of the allowance. */
  ghost predicate Slept(l: Limiter, calls: seq<Call>, delays: seq<real>, maxWait: real) {
    l.rpm >= 1 && 2 * |delays| <= |calls| &&
    forall i :: 0 <= i < |delays| ==> delays[i] == SleepAt(l, calls, delays, maxWait, i)
  }

  ghost function SleepAt(l: Limiter, calls: seq<Call>, delays: seq<real>, maxWait: real, i: nat): real
    requires l.rpm >= 1 && i < |delays| && 2 * |delays| <= |calls|
  {
    var slot, left := SlotIn(Exec(l, calls[..2 * i + 2]), l.rpm) + 0.05, maxWait - Sum(delays[..i]);
    if left < slot then left else slot
  }

  /** Seconds until the bucket holds a whole token. */
  function SlotIn(l: Limiter, rpm: int): real
    requires rpm >= 1
  {
    if l.tokens >= 1.0 then 0.0 else (1.0 - l.tokens) * 60.0 / rpm as real
  }

  lemma NothingSlept(l: Limiter, maxWait: real)
    requires l.rpm >= 1
    ensures Sum([]) == 0.0 && Slept(l, [], [], maxWait) && Exec(l, []) == l
  {
  }

  lemma StillSlept(l: Limiter, calls: seq<Call>, more: seq<Call>, delays: seq<real>, maxWait: real)
    requires Slept(l, calls, delays, maxWait) && calls <= more
    ensures Slept(l, more, delays, maxWait)
  {
    forall i | 0 <= i < |delays| ensures delays[i] == SleepAt(l, more, delays, maxWait, i) {
      assert more[..2 * i + 2] == calls[..2 * i + 2];
      assert delays[i] == SleepAt(l, calls, delays, maxWait, i);
    }
  }

  lemma SleptOnce(l: Limiter, calls: seq<Call>, delays: seq<real>, maxWait: real, delay: real)
    requires Slept(l, calls, delays, maxWait) && |calls| == 2 * |delays| + 2
    requires Exec(l, calls).rpm == l.rpm
    requires delay == MinReal(Missing(Exec(l, calls)) + 0.05, maxWait - Sum(delays))
    ensures Slept(l, calls, delays + [delay], maxWait) && Sum(delays + [delay]) == Sum(delays) + delay
  {
    var longer := delays + [delay];
    LastSleep(l, calls, delays, maxWait, delay);
    hide SleepAt, Sum;
    forall i | 0 <= i < |delays| ensures longer[i] == SleepAt(l, calls, longer, maxWait, i) {
      assert delays[i] == SleepAt(l, calls, delays, maxWait, i);
      EarlierSleep(l, calls, delays, maxWait, delay, i);
    }
  }

  lemma EarlierSleep(l: Limiter, calls: seq<Call>, delays: seq<real>, maxWait: real, delay: real, i: nat)
    requires l.rpm >= 1 && i < |delays| && 2 * |delays| + 2 <= |calls|
    ensures SleepAt(l, calls, delays + [delay], maxWait, i) == SleepAt(l, calls, delays, maxWait, i)
  {
    assert (delays + [delay])[..i] == delays[..i];
    hide SlotIn, Exec, Sum;
  }

  lemma LastSleep(l: Limiter, calls: seq<Call>, delays: seq<real>, maxWait: real, delay: real)
    requires l.rpm >= 1 && |calls| == 2 * |delays| + 2 && Exec(l, calls).rpm == l.rpm
    requires delay == MinReal(Missing(Exec(l, calls)) + 0.05, maxWait - Sum(delays))
    ensures SleepAt(l, calls, delays + [delay], maxWait, |delays|) == delay && Sum(delays + [delay]) == Sum(delays) + delay
  {
    hide SlotIn, Exec, Missing;
    assert (delays + [delay])[..|delays|] == delays && calls[..2 * |delays| + 2] == calls;
    SameSlot(Exec(l, calls), l.rpm);
  }

  lemma SameSlot(l: Limiter, rpm: int)
    requires l.rpm == rpm >= 1
    ensures SlotIn(l, rpm) == Missing(l)
  {
  }

  /** What a limiter has granted, by whatever calls on a monotonic clock, keeps within both quotas. */
  lemma LimiterKeepsQuota(l: RateLimiter)
    requires l.Valid() && Monotonic(l.start, l.calls)
    ensures forall i, j :: 0 <= i <= j < |l.log| ==> WindowBounded(l.rpm, l.log, i, j)
    ensures forall d :: GrantsOn(l.log, d) > 0 ==> Used(l.store, d) + GrantsOn(l.log, d) <= l.rpd
  {
    QuotaHolds(l.rpm, l.rpd, l.start, l.store, l.calls);
    hide Exec, WindowBounded, GrantsOn;
    assert l.log == l.View().log;
  }

  /** How many more sleeps of a twentieth of a second fit, and one for a shorter last one. */
  function RoundsLeft(left: real): nat {
    if left <= 0.0 then 0 else (left * 20.0).Floor + 1
  }

  lemma FewerRounds(left: real, delay: real)
    requires 0.0 < delay <= left && (delay >= 0.05 || delay == left)
    ensures RoundsLeft(left - delay) < RoundsLeft(left)
  {
  }
}
