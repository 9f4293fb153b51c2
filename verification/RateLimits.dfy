/**
 The fixed-window rate limiter.

 Instants are nanoseconds since the start of year 1, the origin from which time.Truncate
 aligns windows. A counter lives under its identity and the Unix second its window starts
 at, and every increment pushes its expiry one window ahead.
 */
module RateLimits {
  import opened Numbers
  import opened Clock

  /** Seconds from the start of year 1 to the Unix epoch. */
  const UNIX_ORIGIN: int := 62135596800

  type Identity = int

  datatype Key = Key(identity: Identity, unix: int)

  datatype Counter = Counter(count: nat, expires: int)

  type Counters = map<Key, Counter>

  /** One call: when, for whom, and whether the store answers. */
  datatype Call = Call(time: nat, identity: Identity, up: bool)

  /** The limit, the window, and whether a counter still counts at its expiry instant. */
  datatype Rules = Rules(limit: int, window: int, throughExpiry: bool)

  datatype Answer = Answer(allowed: bool, remaining: int, failed: bool)

  /**
   Windows for which the limiter keeps its promises: whole seconds, or a nanosecond more
   where a counter lives through its expiry instant.
   */
  predicate Steady(r: Rules) {
    r.window >= SECOND && (r.window % SECOND == 0 || (r.window % SECOND == 1 && r.throughExpiry))
  }

  /** now.Truncate(window).Unix(); there is nothing to truncate to in a window that is not positive. */
  function StartUnix(r: Rules, now: nat): int
  {
    (if r.window <= 0 then now else now - now % r.window) / SECOND - UNIX_ORIGIN
  }

  /** EXPIRE counts whole seconds: the client library rounds down, but a positive duration to no less than one. */
  function Lifetime(r: Rules): int
  {
    if 0 < r.window < SECOND then SECOND
    else if r.window <= 0 then 0
    else r.window - r.window % SECOND
  }

  /** INCR and EXPIRE in one transaction; a lifetime of zero deletes the counter. The limiter fails open. */
  function AllowEffect(r: Rules, cs: Counters, c: Call): (Counters, Answer)
  {
    if r.limit <= 0 then (cs, Answer(false, 0, false))
    else if !c.up then (cs, Answer(true, 0, true))
    else
      var k := Key(c.identity, StartUnix(r, c.time));
      var live := k in cs && (c.time < cs[k].expires || (r.throughExpiry && c.time == cs[k].expires));
      var count := (if live then cs[k].count else 0) + 1;
      (if Lifetime(r) <= 0 then cs - {k} else cs[k := Counter(count, c.time + Lifetime(r))],
       Answer(count <= r.limit, if count < r.limit then r.limit - count else 0, false))
  }

  class RateLimiter {
    const rules: Rules
    var counters: Counters

    constructor (rules: Rules)
      ensures this.rules == rules && counters == map[]
    {
      this.rules := rules;
      counters := map[];
    }

    method Allow(c: Call) returns (a: Answer)
      modifies this
      ensures (counters, a) == AllowEffect(rules, old(counters), c)
    {
      if rules.limit <= 0 {
        return Answer(false, 0, false);
      }
      var k := Key(c.identity, StartUnix(rules, c.time));
      if !c.up {
        return Answer(true, 0, true);
      }
      var count := 1;
      if k in counters && (c.time < counters[k].expires || (rules.throughExpiry && c.time == counters[k].expires)) {
        count := counters[k].count + 1;
      }
      var lifetime := Lifetime(rules);
      if lifetime <= 0 {
        counters := counters - {k};
      } else {
        counters := counters[k := Counter(count, c.time + lifetime)];
      }
      var remaining := rules.limit - count;
      if remaining < 0 {
        remaining := 0;
      }
      a := Answer(count <= rules.limit, remaining, false);
    }
  }

  // ---- Runs ----

  function After(r: Rules, calls: seq<Call>): Counters
  {
    if calls == [] then map[]
    else
      var n := |calls| - 1;
      AllowEffect(r, After(r, calls[..n]), calls[n]).0
  }

  /** What the last of a sequence of calls was answered. */
  function LastAnswer(r: Rules, calls: seq<Call>): Answer
    requires calls != []
  {
    var n := |calls| - 1;
    AllowEffect(r, After(r, calls[..n]), calls[n]).1
  }

  /** The aligned window an instant falls into. */
  function Slot(r: Rules, time: nat): nat
    requires r.window > 0
  {
    time / r.window
  }

  predicate Counts(r: Rules, c: Call, id: Identity, slot: nat)
    requires r.window > 0
  {
    c.up && c.identity == id && Slot(r, c.time) == slot
  }

  /** Answered calls of one identity in one aligned window, and how many of them were allowed. */
  function Calls(r: Rules, calls: seq<Call>, id: Identity, slot: nat): nat
    requires r.window > 0
  {
    if calls == [] then 0
    else
      var n := |calls| - 1;
      Calls(r, calls[..n], id, slot) + (if Counts(r, calls[n], id, slot) then 1 else 0)
  }

  function Granted(r: Rules, calls: seq<Call>, id: Identity, slot: nat): nat
    requires r.window > 0
  {
    if calls == [] then 0
    else
      var n := |calls| - 1;
      Granted(r, calls[..n], id, slot)
        + (if Counts(r, calls[n], id, slot) && LastAnswer(r, calls).allowed then 1 else 0)
  }

  /** Allowed calls of one identity in the closed interval of one window length from `from`. */
  function GrantedFrom(r: Rules, calls: seq<Call>, id: Identity, from: nat): nat
  {
    if calls == [] then 0
    else
      var n := |calls| - 1;
      GrantedFrom(r, calls[..n], id, from)
        + (if calls[n].up && calls[n].identity == id && from <= calls[n].time <= from + r.window
              && LastAnswer(r, calls).allowed then 1 else 0)
  }

  // ---- Arithmetic of windows ----

  lemma SlotBounds(r: Rules, time: nat)
    requires r.window > 0
    ensures Slot(r, time) * r.window <= time < Slot(r, time) * r.window + r.window
    ensures time - time % r.window == Slot(r, time) * r.window
  {
    var w := r.window;
    assert time == (time / w) * w + time % w;
  }

  /** The second under which the calls of a window are counted. */
  function SlotUnix(r: Rules, slot: nat): int
    requires r.window > 0
  {
    (slot * r.window) / SECOND - UNIX_ORIGIN
  }

  lemma StartOfSlot(r: Rules, time: nat)
    requires r.window > 0
    ensures StartUnix(r, time) == SlotUnix(r, Slot(r, time))
  {
    SlotBounds(r, time);
  }

  /** Windows of a second or more never share one. */
  lemma SlotsAreApart(r: Rules, a: nat, b: nat)
    requires r.window >= SECOND && a < b
    ensures SlotUnix(r, a) < SlotUnix(r, b)
  {
    Gap(a, b, r.window);
  }

  lemma {:induction false} Gap(a: nat, b: nat, n: nat)
    requires a < b
    ensures a * n + n <= b * n
  {
    assert b * n == (b - 1) * n + n;
    if b > a + 1 {
      Gap(a, b - 1, n);
    }
  }

  lemma OneWindowOn(a: nat, b: nat, w: nat, from: nat, time: nat)
    requires a * w <= from < a * w + w && b * w <= time < b * w + w && from <= time <= from + w
    ensures b == a || b == a + 1
  {
    if b < a {
      Gap(b, a, w);
    } else if b > a + 1 {
      Gap(a + 1, b, w);
    }
  }

  lemma NextSlot(r: Rules, from: nat, time: nat)
    requires r.window > 0 && from <= time <= from + r.window
    ensures Slot(r, time) == Slot(r, from) || Slot(r, time) == Slot(r, from) + 1
  {
    SlotBounds(r, from);
    SlotBounds(r, time);
    OneWindowOn(Slot(r, from), Slot(r, time), r.window, from, time);
  }

  // ---- The counter ----

  /** The counter of a window holds the number of its calls and lives for the window's lifetime. */
  ghost predicate CounterOk(r: Rules, cs: Counters, calls: seq<Call>, id: Identity, slot: nat)
    requires r.window > 0
  {
    var k := Key(id, SlotUnix(r, slot));
    if Calls(r, calls, id, slot) == 0 then k !in cs
    else
      && k in cs && cs[k].count == Calls(r, calls, id, slot)
      && cs[k].expires >= slot * r.window + Lifetime(r)
  }

  lemma {:induction false} CounterNeverLapses(r: Rules, calls: seq<Call>, id: Identity, slot: nat)
    requires Steady(r) && r.limit > 0
    ensures CounterOk(r, After(r, calls), calls, id, slot)
  {
    if calls != [] {
      var n := |calls| - 1;
      var c := calls[n];
      CounterNeverLapses(r, calls[..n], id, slot);
      StartOfSlot(r, c.time);
      SlotBounds(r, c.time);
      if Slot(r, c.time) < slot {
        SlotsAreApart(r, Slot(r, c.time), slot);
      } else if Slot(r, c.time) > slot {
        SlotsAreApart(r, slot, Slot(r, c.time));
      }
    }
  }

  // ---- Results over every run ----

  function Quota(r: Rules): nat {
    if r.limit <= 0 then 0 else r.limit
  }

  /** In each aligned window an identity gets exactly as many calls as it makes, up to the limit. */
  lemma {:induction false} WindowQuota(r: Rules, calls: seq<Call>, id: Identity, slot: nat)
    requires r.window > 0 && (r.limit <= 0 || Steady(r))
    ensures Granted(r, calls, id, slot) == Min(Calls(r, calls, id, slot), Quota(r))
  {
    if calls != [] {
      var n := |calls| - 1;
      WindowQuota(r, calls[..n], id, slot);
      if r.limit > 0 && Counts(r, calls[n], id, slot) {
        CounterNeverLapses(r, calls[..n], id, slot);
        StartOfSlot(r, calls[n].time);
        SlotBounds(r, calls[n].time);
      }
    }
  }

  /**
   What a call is answered after any calls: without a positive limit nothing is allowed; a
   store that does not answer lets the call through; otherwise it is allowed within the
   limit, and what remains is the limit less the window's calls, this one included.
   */
  lemma AllowAnswers(r: Rules, calls: seq<Call>, c: Call)
    ensures var a := AllowEffect(r, After(r, calls), c).1;
            && (r.limit <= 0 ==> a == Answer(false, 0, false))
            && (r.limit > 0 && !c.up ==> a == Answer(true, 0, true))
            && (r.limit > 0 && c.up && Steady(r) ==>
                  var made := Calls(r, calls, c.identity, c.time / r.window) + 1;
                  a == Answer(made <= r.limit, if made < r.limit then r.limit - made else 0, false))
    ensures r.limit <= 0 || !c.up ==> AllowEffect(r, After(r, calls), c).0 == After(r, calls)
  {
    if r.limit > 0 && c.up && Steady(r) {
      CounterNeverLapses(r, calls, c.identity, Slot(r, c.time));
      StartOfSlot(r, c.time);
      SlotBounds(r, c.time);
    }
  }

  /** One call on any counters: which counter it reads, what it leaves, and its answer. */
  lemma AllowIsSpelled(r: Rules, cs: Counters, c: Call)
    requires r.limit > 0 && c.up
    ensures var start := if r.window <= 0 then c.time else c.time / r.window * r.window;
            var k := Key(c.identity, start / 1_000_000_000 - 62_135_596_800);
            var live := k in cs && (c.time < cs[k].expires || (r.throughExpiry && c.time == cs[k].expires));
            var count := if live then cs[k].count + 1 else 1;
            var (cs', a) := AllowEffect(r, cs, c);
            && a == Answer(count <= r.limit, if count < r.limit then r.limit - count else 0, false)
            && (r.window <= 0 ==> cs' == cs - {k})
            && (0 < r.window < 1_000_000_000 ==> cs' == cs[k := Counter(count, c.time + 1_000_000_000)])
            && (r.window >= 1_000_000_000 ==>
                  cs' == cs[k := Counter(count, c.time + r.window / 1_000_000_000 * 1_000_000_000)])
  {
    if r.window > 0 {
      SlotBounds(r, c.time);
    }
  }

  /** The second a counter is kept under is the one its window starts in, counted from 1970. */
  lemma KeyIsSpelled(r: Rules, now: nat)
    requires r.window > 0
    ensures StartUnix(r, now) == (now / r.window * r.window) / 1_000_000_000 - 62_135_596_800
  {
    SlotBounds(r, now);
  }

  lemma {:induction false} IntervalMeetsTwoWindows(r: Rules, calls: seq<Call>, id: Identity, from: nat)
    requires r.window > 0
    ensures GrantedFrom(r, calls, id, from)
         <= Granted(r, calls, id, Slot(r, from)) + Granted(r, calls, id, Slot(r, from) + 1)
  {
    if calls != [] {
      var n := |calls| - 1;
      IntervalMeetsTwoWindows(r, calls[..n], id, from);
      if from <= calls[n].time <= from + r.window {
        NextSlot(r, from, calls[n].time);
      }
    }
  }

  /** Any stretch of time one window long, however placed, contains at most twice the limit of allowed calls. */
  lemma IntervalQuota(r: Rules, calls: seq<Call>, id: Identity, from: nat)
    requires r.window > 0 && (r.limit <= 0 || Steady(r))
    ensures GrantedFrom(r, calls, id, from) <= 2 * Quota(r)
  {
    IntervalMeetsTwoWindows(r, calls, id, from);
    WindowQuota(r, calls, id, Slot(r, from));
    WindowQuota(r, calls, id, Slot(r, from) + 1);
  }

  // ---- Windows for which the promise fails ----

  lemma OneMoreCall(r: Rules, calls: seq<Call>, c: Call, id: Identity, slot: nat)
    requires r.window > 0
    ensures After(r, calls + [c]) == AllowEffect(r, After(r, calls), c).0
    ensures Calls(r, calls + [c], id, slot) == Calls(r, calls, id, slot) + (if Counts(r, c, id, slot) then 1 else 0)
    ensures Granted(r, calls + [c], id, slot)
         == Granted(r, calls, id, slot)
            + (if Counts(r, c, id, slot) && AllowEffect(r, After(r, calls), c).1.allowed then 1 else 0)
  {
    hide AllowEffect, Counts;
    assert (calls + [c])[..|calls|] == calls;
  }

  function Burst(n: nat, id: Identity, base: nat): seq<Call>
  {
    if n == 0 then [] else Burst(n - 1, id, base) + [Call(base, id, true)]
  }

  lemma OneQuotient(x: nat, d: nat, m: nat, w: nat)
    requires x == d * w + m && m < w
    ensures x / w == d && x % w == m
  {
    var d', m' := x / w, x % w;
    assert x == d' * w + m';
    if d < d' {
      Gap(d, d', w);
    } else if d' < d {
      Gap(d', d, w);
    }
  }

  /** What is stored after n calls at the base. */
  function BurstCounters(r: Rules, n: nat, id: Identity, base: nat): Counters {
    if n == 0 then map[] else map[Key(id, StartUnix(r, base)) := Counter(n, base + Lifetime(r))]
  }

  lemma NextInBurst(r: Rules, n: nat, id: Identity, base: nat)
    requires r.window > 0 && 0 < n <= r.limit
    ensures AllowEffect(r, BurstCounters(r, n - 1, id, base), Call(base, id, true)).0 == BurstCounters(r, n, id, base)
    ensures AllowEffect(r, BurstCounters(r, n - 1, id, base), Call(base, id, true)).1.allowed
  {
    hide StartUnix, Lifetime;
    LifetimeIsPositive(r);
    var k := Key(id, StartUnix(r, base));
    var counter := Counter(n, base + Lifetime(r));
    assert BurstCounters(r, n - 1, id, base)[k := counter] == map[k := counter];
  }

  lemma LifetimeIsPositive(r: Rules)
    requires r.window > 0
    ensures Lifetime(r) > 0
  {
  }

  /** Calls at the base, up to the limit, are all counted and allowed. */
  lemma {:induction false} BurstIsGranted(r: Rules, n: nat, id: Identity, base: nat)
    requires r.window > 0 && n <= r.limit
    ensures var calls, slot := Burst(n, id, base), Slot(r, base);
            && Calls(r, calls, id, slot) == n && Granted(r, calls, id, slot) == n
            && Calls(r, calls, id, slot + 1) == 0 && Granted(r, calls, id, slot + 1) == 0
            && After(r, calls) == BurstCounters(r, n, id, base)
            && forall c <- calls :: c.time == base
  {
    hide AllowEffect, BurstCounters, Slot;
    if n == 0 {
      EmptyBurst(r, id, base);
    } else {
      BurstIsGranted(r, n - 1, id, base);
      NextInBurst(r, n, id, base);
      hide Calls, Granted, After;
      OneMoreCall(r, Burst(n - 1, id, base), Call(base, id, true), id, Slot(r, base));
      OneMoreCall(r, Burst(n - 1, id, base), Call(base, id, true), id, Slot(r, base) + 1);
    }
  }

  lemma EmptyBurst(r: Rules, id: Identity, base: nat)
    ensures After(r, []) == BurstCounters(r, 0, id, base)
  {
  }

  // Where to call: a base for the burst and an instant for the last call, both soon after any given instant.

  /** An instant by its window and its place in it. */
  lemma InSlot(r: Rules, slot: nat, place: nat)
    requires 0 <= place < r.window
    ensures Slot(r, slot * r.window + place) == slot && StartUnix(r, slot * r.window + place) == SlotUnix(r, slot)
  {
    OneQuotient(slot * r.window + place, slot, place, r.window);
  }

  lemma UnevenLifetime(r: Rules)
    requires r.window > 0 && !Steady(r)
    ensures r.window < SECOND ==> Lifetime(r) == SECOND
    ensures r.window >= SECOND ==> 0 < Lifetime(r) && Lifetime(r) + (if r.throughExpiry then 1 else 0) < r.window
  {
  }

  /** The first window that begins after an instant does so within one window length. */
  lemma NextWindow(r: Rules, from: nat) returns (slot: nat)
    requires r.window > 0
    ensures from <= slot * r.window <= from + r.window
  {
    SlotBounds(r, from);
    slot := Slot(r, from) + 1;
    assert slot * r.window == Slot(r, from) * r.window + r.window;
  }

  /** How often d goes into n. */
  function Times(d: nat, n: nat): nat
    requires d > 0
  {
    n / d
  }

  lemma QuotientSteps(n: nat, d: nat)
    requires 0 < d <= n
    ensures Times(d, n - d) + 1 == Times(d, n)
  {
    var q, m := n / d, n % d;
    assert n == q * d + m;
    assert q == 0 ==> n == m;
    assert (q - 1) * d == q * d - d;
    OneQuotient(n - d, q - 1, m, d);
  }

  lemma {:induction false} QuotientGrows(a: nat, b: nat, d: nat)
    requires a <= b && d > 0
    ensures Times(d, a) <= Times(d, b)
  {
    if b / d < a / d {
      Gap(b / d, a / d, d);
    }
  }

  /** Where in its second a window begins. */
  function Place(r: Rules, slot: nat): nat
    requires r.window > 0
  {
    (slot * r.window) % SECOND
  }

  /** How often that place can fall by what a window lacks of a second. */
  function Falls(r: Rules, slot: nat): nat
    requires 0 < r.window < SECOND
  {
    Times(SECOND - r.window, Place(r, slot))
  }

  lemma NextPlace(r: Rules, slot: nat)
    requires 0 < r.window < SECOND
    ensures var lack := SECOND - r.window;
            && (Place(r, slot) < lack ==> SlotUnix(r, slot + 1) == SlotUnix(r, slot))
            && (Place(r, slot) >= lack ==> Place(r, slot + 1) == Place(r, slot) - lack)
  {
    var x, lack := slot * r.window, SECOND - r.window;
    assert (slot + 1) * r.window == x + r.window;
    if x % SECOND < lack {
      OneQuotient(x + r.window, x / SECOND, x % SECOND + r.window, SECOND);
    } else {
      OneQuotient(x + r.window, x / SECOND + 1, x % SECOND - lack, SECOND);
    }
  }

  lemma FallsLess(r: Rules, slot: nat)
    requires 0 < r.window < SECOND && Place(r, slot) >= SECOND - r.window
    ensures Falls(r, slot + 1) + 1 == Falls(r, slot)
  {
    hide Place, SlotUnix, Times;
    NextPlace(r, slot);
    QuotientSteps(Place(r, slot), SECOND - r.window);
  }

  /**
   Among windows shorter than a second two soon begin in the same one: their place in the
   second falls by what a window lacks of a second, until the next still fits.
   */
  lemma {:induction false} SharedSecond(r: Rules, slot: nat) returns (found: nat)
    requires 0 < r.window < SECOND
    ensures slot <= found <= slot + Falls(r, slot) && SlotUnix(r, found) == SlotUnix(r, found + 1)
    decreases Falls(r, slot)
  {
    hide Place, Falls, SlotUnix;
    NextPlace(r, slot);
    if Place(r, slot) < SECOND - r.window {
      found := slot;
    } else {
      FallsLess(r, slot);
      found := SharedSecond(r, slot + 1);
    }
  }

  /** How many short windows it takes at most until two begin in one second. */
  function ShortSteps(r: Rules): nat
    requires 0 < r.window < SECOND
  {
    Times(SECOND - r.window, SECOND)
  }

  lemma SoonShared(r: Rules, slot: nat) returns (found: nat)
    requires 0 < r.window < SECOND
    ensures slot <= found <= slot + ShortSteps(r) && SlotUnix(r, found) == SlotUnix(r, found + 1)
  {
    hide SlotUnix, Times;
    found := SharedSecond(r, slot);
    QuotientGrows(Place(r, slot), SECOND, SECOND - r.window);
  }

  /** How soon an unsteady window shows. */
  function Horizon(r: Rules): int
    requires r.window > 0
  {
    if r.window >= SECOND then 2 * r.window else (ShortSteps(r) + 2) * r.window
  }

  /** Two instants soon after `from`: in short windows of one second and two windows, else of one, a lifetime apart. */
  ghost predicate Telling(r: Rules, from: nat, base: nat, last: nat)
    requires r.window > 0
  {
    && from <= base <= last <= from + Horizon(r) && StartUnix(r, last) == StartUnix(r, base)
    && (r.window < SECOND ==> Slot(r, last) == Slot(r, base) + 1 && last < base + Lifetime(r))
    && (r.window >= SECOND ==>
          && Slot(r, last) == Slot(r, base)
          && (last > base + Lifetime(r) || (last == base + Lifetime(r) && !r.throughExpiry)))
  }

  lemma TellingInLong(r: Rules, from: nat) returns (base: nat, last: nat)
    requires r.window >= SECOND && !Steady(r)
    ensures Telling(r, from, base, last)
  {
    hide StartUnix, Slot, SlotUnix, Lifetime, Steady;
    UnevenLifetime(r);
    var slot := NextWindow(r, from);
    var place := Lifetime(r) + (if r.throughExpiry then 1 else 0);
    base, last := slot * r.window, slot * r.window + place;
    InSlot(r, slot, 0);
    InSlot(r, slot, place);
  }

  lemma TellingInShort(r: Rules, from: nat) returns (base: nat, last: nat)
    requires 0 < r.window < SECOND
    ensures Telling(r, from, base, last)
  {
    ShortLifetime(r);
    hide StartUnix, Slot, SlotUnix, Lifetime, ShortSteps;
    var first := NextWindow(r, from);
    var slot := SoonShared(r, first);
    ShortReach(r.window, from, first, slot, ShortSteps(r));
    InSlot(r, slot, 0);
    InSlot(r, slot + 1, 0);
    base, last := slot * r.window, slot * r.window + r.window;
  }

  lemma ShortReach(w: nat, from: nat, first: nat, slot: nat, steps: nat)
    requires from <= first * w <= from + w && first <= slot <= first + steps
    ensures from <= slot * w && (slot + 1) * w == slot * w + w <= from + (steps + 2) * w
  {
    var walked := slot - first;
    assert slot * w == first * w + walked * w;
    if walked < steps {
      Gap(walked, steps, w);
    }
    assert (steps + 2) * w == steps * w + 2 * w;
  }

  lemma ShortLifetime(r: Rules)
    requires 0 < r.window < SECOND
    ensures Lifetime(r) == SECOND
  {
  }

  predicate Between(calls: seq<Call>, from: nat, to: int) {
    forall c <- calls :: from <= c.time <= to
  }

  /**
   Whenever one starts, calls within the horizon fail: in short windows the last of them is
   refused although the first of its own, in an uneven one it is allowed above the limit.
   */
  lemma UnsteadyWindowFails(r: Rules, id: Identity, from: nat)
    requires r.window > 0 && r.limit > 0 && !Steady(r)
    ensures exists calls, slot: nat ::
              && Between(calls, from, from + Horizon(r))
              && Granted(r, calls, id, slot) != Min(Calls(r, calls, id, slot), Quota(r))
  {
    hide Calls, Granted, After, StartUnix, Slot, Lifetime, Horizon, Steady;
    LifetimeIsPositive(r);
    var base, time;
    if r.window < SECOND {
      base, time := TellingInShort(r, from);
    } else {
      base, time := TellingInLong(r, from);
    }
    var slot: nat := Slot(r, time);
    var burst, last := Burst(r.limit, id, base), Call(time, id, true);
    BurstIsGranted(r, r.limit, id, base);
    OneMoreCall(r, burst, last, id, slot);
    assert Between(burst + [last], from, from + Horizon(r));
    assert Granted(r, burst + [last], id, slot) != Min(Calls(r, burst + [last], id, slot), Quota(r));
  }

  /** The quota of every aligned window is kept, for calls soon after any instant, exactly when the window is steady. */
  lemma WindowQuotaExactlyWhen(r: Rules, id: Identity, from: nat)
    requires r.window > 0
    ensures (forall calls, slot: nat :: Between(calls, from, from + Horizon(r)) ==>
               Granted(r, calls, id, slot) == Min(Calls(r, calls, id, slot), Quota(r)))
       <==> r.limit <= 0 || Steady(r)
  {
    if r.limit <= 0 || Steady(r) {
      forall calls, slot: nat
        ensures Granted(r, calls, id, slot) == Min(Calls(r, calls, id, slot), Quota(r))
      {
        WindowQuota(r, calls, id, slot);
      }
    } else {
      UnsteadyWindowFails(r, id, from);
    }
  }
}
