/** Bounded retries and exponential delays in 64-bit durations. */
module Backoff {
  import opened Results
  import opened Numbers
  import opened Int64
  import opened Clock

  function Pow2(n: nat): (r: nat)
    ensures r > 0
  {
    if n == 0 then 1 else 2 * Pow2(n - 1)
  }

  /** `x << n` on a 64-bit integer; from 64 places on nothing is left. */
  function Shl(x: int, n: nat): int {
    Wrap(x * Pow2(n))
  }

  lemma {:induction false} Pow2Monotone(a: nat, b: nat)
    requires a <= b
    ensures Pow2(a) <= Pow2(b)
  {
    if a < b {
      Pow2Monotone(a, b - 1);
    }
  }

  // ---- retryPolicy.Do ----

  const MAX_WAIT: int := 5 * SECOND
  const DEFAULT_BACKOFF: int := 250_000_000

  /** What a call returns: success, an error worth another attempt, or any other error. */
  datatype Reply = Success | Transient | Final

  /**
   The surroundings of one Do: the reply to each call, whether the context is already
   done when attempt n is about to start, and whether it is done before the wait that
   follows attempt n is over.
   */
  datatype Surroundings = Surroundings(reply: nat -> Reply, done: nat -> bool, interrupted: nat -> bool)

  datatype Ending = Succeeded | Gave | Cancelled

  function Backoff0(backoff: int): int {
    if backoff <= 0 then DEFAULT_BACKOFF else backoff
  }

  /** The timer set after attempt n. */
  function Wait(backoff: int, attempt: nat): int {
    Min(Shl(Backoff0(backoff), attempt), MAX_WAIT)
  }

  /** Time spent: a timer for a negative duration fires at once. */
  function Elapsed(waits: seq<int>): nat
  {
    if waits == [] then 0
    else
      var n := |waits| - 1;
      Elapsed(waits[..n]) + (if waits[n] > 0 then waits[n] else 0)
  }

  /**
   Do. It calls at most `maxRetries` + 1 times, never again after a success or an error
   that is not transient, and ends for the reason it says.
   */
  method Do(maxRetries: int, backoff: int, world: Surroundings)
    returns (ending: Ending, calls: nat, waits: seq<int>)
    ensures calls <= (if maxRetries < 0 then 0 else maxRetries) + 1
    ensures forall i :: 0 <= i < calls - 1 ==> world.reply(i) == Transient
    ensures forall i :: 0 <= i < calls ==> !world.done(i)
    ensures forall i :: 0 <= i < calls - 1 ==> !world.interrupted(i)
    ensures ending == Succeeded <==> calls > 0 && world.reply(calls - 1) == Success
    ensures ending == Gave <==>
              && calls > 0
              && (world.reply(calls - 1) == Final || (world.reply(calls - 1) == Transient && calls > maxRetries))
    ensures ending == Cancelled ==> |waits| == calls
    ensures ending != Cancelled ==> |waits| == calls - 1
    ensures ending == Cancelled <==>
              || (calls == 0 && world.done(0))
              || (&& 0 < calls <= maxRetries && world.reply(calls - 1) == Transient
                  && (world.interrupted(calls - 1) || world.done(calls)))
    ensures calls <= |waits| + 1 && (calls > 0 ==> |waits| <= calls) && (calls == 0 ==> waits == [])
    ensures forall i :: 0 <= i < |waits| ==> waits[i] == Wait(backoff, i)
    ensures |waits| <= (if maxRetries < 0 then 0 else maxRetries)
  {
    var step := backoff;
    if step <= 0 {
      step := DEFAULT_BACKOFF;
    }
    var attempt := 0;
    calls, waits := 0, [];
    while true
      invariant calls == attempt == |waits|
      invariant attempt == 0 || attempt <= maxRetries
      invariant forall i :: 0 <= i < attempt ==>
                  !world.done(i) && world.reply(i) == Transient && !world.interrupted(i) && waits[i] == Wait(backoff, i)
      decreases maxRetries - attempt
    {
      if world.done(attempt) {
        return Cancelled, calls, waits;
      }
      calls := calls + 1;
      var err := world.reply(attempt);
      if err == Success {
        return Succeeded, calls, waits;
      }
      if attempt >= maxRetries || err != Transient {
        return Gave, calls, waits;
      }
      var wait := Shl(step, attempt);
      if wait > MAX_WAIT {
        wait := MAX_WAIT;
      }
      waits := waits + [wait];
      if world.interrupted(attempt) {
        return Cancelled, calls, waits;
      }
      attempt := attempt + 1;
    }
  }

  /** However the shift wraps, the waits of a Do add up to at most five seconds per retry. */
  lemma {:induction false} WaitsAreBounded(waits: seq<int>, backoff: int)
    requires forall i :: 0 <= i < |waits| ==> waits[i] == Wait(backoff, i)
    ensures Elapsed(waits) <= |waits| * MAX_WAIT
  {
    if waits != [] {
      WaitsAreBounded(waits[..|waits| - 1], backoff);
    }
  }

  /** The wait the doubled backoff stands for, had integers no width. */
  function IdealWait(backoff: int, attempt: nat): int {
    Min(Backoff0(backoff) * Pow2(attempt), MAX_WAIT)
  }

  /** A quarter of a second unless a backoff is given, doubled, and never more than five seconds. */
  lemma IdealIsSpelled(backoff: int, attempt: nat)
    ensures backoff > 0 ==> IdealWait(backoff, attempt) == Min(backoff * Pow2(attempt), 5_000_000_000)
    ensures backoff <= 0 ==> IdealWait(backoff, attempt) == Min(250_000_000 * Pow2(attempt), 5_000_000_000)
    ensures IdealDelay(attempt) == Min(Pow2(attempt) * 1_000_000_000, 600_000_000_000)
  {
  }

  /** Bit j of x. */
  predicate Bit(x: nat, j: nat) {
    (x / Pow2(j)) % 2 == 1
  }

  /**
   A wait is the doubled backoff, capped, exactly when the product fits 64 bits or when
   what is left of it has a clear sign bit and still reaches the cap.
   */
  lemma WaitExactlyWhen(backoff: int, attempt: nat)
    ensures var b := Backoff0(backoff);
            Wait(backoff, attempt) == IdealWait(backoff, attempt) <==>
              || b * Pow2(attempt) <= MAX_INT64
              || (attempt <= 63 && !Bit(b, 63 - attempt) && (b % Pow2(63 - attempt)) * Pow2(attempt) >= MAX_WAIT)
  {
    hide Pow2, Wrap;
    var b := Backoff0(backoff);
    assert b * Pow2(attempt) > 0;
    if attempt <= 63 {
      ShiftKeepsLowBits(b, attempt);
    } else {
      ShiftToZero(b, attempt);
      assert b * Pow2(attempt) > MAX_INT64 by {
        Pow2Monotone(63, attempt);
        Pow2Values();
        Scales(Pow2(attempt), 1, b);
      }
    }
  }

  /** What a shift leaves: the low bits in place, and the bit above them as the sign. */
  lemma ShiftKeepsLowBits(x: nat, n: nat)
    requires n <= 63
    ensures var rest := (x % Pow2(63 - n)) * Pow2(n);
            && 0 <= rest < 0x8000_0000_0000_0000
            && Shl(x, n) == (if Bit(x, 63 - n) then rest - 0x8000_0000_0000_0000 else rest)
            && (x * Pow2(n) <= MAX_INT64 ==> !Bit(x, 63 - n) && rest == x * Pow2(n))
  {
    hide Pow2, Wrap;
    var p, q := Pow2(n), Pow2(63 - n);
    Pow2Add(n, 63 - n);
    Pow2Values();
    SplitProduct(p, q, x);
    WrapOfSplit(x / q, p * (x % q));
    assert p * (x % q) == (x % q) * p;
  }

  lemma ShiftToZero(x: nat, n: nat)
    requires n >= 64
    ensures Shl(x, n) == 0
  {
    hide Pow2, Wrap;
    Pow2Add(64, n - 64);
    Pow2Values();
    var k := x * Pow2(n - 64);
    assert x * Pow2(n) == 0 + k * MODULUS;
    WrapIgnoresMultiples(0, k);
  }

  /** With the default backoff the waits are right through attempt 35 and then where the sign bit is clear. */
  lemma DefaultWaits(attempt: nat)
    ensures Wait(0, attempt) == IdealWait(0, attempt) <==> attempt <= 35 || (attempt <= 56 && !SignBit(attempt - 2))
    ensures SignBit(34) && Wait(0, 36) < 0
  {
    hide Pow2, Wrap;
    Pow2Values();
    SignOf34();
    OverflowBySignBit(34);
    DefaultProduct(36);
    if attempt <= 35 {
      Pow2Monotone(attempt, 35);
      Scales(DEFAULT_BACKOFF, Pow2(attempt), Pow2(35));
    } else {
      assert IdealWait(0, attempt) == MAX_WAIT by {
        Pow2Monotone(36, attempt);
      }
      DefaultProduct(attempt);
      if attempt <= 56 {
        OverflowBySignBit(attempt - 2);
      } else {
        OverflowToZero(attempt - 2);
      }
    }
  }

  /** A quarter of a second doubled n times is a second doubled n - 2 times. */
  lemma DefaultProduct(n: nat)
    requires n >= 2
    ensures Wait(0, n) == Min(Product(n - 2), MAX_WAIT)
  {
    hide Pow2, Wrap;
    Pow2Add(n - 2, 2);
    Pow2Add(n - 2, 9);
    Pow2Values();
    assert DEFAULT_BACKOFF * Pow2(n) == Pow2(n + 7) * ODD_SECOND;
  }

  // ---- HeadSubscriber.Run ----

  /** The delay before reconnect n: doubled, then capped, each time. */
  function Delay(base: int, max: int, n: nat): int
  {
    if n == 0 then base else Min(Wrap(Delay(base, max, n - 1) * 2), max)
  }

  /** The delays before the first n reconnects. */
  function Delays(base: int, max: int, n: nat): seq<int> {
    seq(n, i requires 0 <= i < n => Delay(base, max, i))
  }

  lemma DelaySteps(base: int, max: int, n: nat)
    ensures Delay(base, max, 0) == base && Delays(base, max, 0) == []
    ensures Delay(base, max, n + 1) == Min(Wrap(Delay(base, max, n) * 2), max)
    ensures Delays(base, max, n + 1) == Delays(base, max, n) + [Delay(base, max, n)]
  {
    hide Wrap;
  }

  /** A head and the instant at which it arrived. */
  datatype Head = Head(number: nat, hash: string, arrived: int)

  /** How one session goes: dialling, the chain ID the node reports, subscribing, and the heads until it ends. */
  datatype Session = Session(dials: bool, chainID: Option<nat>, subscribes: bool, heads: seq<Head>)

  /** Whether a session gets as far as a subscription; no expected chain means no check. */
  predicate Live(expected: nat, x: Session) {
    x.dials && (expected == 0 || x.chainID == Some(expected)) && x.subscribes
  }

  /** The heads of the live sessions, in order. */
  function Delivered(expected: nat, sessions: seq<Session>): seq<Head>
  {
    if sessions == [] then []
    else
      var n := |sessions| - 1;
      Delivered(expected, sessions[..n]) + (if Live(expected, sessions[n]) then sessions[n].heads else [])
  }

  function Latest(last: Option<Head>, seen: seq<Head>): Option<Head> {
    if seen == [] then last else Some(seen[|seen| - 1])
  }

  lemma NothingYet(expected: nat, last: Option<Head>)
    ensures Latest(last, []) == last && Delivered(expected, []) == []
  {
  }

  lemma LatestAppend(last: Option<Head>, a: seq<Head>, b: seq<Head>)
    ensures Latest(Latest(last, a), b) == Latest(last, a + b)
  {
  }

  lemma DeliveredStep(expected: nat, sessions: seq<Session>, i: nat)
    requires i < |sessions|
    ensures Delivered(expected, sessions[..i + 1])
         == Delivered(expected, sessions[..i]) + (if Live(expected, sessions[i]) then sessions[i].heads else [])
  {
    assert sessions[..i + 1][..i] == sessions[..i];
  }

  datatype SubscriberError = NoURL | DialFailed | ChainUnread | WrongChain | SubscribeFailed | Ended | Stopped

  /** When the context is found cancelled: after the last wait, in the last session, or in the wait after it. */
  datatype Cancel = AtTop | InSession | InWait

  class HeadSubscriber {
    const wsURL: string
    const expectedChain: nat
    const reconnectBase: int
    const reconnectMax: int
    var connected: bool
    var last: Option<Head>

    constructor (wsURL: string, expectedChain: nat, base: int, max: int)
      ensures this.wsURL == wsURL && this.expectedChain == expectedChain
      ensures reconnectBase == (if base <= 0 then SECOND else base)
      ensures reconnectMax == (if max <= 0 then 30 * SECOND else max)
      ensures !connected && last == None
    {
      this.wsURL, this.expectedChain := wsURL, expectedChain;
      reconnectBase := if base <= 0 then SECOND else base;
      reconnectMax := if max <= 0 then 30 * SECOND else max;
      connected, last := false, None;
    }

    /** One connection: only a node on the expected chain is listened to. */
    method RunSession(x: Session) returns (err: SubscriberError, seen: seq<Head>)
      modifies this
      ensures seen == (if Live(expectedChain, x) then x.heads else [])
      ensures last == Latest(old(last), seen)
      ensures connected == (Live(expectedChain, x) || old(connected))
      ensures err == DialFailed <==> !x.dials
      ensures err == ChainUnread <==> x.dials && expectedChain != 0 && x.chainID == None
      ensures err == WrongChain <==>
                x.dials && expectedChain != 0 && x.chainID.Some? && x.chainID.value != expectedChain
      ensures err == SubscribeFailed <==>
                x.dials && (expectedChain == 0 || x.chainID == Some(expectedChain)) && !x.subscribes
      ensures err == Ended <==> x.dials && (expectedChain == 0 || x.chainID == Some(expectedChain)) && x.subscribes
      ensures err == Ended ==> seen == x.heads
    {
      seen := [];
      if !x.dials {
        return DialFailed, seen;
      }
      if expectedChain != 0 {
        if x.chainID == None {
          return ChainUnread, seen;
        }
        if x.chainID.value != expectedChain {
          return WrongChain, seen;
        }
      }
      if !x.subscribes {
        return SubscribeFailed, seen;
      }
      connected := true;
      while |seen| < |x.heads|
        invariant |seen| <= |x.heads| && seen == x.heads[..|seen|] && connected
        invariant last == Latest(old(last), seen)
      {
        var head := x.heads[|seen|];
        last := Some(head);
        seen := seen + [head];
      }
      return Ended, seen;
    }

    /**
     Run: sessions and waits until the context is cancelled. `seen` are the heads handed
     on, `delays` the timers set between sessions.
     */
    method Run(sessions: seq<Session>, cancel: Cancel)
      returns (err: SubscriberError, delays: seq<int>, seen: seq<Head>)
      requires sessions == [] ==> cancel == AtTop
      modifies this
      ensures wsURL == "" ==>
                err == NoURL && delays == [] && seen == [] && connected == old(connected) && last == old(last)
      ensures wsURL != "" ==>
                && err == Stopped && seen == Delivered(expectedChain, sessions)
                && delays == Delays(reconnectBase, reconnectMax, |sessions| - (if cancel == InSession then 1 else 0))
                && last == Latest(old(last), seen)
                && connected == (sessions == [] && old(connected))
    {
      hide Wrap, Live, Delivered, Latest, Delay, Delays;
      DelaySteps(reconnectBase, reconnectMax, 0);
      delays, seen := [], [];
      NothingYet(expectedChain, last);
      assert sessions[..0] == [];
      if wsURL == "" {
        return NoURL, delays, seen;
      }
      var backoff := reconnectBase;
      var i := 0;
      while i < |sessions|
        invariant 0 <= i <= |sessions| && (i == |sessions| ==> cancel == AtTop)
        invariant backoff == Delay(reconnectBase, reconnectMax, i) && delays == Delays(reconnectBase, reconnectMax, i)
        invariant seen == Delivered(expectedChain, sessions[..i])
        invariant last == Latest(old(last), seen)
        invariant connected == (i == 0 && old(connected))
      {
        var x := sessions[i];
        DeliveredStep(expectedChain, sessions, i);
        DelaySteps(reconnectBase, reconnectMax, i);
        var ended, heads := RunSession(x);
        LatestAppend(old(last), seen, heads);
        seen := seen + heads;
        connected := false;
        i := i + 1;
        if i == |sessions| {
          assert sessions[..i] == sessions;
          if cancel == InSession {
            return Stopped, delays, seen;
          }
          if cancel == InWait {
            delays := delays + [backoff];
            return Stopped, delays, seen;
          }
        }
        delays := delays + [backoff];
        backoff := Wrap(backoff * 2);
        if backoff > reconnectMax {
          backoff := reconnectMax;
        }
      }
      assert sessions[..i] == sessions;
      return Stopped, delays, seen;
    }
  }

  /** No head of another chain is ever handed on. */
  lemma {:induction false} DeliveredAreOfTheChain(expected: nat, sessions: seq<Session>, h: Head)
    requires expected != 0 && h in Delivered(expected, sessions)
    ensures exists x <- sessions :: x.chainID == Some(expected) && x.dials && x.subscribes && h in x.heads
  {
    var n := |sessions| - 1;
    if h in Delivered(expected, sessions[..n]) {
      DeliveredAreOfTheChain(expected, sessions[..n], h);
      var x :| x in sessions[..n] && x.chainID == Some(expected) && x.dials && x.subscribes && h in x.heads;
      assert x in sessions;
    } else {
      assert sessions[n] in sessions;
    }
  }

  /** What the doubling stands for: one power of two, capped; a base above the cap is used once. */
  function IdealReconnect(base: int, max: int, n: nat): int {
    if n == 0 then base else Min(base * Pow2(n), max)
  }

  /** The largest delay that can be doubled is just below this one. */
  const HALF: int := 0x4000_0000_0000_0000

  lemma {:induction false} SmallDelayIsIdeal(base: int, max: int, n: nat)
    requires 0 < base < HALF && 0 < max < HALF
    ensures Delay(base, max, n) == IdealReconnect(base, max, n)
  {
    hide Wrap, Pow2;
    if n > 0 {
      SmallDelayIsIdeal(base, max, n - 1);
      PowerStep(base, n);
      assert n == 1 ==> base * Pow2(n - 1) == base by { Pow2Values(); }
    }
  }

  lemma PowerStep(base: nat, n: nat)
    requires base > 0 && n > 0
    ensures base * Pow2(n) == 2 * (base * Pow2(n - 1))
    ensures base * Pow2(n - 1) >= base
  {
    var p := Pow2(n - 1);
    assert Pow2(n) == 2 * p;
    Scales(base, 1, p);
  }

  /** With a large base or cap, some delay is so large that doubling it wraps below zero. */
  lemma {:induction false} SomeDelayIsLarge(base: int, max: int, from: nat) returns (n: nat)
    requires 0 < max <= MAX_INT64 && 0 < Delay(base, max, from) <= MAX_INT64
    requires Delay(base, max, from) >= HALF || max >= HALF
    ensures Delay(base, max, n) >= HALF && Delay(base, max, n + 1) < 0
    decreases HALF - Delay(base, max, from)
  {
    var x := Delay(base, max, from);
    assert Delay(base, max, from + 1) == Min(Wrap(x * 2), max);
    if x >= HALF {
      n := from;
    } else {
      n := SomeDelayIsLarge(base, max, from + 1);
    }
  }

  /** Repeated doubling gives those delays, all of them, exactly when base and cap can both be doubled. */
  lemma DelayIsCappedPower(base: int, max: int)
    requires 0 < base <= MAX_INT64 && 0 < max <= MAX_INT64
    ensures (forall n: nat :: Delay(base, max, n) == IdealReconnect(base, max, n)) <==> base < HALF && max < HALF
  {
    hide Delay, Pow2, Wrap;
    if base < HALF && max < HALF {
      forall n: nat
        ensures Delay(base, max, n) == IdealReconnect(base, max, n)
      {
        SmallDelayIsIdeal(base, max, n);
      }
    } else {
      DelaySteps(base, max, 0);
      var n := SomeDelayIsLarge(base, max, 0);
      assert base * Pow2(n + 1) > 0;
      assert Delay(base, max, n + 1) != IdealReconnect(base, max, n + 1);
    }
  }

  /** Over one Run the delays never shrink exactly when the base does not exceed a cap that can be doubled. */
  lemma DelaysNeverShrink(base: int, max: int)
    requires 0 < base <= MAX_INT64 && 0 < max <= MAX_INT64
    ensures (forall i: nat, j: nat :: i <= j ==> Delay(base, max, i) <= Delay(base, max, j)) <==> base <= max < HALF
  {
    hide Delay, Pow2, Wrap;
    DelaySteps(base, max, 0);
    if base <= max < HALF {
      forall i: nat, j: nat | i <= j
        ensures Delay(base, max, i) <= Delay(base, max, j)
      {
        SmallDelayIsIdeal(base, max, i);
        SmallDelayIsIdeal(base, max, j);
        Pow2Monotone(i, j);
        Pow2Monotone(0, j);
        Pow2Values();
        Scales(base, Pow2(i), Pow2(j));
        Scales(base, 1, Pow2(j));
      }
    } else if base > max {
      assert Delay(base, max, 0) > Delay(base, max, 1);
    } else {
      var n := SomeDelayIsLarge(base, max, 0);
      assert Delay(base, max, n) > Delay(base, max, n + 1);
    }
  }

  lemma Scales(x: nat, a: nat, b: nat)
    requires a <= b
    ensures x * a <= x * b
  {
  }

  // ---- RetryDelayFunc ----

  const MAX_DELAY: int := 10 * MINUTE

  /** The queue's delay after n retries; both the shift and the product are 64-bit. */
  function RetryDelay(n: nat): int {
    Min(Wrap(Shl(1, n) * SECOND), MAX_DELAY)
  }

  function IdealDelay(n: nat): int {
    Min(Pow2(n) * SECOND, MAX_DELAY)
  }

  lemma {:induction false} Pow2Add(a: nat, b: nat)
    ensures Pow2(a + b) == Pow2(a) * Pow2(b)
  {
    if b > 0 {
      Pow2Add(a, b - 1);
      assert Pow2(a + b) == 2 * Pow2(a + (b - 1));
      assert Pow2(a) * (2 * Pow2(b - 1)) == 2 * (Pow2(a) * Pow2(b - 1));
    }
  }

  lemma Pow2Values()
    ensures Pow2(0) == 1 && Pow2(2) == 4 && Pow2(9) == 512 && Pow2(32) == 0x1_0000_0000 && Pow2(33) == 0x2_0000_0000
    ensures Pow2(35) == 0x8_0000_0000 && Pow2(36) == 0x10_0000_0000 && Pow2(43) == 0x800_0000_0000
    ensures Pow2(63) == 0x8000_0000_0000_0000 && Pow2(64) == 0x1_0000_0000_0000_0000
  {
    assert Pow2(8) == 0x100;
    assert Pow2(16) == 0x1_0000;
    assert Pow2(24) == 0x100_0000;
    Pow2Add(32, 11);
    Pow2Add(32, 31);
  }

  const MODULUS: int := 0x1_0000_0000_0000_0000

  lemma WrapIgnoresMultiples(x: int, k: int)
    ensures Wrap(x + k * MODULUS) == Wrap(x)
  {
    var y := x + 0x8000_0000_0000_0000;
    assert (y + k * MODULUS) % MODULUS == y % MODULUS;
  }

  /** Wrapping before a multiplication changes nothing that survives the wrap after it. */
  lemma WrapTwice(x: int, c: int)
    ensures Wrap(Wrap(x) * c) == Wrap(x * c)
  {
    var k := (x + 0x8000_0000_0000_0000) / MODULUS;
    assert Wrap(x) == x - k * MODULUS;
    assert (x - k * MODULUS) * c == x * c + (-k * c) * MODULUS;
    WrapIgnoresMultiples(x * c, -k * c);
  }

  /** A second is 2^9 times an odd number. */
  const ODD_SECOND: nat := 1953125

  /** What 64 bits keep of a second doubled n times. */
  function Product(n: nat): int {
    Wrap(Pow2(n + 9) * ODD_SECOND)
  }

  lemma ProductIsShiftedOdd(n: nat)
    ensures RetryDelay(n) == Min(Product(n), MAX_DELAY)
  {
    hide Pow2, Wrap;
    WrapTwice(1 * Pow2(n), SECOND);
    Pow2Add(n, 9);
    Pow2Values();
    assert Pow2(n) * SECOND == Pow2(n + 9) * ODD_SECOND;
  }

  /** The delay is the capped power of two for every n up to 33. */
  lemma RetryDelayIsExact(n: nat)
    requires n <= 33
    ensures RetryDelay(n) == IdealDelay(n)
  {
    hide Pow2;
    Pow2Values();
    Pow2Monotone(n, 33);
  }

  /** The bit of the odd factor that lands on the sign of the 64-bit product. */
  predicate SignBit(n: nat)
    requires n <= 54
  {
    Bit(ODD_SECOND, 54 - n)
  }

  /** Splits p * m, where p * q is 2^63, into a multiple of 2^63 and a rest below it. */
  lemma SplitProduct(p: nat, q: nat, m: nat)
    requires p > 0 && q > 0 && p * q == 0x8000_0000_0000_0000
    ensures p * m == (m / q) * 0x8000_0000_0000_0000 + p * (m % q)
    ensures 0 <= p * (m % q) < 0x8000_0000_0000_0000
  {
    var a, r := m / q, m % q;
    assert m == a * q + r;
    assert p * m == a * (p * q) + p * r by {
      assert p * (a * q + r) == p * (a * q) + p * r;
      assert p * (a * q) == a * (p * q);
    }
    assert p * r < p * q;
  }

  lemma WrapOfSplit(a: nat, rest: nat)
    requires rest < 0x8000_0000_0000_0000
    ensures Wrap(a * 0x8000_0000_0000_0000 + rest) == (if a % 2 == 0 then rest else rest - 0x8000_0000_0000_0000)
  {
    var b := a / 2;
    if a % 2 == 0 {
      assert a * 0x8000_0000_0000_0000 + rest == rest + b * MODULUS;
      WrapIgnoresMultiples(rest, b);
    } else {
      assert a * 0x8000_0000_0000_0000 + rest == (rest + 0x8000_0000_0000_0000) + b * MODULUS;
      WrapIgnoresMultiples(rest + 0x8000_0000_0000_0000, b);
    }
  }

  /** Between 34 and 54 the sign bit decides: set, the product is negative; clear, it is above every cap. */
  lemma OverflowBySignBit(n: nat)
    requires 34 <= n <= 54
    ensures SignBit(n) ==> Product(n) < 0
    ensures !SignBit(n) ==> Product(n) >= MAX_DELAY
  {
    hide Pow2, Wrap;
    var p, q := Pow2(n + 9), Pow2(54 - n);
    Pow2Add(n + 9, 54 - n);
    Pow2Values();
    SplitProduct(p, q, ODD_SECOND);
    WrapOfSplit(ODD_SECOND / q, p * (ODD_SECOND % q));
    if !SignBit(n) {
      Pow2Monotone(43, n + 9);
      OddRest(54 - n);
      Scales(p, 1, ODD_SECOND % q);
    }
  }

  /** An odd number divided by a power of two above one leaves a rest; at one, its quotient is odd. */
  lemma OddRest(j: nat)
    requires (ODD_SECOND / Pow2(j)) % 2 == 0
    ensures ODD_SECOND % Pow2(j) >= 1
  {
    if j > 0 {
      var h := Pow2(j - 1);
      var a := ODD_SECOND / Pow2(j);
      assert a * Pow2(j) == 2 * (a * h);
      assert ODD_SECOND == 2 * (a * h) + ODD_SECOND % Pow2(j);
    }
  }

  lemma SignOf34()
    ensures SignBit(34)
  {
    assert Pow2(10) == 1024;
    assert Pow2(20) == 1024 * 1024;
  }

  /** From 55 on nothing of the product is left in 64 bits. */
  lemma OverflowToZero(n: nat)
    requires n >= 55
    ensures Product(n) == 0
  {
    hide Pow2, Wrap;
    Pow2Add(64, n - 55);
    Pow2Values();
    var k := Pow2(n - 55) * ODD_SECOND;
    assert Pow2(n + 9) * ODD_SECOND == 0 + k * MODULUS;
    WrapIgnoresMultiples(0, k);
  }

  /** The queue delays as documented exactly for n up to 33 and for those overflowing n whose sign bit is clear. */
  lemma RetryDelayExactlyWhen(n: nat)
    ensures RetryDelay(n) == IdealDelay(n) <==> n <= 33 || (n <= 54 && !SignBit(n))
    ensures SignBit(34)
  {
    hide RetryDelay;
    SignOf34();
    ProductIsShiftedOdd(n);
    if n <= 33 {
      RetryDelayIsExact(n);
    } else {
      assert IdealDelay(n) == MAX_DELAY by {
        Pow2Monotone(33, n);
        Pow2Values();
      }
      if n <= 54 {
        OverflowBySignBit(n);
      } else {
        OverflowToZero(n);
      }
    }
  }
}
