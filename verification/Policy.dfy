/**
 Wallet limits, as the service validates them and as the database stores them.

 Percentages and amounts are exact numbers here; a NUMERIC column rounds them to its
 scale, ties away from zero, before its CHECK constraints are evaluated.
 */
module Policies {
  import opened Results

  datatype Policy = Policy(
    maxPositionPercent: real,
    maxOpenPositions: int,
    dailyLossLimitPercent: real,
    stopLossPercent: real,
    capitalRecoveryPercent: real,
    maxSlippageBPS: int,
    minLiquidityUSD: real,
    tradingEnabled: bool)

  // ---- Validate ----

  datatype Bound =
    | MaxPositionRange | OpenPositionsPositive | DailyLossRange | StopLossRange
    | CapitalRecoveryPositive | SlippageRange | MinLiquidityNonNegative

  predicate Within(p: Policy, b: Bound)
  {
    match b
    case MaxPositionRange => 0.0 < p.maxPositionPercent <= 100.0
    case OpenPositionsPositive => p.maxOpenPositions >= 1
    case DailyLossRange => 0.0 < p.dailyLossLimitPercent <= 100.0
    case StopLossRange => 0.0 < p.stopLossPercent < 100.0
    case CapitalRecoveryPositive => p.capitalRecoveryPercent > 0.0
    case SlippageRange => 0 <= p.maxSlippageBPS <= 10000
    case MinLiquidityNonNegative => p.minLiquidityUSD >= 0.0
  }

  /** The bounds of the service. */
  predicate Valid(p: Policy)
  {
    && Within(p, MaxPositionRange) && Within(p, OpenPositionsPositive) && Within(p, DailyLossRange)
    && Within(p, StopLossRange) && Within(p, CapitalRecoveryPositive) && Within(p, SlippageRange)
    && Within(p, MinLiquidityNonNegative)
  }

  function Note(errs: seq<Bound>, p: Policy, b: Bound): seq<Bound> {
    if Within(p, b) then errs else errs + [b]
  }

  /** The bounds a policy breaks, in the order `Validate` looks at them. */
  function Report(p: Policy): seq<Bound>
  {
    var e1 := Note([], p, MaxPositionRange);
    var e2 := Note(e1, p, OpenPositionsPositive);
    var e3 := Note(e2, p, DailyLossRange);
    var e4 := Note(e3, p, StopLossRange);
    var e5 := Note(e4, p, CapitalRecoveryPositive);
    var e6 := Note(e5, p, SlippageRange);
    Note(e6, p, MinLiquidityNonNegative)
  }

  lemma NoteAdds(errs: seq<Bound>, p: Policy, b: Bound, x: Bound)
    ensures x in Note(errs, p, b) <==> x in errs || (x == b && !Within(p, b))
  {
  }

  /** Exactly the broken bounds are reported, and nothing exactly when the policy is valid. */
  lemma ReportIsExact(p: Policy)
    ensures forall x :: x in Report(p) <==> !Within(p, x)
    ensures Report(p) == [] <==> Valid(p)
  {
    forall x
      ensures x in Report(p) <==> !Within(p, x)
    {
      var e1 := Note([], p, MaxPositionRange);
      var e2 := Note(e1, p, OpenPositionsPositive);
      var e3 := Note(e2, p, DailyLossRange);
      var e4 := Note(e3, p, StopLossRange);
      var e5 := Note(e4, p, CapitalRecoveryPositive);
      var e6 := Note(e5, p, SlippageRange);
      NoteAdds([], p, MaxPositionRange, x);
      NoteAdds(e1, p, OpenPositionsPositive, x);
      NoteAdds(e2, p, DailyLossRange, x);
      NoteAdds(e3, p, StopLossRange, x);
      NoteAdds(e4, p, CapitalRecoveryPositive, x);
      NoteAdds(e5, p, SlippageRange, x);
      NoteAdds(e6, p, MinLiquidityNonNegative, x);
    }
    EmptyMeansNoMember(Report(p));
  }

  lemma EmptyMeansNoMember(errs: seq<Bound>)
    ensures errs == [] <==> forall x :: x !in errs
  {
    if errs != [] {
      assert errs[0] in errs;
    }
  }

  method Validate(p: Policy) returns (errs: seq<Bound>)
    ensures errs == Report(p)
  {
    errs := [];
    if p.maxPositionPercent <= 0.0 || p.maxPositionPercent > 100.0 {
      errs := errs + [MaxPositionRange];
    }
    ghost var e1 := Note([], p, MaxPositionRange);
    assert errs == e1;
    if p.maxOpenPositions < 1 {
      errs := errs + [OpenPositionsPositive];
    }
    ghost var e2 := Note(e1, p, OpenPositionsPositive);
    assert errs == e2;
    if p.dailyLossLimitPercent <= 0.0 || p.dailyLossLimitPercent > 100.0 {
      errs := errs + [DailyLossRange];
    }
    ghost var e3 := Note(e2, p, DailyLossRange);
    assert errs == e3;
    if p.stopLossPercent <= 0.0 || p.stopLossPercent >= 100.0 {
      errs := errs + [StopLossRange];
    }
    ghost var e4 := Note(e3, p, StopLossRange);
    assert errs == e4;
    if p.capitalRecoveryPercent <= 0.0 {
      errs := errs + [CapitalRecoveryPositive];
    }
    ghost var e5 := Note(e4, p, CapitalRecoveryPositive);
    assert errs == e5;
    if p.maxSlippageBPS < 0 || p.maxSlippageBPS > 10000 {
      errs := errs + [SlippageRange];
    }
    ghost var e6 := Note(e5, p, SlippageRange);
    assert errs == e6;
    if p.minLiquidityUSD < 0.0 {
      errs := errs + [MinLiquidityNonNegative];
    }
    ghost var e7 := Note(e6, p, MinLiquidityNonNegative);
    assert errs == e7;
  }

  // ---- NUMERIC columns ----

  /** Nearest whole number, ties away from zero. */
  function Nearest(x: real): int
  {
    if x >= 0.0 then (x + 0.5).Floor else -((0.5 - x).Floor)
  }

  /** Rounding to three and to two decimals. */
  function Thousandths(x: real): real {
    Nearest(x * 1000.0) as real / 1000.0
  }

  function Hundredths(x: real): real {
    Nearest(x * 100.0) as real / 100.0
  }

  /** The row as the columns hold it. */
  function Rounded(p: Policy): Policy
  {
    p.(maxPositionPercent := Thousandths(p.maxPositionPercent),
       dailyLossLimitPercent := Thousandths(p.dailyLossLimitPercent),
       stopLossPercent := Thousandths(p.stopLossPercent),
       capitalRecoveryPercent := Thousandths(p.capitalRecoveryPercent),
       minLiquidityUSD := Hundredths(p.minLiquidityUSD))
  }

  /** Whether every column has room: NUMERIC(6,3), NUMERIC(8,3), NUMERIC(20,2) and INTEGER. */
  predicate Fits(p: Policy)
  {
    && -1000.0 < p.maxPositionPercent < 1000.0
    && -1000.0 < p.dailyLossLimitPercent < 1000.0
    && -1000.0 < p.stopLossPercent < 1000.0
    && -100000.0 < p.capitalRecoveryPercent < 100000.0
    && -1000000000000000000.0 < p.minLiquidityUSD < 1000000000000000000.0
    && -0x8000_0000 <= p.maxOpenPositions <= 0x7FFF_FFFF
    && -0x8000_0000 <= p.maxSlippageBPS <= 0x7FFF_FFFF
  }

  /** The CHECK constraints of wallet_policies. */
  predicate Checks(row: Policy)
  {
    && row.maxPositionPercent > 0.0 && row.maxPositionPercent <= 100.0
    && row.maxOpenPositions >= 1
    && row.dailyLossLimitPercent > 0.0 && row.dailyLossLimitPercent <= 100.0
    && row.stopLossPercent > 0.0 && row.stopLossPercent < 100.0
    && row.capitalRecoveryPercent > 0.0
    && row.maxSlippageBPS >= 0 && row.maxSlippageBPS <= 10000
    && row.minLiquidityUSD >= 0.0
  }

  /** The table asserts the bounds of the service a second time, neither more nor less. */
  lemma ChecksAreTheBounds(p: Policy)
    ensures Checks(p) <==> Report(p) == []
  {
    ReportIsExact(p);
  }

  datatype WriteError = OutOfRange | CheckViolation

  /** What the database makes of a policy row. */
  function Store(p: Policy): Result<Policy, WriteError>
  {
    if !Fits(Rounded(p)) then Err(OutOfRange)
    else if !Checks(Rounded(p)) then Err(CheckViolation)
    else Ok(Rounded(p))
  }

  // ---- Agreement of the two validations ----

  /** Valid policies that the database nevertheless refuses: one edge of a column each. */
  predicate OverflowEdge(p: Policy)
  {
    || p.capitalRecoveryPercent >= 99999.9995
    || p.minLiquidityUSD >= 1000000000000000000.0 - 0.005
    || p.maxOpenPositions > 0x7FFF_FFFF
  }

  predicate RoundingEdge(p: Policy)
  {
    || p.maxPositionPercent < 0.0005
    || p.dailyLossLimitPercent < 0.0005
    || p.stopLossPercent < 0.0005
    || p.stopLossPercent >= 99.9995
    || p.capitalRecoveryPercent < 0.0005
  }

  lemma NearestOfWhole(n: int)
    ensures Nearest(n as real) == n
  {
    var x := n as real;
    if n >= 0 {
      assert x <= x + 0.5 < x + 1.0;
    } else {
      assert -x <= 0.5 - x < -x + 1.0;
    }
  }

  /** Rounding moves a value by at most half a unit and leaves a rounded value alone. */
  lemma RoundingIsTight(x: real)
    ensures -0.0005 <= Thousandths(x) - x <= 0.0005
    ensures -0.005 <= Hundredths(x) - x <= 0.005
    ensures Thousandths(Thousandths(x)) == Thousandths(x)
    ensures Hundredths(Hundredths(x)) == Hundredths(x)
  {
    NearestIsClose(x * 1000.0);
    NearestIsClose(x * 100.0);
    NearestOfWhole(Nearest(x * 1000.0));
    NearestOfWhole(Nearest(x * 100.0));
  }

  lemma NearestIsClose(x: real)
    ensures -0.5 <= Nearest(x) as real - x <= 0.5
  {
  }

  /** For a non-negative value, "rounds below k" is "lies below k minus half". */
  lemma NearestBelow(x: real, k: int)
    requires x >= 0.0
    ensures Nearest(x) < k <==> x < k as real - 0.5
  {
    if x < k as real - 0.5 {
      assert x + 0.5 < k as real;
    } else {
      assert x + 0.5 >= k as real;
    }
  }

  lemma Idempotent(p: Policy)
    ensures Rounded(Rounded(p)) == Rounded(p)
  {
    RoundingIsTight(p.maxPositionPercent);
    RoundingIsTight(p.dailyLossLimitPercent);
    RoundingIsTight(p.stopLossPercent);
    RoundingIsTight(p.capitalRecoveryPercent);
    RoundingIsTight(p.minLiquidityUSD);
  }

  /**
   A valid policy is stored unless it sits on an edge, and what is stored is again
   valid, is its own rounding, and would be stored unchanged.
   */
  lemma StoreIsExact(p: Policy)
    requires Valid(p)
    ensures Store(p).Err? <==> OverflowEdge(p) || RoundingEdge(p)
    ensures Store(p) == Err(OutOfRange) <==> OverflowEdge(p)
    ensures Store(p).Ok? ==> Store(p).value == Rounded(p) && Valid(Rounded(p)) && Store(Rounded(p)) == Store(p)
  {
    NearestBelow(p.maxPositionPercent * 1000.0, 1);
    NearestBelow(p.maxPositionPercent * 1000.0, 100001);
    NearestBelow(p.dailyLossLimitPercent * 1000.0, 1);
    NearestBelow(p.dailyLossLimitPercent * 1000.0, 100001);
    NearestBelow(p.stopLossPercent * 1000.0, 1);
    NearestBelow(p.stopLossPercent * 1000.0, 100000);
    NearestBelow(p.capitalRecoveryPercent * 1000.0, 1);
    NearestBelow(p.capitalRecoveryPercent * 1000.0, 100000000);
    NearestBelow(p.minLiquidityUSD * 100.0, 0);
    NearestBelow(p.minLiquidityUSD * 100.0, 100000000000000000000);
    Idempotent(p);
  }

  // ---- What is stored, field by field ----

  /** w is the whole number nearest to x, ties away from zero. */
  predicate NearestWhole(x: real, w: real)
  {
    && w == w.Floor as real && -0.5 <= w - x <= 0.5
    && (w - x == 0.5 ==> x > 0.0) && (w - x == -0.5 ==> x < 0.0)
  }

  /** q is x to so many units, ties away from zero. */
  predicate InUnits(x: real, q: real, units: real) {
    NearestWhole(x * units, q * units)
  }

  lemma NearestIsSpelled(x: real)
    ensures NearestWhole(x, Nearest(x) as real)
  {
  }

  lemma ThousandthsSpelled(x: real)
    ensures InUnits(x, Thousandths(x), 1000.0)
  {
    NearestIsSpelled(x * 1000.0);
  }

  lemma HundredthsSpelled(x: real)
    ensures InUnits(x, Hundredths(x), 100.0)
  {
    NearestIsSpelled(x * 100.0);
  }

  /** Counts and switches are stored as given, percentages to thousandths and the liquidity to hundredths. */
  lemma StoredFields(p: Policy, q: Policy)
    requires Store(p) == Ok(q)
    ensures q.maxOpenPositions == p.maxOpenPositions && q.maxSlippageBPS == p.maxSlippageBPS
    ensures q.tradingEnabled == p.tradingEnabled
    ensures InUnits(p.maxPositionPercent, q.maxPositionPercent, 1000.0)
    ensures InUnits(p.dailyLossLimitPercent, q.dailyLossLimitPercent, 1000.0)
    ensures InUnits(p.stopLossPercent, q.stopLossPercent, 1000.0)
    ensures InUnits(p.capitalRecoveryPercent, q.capitalRecoveryPercent, 1000.0)
    ensures InUnits(p.minLiquidityUSD, q.minLiquidityUSD, 100.0)
  {
    hide InUnits, Thousandths, Hundredths;
    ThousandthsSpelled(p.maxPositionPercent);
    ThousandthsSpelled(p.dailyLossLimitPercent);
    ThousandthsSpelled(p.stopLossPercent);
    ThousandthsSpelled(p.capitalRecoveryPercent);
    HundredthsSpelled(p.minLiquidityUSD);
  }

  lemma WholeIsUnique(x: real, w: real, w': real)
    requires NearestWhole(x, w) && NearestWhole(x, w')
    ensures w == w'
  {
    var n := w.Floor - w'.Floor;
    assert n as real == w - w';
    assert -1.0 <= n as real <= 1.0;
    assert n == 0 || n == 1 || n == -1;
  }

  /** There is only one such value, so the stored row is determined. */
  lemma UnitsAreUnique(x: real, q: real, q': real, units: real)
    requires units > 0.0 && InUnits(x, q, units) && InUnits(x, q', units)
    ensures q == q'
  {
    WholeIsUnique(x * units, q * units, q' * units);
    assert q * units == q' * units;
  }

  /** The order in which broken bounds are reported. */
  function Place(b: Bound): nat
  {
    match b
    case MaxPositionRange => 0
    case OpenPositionsPositive => 1
    case DailyLossRange => 2
    case StopLossRange => 3
    case CapitalRecoveryPositive => 4
    case SlippageRange => 5
    case MinLiquidityNonNegative => 6
  }

  lemma ReportIsInOrder(p: Policy)
    ensures forall i, j :: 0 <= i < j < |Report(p)| ==> Place(Report(p)[i]) < Place(Report(p)[j])
  {
  }
}
