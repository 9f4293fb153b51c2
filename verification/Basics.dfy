/** Result types shared by the components. */
module Results {
  datatype Option<+T> = None | Some(value: T)

  datatype Result<+T, +E> = Ok(value: T) | Err(error: E)
}

/** How a database transaction ends; `AnswerLost` commits without the caller learning of it. */
module Transactions {
  datatype Ending = Committed | RolledBack | AnswerLost
}

module Numbers {
  function Min(a: int, b: int): int {
    if a < b then a else b
  }
}

/** The 64-bit signed integers of Go and of a BIGINT column. */
module Int64 {
  const MAX_INT64: int := 0x7FFF_FFFF_FFFF_FFFF
  const MIN_INT64: int := -0x8000_0000_0000_0000

  /** The value that 64-bit arithmetic, or a conversion from an unsigned integer, leaves. */
  function Wrap(x: int): (r: int)
    ensures MIN_INT64 <= r <= MAX_INT64
    ensures MIN_INT64 <= x <= MAX_INT64 ==> r == x
  {
    (x + 0x8000_0000_0000_0000) % 0x1_0000_0000_0000_0000 - 0x8000_0000_0000_0000
  }
}

/** Go durations and instants, both counted in nanoseconds. */
module Clock {
  import opened Int64

  const MILLISECOND: int := 1_000_000
  const SECOND: int := 1_000_000_000
  const MINUTE: int := 60 * SECOND
  const DAY: int := 24 * 60 * MINUTE

  /** time.Time.Sub saturates at the ends of a 64-bit duration. */
  function Sub(t: int, u: int): (d: int)
    ensures MIN_INT64 <= d <= MAX_INT64
  {
    if t - u > MAX_INT64 then MAX_INT64 else if t - u < MIN_INT64 then MIN_INT64 else t - u
  }
}

/** Counting in sequences and sets. */
module Counting {
  /** How many elements have a property. */
  function Count<T>(xs: seq<T>, p: T -> bool): nat
  {
    if xs == [] then 0
    else
      var n := |xs| - 1;
      Count(xs[..n], p) + (if p(xs[n]) then 1 else 0)
  }

  lemma CountSnoc<T>(xs: seq<T>, x: T, p: T -> bool)
    ensures Count(xs + [x], p) == Count(xs, p) + (if p(x) then 1 else 0)
  {
    assert (xs + [x])[..|xs|] == xs;
  }

  /** A prefix that counts no less leaves nothing to count behind it. */
  lemma {:induction false} NoneBeyond<T>(a: seq<T>, b: seq<T>, p: T -> bool)
    requires a <= b
    ensures Count(a, p) <= Count(b, p)
    ensures Count(b, p) <= Count(a, p) ==> forall i :: |a| <= i < |b| ==> !p(b[i])
  {
    if |a| == |b| {
      assert a == b;
    } else {
      var n := |b| - 1;
      NoneBeyond(a, b[..n], p);
      assert b == b[..n] + [b[n]];
      CountSnoc(b[..n], b[n], p);
    }
  }

  lemma SmallerSet(a: set<nat>, b: set<nat>, x: nat)
    requires a <= b
    ensures |a| <= |b|
    ensures x in b && x !in a ==> |a| < |b|
  {
    if x in b && x !in a {
      assert a <= b - {x};
      SmallerSet(a, b - {x}, x);
    } else if a != {} {
      var y :| y in a;
      SmallerSet(a - {y}, b - {y}, y);
    }
  }
}
