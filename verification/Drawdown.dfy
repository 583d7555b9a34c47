/** Maximum drawdown of an equity curve, from the running maximum, as a percentage that is never positive. */
module Drawdown {

  // Each entry is the largest value up to that point.
  function RunningMax(e: seq<real>): (m: seq<real>)
    ensures |m| == |e|
  {
    if e == [] then []
    else
      var x := e[|e| - 1];
      var m := RunningMax(e[..|e| - 1]);
      m + [if m == [] || x > m[|m| - 1] then x else m[|m| - 1]]
  }

  // The change from one value to another, in percent of the first.
  function Change(a: real, b: real): real
    requires a != 0.0
  {
    (b - a) / a * 100.0
  }

  // Every division the calculation makes has a divisor.
  predicate Defined(e: seq<real>) {
    forall i :: 0 <= i < |e| ==> RunningMax(e)[i] != 0.0
  }

  function Drawdowns(e: seq<real>): seq<real>
    requires Defined(e)
  {
    seq(|e|, i requires 0 <= i < |e| => Change(RunningMax(e)[i], e[i]))
  }

  function Least(s: seq<real>): real
    requires s != []
  {
    if |s| == 1 then s[0]
    else
      var rest := Least(s[1..]);
      if s[0] < rest then s[0] else rest
  }

  function MaximumDrawdown(e: seq<real>): real
    requires Defined(e)
  {
    if e == [] then 0.0 else Least(Drawdowns(e))
  }

  // ---------- the two passes ----------

  // An index up to j that holds the running maximum there.
  function PeakAt(e: seq<real>, j: nat): (i: nat)
    requires j < |e|
    ensures i <= j
  {
    if j == 0 then 0
    else
      var i := PeakAt(e, j - 1);
      if e[j] > e[i] then j else i
  }

  lemma {:induction false} RunningMaxIsPeak(e: seq<real>, j: nat)
    requires j < |e|
    ensures RunningMax(e)[j] == e[PeakAt(e, j)]
  {
    RunningMaxPrefix(e, j);
    if j > 0 {
      RunningMaxIsPeak(e, j - 1);
      RunningMaxPrefix(e, j - 1);
      assert e[..j + 1][..j] == e[..j];
    }
  }

  lemma {:induction false} RunningMaxPrefix(e: seq<real>, j: nat)
    requires j < |e|
    ensures RunningMax(e)[j] == RunningMax(e[..j + 1])[j]
  {
    if j + 1 == |e| {
      assert e[..j + 1] == e;
    } else {
      RunningMaxPrefix(e[..|e| - 1], j);
      assert e[..|e| - 1][..j + 1] == e[..j + 1];
    }
  }

  lemma {:induction false} PeakIsHighest(e: seq<real>, i: nat, j: nat)
    requires i <= j < |e|
    ensures e[i] <= e[PeakAt(e, j)]
  {
    if i < j {
      PeakIsHighest(e, i, j - 1);
    }
  }

  lemma {:induction false} LeastIsLeast(s: seq<real>)
    requires s != []
    ensures Least(s) in s && forall i :: 0 <= i < |s| ==> Least(s) <= s[i]
  {
    if |s| > 1 {
      LeastIsLeast(s[1..]);
      assert forall i :: 0 < i < |s| ==> s[i] == s[1..][i - 1];
    }
  }

  // ---------- the drawdown as a property of the curve ----------

  predicate StartsPositive(e: seq<real>) {
    e != [] && e[0] > 0.0
  }

  lemma PeaksPositive(e: seq<real>, j: nat)
    requires StartsPositive(e) && j < |e|
    ensures RunningMax(e)[j] == e[PeakAt(e, j)] > 0.0
  {
    RunningMaxIsPeak(e, j);
    PeakIsHighest(e, 0, j);
  }

  lemma PositiveDefined(e: seq<real>)
    requires StartsPositive(e)
    ensures Defined(e)
  {
    forall j | 0 <= j < |e| ensures RunningMax(e)[j] != 0.0 {
      PeaksPositive(e, j);
    }
  }

  // The drawdown is one of the drops from a peak, and none of them is lower.
  lemma WorstPeakDrop(e: seq<real>) returns (j: nat)
    requires StartsPositive(e)
    ensures Defined(e) && j < |e| && e[PeakAt(e, j)] > 0.0
    ensures MaximumDrawdown(e) == Change(e[PeakAt(e, j)], e[j])
    ensures forall k: nat :: k < |e| ==> e[PeakAt(e, k)] > 0.0 && MaximumDrawdown(e) <= Change(e[PeakAt(e, k)], e[k])
  {
    PositiveDefined(e);
    var d := Drawdowns(e);
    LeastIsLeast(d);
    j :| j < |d| && d[j] == Least(d);
    PeaksPositive(e, j);
    forall k: nat | k < |e|
      ensures e[PeakAt(e, k)] > 0.0 && MaximumDrawdown(e) <= Change(e[PeakAt(e, k)], e[k])
    {
      PeaksPositive(e, k);
      assert MaximumDrawdown(e) <= d[k];
    }
  }

  lemma Cancel(x: real, y: real, a: real)
    requires a != 0.0 && x * a == y * a
    ensures x == y
  {
    assert (x - y) * a == 0.0;
  }

  lemma ChangeIsRatio(a: real, b: real)
    requires a != 0.0
    ensures Change(a, b) == (b / a - 1.0) * 100.0
  {
    var q, r := (b - a) / a, b / a - 1.0;
    assert q * a == b - a;
    assert r * a == b / a * a - a == b - a;
    Cancel(q, r, a);
  }

  lemma ChangeFromHigher(a: real, b: real, x: real)
    requires 0.0 < a <= b && x >= 0.0
    ensures Change(b, x) <= Change(a, x)
  {
    assert x / b <= x / a;
    ChangeIsRatio(a, x);
    ChangeIsRatio(b, x);
  }

  predicate Pair(e: seq<real>, i: nat, j: nat) {
    i <= j < |e| && e[i] > 0.0
  }

  // No fall between two points is worse than the one reported.
  ghost predicate NoPairWorse(e: seq<real>)
    requires Defined(e)
  {
    forall i: nat, j: nat :: Pair(e, i, j) ==> MaximumDrawdown(e) <= Change(e[i], e[j])
  }

  /**
   One pass over the running maximum finds the worst fall between any two points: on a curve that starts positive and
   never falls below zero, the result is attained by a pair of points and no pair does worse.
   */
  lemma IsWorstPair(e: seq<real>)
    requires StartsPositive(e) && forall k :: 0 <= k < |e| ==> e[k] >= 0.0
    ensures Defined(e)
    ensures exists i: nat, j: nat :: Pair(e, i, j) && MaximumDrawdown(e) == Change(e[i], e[j])
    ensures NoPairWorse(e)
  {
    var worst := WorstPeakDrop(e);
    assert Pair(e, PeakAt(e, worst), worst);
    forall i: nat, j: nat | Pair(e, i, j)
      ensures MaximumDrawdown(e) <= Change(e[i], e[j])
    {
      PeakIsHighest(e, i, j);
      ChangeFromHigher(e[i], e[PeakAt(e, j)], e[j]);
    }
  }

  predicate AtLeast(e: seq<real>, floor: real) {
    forall k :: 0 <= k < |e| ==> e[k] >= floor
  }

  // Below zero the fall from a lower peak is the larger one in percent.
  lemma LowPeakFallsFurther(floor: real) returns (e: seq<real>)
    requires floor < 0.0
    ensures StartsPositive(e) && AtLeast(e, floor) && Defined(e) && !NoPairWorse(e)
  {
    e := [1.0, 10.0, floor];
    var worst := WorstPeakDrop(e);
    assert PeakAt(e, 0) == 0 && PeakAt(e, 1) == 1 && PeakAt(e, 2) == 1;
    assert Change(10.0, floor) > Change(1.0, floor) by {
      ChangeIsRatio(10.0, floor);
      ChangeIsRatio(1.0, floor);
    }
    assert Change(1.0, 1.0) == Change(10.0, 10.0) == 0.0;
    assert Change(10.0, floor) < 0.0;
    assert Pair(e, 0, 2);
  }

  /** Whether the worst fall is found on every curve that starts positive depends only on whether curves can go negative. */
  lemma WorstPairIff(floor: real)
    ensures floor >= 0.0 <==>
            (forall e: seq<real> :: StartsPositive(e) && AtLeast(e, floor) ==> Defined(e) && NoPairWorse(e))
  {
    if floor >= 0.0 {
      forall e: seq<real> | StartsPositive(e) && AtLeast(e, floor) ensures Defined(e) && NoPairWorse(e) {
        IsWorstPair(e);
      }
    } else {
      var e := LowPeakFallsFurther(floor);
    }
  }

  lemma ChangeSign(a: real, b: real)
    requires a > 0.0
    ensures Change(a, b) <= 0.0 <==> b <= a
    ensures Change(a, b) >= 0.0 <==> b >= a
    ensures Change(a, b) >= -100.0 <==> b >= 0.0
    ensures Change(a, b) <= -100.0 <==> b <= 0.0
  {
    ChangeIsRatio(a, b);
    var ratio := b / a;
    assert ratio * a == b;
  }

  /** The drawdown is never positive, and zero exactly on a curve that never falls. */
  lemma ZeroIffNeverFalls(e: seq<real>)
    requires StartsPositive(e)
    ensures Defined(e) && MaximumDrawdown(e) <= 0.0
    ensures MaximumDrawdown(e) == 0.0 <==> forall i, j :: 0 <= i <= j < |e| ==> e[i] <= e[j]
  {
    var worst := WorstPeakDrop(e);
    PeakIsHighest(e, worst, worst);
    ChangeSign(e[PeakAt(e, worst)], e[worst]);
    if MaximumDrawdown(e) == 0.0 {
      forall i: nat, j: nat | i <= j < |e| ensures e[i] <= e[j] {
        PeakIsHighest(e, i, j);
        ChangeSign(e[PeakAt(e, j)], e[j]);
      }
    }
  }

  /** A drawdown of a hundred percent or more means exactly that the curve touched zero or went below. */
  lemma TotalLossIff(e: seq<real>)
    requires StartsPositive(e)
    ensures Defined(e)
    ensures MaximumDrawdown(e) <= -100.0 <==> exists k :: 0 <= k < |e| && e[k] <= 0.0
  {
    var worst := WorstPeakDrop(e);
    ChangeSign(e[PeakAt(e, worst)], e[worst]);
    if k :| 0 <= k < |e| && e[k] <= 0.0 {
      ChangeSign(e[PeakAt(e, k)], e[k]);
    }
  }
}
