/** A window's character: its return, and its worst drawdown found in one pass. */
module Drawdown {
  import opened Common

  datatype Character = Character(returnPct: real, maxDrawdownPct: real)

  /** The loss, as a fraction, of buying at `i` and looking at `j`. */
  function Change(closes: seq<real>, i: nat, j: nat): (r: real)
    requires i <= j < |closes| && closes[i] > 0.0
    ensures (1.0 + r) * closes[i] == closes[j]
  {
    closes[j] / closes[i] - 1.0
  }

  ghost predicate Positive(closes: seq<real>) { forall i :: 0 <= i < |closes| ==> closes[i] > 0.0 }

  /** The least change over all pairs of days, the earlier one first. */
  ghost predicate IsWorst(closes: seq<real>, dd: real)
    requires Positive(closes)
  {
    && (exists i: nat, j: nat :: i <= j < |closes| && Change(closes, i, j) == dd)
    && (forall i: nat, j: nat :: i <= j < |closes| ==> dd <= Change(closes, i, j))
  }

  lemma HigherPeak(c: real, peak: real, other: real)
    requires 0.0 < other <= peak && 0.0 < c
    ensures c / peak <= c / other
  {
    var q, o := c / peak, c / other;
    assert q * peak == c && o * other == c && q > 0.0;
    assert q * other <= q * peak;
    assert (o - q) * other >= 0.0;
  }

  /** The worst change is one number. */
  lemma WorstIsOne(closes: seq<real>, a: real, b: real)
    requires Positive(closes) && IsWorst(closes, a) && IsWorst(closes, b)
    ensures a == b
  {
  }

  /** Closes in date order; a window of fewer than two days has no character. */
  method WindowCharacter(closes: seq<real>) returns (r: Option<Character>)
    requires Positive(closes)
    ensures r.None? <==> |closes| < 2
    ensures r.Some? ==> r.value.returnPct == Change(closes, 0, |closes| - 1) && IsWorst(closes, r.value.maxDrawdownPct)
  {
    if |closes| < 2 {
      return None;
    }
    var dd := 0.0;
    var runPeak := closes[0];
    ghost var top, from, to := 0, 0, 0;
    assert Change(closes, 0, 0) == 0.0;
    for n := 0 to |closes|
      invariant 0 <= top < |closes| && closes[top] == runPeak && (n == 0 ==> top == 0) && (n > 0 ==> top < n)
      invariant forall i :: 0 <= i < n ==> closes[i] <= runPeak
      invariant 0 <= from <= to < |closes| && Change(closes, from, to) == dd
      invariant forall i: nat, j: nat :: i <= j < n ==> dd <= Change(closes, i, j)
    {
      var c := closes[n];
      if c > runPeak {
        runPeak, top := c, n;
      }
      forall i: nat | i <= n ensures c / runPeak <= c / closes[i] { HigherPeak(c, runPeak, closes[i]); }
      if c / runPeak - 1.0 < dd {
        dd, from, to := c / runPeak - 1.0, top, n;
      }
      assert forall i: nat :: i <= n ==> dd <= Change(closes, i, n);
    }
    r := Some(Character(closes[|closes| - 1] / closes[0] - 1.0, dd));
  }
}
