/** Post-processing of the beat tracker's tempo in `estimar_bpm_multiplos`: the primary
    tempo and its half and double are kept when they lie in the plausible BPM range,
    rounded, deduplicated and sorted. The beat tracker itself is outside the model;
    its primary estimate is an input. */
module Tempo {

  const MinBpm: int := 40
  const MaxBpm: int := 240

  /** The range test of the source, applied to the unrounded value. */
  predicate InRange(x: real) {
    MinBpm as real <= x <= MaxBpm as real
  }

  /** Python's built-in `round` with no digits: the nearest integer, ties to the even one. */
  function Round(x: real): (n: int)
    ensures -0.5 <= x - n as real <= 0.5
    ensures x - n as real == 0.5 || n as real - x == 0.5 ==> n % 2 == 0
  {
    var f := x.Floor;
    var d := x - f as real;
    if d < 0.5 then f
    else if d > 0.5 then f + 1
    else if f % 2 == 0 then f
    else f + 1
  }

  /** Rounding a value of the closed range [lo, hi] with integer ends stays in that range. */
  lemma RoundWithin(x: real, lo: int, hi: int)
    requires lo as real <= x <= hi as real
    ensures lo <= Round(x) <= hi
  {
  }

  /** The primary tempo with its half- and double-tempo variants, in the source's order. */
  function Octaves(primary: real): seq<real> {
    [primary, primary / 2.0, primary * 2.0]
  }

  /** The values of `xs` that pass the range test. */
  function KeepInRange(xs: seq<real>): (r: seq<real>)
    ensures |r| <= |xs|
    ensures forall x :: x in r <==> x in xs && InRange(x)
  {
    if xs == [] then []
    else
      var last := xs[|xs| - 1];
      assert xs == xs[..|xs| - 1] + [last];
      KeepInRange(xs[..|xs| - 1]) + (if InRange(last) then [last] else [])
  }

  /** `[round(b) for b in xs]` */
  function RoundAll(xs: seq<real>): seq<int> {
    seq(|xs|, i requires 0 <= i < |xs| => Round(xs[i]))
  }

  predicate StrictlyIncreasing(s: seq<int>) {
    forall i, j :: 0 <= i < j < |s| ==> s[i] < s[j]
  }

  /** Adds `x` to a strictly increasing sequence unless it is already there. */
  function InsertSorted(s: seq<int>, x: int): (r: seq<int>)
    requires StrictlyIncreasing(s)
    ensures StrictlyIncreasing(r)
    ensures forall y :: y in r <==> y in s || y == x
    ensures |r| <= |s| + 1
  {
    if s == [] then [x]
    else if x < s[0] then [x] + s
    else if x == s[0] then s
    else
      var rest := InsertSorted(s[1..], x);
      assert forall y :: y in rest ==> s[0] < y;
      [s[0]] + rest
  }

  /** `sorted(set(xs))`: the distinct values of `xs` in ascending order. */
  function SortedDistinct(xs: seq<int>): (r: seq<int>)
    ensures StrictlyIncreasing(r)
    ensures forall y :: y in r <==> y in xs
    ensures |r| <= |xs|
  {
    if xs == [] then []
    else
      var last := xs[|xs| - 1];
      assert xs == xs[..|xs| - 1] + [last];
      InsertSorted(SortedDistinct(xs[..|xs| - 1]), last)
  }

  /** A strictly increasing sequence is determined by the set of its values. */
  lemma {:induction false} StrictlyIncreasingUnique(a: seq<int>, b: seq<int>)
    requires StrictlyIncreasing(a) && StrictlyIncreasing(b)
    requires forall y :: y in a <==> y in b
    ensures a == b
  {
    if a == [] {
      assert forall i :: 0 <= i < |b| ==> b[i] in a;
    } else {
      assert a[0] in a && b[0] in b;
      assert a[0] == b[0];
      forall y ensures y in a[1..] <==> y in b[1..] {
        assert y in a[1..] <==> y in a && y != a[0];
        assert y in b[1..] <==> y in b && y != b[0];
      }
      StrictlyIncreasingUnique(a[1..], b[1..]);
      assert a == [a[0]] + a[1..];
      assert b == [b[0]] + b[1..];
    }
  }

  /** The result of the source's post-processing for primary tempo `primary`. */
  function TempoCandidates(primary: real): seq<int> {
    SortedDistinct(RoundAll(KeepInRange(Octaves(primary))))
  }

  /** `b` is the rounding of one of the three octave variants that passed the range test. */
  predicate FromOctave(primary: real, b: int) {
    (InRange(primary) && b == Round(primary))
    || (InRange(primary / 2.0) && b == Round(primary / 2.0))
    || (InRange(primary * 2.0) && b == Round(primary * 2.0))
  }

  /** Every candidate is an integer BPM in [40, 240]; candidates strictly increase,
      so they hold no duplicate; there are at most three; and `b` is a candidate exactly
      when it is the rounding of an in-range octave variant. */
  lemma {:induction false} TempoCandidatesSpec(primary: real)
    ensures StrictlyIncreasing(TempoCandidates(primary))
    ensures |TempoCandidates(primary)| <= 3
    ensures forall b :: b in TempoCandidates(primary) ==> MinBpm <= b <= MaxBpm
    ensures forall b :: b in TempoCandidates(primary) <==> FromOctave(primary, b)
  {
    var kept := KeepInRange(Octaves(primary));
    var rounded := RoundAll(kept);
    forall b | b in rounded ensures FromOctave(primary, b) {
      var i :| 0 <= i < |kept| && rounded[i] == b;
      assert kept[i] in Octaves(primary);
    }
    forall b | FromOctave(primary, b) ensures b in rounded {
      var x :| x in Octaves(primary) && InRange(x) && b == Round(x);
      assert x in kept;
      var i :| 0 <= i < |kept| && kept[i] == x;
      assert rounded[i] == b;
    }
    forall b | b in TempoCandidates(primary) ensures MinBpm <= b <= MaxBpm {
      var x :| x in Octaves(primary) && InRange(x) && b == Round(x);
      RoundWithin(x, MinBpm, MaxBpm);
    }
  }

  /** The candidates are the one strictly increasing sequence whose values are the
      roundings of the in-range octave variants. */
  lemma {:induction false} TempoCandidatesAre(primary: real, expected: seq<int>)
    requires StrictlyIncreasing(expected)
    requires forall b :: b in expected <==> FromOctave(primary, b)
    ensures TempoCandidates(primary) == expected
  {
    TempoCandidatesSpec(primary);
    StrictlyIncreasingUnique(TempoCandidates(primary), expected);
  }

  /** All three variants of 100 BPM are plausible. */
  lemma Primary100()
    ensures TempoCandidates(100.0) == [50, 100, 200]
  {
    assert Round(100.0) == 100 && Round(50.0) == 50 && Round(200.0) == 200;
    TempoCandidatesAre(100.0, [50, 100, 200]);
  }

  /** The double of 130 BPM is 260, above the range, so only two candidates remain. */
  lemma Primary130()
    ensures TempoCandidates(130.0) == [65, 130]
  {
    assert Round(130.0) == 130 && Round(65.0) == 65;
    TempoCandidatesAre(130.0, [65, 130]);
  }

  /** A primary tempo below the range contributes only its double. */
  lemma Primary30()
    ensures TempoCandidates(30.0) == [60]
  {
    assert Round(60.0) == 60;
    TempoCandidatesAre(30.0, [60]);
  }

  /** A primary tempo above the range contributes only its half. */
  lemma Primary300()
    ensures TempoCandidates(300.0) == [150]
  {
    assert Round(150.0) == 150;
    TempoCandidatesAre(300.0, [150]);
  }

  /** No variant of 500 BPM is plausible: the result is empty, not an error. */
  lemma Primary500()
    ensures TempoCandidates(500.0) == []
  {
    TempoCandidatesAre(500.0, []);
  }

  /** The half of 81 is 40.5, which passes the range test and rounds to the even 40. */
  lemma Primary81()
    ensures TempoCandidates(81.0) == [40, 81, 162]
  {
    assert Round(40.5) == 40 && Round(81.0) == 81 && Round(162.0) == 162;
    TempoCandidatesAre(81.0, [40, 81, 162]);
  }

  /** The range test looks at the unrounded value: 240.5 is rejected although it would
      round to 240, and 39.5 is rejected although it would round to 40. */
  lemma RangeTestBeforeRounding()
    ensures TempoCandidates(481.0) == []
    ensures TempoCandidates(79.0) == [79, 158]
  {
    assert Round(240.5) == 240 && Round(39.5) == 40;
    TempoCandidatesAre(481.0, []);
    assert Round(79.0) == 79 && Round(158.0) == 158;
    TempoCandidatesAre(79.0, [79, 158]);
  }

  /** `estimar_bpm_multiplos` after the beat tracker: the candidate loop appends the
      in-range variants, then the survivors are rounded, deduplicated and sorted. */
  method EstimateBpmCandidates(primary: real) returns (bpms: seq<int>)
    ensures bpms == TempoCandidates(primary)
    ensures StrictlyIncreasing(bpms) && |bpms| <= 3
    ensures forall b :: b in bpms ==> MinBpm <= b <= MaxBpm
    ensures forall b :: b in bpms <==> FromOctave(primary, b)
  {
    var half := primary / 2.0;
    var double := primary * 2.0;
    var candidates := [primary, half, double];
    var filtered: seq<real> := [];
    for i := 0 to |candidates|
      invariant filtered == KeepInRange(candidates[..i])
    {
      var val := candidates[i];
      assert candidates[..i + 1] == candidates[..i] + [val];
      if MinBpm as real <= val <= MaxBpm as real {
        filtered := filtered + [val];
      }
    }
    assert candidates[..|candidates|] == Octaves(primary);
    bpms := SortedDistinct(RoundAll(filtered));
    TempoCandidatesSpec(primary);
  }
}
