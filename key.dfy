/** Key selection in `estimar_tom`: the chroma matrix (one row per pitch class, one
    column per time frame) is summed over time, and the pitch class with the largest
    accumulated energy is reported, the first one winning a tie. The chroma transform
    itself is outside the model; its matrix is an input. */
module Key {

  /** The fixed pitch-class names, indexed as the chroma rows are. */
  const PitchClasses: seq<string> := ["C", "C#", "D", "D#", "E", "F", "F#", "G", "G#", "A", "A#", "B"]

  /** `np.sum` over the frames of one chroma row. */
  function Sum(frames: seq<real>): real {
    if frames == [] then 0.0 else Sum(frames[..|frames| - 1]) + frames[|frames| - 1]
  }

  /** The energy of a window split in two is the sum of the energies of the parts. */
  lemma {:induction false} SumAppend(a: seq<real>, b: seq<real>)
    ensures Sum(a + b) == Sum(a) + Sum(b)
    decreases |b|
  {
    if b == [] {
      assert a + b == a;
    } else {
      var b' := b[..|b| - 1];
      assert (a + b)[..|a + b| - 1] == a + b';
      SumAppend(a, b');
    }
  }

  /** A row whose energy is frame by frame at least that of another row accumulates
      at least as much energy. */
  lemma {:induction false} SumMonotone(hi: seq<real>, lo: seq<real>)
    requires |hi| == |lo|
    requires forall t :: 0 <= t < |hi| ==> lo[t] <= hi[t]
    ensures Sum(lo) <= Sum(hi)
    decreases |hi|
  {
    if hi != [] {
      SumMonotone(hi[..|hi| - 1], lo[..|lo| - 1]);
    }
  }

  /** `np.sum(chroma, axis=1)` */
  function ChromaSums(chroma: seq<seq<real>>): (sums: seq<real>)
    ensures |sums| == |chroma|
  {
    seq(|chroma|, k requires 0 <= k < |chroma| => Sum(chroma[k]))
  }

  /** `i` is where `argmax` stops: a maximum of `s`, and strictly above every earlier value. */
  ghost predicate IsFirstMax(s: seq<real>, i: int) {
    0 <= i < |s|
    && (forall j :: 0 <= j < |s| ==> s[j] <= s[i])
    && (forall j :: 0 <= j < i ==> s[j] < s[i])
  }

  /** `argmax`: the index of the first maximal value. */
  method ArgMax(s: seq<real>) returns (idx: nat)
    requires |s| > 0
    ensures idx < |s|
    ensures forall j :: 0 <= j < |s| ==> s[j] <= s[idx]
    ensures forall j :: 0 <= j < idx ==> s[j] < s[idx]
  {
    idx := 0;
    for k := 1 to |s|
      invariant idx < k
      invariant forall j :: 0 <= j < k ==> s[j] <= s[idx]
      invariant forall j :: 0 <= j < idx ==> s[j] < s[idx]
    {
      if s[k] > s[idx] {
        idx := k;
      }
    }
  }

  /** At most one index is the first maximum, so the reported key is determined by the sums. */
  lemma FirstMaxUnique(s: seq<real>, i: int, j: int)
    requires IsFirstMax(s, i) && IsFirstMax(s, j)
    ensures i == j
  {
    assert s[i] == s[j];
  }

  /** If one pitch class dominates another frame by frame, and comes first, the other
      one is never reported. */
  lemma {:induction false} DominatedNeverFirstMax(chroma: seq<seq<real>>, hi: nat, lo: nat)
    requires hi < lo < |chroma|
    requires |chroma[hi]| == |chroma[lo]|
    requires forall t :: 0 <= t < |chroma[hi]| ==> chroma[lo][t] <= chroma[hi][t]
    ensures !IsFirstMax(ChromaSums(chroma), lo)
  {
    SumMonotone(chroma[hi], chroma[lo]);
    var sums := ChromaSums(chroma);
    assert sums[lo] <= sums[hi];
  }

  /** `estimar_tom` after the chroma transform: the name of the first pitch class with
      maximal energy summed over time. */
  method EstimateKey(chroma: seq<seq<real>>) returns (key: string)
    requires |chroma| == |PitchClasses|
    ensures key in PitchClasses
    ensures exists i :: IsFirstMax(ChromaSums(chroma), i) && key == PitchClasses[i]
  {
    var sums := ChromaSums(chroma);
    var idx := ArgMax(sums);
    key := PitchClasses[idx];
    assert IsFirstMax(sums, idx);
  }

  /** One frame in which C carries 10 and every other pitch class 2: the key is C. */
  method DominantC() returns (key: string)
    ensures key == "C"
  {
    var chroma := [[10.0]] + seq(11, _ => [2.0]);
    key := EstimateKey(chroma);
    ghost var sums := ChromaSums(chroma);
    assert sums[0] == 10.0;
    forall i | 1 <= i < 12 ensures !IsFirstMax(sums, i) {
      assert sums[i] == Sum([2.0]) == 2.0;
    }
  }
}
