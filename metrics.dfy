/**
 * The trip statistics derived from the samples played so far
 * (src/pages/Index.tsx): distance, average and maximum speed over
 * `data[0..currentIndex]`, and the elapsed time.
 */
module Metrics {
  import opened Samples

  /**
   * The indices the statistics accept: the index is either not positive
   * (the statistics are then forced to 0) or names a sample.
   */
  predicate IndexInRange(data: seq<Sample>, currentIndex: int) {
    currentIndex <= 0 || currentIndex < |data|
  }

  /** `samples.map((d) => d.speed)`. */
  function Speeds(samples: seq<Sample>): (speeds: seq<real>)
    ensures |speeds| == |samples|
    ensures forall i :: 0 <= i < |samples| ==> speeds[i] == samples[i].speed
  {
    if samples == [] then [] else [samples[0].speed] + Speeds(samples[1..])
  }

  /** `reduce((sum, x) => sum + x, 0)`, folding from the left. */
  function Sum(xs: seq<real>): real {
    if xs == [] then 0.0 else Sum(xs[..|xs| - 1]) + xs[|xs| - 1]
  }

  /** `Math.max(...xs)` on a non-empty list: an element that no element exceeds. */
  function Max(xs: seq<real>): (m: real)
    requires xs != []
    ensures m in xs
    ensures forall i :: 0 <= i < |xs| ==> xs[i] <= m
  {
    if |xs| == 1 then xs[0]
    else
      var rest := Max(xs[1..]);
      if xs[0] >= rest then xs[0] else rest
  }

  /**
   * `avgSpeed`: the mean speed of samples 0 to `currentIndex`, both ends
   * included, and 0 while the index is not positive.
   */
  function AvgSpeed(data: seq<Sample>, currentIndex: int): (avg: real)
    requires IndexInRange(data, currentIndex)
    ensures currentIndex <= 0 ==> avg == 0.0
    ensures currentIndex > 0 ==> avg * (currentIndex + 1) as real == Sum(Speeds(data[..currentIndex + 1]))
  {
    if currentIndex > 0 then Sum(Speeds(data[..currentIndex + 1])) / (currentIndex + 1) as real
    else 0.0
  }

  /**
   * `maxSpeed`: the highest speed among samples 0 to `currentIndex`, and 0
   * while the index is not positive.
   */
  function MaxSpeed(data: seq<Sample>, currentIndex: int): (top: real)
    requires IndexInRange(data, currentIndex)
    ensures currentIndex <= 0 ==> top == 0.0
    ensures currentIndex > 0 ==> forall i :: 0 <= i <= currentIndex ==> data[i].speed <= top
    ensures currentIndex > 0 ==> exists i :: 0 <= i <= currentIndex && data[i].speed == top
  {
    if currentIndex > 0 then
      var speeds := Speeds(data[..currentIndex + 1]);
      var top := Max(speeds);
      assert forall i :: 0 <= i <= currentIndex ==> speeds[i] == data[i].speed;
      top
    else 0.0
  }

  /** A sum of values none of which exceeds `bound` is at most `bound` per value. */
  lemma {:induction false} SumAtMostCountTimesBound(xs: seq<real>, bound: real)
    requires forall i :: 0 <= i < |xs| ==> xs[i] <= bound
    ensures Sum(xs) <= |xs| as real * bound
  {
    if xs != [] {
      SumAtMostCountTimesBound(xs[..|xs| - 1], bound);
    }
  }

  /** The average speed shown never exceeds the maximum speed shown. */
  lemma {:induction false} AvgAtMostMax(data: seq<Sample>, currentIndex: int)
    requires IndexInRange(data, currentIndex)
    ensures AvgSpeed(data, currentIndex) <= MaxSpeed(data, currentIndex)
  {
    if currentIndex > 0 {
      var speeds := Speeds(data[..currentIndex + 1]);
      var top := MaxSpeed(data, currentIndex);
      var n := (currentIndex + 1) as real;
      SumAtMostCountTimesBound(speeds, top);
      assert AvgSpeed(data, currentIndex) * n <= n * top;
    }
  }

  /**
   * Length of the path through samples 0 to `k`, each leg measured by `leg`
   * (the source measures a leg as 111 times the Euclidean distance of the
   * two coordinate pairs).
   */
  function PathLength(data: seq<Sample>, leg: (Sample, Sample) -> real, k: int): real
    requires IndexInRange(data, k)
    decreases k
  {
    if k <= 0 then 0.0 else PathLength(data, leg, k - 1) + leg(data[k - 1], data[k])
  }

  /** With legs of non-negative length, no path is negative. */
  lemma {:induction false} PathLengthNonNegative(data: seq<Sample>, leg: (Sample, Sample) -> real, k: int)
    requires forall a, b :: leg(a, b) >= 0.0
    requires IndexInRange(data, k)
    ensures PathLength(data, leg, k) >= 0.0
    decreases k
  {
    if k > 0 {
      PathLengthNonNegative(data, leg, k - 1);
    }
  }

  /** With legs of non-negative length, the path only grows as the index advances. */
  lemma {:induction false} PathLengthGrows(data: seq<Sample>, leg: (Sample, Sample) -> real, j: int, k: int)
    requires forall a, b :: leg(a, b) >= 0.0
    requires j <= k && IndexInRange(data, k)
    ensures PathLength(data, leg, j) <= PathLength(data, leg, k)
    decreases k - j
  {
    if j < k {
      PathLengthGrows(data, leg, j, k - 1);
      if k <= 0 {
        assert PathLength(data, leg, k - 1) == 0.0;
      }
    }
  }

  /**
   * `calculateDistance` as written: its loop runs `i` from 1 while
   * `i < currentIndex`, so it adds the legs that end at samples 1 to
   * `currentIndex - 1` and leaves out the leg into the current sample.
   */
  method DistanceAsWritten(data: seq<Sample>, currentIndex: int, leg: (Sample, Sample) -> real)
    returns (total: real)
    requires currentIndex <= |data|
    ensures total == PathLength(data, leg, currentIndex - 1)
  {
    total := 0.0;
    var i := 1;
    while i < currentIndex
      invariant 1 <= i && (i <= currentIndex || i == 1)
      invariant total == PathLength(data, leg, i - 1)
    {
      total := total + leg(data[i - 1], data[i]);
      i := i + 1;
    }
  }

  /**
   * The distance travelled to reach the current sample: the same loop run
   * while `i <= currentIndex`, which adds every leg up to the current sample.
   */
  method TraveledDistance(data: seq<Sample>, currentIndex: int, leg: (Sample, Sample) -> real)
    returns (total: real)
    requires IndexInRange(data, currentIndex)
    ensures total == PathLength(data, leg, currentIndex)
  {
    total := 0.0;
    var i := 1;
    while i <= currentIndex
      invariant 1 <= i && (i <= currentIndex + 1 || i == 1)
      invariant total == PathLength(data, leg, i - 1)
    {
      total := total + leg(data[i - 1], data[i]);
      i := i + 1;
    }
  }

  /**
   * The loop as written lags one leg behind the vehicle: at every positive
   * index it misses exactly the leg into the current sample, so one step
   * into the trip it still reports 0 even though the vehicle has moved.
   */
  lemma DistanceAsWrittenMissesLastLeg(data: seq<Sample>, leg: (Sample, Sample) -> real, k: int)
    requires 0 < k < |data|
    ensures PathLength(data, leg, k - 1) + leg(data[k - 1], data[k]) == PathLength(data, leg, k)
    ensures k == 1 && leg(data[0], data[1]) > 0.0 ==> PathLength(data, leg, k - 1) < PathLength(data, leg, k)
  {
  }

  /** `duration = currentIndex * 5`: every sample is taken to last five seconds. */
  function Duration(currentIndex: int): (seconds: int)
    ensures currentIndex >= 0 ==> seconds >= 0 && seconds % 5 == 0
  {
    currentIndex * 5
  }
}
