/**
 * The playback controller of the dashboard page (src/pages/Index.tsx): the
 * loaded samples, the index of the sample on show, whether playback runs,
 * the speed multiplier and the trail drawn behind the vehicle.
 *
 * The transitions are first given as functions on a state value; the class
 * `Player` then holds the same five state cells as fields and updates them
 * in place, each method proved to perform the matching transition.
 */
module Playback {
  import opened Samples

  /** A map coordinate in the order the map library wants: longitude first. */
  datatype LngLat = LngLat(longitude: real, latitude: real)

  /** `[d.longitude, d.latitude]`: where a sample is drawn. */
  function Position(d: Sample): LngLat {
    LngLat(d.longitude, d.latitude)
  }

  /** `route = data.map((d) => [d.longitude, d.latitude])`: one point per sample, in order. */
  function Route(data: seq<Sample>): (route: seq<LngLat>)
    ensures |route| == |data|
    ensures forall i :: 0 <= i < |data| ==> route[i] == Position(data[i])
  {
    seq(|data|, i requires 0 <= i < |data| => Position(data[i]))
  }

  /** Drawing a prefix of the samples draws a prefix of the route. */
  lemma RouteOfPrefix(data: seq<Sample>, k: nat)
    requires k <= |data|
    ensures Route(data[..k]) == Route(data)[..k]
  {
  }

  /** A slice one element longer ends with that element. */
  lemma SliceGrows<T>(xs: seq<T>, i: nat, k: nat)
    requires i <= k < |xs|
    ensures xs[i..k + 1] == xs[i..k] + [xs[k]]
  {
  }

  /** `data.slice(0, end)`: JavaScript clamps an end past the last sample. */
  function Prefix(data: seq<Sample>, end: nat): (p: seq<Sample>)
    ensures |p| == if end <= |data| then end else |data|
    ensures p <= data
  {
    if end <= |data| then data[..end] else data
  }

  datatype PlaybackState = PlaybackState(
    data: seq<Sample>,
    currentIndex: int,
    isPlaying: bool,
    playbackSpeed: real,
    trail: seq<LngLat>)

  /**
   * The invariant of the controller with the corrected scrub (`Scrubbed`):
   * every state it reaches is valid. The index names a sample (it is 0
   * while there is none), and the trail is the route from either sample 0 or
   * sample 1 up to and including the current sample: a scrub draws the
   * route from sample 0, while reset empties the trail and the ticks after
   * it add samples from 1 on. With the scrub as written the page can also
   * reach index -1; `AsWrittenState` covers that.
   */
  ghost predicate ValidState(s: PlaybackState) {
    0 <= s.currentIndex
    && (s.data == [] ==> s.currentIndex == 0 && s.trail == [])
    && (s.data != [] ==>
          s.currentIndex < |s.data|
          && (s.trail == Route(s.data)[..s.currentIndex + 1]
              || s.trail == Route(s.data)[1..s.currentIndex + 1]))
  }

  /** The state at mount (lines 17-21): no samples, index 0, paused, speed 1, no trail. */
  function Initial(): PlaybackState {
    PlaybackState([], 0, false, 1.0, [])
  }

  /** `setData(parsed)` once the trip file has been read. */
  function Loaded(s: PlaybackState, parsed: seq<Sample>): PlaybackState {
    s.(data := parsed)
  }

  /**
   * One timer tick (lines 42-55). The timer runs only while playback is on
   * and samples exist. A tick moves to the next sample and draws it; at the
   * last sample it leaves index and trail alone and stops playback. From
   * index -1, left by a scrub before the samples loaded, it moves to sample 0.
   * A tick never changes the samples or the speed, never starts playback,
   * and moves the index by at most one.
   */
  function Ticked(s: PlaybackState): (t: PlaybackState)
    requires -1 <= s.currentIndex
    ensures t.data == s.data && t.playbackSpeed == s.playbackSpeed
    ensures t.isPlaying ==> s.isPlaying
    ensures t.currentIndex == s.currentIndex || t.currentIndex == s.currentIndex + 1
  {
    if !s.isPlaying || |s.data| == 0 then s
    else
      var next := s.currentIndex + 1;
      if next >= |s.data| then s.(isPlaying := false)
      else s.(currentIndex := next, trail := s.trail + [Position(s.data[next])])
  }

  /** `handleReset` (lines 91-95): back to the first sample, paused, with an empty trail. */
  function ResetState(s: PlaybackState): PlaybackState {
    s.(currentIndex := 0, isPlaying := false, trail := [])
  }

  /**
   * `Math.floor((progress / 100) * (data.length - 1))` as written (line 98),
   * over exact arithmetic: Dafny's `/` by a positive divisor is a floor.
   */
  function ScrubIndexAsWritten(progress: int, count: nat): int {
    (progress * (count - 1)) / 100
  }

  /** With no samples loaded the formula as written yields index -1. */
  lemma ScrubAsWrittenBeforeLoad(progress: int)
    requires 0 < progress <= 100
    ensures ScrubIndexAsWritten(progress, 0) == -1
  {
  }

  /** The bound on the scaled progress that keeps `ScrubIndex` within the samples. */
  lemma ScaledProgressBound(progress: int, last: nat)
    requires 0 <= progress <= 100
    ensures 0 <= progress * last <= 100 * last
  {
  }

  /**
   * The range of the formula as written: an index of a sample on a loaded
   * trip, and 0 (slider at 0) or -1 (any other position) with no samples.
   */
  lemma ScrubIndexAsWrittenRange(progress: int, count: nat)
    requires 0 <= progress <= 100
    ensures -1 <= ScrubIndexAsWritten(progress, count)
    ensures count > 0 ==> 0 <= ScrubIndexAsWritten(progress, count) < count
    ensures count == 0 ==> ScrubIndexAsWritten(progress, count) == if progress == 0 then 0 else -1
  {
    if count > 0 {
      ScaledProgressBound(progress, count - 1);
    }
  }

  /**
   * The index the slider selects: the largest index whose share of the trip
   * does not exceed `progress` percent; with no samples it stays at 0.
   */
  function ScrubIndex(progress: int, count: nat): (index: int)
    requires 0 <= progress <= 100
    ensures 0 <= index
    ensures count == 0 ==> index == 0
    ensures count > 0 ==> index < count
    ensures count > 0 ==> index * 100 <= progress * (count - 1) < (index + 1) * 100
    ensures progress == 0 ==> index == 0
    ensures progress == 100 && count > 0 ==> index == count - 1
  {
    if count == 0 then 0
    else
      ScaledProgressBound(progress, count - 1);
      ScrubIndexAsWritten(progress, count)
  }

  /**
   * `handleProgressChange` (lines 97-101): jump to the selected sample and
   * redraw the trail as the route up to and including it. Playing state and
   * speed are left alone.
   */
  function Scrubbed(s: PlaybackState, progress: int): PlaybackState
    requires 0 <= progress <= 100
  {
    var index := ScrubIndex(progress, |s.data|);
    s.(currentIndex := index, trail := Route(Prefix(s.data, index + 1)))
  }

  /**
   * `handleProgressChange` exactly as written: with no samples the index
   * becomes -1 (or 0 with the slider at 0) and `slice(0, 0)` gives an
   * empty trail.
   */
  function ScrubbedAsWritten(s: PlaybackState, progress: int): PlaybackState
    requires 0 <= progress <= 100
  {
    var index := ScrubIndexAsWritten(progress, |s.data|);
    ScrubIndexAsWrittenRange(progress, |s.data|);
    s.(currentIndex := index, trail := Route(Prefix(s.data, index + 1)))
  }

  /**
   * On a loaded trip the scrub as written and the corrected scrub are the
   * same transition; they differ only while no sample is loaded.
   */
  lemma ScrubAsWrittenOnLoadedTrip(s: PlaybackState, progress: int)
    requires s.data != [] && 0 <= progress <= 100
    ensures ScrubbedAsWritten(s, progress) == Scrubbed(s, progress)
    ensures ScrubIndexAsWritten(progress, |s.data|) == ScrubIndex(progress, |s.data|)
  {
  }

  /**
   * What every state of the page as written satisfies: a valid state, or the
   * index -1 with an empty trail that a scrub before the samples load leaves
   * behind (and that the load then carries into the trip).
   */
  ghost predicate AsWrittenState(s: PlaybackState) {
    ValidState(s) || (s.currentIndex == -1 && s.trail == [])
  }

  /** The play/pause button (line 125). */
  function Toggled(s: PlaybackState): PlaybackState {
    s.(isPlaying := !s.isPlaying)
  }

  /** A speed button (line 127): only the period of later ticks changes. */
  function WithSpeed(s: PlaybackState, speed: real): PlaybackState {
    s.(playbackSpeed := speed)
  }

  /** The speeds the controls offer. */
  predicate OfferedSpeed(speed: real) {
    speed == 0.5 || speed == 1.0 || speed == 2.0 || speed == 4.0
  }

  /**
   * `k` ticks in a row: samples and speed are untouched, and the index moves
   * forward by at most `k`.
   */
  function Ticks(s: PlaybackState, k: nat): (t: PlaybackState)
    requires -1 <= s.currentIndex
    ensures t.data == s.data && t.playbackSpeed == s.playbackSpeed
    ensures s.currentIndex <= t.currentIndex <= s.currentIndex + k
  {
    if k == 0 then s else Ticked(Ticks(s, k - 1))
  }

  lemma InitialValid()
    ensures ValidState(Initial())
  {
  }

  /** Loading the samples into the fresh page keeps the invariant. */
  lemma LoadPreservesValid(s: PlaybackState, parsed: seq<Sample>)
    requires ValidState(s) && s.data == []
    ensures ValidState(Loaded(s, parsed))
  {
  }

  /** A tick keeps the index on a sample and the trail on the route. */
  lemma TickPreservesValid(s: PlaybackState)
    requires ValidState(s)
    ensures ValidState(Ticked(s))
  {
    if s.isPlaying && s.currentIndex + 1 < |s.data| {
      SliceGrows(Route(s.data), 0, s.currentIndex + 1);
      SliceGrows(Route(s.data), 1, s.currentIndex + 1);
    }
  }

  /** Reset keeps the invariant, from any valid state. */
  lemma ResetPreservesValid(s: PlaybackState)
    requires ValidState(s)
    ensures ValidState(ResetState(s))
  {
  }

  /** A scrub keeps the invariant: it draws the route from sample 0. */
  lemma ScrubPreservesValid(s: PlaybackState, progress: int)
    requires ValidState(s) && 0 <= progress <= 100
    ensures ValidState(Scrubbed(s, progress))
  {
  }

  lemma ToggleAndSpeedPreserveValid(s: PlaybackState, speed: real)
    requires ValidState(s)
    ensures ValidState(Toggled(s)) && ValidState(WithSpeed(s, speed))
  {
  }

  /**
   * The scrub as written keeps `AsWrittenState`: on a loaded trip it is the
   * corrected scrub, and with no samples it leaves index 0 or -1 and an
   * empty trail.
   */
  lemma AsWrittenScrubKeepsState(s: PlaybackState, progress: int)
    requires AsWrittenState(s) && 0 <= progress <= 100
    ensures AsWrittenState(ScrubbedAsWritten(s, progress))
  {
    if s.data != [] {
      ScrubAsWrittenOnLoadedTrip(s, progress);
      ScrubPreservesValid(s.(currentIndex := 0, trail := []), progress);
      assert Scrubbed(s, progress) == Scrubbed(s.(currentIndex := 0, trail := []), progress);
    }
  }

  /** A tick keeps `AsWrittenState`; from index -1 it draws sample 0. */
  lemma AsWrittenTickKeepsState(s: PlaybackState)
    requires AsWrittenState(s)
    ensures AsWrittenState(Ticked(s))
  {
    if ValidState(s) {
      TickPreservesValid(s);
    } else if s.isPlaying && s.data != [] {
      assert Ticked(s).trail == Route(s.data)[..1];
    }
  }

  /** Loading the fresh page, reset, play/pause and a speed change keep `AsWrittenState`. */
  lemma AsWrittenControlsKeepState(s: PlaybackState, parsed: seq<Sample>, speed: real)
    requires AsWrittenState(s)
    ensures s.data == [] ==> AsWrittenState(Loaded(s, parsed))
    ensures AsWrittenState(ResetState(s))
    ensures AsWrittenState(Toggled(s)) && AsWrittenState(WithSpeed(s, speed))
  {
  }

  /**
   * A scrub before the samples load, then the load: the trip starts at
   * index -1 with an empty trail, which is not a valid state. The first
   * tick of playback moves to sample 0 and draws it, and the state is
   * valid again.
   */
  lemma ScrubBeforeLoadCarriesOver(parsed: seq<Sample>, progress: int)
    requires parsed != [] && 0 < progress <= 100
    ensures var t := Loaded(ScrubbedAsWritten(Initial(), progress), parsed);
      t.currentIndex == -1 && t.trail == [] && !ValidState(t) && AsWrittenState(t)
      && t.data == parsed && !t.isPlaying
    ensures var u := Ticked(Toggled(Loaded(ScrubbedAsWritten(Initial(), progress), parsed)));
      u.currentIndex == 0 && u.trail == [Position(parsed[0])] && ValidState(u)
  {
    ScrubAsWrittenBeforeLoad(progress);
  }

  /**
   * A tick while playing with a next sample: the index moves by exactly one
   * and exactly the next sample's position is appended; nothing else changes.
   */
  lemma TickAdvances(s: PlaybackState)
    requires ValidState(s) && s.isPlaying && s.currentIndex + 1 < |s.data|
    ensures Ticked(s) == s.(currentIndex := s.currentIndex + 1,
                           trail := s.trail + [Position(s.data[s.currentIndex + 1])])
  {
  }

  /**
   * A tick at the last sample stops playback and moves nothing; a tick while
   * paused or without samples changes nothing at all.
   */
  lemma TickStopsAtLastSample(s: PlaybackState)
    requires ValidState(s)
    ensures (s.isPlaying && s.data != [] && s.currentIndex == |s.data| - 1)
              ==> Ticked(s) == s.(isPlaying := false)
    ensures (!s.isPlaying || s.data == []) ==> Ticked(s) == s
  {
  }

  /** Reset from any state lands on the same state, so reset is idempotent. */
  lemma ResetIdempotent(s: PlaybackState)
    ensures ResetState(s).currentIndex == 0 && !ResetState(s).isPlaying && ResetState(s).trail == []
    ensures ResetState(ResetState(s)) == ResetState(s)
  {
  }

  /**
   * Scrubbing to a progress leaves playing state, speed and samples alone and
   * draws the route from sample 0 up to and including the new index.
   */
  lemma ScrubDrawsRoutePrefix(s: PlaybackState, progress: int)
    requires s.data != [] && 0 <= progress <= 100
    ensures var r := Scrubbed(s, progress);
      r.isPlaying == s.isPlaying && r.playbackSpeed == s.playbackSpeed && r.data == s.data
      && r.currentIndex == ScrubIndex(progress, |s.data|)
      && r.trail == Route(s.data)[..r.currentIndex + 1]
      && |r.trail| == r.currentIndex + 1
      && r.trail[0] == Position(s.data[0])
  {
  }

  /** Reset and play leave index 0 and an empty trail: the route from sample 1 to sample 0. */
  lemma NoTicksFromEmptyTrail(start: PlaybackState)
    requires start.currentIndex == 0 && start.trail == [] && start.data != []
    ensures Ticks(start, 0) == start.(currentIndex := 0, trail := Route(start.data)[1..1])
  {
  }

  /**
   * One tick of playback from reset: from sample `j` with the route from
   * sample 1 drawn, the vehicle moves to sample `j + 1` and the trail grows
   * by its point.
   */
  lemma TickExtendsTrailFromOne(start: PlaybackState, j: nat)
    requires j + 1 < |start.data| && start.isPlaying && 0 <= start.currentIndex
    requires Ticks(start, j) == start.(currentIndex := j, trail := Route(start.data)[1..j + 1])
    ensures Ticks(start, j + 1) == start.(currentIndex := j + 1, trail := Route(start.data)[1..j + 2])
  {
    var before := Ticks(start, j);
    assert Ticks(start, j + 1) == Ticked(before);
    SliceGrows(Route(start.data), 1, j + 1);
  }

  /**
   * Playback from index 0 with an empty trail, as reset and play leave it:
   * after `k` ticks the vehicle is at sample `k` and the trail is the route
   * from sample 1 to sample `k`.
   */
  lemma {:induction false} TicksFromEmptyTrail(start: PlaybackState, k: nat)
    requires start.isPlaying
    requires start.currentIndex == 0 && start.trail == [] && k < |start.data|
    ensures Ticks(start, k) == start.(currentIndex := k, trail := Route(start.data)[1..k + 1])
  {
    if k == 0 {
      NoTicksFromEmptyTrail(start);
    } else {
      TicksFromEmptyTrail(start, k - 1);
      TickExtendsTrailFromOne(start, k - 1);
    }
  }

  /**
   * However many ticks fire, the state stays valid and the index stays on
   * a sample.
   */
  lemma {:induction false} TicksPreserveValid(s: PlaybackState, k: nat)
    requires ValidState(s)
    ensures ValidState(Ticks(s, k))
    ensures s.data != [] ==> 0 <= Ticks(s, k).currentIndex < |s.data|
  {
    if k > 0 {
      TicksPreserveValid(s, k - 1);
      TickPreservesValid(Ticks(s, k - 1));
    }
  }

  /**
   * Reset, play, then `k` ticks: the vehicle is at sample `k` and the trail
   * is the route from sample 1 to sample `k`. Sample 0 is never drawn, so the
   * trail is one point shorter than after a scrub to the same index.
   */
  lemma TicksAfterReset(s: PlaybackState, k: nat)
    requires ValidState(s) && k < |s.data|
    ensures ValidState(Toggled(ResetState(s)))
    ensures var t := Ticks(Toggled(ResetState(s)), k);
      t.currentIndex == k && t.isPlaying && t.data == s.data
      && t.trail == Route(s.data)[1..k + 1]
      && |t.trail| == t.currentIndex
  {
    TicksFromEmptyTrail(Toggled(ResetState(s)), k);
  }

  /**
   * Played from reset to the end, playback stops on the last sample with
   * every sample but the first on the trail.
   */
  lemma PlaybackEndsOnLastSample(s: PlaybackState)
    requires ValidState(s) && s.data != []
    ensures var t := Ticks(Toggled(ResetState(s)), |s.data|);
      t.currentIndex == |s.data| - 1 && !t.isPlaying && t.trail == Route(s.data)[1..]
  {
    var start, last := Toggled(ResetState(s)), |s.data| - 1;
    TicksFromEmptyTrail(start, last);
    assert Ticks(start, last + 1) == Ticked(Ticks(start, last));
    assert Route(s.data)[1..last + 1] == Route(s.data)[1..];
  }


  /**
   * The playback controller: the five state cells of the page, updated in
   * place by the timer and the controls.
   */
  class Player {
    var data: seq<Sample>
    var currentIndex: int
    var isPlaying: bool
    var playbackSpeed: real
    var trail: seq<LngLat>

    function State(): PlaybackState
      reads this
    {
      PlaybackState(data, currentIndex, isPlaying, playbackSpeed, trail)
    }

    ghost predicate Valid()
      reads this
    {
      ValidState(State())
    }

    constructor ()
      ensures State() == Initial() && Valid()
    {
      data, currentIndex, isPlaying, playbackSpeed, trail := [], 0, false, 1.0, [];
    }

    /** The loading effect, which runs once at mount. */
    method Load(parsed: seq<Sample>)
      requires Valid() && data == []
      modifies this
      ensures State() == Loaded(old(State()), parsed) && Valid()
    {
      data := parsed;
    }

    /** The interval callback. */
    method Tick()
      requires Valid()
      modifies this
      ensures State() == Ticked(old(State())) && Valid()
    {
      TickPreservesValid(State());
      if !isPlaying || |data| == 0 {
        return;
      }
      var next := currentIndex + 1;
      if next >= |data| {
        isPlaying := false;
        return;
      }
      var point := data[next];
      trail := trail + [LngLat(point.longitude, point.latitude)];
      currentIndex := next;
    }

    method Reset()
      requires Valid()
      modifies this
      ensures State() == ResetState(old(State())) && Valid()
    {
      currentIndex := 0;
      isPlaying := false;
      trail := [];
    }

    /** The slider, which reports whole percentages from 0 to 100. */
    method Scrub(progress: int)
      requires Valid() && 0 <= progress <= 100
      modifies this
      ensures State() == Scrubbed(old(State()), progress) && Valid()
    {
      ScrubPreservesValid(State(), progress);
      var newIndex := ScrubIndex(progress, |data|);
      currentIndex := newIndex;
      trail := Route(Prefix(data, newIndex + 1));
    }

    method TogglePlay()
      requires Valid()
      modifies this
      ensures State() == Toggled(old(State())) && Valid()
    {
      isPlaying := !isPlaying;
    }

    method SetSpeed(speed: real)
      requires Valid() && OfferedSpeed(speed)
      modifies this
      ensures State() == WithSpeed(old(State()), speed) && Valid()
    {
      playbackSpeed := speed;
    }
  }
}
