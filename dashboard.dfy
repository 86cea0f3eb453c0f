/**
 * What the dashboard page shows for a playback state (src/pages/Index.tsx,
 * lines 61-68 and 134-148): the speed gauge, the statistics grid and its
 * clock, all read from the sample at the current index.
 */
module Dashboard {
  import opened Samples
  import opened Playback
  import Metrics
  import TripStats
  import SpeedDisplay

  /**
   * `currentPosition?.speed || 0`: the speed of the sample on show, or 0
   * when the index names no sample. In a valid state with samples the
   * index always names one, so the fallback shows only before loading.
   */
  function DisplayedSpeed(s: PlaybackState): (speed: real)
    ensures ValidState(s) && s.data != [] ==> speed == s.data[s.currentIndex].speed
    ensures s.data == [] ==> speed == 0.0
  {
    if 0 <= s.currentIndex < |s.data| then s.data[s.currentIndex].speed else 0.0
  }

  /** With no sample on show the gauge shows 0 in the low band. */
  lemma NoPositionShowsLowBand(s: PlaybackState)
    requires !(0 <= s.currentIndex < |s.data|)
    ensures DisplayedSpeed(s) == 0.0
    ensures SpeedDisplay.InBand(DisplayedSpeed(s), SpeedDisplay.Low)
    ensures SpeedDisplay.SpeedColor(DisplayedSpeed(s)) == SpeedDisplay.ColorClass(SpeedDisplay.Low)
  {
  }

  /** In every valid state the statistics are defined and consistent. */
  lemma StatsOfValidState(s: PlaybackState)
    requires ValidState(s)
    ensures Metrics.IndexInRange(s.data, s.currentIndex)
    ensures Metrics.AvgSpeed(s.data, s.currentIndex) <= Metrics.MaxSpeed(s.data, s.currentIndex)
    ensures var clock := TripStats.DurationClock(Metrics.Duration(s.currentIndex));
      clock.minutes * 60 + clock.seconds == 5 * s.currentIndex
      && 0 <= clock.seconds < 60 && clock.seconds % 5 == 0
  {
    Metrics.AvgAtMostMax(s.data, s.currentIndex);
    TripStats.SecondsInFiveSecondSteps(s.currentIndex);
  }

  /**
   * Each tick that moves the vehicle adds exactly five seconds to the trip
   * time, also the first tick from the index -1 a scrub before loading leaves.
   */
  lemma TickAddsFiveSeconds(s: PlaybackState)
    requires -1 <= s.currentIndex
    requires Ticked(s).currentIndex != s.currentIndex
    ensures Metrics.Duration(Ticked(s).currentIndex) == Metrics.Duration(s.currentIndex) + 5
  {
  }

  /** After reset the statistics all show zero and the gauge the first sample (if any). */
  lemma StatsAfterReset(s: PlaybackState)
    ensures var r := ResetState(s);
      Metrics.AvgSpeed(r.data, r.currentIndex) == 0.0
      && Metrics.MaxSpeed(r.data, r.currentIndex) == 0.0
      && TripStats.DurationClock(Metrics.Duration(r.currentIndex)) == TripStats.Clock(0, 0)
      && (s.data != [] ==> DisplayedSpeed(r) == s.data[0].speed)
  {
  }

  /**
   * Two samples at 10 and 20 km/h, one step in: average 15, maximum 20,
   * five seconds played, and the distance loop as written still at 0.
   */
  lemma TwoSampleTrip(leg: (Sample, Sample) -> real)
    ensures var data := [Sample(0.0, 0.0, 0.0, 10.0), Sample(5.0, 0.001, 0.0, 20.0)];
      Metrics.AvgSpeed(data, 1) == 15.0
      && Metrics.MaxSpeed(data, 1) == 20.0
      && TripStats.DurationClock(Metrics.Duration(1)) == TripStats.Clock(0, 5)
      && Metrics.PathLength(data, leg, 1 - 1) == 0.0
      && Metrics.PathLength(data, leg, 1) == leg(data[0], data[1])
  {
    var data := [Sample(0.0, 0.0, 0.0, 10.0), Sample(5.0, 0.001, 0.0, 20.0)];
    assert data[..2] == data;
    assert Metrics.Speeds(data) == [10.0, 20.0];
    assert [10.0, 20.0][..1] == [10.0] && [10.0][..0] == [];
    assert Metrics.Sum([10.0, 20.0]) == 30.0;
  }

  /**
   * The scrub formula as written, moved before any sample has loaded, puts
   * the index at -1 and the clock at "-1m -5s"; the corrected index stays at
   * 0 and the clock at "0m 0s".
   */
  lemma ScrubBeforeLoad(s: PlaybackState)
    requires s.data == []
    ensures ScrubIndexAsWritten(50, |s.data|) == -1
    ensures TripStats.DurationClock(Metrics.Duration(ScrubIndexAsWritten(50, |s.data|))) == TripStats.Clock(-1, -5)
    ensures Scrubbed(s, 50).currentIndex == 0
    ensures TripStats.DurationClock(Metrics.Duration(Scrubbed(s, 50).currentIndex)) == TripStats.Clock(0, 0)
  {
  }

  /**
   * The page as written, scrubbed before the trip loads and then loaded:
   * the gauge shows 0 although sample 0 exists, average and maximum show 0,
   * and the clock shows "-1m -5s" until the first tick.
   */
  lemma DisplayAfterScrubBeforeLoad(parsed: seq<Sample>, progress: int)
    requires parsed != [] && 0 < progress <= 100
    ensures var t := Loaded(ScrubbedAsWritten(Initial(), progress), parsed);
      Metrics.IndexInRange(t.data, t.currentIndex)
      && DisplayedSpeed(t) == 0.0
      && Metrics.AvgSpeed(t.data, t.currentIndex) == 0.0
      && Metrics.MaxSpeed(t.data, t.currentIndex) == 0.0
      && TripStats.DurationClock(Metrics.Duration(t.currentIndex)) == TripStats.Clock(-1, -5)
  {
    ScrubBeforeLoadCarriesOver(parsed, progress);
  }
}
