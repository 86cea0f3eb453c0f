# Vehicle trip playback, modelled in Dafny

The dashboard replays a recorded vehicle trip. It reads a trip file of GPS and
speed samples. A timer then moves a marker from sample to sample and draws the
trail travelled so far. Beside the map it shows the current speed in one of
three colour bands, and four statistics over the samples played so far:
distance, average speed, maximum speed and elapsed time.

This project models the logic under that display:

- `samples.dfy` (module `Samples`): the sample record and the trip-file reader.
  The reader trims the text, splits it into lines, drops the header line and
  reads each remaining line's fields by position.
- `playback.dfy` (module `Playback`): the playback controller. Its state is the
  samples, the current index, the playing flag, the speed multiplier and the
  trail. The transitions are tick, reset, scrub, play/pause, speed change and
  load. Each is a function on a state value, with its invariant and
  properties proved as lemmas. The class `Player` holds the same five state
  cells as fields and updates them in place. Each of its methods is proved to
  perform the matching transition and to keep the invariant.
- `metrics.dfy` (module `Metrics`): average and maximum speed over
  `data[0..currentIndex]`, the distance loop, and duration = index × 5 s.
- `trip_stats.dfy` (module `TripStats`): the minutes/seconds display of the
  duration, with JavaScript's truncating `%` written out.
- `speed_display.dfy` (module `SpeedDisplay`): the speed bands behind the
  gauge's colour and tint classes.
- `dashboard.dfy` (module `Dashboard`): what the page shows for a playback
  state, tying the modules together.

Numbers are `real`. Scrub progress is a whole percentage from 0 to 100,
because the slider is a range input with those bounds.

Three behaviours of the page are easy to mistake, and the model keeps them
as the code has them:

- At index 0 the page forces average and maximum speed to 0. They are not
  the first sample's speed.
- The trail is not always the route up to the current sample. Reset empties
  it, and the ticks after a reset append samples from index 1 on, so sample
  0 is missing until the next scrub. `Playback.ValidState` states both shapes
  the trail can take.
- A tick on the last sample leaves the index alone and stops playback.

The controller the model proves things about uses the corrected scrub (see
"## Findings"), and `Playback.ValidState` is its invariant. The page as
written can also reach index -1 with an empty trail: the slider works before
the trip file has loaded, and the load keeps the index. `Playback.AsWrittenState`
is the weaker invariant that covers the page as written, and the first tick
from index -1 brings the page back to a valid state.

## Model

| member | source | states |
|---|---|---|
| `Samples.Trim` | src/pages/Index.tsx:27 | the trimmed text is the infix of the input that neither starts nor ends with whitespace; everything removed around it is whitespace |
| `Samples.TrimIdempotent` | src/pages/Index.tsx:27 | trimming an already trimmed text changes nothing |
| `Samples.Split` | src/pages/Index.tsx:27-29 | a split yields at least one piece and no piece contains the separator |
| `Samples.SplitCount` | src/pages/Index.tsx:27-29 | a split yields exactly one piece more than the text has separators |
| `Samples.SplitThenJoin` | src/pages/Index.tsx:27-29 | joining the pieces with the separator gives back the original text, so splitting loses nothing |
| `Samples.JoinThenSplit` | src/pages/Index.tsx:29 | splitting separator-free pieces joined by the separator gives back exactly those pieces |
| `Samples.Lines` | src/pages/Index.tsx:27 | a file has one more line than its trimmed text has line feeds |
| `Samples.ParseLine` | src/pages/Index.tsx:29-35 | specified by `Samples.ParseLinePositional`: field i of the comma split, or undefined when the line has fewer fields, becomes the i-th number of the sample |
| `Samples.ParseRows` | src/pages/Index.tsx:28-36 | one sample per row, the i-th sample read from the i-th row |
| `Samples.ParseCsv` | src/pages/Index.tsx:27-36 | the sample count is the line count minus one (the number of line feeds inside the trimmed text); sample i is read from line i + 1, so the header is skipped |
| `Samples.ParseLinePositional` | src/pages/Index.tsx:29-35 | fields are read by position as timestamp, latitude, longitude and speed; extra fields are ignored and missing ones arrive as undefined |
| `Samples.LinesOfJoin` | src/pages/Index.tsx:27 | a trimmed text made of line-feed-free lines splits into exactly those lines |
| `Samples.ParseCsvSkipsHeader` | src/pages/Index.tsx:27-28 | a file whose trimmed text is a header line followed by data rows, such as one ending in a line feed or CRLF, yields exactly the samples of the data rows |
| `Playback.Route` | src/pages/Index.tsx:70 | the route has one point per sample, in sample order, with longitude before latitude; `Playback.RouteOfPrefix` relates it to prefixes |
| `Playback.RouteOfPrefix` | src/pages/Index.tsx:100 | the route of the first k samples is the first k points of the route |
| `Playback.Prefix` | src/pages/Index.tsx:100 | `slice(0, end)` gives a prefix of the samples of length min(end, count) |
| `Playback.Ticked` | src/pages/Index.tsx:42-55 | a tick never changes the samples or the speed, never starts playback, and moves the index by at most one; it accepts index -1; `Playback.TickAdvances` and `Playback.TickStopsAtLastSample` give its three cases |
| `Playback.ResetState` | src/pages/Index.tsx:91-95 | specified by `Playback.ResetIdempotent` and `Playback.ResetPreservesValid`: index 0, paused, empty trail, samples and speed kept |
| `Playback.ScrubIndexAsWritten` | src/pages/Index.tsx:98 | specified by `Playback.ScrubIndexAsWrittenRange`: an index of a sample on a loaded trip; 0 or -1 with no samples |
| `Playback.ScrubIndexAsWrittenRange` | src/pages/Index.tsx:98 | the formula as written lies in [0, count − 1] on a loaded trip; with no samples it is 0 at progress 0 and −1 at any other progress |
| `Playback.ScrubIndex` | src/pages/Index.tsx:98 | the selected index is floor(progress × (count − 1) / 100) and lies in [0, count − 1]; progress 0 gives 0 and progress 100 gives the last sample; with no samples it is 0 |
| `Playback.ScrubAsWrittenBeforeLoad` | src/pages/Index.tsx:98 | the formula as written gives index −1 for any positive progress when no samples are loaded |
| `Playback.Scrubbed` | src/pages/Index.tsx:97-101 | the scrub with the corrected index; specified by `Playback.ScrubDrawsRoutePrefix` and `Playback.ScrubPreservesValid` |
| `Playback.ScrubbedAsWritten` | src/pages/Index.tsx:97-101 | the scrub as written; on a loaded trip it equals the corrected scrub (`Playback.ScrubAsWrittenOnLoadedTrip`), and with no samples it leaves index −1 (or 0) and an empty trail (`Playback.AsWrittenScrubKeepsState`, `Playback.ScrubBeforeLoadCarriesOver`) |
| `Playback.ScrubAsWrittenOnLoadedTrip` | src/pages/Index.tsx:97-101 | on a trip with at least one sample, the scrub as written and the corrected scrub give the same index and the same state |
| `Playback.Ticks` | src/pages/Index.tsx:45-55 | after k ticks samples and speed are unchanged and the index has moved forward by at most k |
| `Playback.TicksPreserveValid` | src/pages/Index.tsx:45-55 | after any number of ticks from a valid state the state is still valid and the index is still on a sample |
| `Playback.InitialValid` | src/pages/Index.tsx:17-21 | the state at mount satisfies the invariant |
| `Playback.LoadPreservesValid` | src/pages/Index.tsx:37 | loading samples into the fresh page keeps the invariant |
| `Playback.TickPreservesValid` | src/pages/Index.tsx:45-55 | a tick keeps the index below the sample count and the trail on the route |
| `Playback.ResetPreservesValid` | src/pages/Index.tsx:91-95 | reset keeps the invariant from any valid state |
| `Playback.ScrubPreservesValid` | src/pages/Index.tsx:97-101 | a scrub with the corrected index keeps the invariant |
| `Playback.AsWrittenScrubKeepsState` | src/pages/Index.tsx:97-101 | the scrub as written keeps the weaker invariant: a valid state, or index −1 with an empty trail |
| `Playback.AsWrittenTickKeepsState` | src/pages/Index.tsx:45-55 | a tick keeps the weaker invariant |
| `Playback.AsWrittenControlsKeepState` | src/pages/Index.tsx:37 | loading the fresh page, reset, play/pause and a speed change keep the weaker invariant |
| `Playback.ScrubBeforeLoadCarriesOver` | src/pages/Index.tsx:37 | a scrub as written before the load, then the load, gives index −1 and an empty trail, which is not a valid state; the first tick of playback moves to sample 0, draws it, and the state is valid again |
| `Playback.ToggleAndSpeedPreserveValid` | src/pages/Index.tsx:125-127 | play/pause and a speed change keep the invariant |
| `Playback.TickAdvances` | src/pages/Index.tsx:46-54 | while playing with a next sample, a tick increments the index by exactly 1 and appends exactly the next sample's [longitude, latitude]; nothing else changes |
| `Playback.TickStopsAtLastSample` | src/pages/Index.tsx:42-49 | at the last sample a tick only clears the playing flag; while paused or with no samples it changes nothing |
| `Playback.ResetIdempotent` | src/pages/Index.tsx:91-95 | reset from any state gives index 0, paused and an empty trail, and a second reset changes nothing |
| `Playback.ScrubDrawsRoutePrefix` | src/pages/Index.tsx:97-101 | from any state of a loaded trip, including index −1, a scrub keeps playing state, speed and samples; the trail becomes the route from sample 0 to the new index, of length index + 1, starting at sample 0 |
| `Playback.NoTicksFromEmptyTrail` | src/pages/Index.tsx:91-95 | before any tick, index 0 with an empty trail is index 0 with the route from sample 1 to sample 0 |
| `Playback.TickExtendsTrailFromOne` | src/pages/Index.tsx:52-54 | when j ticks have left the vehicle at sample j with the route from sample 1 to j drawn, one more tick moves it to j + 1 and extends the trail to the route from sample 1 to j + 1 |
| `Playback.TicksFromEmptyTrail` | src/pages/Index.tsx:45-55 | while playing from index 0 with an empty trail, k ticks (k below the sample count) leave the vehicle at sample k with the route from sample 1 to sample k drawn |
| `Playback.TicksAfterReset` | src/pages/Index.tsx:53 | after reset, play and k ticks (k below the sample count), the index is k and the trail is the route from sample 1 to sample k, of length k, so sample 0 is missing |
| `Playback.PlaybackEndsOnLastSample` | src/pages/Index.tsx:45-55 | played from reset, playback stops on the last sample, with every sample but the first on the trail |
| `Playback.Player.constructor` | src/pages/Index.tsx:17-21 | the new player has no samples, index 0, is paused, has speed 1 and an empty trail |
| `Playback.Player.Load` | src/pages/Index.tsx:37 | only the samples change, and the invariant holds |
| `Playback.Player.Tick` | src/pages/Index.tsx:45-55 | the fields, updated in place, equal the tick transition of the old state, and the invariant holds |
| `Playback.Player.Reset` | src/pages/Index.tsx:91-95 | the fields equal the reset transition of the old state |
| `Playback.Player.Scrub` | src/pages/Index.tsx:97-101 | the fields equal the corrected scrub transition of the old state, and the invariant holds |
| `Playback.Player.TogglePlay` | src/pages/Index.tsx:125 | only the playing flag flips |
| `Playback.Player.SetSpeed` | src/pages/Index.tsx:127 | only the speed multiplier changes, to one of the offered speeds |
| `Metrics.Speeds` | src/pages/Index.tsx:89 | one speed per sample, in order |
| `Metrics.Sum` | src/pages/Index.tsx:86 | the left fold of the speeds; specified through `Metrics.AvgSpeed` (average × count = sum) and `Metrics.SumAtMostCountTimesBound` |
| `Metrics.SumAtMostCountTimesBound` | src/pages/Index.tsx:86 | a sum of values none of which exceeds a bound is at most the count times that bound |
| `Metrics.Max` | src/pages/Index.tsx:89 | the maximum is an element of the list and no element exceeds it |
| `Metrics.AvgSpeed` | src/pages/Index.tsx:84-87 | 0 at index 0; otherwise the average times (index + 1) equals the sum of the speeds of samples 0 to index |
| `Metrics.MaxSpeed` | src/pages/Index.tsx:89 | 0 at index 0; otherwise at least every speed of samples 0 to index and equal to one of them |
| `Metrics.AvgAtMostMax` | src/pages/Index.tsx:84-89 | the average speed shown never exceeds the maximum speed shown |
| `Metrics.PathLength` | src/pages/Index.tsx:72-82 | the length of the path through samples 0 to k, leg by leg; specified by `Metrics.PathLengthNonNegative` and `Metrics.PathLengthGrows`, and the two distance loops are proved equal to it |
| `Metrics.PathLengthNonNegative` | src/pages/Index.tsx:72-82 | with non-negative legs the travelled distance is never negative |
| `Metrics.PathLengthGrows` | src/pages/Index.tsx:72-82 | with non-negative legs the distance never decreases as the index advances |
| `Metrics.DistanceAsWritten` | src/pages/Index.tsx:72-82 | the loop as written returns the length of the path through samples 0 to index − 1, so 0 for index ≤ 1 |
| `Metrics.TraveledDistance` | src/pages/Index.tsx:72-82 | the corrected loop returns the length of the path through samples 0 to index |
| `Metrics.DistanceAsWrittenMissesLastLeg` | src/pages/Index.tsx:74 | the loop as written misses exactly the leg into the current sample |
| `Metrics.Duration` | src/pages/Index.tsx:142 | the duration of a non-negative index is a non-negative multiple of 5 seconds |
| `TripStats.JsRemainder` | src/components/TripStats.tsx:26 | JavaScript's `%`, whose quotient is truncated toward zero: for a non-negative dividend a = b × (a div b) + r with 0 ≤ r < b; for a negative one a = −(b × (−a div b)) + r with −b < r ≤ 0, so the remainder takes the dividend's sign |
| `TripStats.DurationClock` | src/components/TripStats.tsx:26 | for a non-negative duration, minutes × 60 + seconds equals the duration and 0 ≤ seconds < 60 |
| `TripStats.MinutesMonotone` | src/components/TripStats.tsx:26 | a longer duration never shows fewer minutes |
| `TripStats.ClockAtZero` | src/components/TripStats.tsx:26 | a duration of 0 shows 0 minutes and 0 seconds |
| `TripStats.SecondsInFiveSecondSteps` | src/components/TripStats.tsx:26 | a duration of 5k seconds shows seconds that are a multiple of 5 and k div 12 minutes |
| `TripStats.NegativeClock` | src/components/TripStats.tsx:26 | minus five seconds shows as −1 minutes and −5 seconds, which do not add up to the duration |
| `SpeedDisplay.SpeedColor` | src/components/SpeedDisplay.tsx:8-12 | the colour class is the class of band b exactly when the speed lies in b's interval: below 30, from 30 to below 60, or 60 and above |
| `SpeedDisplay.SpeedBg` | src/components/SpeedDisplay.tsx:14-18 | the tint class is the class of band b exactly when the speed lies in b's interval |
| `SpeedDisplay.ExactlyOneBand` | src/components/SpeedDisplay.tsx:8-18 | every speed lies in exactly one band |
| `SpeedDisplay.ColorAndTintAgree` | src/components/SpeedDisplay.tsx:8-18 | colour and tint always select the same band |
| `SpeedDisplay.BandMonotone` | src/components/SpeedDisplay.tsx:9-11 | a higher speed is never in a lower band |
| `Dashboard.DisplayedSpeed` | src/pages/Index.tsx:136 | in every valid state with samples the gauge shows the speed of the sample at the index; with no samples it shows 0 |
| `Dashboard.NoPositionShowsLowBand` | src/pages/Index.tsx:136 | with no current position the gauge shows speed 0, in the low band |
| `Dashboard.StatsOfValidState` | src/pages/Index.tsx:139-142 | in every valid state the statistics are defined, the average does not exceed the maximum, and the clock adds up to 5 × index with seconds a multiple of 5 |
| `Dashboard.TickAddsFiveSeconds` | src/pages/Index.tsx:142 | every tick that moves the vehicle adds exactly 5 seconds to the duration, including the first tick from the as-written index −1 (−5 s to 0 s) |
| `Dashboard.StatsAfterReset` | src/pages/Index.tsx:84-95 | after reset, average and maximum speed are 0, the clock shows 0m 0s and the gauge shows the first sample |
| `Dashboard.TwoSampleTrip` | src/pages/Index.tsx:84-89 | samples at 10 and 20 km/h, one step in, give average 15, maximum 20, 0m 5s; the path through sample 0 alone, which the loop as written reports, is 0, while the path to sample 1 is the one leg between them |
| `Dashboard.ScrubBeforeLoad` | src/pages/Index.tsx:98 | before any sample loads, the formula as written puts the clock at −1m −5s, while the corrected scrub keeps 0m 0s |
| `Dashboard.DisplayAfterScrubBeforeLoad` | src/pages/Index.tsx:136-142 | on the page as written, after a scrub before the load and then the load, the gauge shows 0 although sample 0 exists, average and maximum are 0, and the clock shows −1m −5s |

## Findings

| source | as written | input that shows it | evidently intended | confidence | as-written member | corrected member |
|---|---|---|---|---|---|---|
| src/pages/Index.tsx:98 | `Math.floor((progress / 100) * (data.length - 1))` has no case for an empty trip | no samples loaded yet, or the file failed to load; slider moved to 50: index becomes −1 and the duration tile shows "-1m -5s" | with no samples the index stays 0 | medium; not executed | `Playback.ScrubAsWrittenBeforeLoad` | `Playback.ScrubIndex` |
| src/pages/Index.tsx:74 | the distance loop runs while `i < currentIndex` | two samples 0.001° of latitude apart, at index 1: the distance shows 0 although the vehicle has moved one leg (about 0.111 km) | sum the legs up to and including the one into the current sample (`i <= currentIndex`) | medium; not executed | `Metrics.DistanceAsWritten` | `Metrics.TraveledDistance` |

`Playback.Player.Scrub` uses the corrected `ScrubIndex`. On a non-empty trip
it agrees with the formula as written (`Playback.ScrubAsWrittenOnLoadedTrip`). `Playback.ScrubbedAsWritten` is the
scrub as written. `Playback.ScrubBeforeLoadCarriesOver` and
`Dashboard.DisplayAfterScrubBeforeLoad` follow its index −1 through the load
into the display.

## Left out

- Fetching the trip file (lines 24-26 of src/pages/Index.tsx) is network I/O. The reader is modelled on a given string.
- `Number` text-to-number conversion is a parameter `toNumber` of the reader. NaN and the rest of IEEE floating point are not modelled, because every number is a `real`.
- The timer is not modelled: `setInterval`, `clearInterval`, the period `1000 / playbackSpeed` and the effect re-scheduling. Tick is a plain transition, so the speed multiplier is stored but never drives timing. The stale-closure play/pause toggle is modelled as a plain flip.
- The length of one leg (`Math.sqrt` of squared coordinate differences, times 111) is a parameter `leg` of the distance functions, because square roots of reals are not expressible here.
- Float rounding in the scrub formula is not modelled. `(progress / 100) * (n - 1)` can round below the exact value, so the browser may land one index lower than `ScrubIndex`.
- The slider position shown by the controls (`currentIndex / (data.length - 1) * 100`, line 129) is left out. It divides by zero for a one-sample trip.
- `Math.max` of a speed list containing NaN is not modelled.
- The map (src/components/VehicleMap.tsx), the chart (src/components/SpeedChart.tsx) and the button and slider markup (src/components/PlaybackControls.tsx) only render. The same goes for `toFixed` number formatting.
- `Playback.Player.Load`: requires an empty sample list, because the loading effect runs once, at mount.
- `Playback.Player.Scrub`: uses the corrected scrub, so the index −1 that the scrub as written leaves on an empty trip never occurs in `Player`. The page as written is covered by `Playback.ScrubbedAsWritten` and `Playback.AsWrittenState`.
- `Playback.ScrubPreservesValid`: holds for the corrected scrub only. The scrub as written keeps only the weaker `Playback.AsWrittenState` (`Playback.AsWrittenScrubKeepsState`).
- `Dashboard.DisplayedSpeed`: the gauge shows the current sample's speed in every valid state. On the page as written, after a scrub before the load, it shows 0 until the first tick (`Dashboard.DisplayAfterScrubBeforeLoad`).
- `Dashboard.StatsOfValidState`: holds in every valid state. On the page as written, after a scrub before the load, the clock shows −1m −5s until the first tick (`Dashboard.DisplayAfterScrubBeforeLoad`).
