# PulseMap reputation utilities in Dafny

A model of PulseMap's reputation and karma display helpers
(`src/utils/reputationUtils.ts`):

- `normalizeReputation` rescales a user's 0-100 trustability to a 0-5
  reputation and clamps it to [0, 5]. It has no caller in the files shown
  here; comment cards read a stored `reputation` directly.
- `getReputationColor` colours the username badge of a live comment, and
  `getReputationBgColor` fills the whole comment card, both by reputation
  band: red, orange, yellow, lime or green
  (src/components/Map/VenuePopup.tsx:224-235).
- `formatTimeAgo` labels a comment with a coarse age such as "3h ago" or
  "2mo ago" (src/components/Map/VenuePopup.tsx:243).

`generateExp` draws a synthetic EXP value as `max(500, round(x))` of a
normal sample `x`. Only that final step is modelled.

The project has two modules:

- `Decimal` (`decimal.dfy`) renders integers the way JavaScript's number to
  string conversion does for integral values: an optional `-` followed by
  canonical decimal digits.
- `ReputationUtils` (`reputation_utils.dfy`) models the four helpers.

Scores are exact `real`s. Times are `int` milliseconds and seconds.
`formatTimeAgo` reads the wall clock. Here the clock read becomes a
parameter, `elapsedMs`, which stands for `now - date`.

What is proved:

- Normalisation always lands in [0, 5], is linear on [0, 100] and is
  monotone.
- Both colour functions equal a palette lookup at one reference band,
  `Band(r)`. `Band(r)` is the integer part of `r`, clamped to 0..4. Its
  bands are half-open, closed at the bottom, and the band index is monotone
  in `r`.
- Two reputations get the same foreground colour exactly when they get the
  same background colour.
- `formatTimeAgo` follows the source's real-valued quotient tests, `q > 1`.
  It is proved to choose the coarsest unit that the elapsed seconds
  strictly exceed, and to show the floor division of the seconds by that
  unit.
- Every unit but seconds shows a count of at least 1, bounded by the next
  coarser unit.
- A future timestamp always falls to the seconds branch.
- The displayed string determines the amount and the unit.
- The EXP step never goes below 500. It equals `round(x)` exactly when
  `x >= 499.5`.

A timestamp in the future always produces the negative floored seconds
followed by "s ago", for example "-2s ago" (reputationUtils.ts:38, 49). The
colour functions accept any number and saturate into the lowest or the
highest band (reputationUtils.ts:16-20, 27-31).

## Model

| member | source | states |
|---|---|---|
| `ReputationUtils.Min` | src/utils/reputationUtils.ts:8 | `Math.min`: the result is at most both arguments and is one of them |
| `ReputationUtils.Max` | src/utils/reputationUtils.ts:8 | `Math.max`: the result is at least both arguments and is one of them |
| `ReputationUtils.NormalizeReputation` | src/utils/reputationUtils.ts:6-9 | the result lies in [0, 5]; on [0, 100] it is trustability / 20; it is 0 at or below 0 and 5 at or above 100 |
| `ReputationUtils.NormalizeMonotone` | src/utils/reputationUtils.ts:6-9 | a higher trustability never gives a lower reputation |
| `ReputationUtils.NormalizeOnto` | src/utils/reputationUtils.ts:6-9 | every reputation r in [0, 5] is produced, by trustability 20·r |
| `ReputationUtils.Band` | src/utils/reputationUtils.ts:11-21 | the band index is in 0..4; band b contains b (closed below) and excludes b + 1, with band 0 open to minus infinity and band 4 open to plus infinity |
| `ReputationUtils.BandUnique` | src/utils/reputationUtils.ts:15-32 | exactly one index satisfies the band bounds, so the bands partition the reals |
| `ReputationUtils.BandMonotone` | src/utils/reputationUtils.ts:15-32 | r1 <= r2 implies Band(r1) <= Band(r2) |
| `ReputationUtils.ReputationColor` | src/utils/reputationUtils.ts:15-21 | the source's `>=` chain (the username badge colour) returns the foreground palette entry of Band(r), so always one of the five hex colours |
| `ReputationUtils.ReputationBgColor` | src/utils/reputationUtils.ts:26-32 | the background `>=` chain (the comment card fill) returns the background palette entry of the same Band(r) |
| `ReputationUtils.PalettesDistinct` | src/utils/reputationUtils.ts:15-32 | the five colours of each palette are pairwise distinct |
| `ReputationUtils.ColorsShareBands` | src/utils/reputationUtils.ts:15-32 | two reputations share a foreground colour iff they share a band iff they share a background colour |
| `ReputationUtils.ColorExamples` | src/utils/reputationUtils.ts:15-32 | 4 gives "#22C55E", 3 gives "#84CC16", 2.99 gives "#EAB308", 1 gives "#F97316", 0.5 gives "#EF4444"; -3 and 7.5 saturate to red and green |
| `ReputationUtils.TrustabilityBand` | src/utils/reputationUtils.ts:6-21 | a normalised trustability t falls in the band of t / 20, one band per 20 points |
| `ReputationUtils.UnitSeconds` | src/utils/reputationUtils.ts:39-47 | every unit is at least one second long |
| `ReputationUtils.RankOrdersLength` | src/utils/reputationUtils.ts:39-48 | the order in which the source tries units (year, month, day, hour, minute) is by decreasing length |
| `ReputationUtils.ElapsedSeconds` | src/utils/reputationUtils.ts:38 | the whole seconds s satisfy 1000·s <= ms < 1000·s + 1000 (floor, also for negative ms) |
| `ReputationUtils.TimeAgoOf` | src/utils/reputationUtils.ts:37-49 | the chosen unit is strictly exceeded by the elapsed seconds (or is the seconds fallback), no coarser unit is, and the amount is the seconds floor-divided by the unit length |
| `ReputationUtils.TimeAgoLongestUnit` | src/utils/reputationUtils.ts:39-49 | the chosen unit is at least as long as every unit the elapsed seconds strictly exceed, so it is the longest such unit |
| `ReputationUtils.TimeAgoUnitUnique` | src/utils/reputationUtils.ts:39-49 | any unit that is exceeded while no coarser unit is exceeded is the unit formatTimeAgo chooses |
| `ReputationUtils.TimeAgoAmountBounds` | src/utils/reputationUtils.ts:40-49 | a unit other than seconds shows at least 1; minutes at most 60, hours at most 24, days at most 30, months at most 12, seconds at most 60 |
| `ReputationUtils.FutureTimestampInSeconds` | src/utils/reputationUtils.ts:38-49 | negative elapsed time always gives the seconds unit with a negative, floored amount |
| `ReputationUtils.UnitLabel` | src/utils/reputationUtils.ts:40-49 | each unit's abbreviation ("y", "mo", "d", "h", "m", "s") ends in the unit's mark character |
| `ReputationUtils.UnitLabelsDistinct` | src/utils/reputationUtils.ts:40-49 | the six unit abbreviations are pairwise distinct |
| `ReputationUtils.Render` | src/utils/reputationUtils.ts:40-49 | every label ends in " ago" |
| `ReputationUtils.RenderUnitMark` | src/utils/reputationUtils.ts:40-49 | the character before " ago" identifies the unit ('o' for "mo", else the unit letter) |
| `ReputationUtils.RenderInjective` | src/utils/reputationUtils.ts:40-49 | two labels are equal iff their amounts and units are equal |
| `ReputationUtils.FormatTimeAgo` | src/utils/reputationUtils.ts:37-50 | the label ends in " ago" and starts with '-' exactly when the timestamp is in the future |
| `ReputationUtils.FormatTimeAgoUnambiguous` | src/utils/reputationUtils.ts:37-50 | two elapsed times get the same label iff they get the same amount and unit |
| `ReputationUtils.FormatTimeAgoSecondsExamples` | src/utils/reputationUtils.ts:38-49 | 45 s gives "45s ago", exactly 60 s gives "60s ago" (strict test), -1.5 s gives "-2s ago" |
| `ReputationUtils.FormatTimeAgoCoarserExamples` | src/utils/reputationUtils.ts:39-48 | 90 s gives "1m ago", 3700 s "1h ago", exactly 86400 s "24h ago", 90000 s "1d ago" |
| `ReputationUtils.Round` | src/utils/reputationUtils.ts:112 | Math.round: the result n satisfies n - 0.5 <= x < n + 0.5 (halves round up) |
| `ReputationUtils.ExpFromSample` | src/utils/reputationUtils.ts:110-113 | the EXP value is an integer >= 500 and >= round(x), is one of 500 and round(x), and equals round(x) iff x >= 499.5 |
| `ReputationUtils.ExpMonotone` | src/utils/reputationUtils.ts:110-113 | a larger sample never gives a smaller EXP value |
| `Decimal.DigitRoundTrip` | src/utils/reputationUtils.ts:40-49 | a digit character's value renders back to the same character |
| `Decimal.NatToDecimal` | src/utils/reputationUtils.ts:40-48 | the digits of a count are canonical (no leading zero) and read back as the count |
| `Decimal.IntToString` | src/utils/reputationUtils.ts:49 | an integer's string has a leading '-' iff it is negative, followed by the canonical digits of its magnitude |
| `Decimal.IntToStringInjective` | src/utils/reputationUtils.ts:40-49 | distinct integers give distinct strings |

## Left out

- `generateGamma` (src/utils/reputationUtils.ts:59-90) is not modelled. It draws from `Math.random`, uses floating-point `pow`, `sqrt` and `log`, and its rejection loop ends only with probability 1.
- `generateNormal` (src/utils/reputationUtils.ts:98-104) is not modelled. It is a Box-Muller transform over `Math.random`, `log`, `sqrt` and `cos`.
- ExpFromSample: models only the final `max(500, round(x))` step of `generateExp`, as a function of the sample `x`. The random draw is not modelled. If `Math.random()` returned 0, the sample would be infinite, and the result could then be `Infinity` rather than an integer.
- The wall-clock read in `formatTimeAgo` (`new Date().getTime()`) is not modelled. The elapsed milliseconds are a parameter.
- NormalizeReputation: uses exact real arithmetic. JavaScript's `(t / 100) * 5` may differ from t / 20 in the last bit.
- TimeAgoOf: uses exact real quotients. IEEE-754 rounding of `seconds / U` is not modelled.
- NaN and the infinities are not modelled. A NaN reputation fails every `>=` test and would get the red band.
- Decimal.IntToString: does not model JavaScript's exponent notation for magnitudes of 10^21 and above. Such amounts cannot arise from valid `Date` values.
- `src/components/Map/VenuePopup.tsx` is not part of this model. It is React rendering, hook state and calls into services outside this excerpt.
- `src/data/mockEvents.ts` is not part of this model. It is static mock data built from the current local time.
- `src/types/index.ts` is not part of this model. It holds type declarations only.
