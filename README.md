# CustomScheduler plugin: a verified model of its decision logic

This project models the `CustomScheduler` plugin of a Kubernetes scheduler
(`pkg/plugins/scheduler.go`) and proves properties of the model. The plugin decides
four things:

- **Construction** (`New`). Without an arguments object the score mode is `Least`.
  With one, the decoded `mode` must be exactly `Least` or `Most`; anything else,
  including an absent field (decoded as `""`), fails with `invalid mode, got <mode>`.
- **Gang admission** (`PreFilter`). The pod's `minAvailable` label is parsed with Go's
  `strconv.Atoi`, and the pods carrying the same `podGroup` label are counted. Three
  outcomes are possible:
  - `Error` when the label does not parse or the listing fails;
  - `Unschedulable` when the count is below the quorum;
  - `Success` otherwise.
- **Node scoring** (`Score`). The raw score is the node's allocatable memory, negated
  in `Least` mode. A failed node lookup gives `(0, Error)`.
- **Score normalisation** (`NormalizeScore`). One pod's node score list is scanned for
  its minimum and maximum. Every entry is then rewritten in place: to
  `((score - min) * 100) / (max - min)` when the range is positive, to 0 otherwise.

Files:

- `Wrappers.dfy`: `Option` and `Result` (a Go value-or-error pair).
- `GoInt.dfy`: Go's `int64`. It has the value range, two's-complement wrap-around
  (`Wrap`) and the truncating division `/` (`Quo`). Dafny's `/` is Euclidean; for the
  positive divisors used here it rounds toward minus infinity, so it is not used for Go's.
- `Strconv.dfy`: `Atoi`, which accepts an optional sign, then one or more digits, with a
  value that fits in an int64. It also has `Itoa`, which writes what `Atoi` reads back
  (a right inverse: `Atoi("007")` is 7, which `Itoa` writes as `"7"`).
- `Scheduler.dfy`: the plugin. `CustomScheduler` is a datatype, because its `scoreMode`
  never changes after `New`. `PreFilter` and `Score` are functions of their inputs.
  `NormalizeScore` is a method that rewrites an `array<NodeScore>` in place.

`NormalizeScore` follows Go's int64 arithmetic exactly. Its postcondition equates the
new array with `Normalized` of the old one. Lemmas then prove what that list is:

- its length and node names are unchanged;
- a list of equal scores becomes all zeros;
- the empty list stays empty (the sentinels `MaxInt64` and `MinInt64` give a range
  that wraps to 1).

The `[0, 100]` range, the endpoints 0 and 100, and order preservation are proved under
`Headroom`. `Headroom` says that `(max - min) * 100` fits in an int64, and
`NormalizedIsIdeal` shows that Go's result then equals the exact-arithmetic rescaling
`IdealScore`. Any batch whose scores are at most 2^55 (32 PiB) in magnitude has
headroom. Two lemmas show what happens beyond it:

- on `[0, 2^62]` the maximum is rewritten to 0;
- on `[0, 2^61, 2^62]` the middle score is rewritten to -2, outside [0, 100] and out of order;
- on `[MinInt64, MaxInt64]` the range wraps to -1, so every score becomes 0.

The host's two queries are function parameters that return a value or an error:

- the informer's pod lister, from group label to the number of pods listed;
- the snapshot's node lookup, from node name to allocatable memory.

The plugin makes no other host queries.

Where the intended behaviour and the code differ, the model follows the code:

- A gang quorum is meant to be a non-negative count, with a negative label treated as
  an input error. `Atoi` accepts `"-1"`, so such a pod is admitted
  (`PreFilterNegativeQuorumAdmits`).
- For nodes of 10, 50 and 100 units of memory in `Least` mode, floor division gives
  normalised scores 100, 55 and 0 (`LeastModeScenario`); the middle node gets 55.
- Whether a pod counts itself in its group is the lister's answer. The model takes the
  count as given.

## Model

| member | source | states |
|---|---|---|
| `Scheduler.New` | pkg/plugins/scheduler.go:43-62 | no args object gives mode `Least`; with one, success exactly when the decoded mode is `Least` or `Most`, and the stored mode is the decoded one; otherwise the error `invalid mode, got <mode>` |
| `Scheduler.NewRejectsOtherModes` | pkg/plugins/scheduler.go:46-55 | an absent mode (`""`) and a differently cased `least` are refused; `Most` is accepted |
| `Scheduler.LabelValue` | pkg/plugins/scheduler.go:71-72 | a Go map lookup on the pod's labels: the label's value when present, `""` when absent |
| `Scheduler.CustomScheduler.PreFilter` | pkg/plugins/scheduler.go:65-87 | `Error` exactly when the quorum label does not parse or the group listing fails; `Unschedulable` exactly when both succeed and count < quorum, with reason `not enough pods in the group`; `Success` exactly when both succeed and count >= quorum; a failed listing gives the reason `failed to list pods: ` followed by its error |
| `Scheduler.PreFilterMissingQuorumLabel` | pkg/plugins/scheduler.go:71-75 | a pod without a `minAvailable` label fails with an error, whatever the listing says |
| `Scheduler.PreFilterNonPositiveQuorum` | pkg/plugins/scheduler.go:82-86 | a parsed quorum <= 0 admits the pod once the listing succeeds |
| `Scheduler.PreFilterNegativeQuorumAdmits` | pkg/plugins/scheduler.go:72-86 | the label `"-1"` parses, so the pod is admitted, not failed |
| `Scheduler.PreFilterMonotoneInGroupSize` | pkg/plugins/scheduler.go:82-86 | a pod admitted with n listed group members is admitted with any n' >= n |
| `Scheduler.PreFilterReadsOnlyOwnGroup` | pkg/plugins/scheduler.go:71-80 | the decision depends only on the listing for the pod's own group label (`""` when absent) |
| `Scheduler.PreFilterGangOfThree` | pkg/plugins/scheduler.go:72-86 | quorum `"3"`: two listed pods give `Unschedulable("not enough pods in the group")`, three give `Success` |
| `Scheduler.CustomScheduler.Score` | pkg/plugins/scheduler.go:95-111 | success exactly when the node lookup succeeds; a failed lookup gives score 0 and an error status; otherwise the score is the memory in `Most` mode and its negation in `Least` mode |
| `Scheduler.ScoreModesOpposite` | pkg/plugins/scheduler.go:104-110 | for the same node, the `Least` score is the negation of the `Most` score |
| `Scheduler.ScoreOfMinInt64` | pkg/plugins/scheduler.go:106-107 | int64 negation leaves MinInt64 unchanged, so both modes score such a node MinInt64 |
| `Scheduler.ScoreOrdersByMemory` | pkg/plugins/scheduler.go:104-110 | for memories above MinInt64, `Least` scores a node with less memory at least as high; `Most` scores a node with more memory at least as high |
| `Scheduler.ScoreReadsOnlyItsNode` | pkg/plugins/scheduler.go:100-104 | a node's score depends only on the snapshot's answer for that node, so scoring order does not matter |
| `Scheduler.CustomScheduler.NormalizeScore` | pkg/plugins/scheduler.go:114-140 | the array afterwards is `Normalized` of the array before; the status is always `Success` |
| `Scheduler.ScoreRange` | pkg/plugins/scheduler.go:117-126 | the scan returns `MinScore` and `MaxScore` of the list |
| `Scheduler.RescaleScores` | pkg/plugins/scheduler.go:129-132 | every entry gets `Rescale` of its own score; names are kept |
| `Scheduler.ZeroScores` | pkg/plugins/scheduler.go:133-137 | every score becomes 0, names are kept |
| `Scheduler.MinScore` | pkg/plugins/scheduler.go:117-122 | no entry is below the scan's minimum; for an empty list it is MaxInt64 |
| `Scheduler.MaxScore` | pkg/plugins/scheduler.go:117-126 | no entry is above the scan's maximum; for an empty list it is MinInt64 |
| `Scheduler.MinScoreAttained` | pkg/plugins/scheduler.go:119-122 | some entry of a non-empty list holds the minimum |
| `Scheduler.MaxScoreAttained` | pkg/plugins/scheduler.go:123-125 | some entry of a non-empty list holds the maximum |
| `Scheduler.ScoreRangeOf` | pkg/plugins/scheduler.go:128 | the int64 `maxScore - minScore`: 1 for the empty list (the sentinels wrap), and the exact non-negative spread when that fits in an int64 |
| `Scheduler.Rescale` | pkg/plugins/scheduler.go:131 | Go's int64 `((score - min) * 100) / range`; when the product does not wrap it is the exact floor quotient |
| `Scheduler.Normalized` | pkg/plugins/scheduler.go:128-137 | the list keeps its length and every entry's node name |
| `Scheduler.NormalizedIsIdeal` | pkg/plugins/scheduler.go:128-132 | under `Headroom`, each rewritten score is `IdealScore`, the exact-arithmetic floor rescaling onto [0, 100] |
| `Scheduler.RangeExact` | pkg/plugins/scheduler.go:128 | under `Headroom`, the int64 range `max - min` does not wrap |
| `Scheduler.RescaleExact` | pkg/plugins/scheduler.go:131 | under `Headroom`, one rewritten score equals `IdealScore` |
| `Scheduler.IdealScoreBounds` | pkg/plugins/scheduler.go:131 | a score between min and max rescales into [0, 100] |
| `Scheduler.IdealScoreEndpoints` | pkg/plugins/scheduler.go:131 | with a positive range, min rescales to 0 and max to 100 |
| `Scheduler.IdealScoreMonotone` | pkg/plugins/scheduler.go:131 | rescaling preserves order |
| `Scheduler.NormalizedInRange` | pkg/plugins/scheduler.go:128-132 | under `Headroom`, every rewritten score is in [0, 100] |
| `Scheduler.NormalizedEndpoints` | pkg/plugins/scheduler.go:117-131 | under `Headroom` with max > min, every entry holding the minimum becomes 0 and every entry holding the maximum becomes 100 |
| `Scheduler.NormalizedReachesBothEnds` | pkg/plugins/scheduler.go:117-131 | under `Headroom` with max > min, some node scores 0 and some node scores 100 |
| `Scheduler.NormalizedMonotone` | pkg/plugins/scheduler.go:131 | under `Headroom`, raw a <= b implies rewritten a <= b |
| `Scheduler.NormalizedUniform` | pkg/plugins/scheduler.go:128-137 | a list of equal scores, of any size, becomes all zeros |
| `Scheduler.NormalizedEmpty` | pkg/plugins/scheduler.go:117-139 | for the empty list the sentinels' range wraps to 1, and the list stays empty |
| `Scheduler.HeadroomForRealisticScores` | pkg/plugins/scheduler.go:128-131 | scores of magnitude at most 2^55 always have `Headroom` |
| `Scheduler.OverflowLosesMaximum` | pkg/plugins/scheduler.go:131 | without headroom the product wraps: for scores 0 and 2^62 the maximum is rewritten to 0 |
| `Scheduler.OverflowBreaksRangeAndOrder` | pkg/plugins/scheduler.go:131 | without headroom the product wraps negative: for scores 0, 2^61, 2^62 the middle one is rewritten to -2, outside [0, 100] and below the smaller raw score's 0 |
| `Scheduler.WideSpreadZeroes` | pkg/plugins/scheduler.go:128-137 | for MinInt64 and MaxInt64 the range wraps to -1, so both entries become 0 |
| `Scheduler.LeastModeScenario` | pkg/plugins/scheduler.go:104-132 | in `Least` mode, nodes of memory 10, 50, 100 score -10, -50, -100, which normalise to 100, 55, 0 |
| `Scheduler.MostModeScenario` | pkg/plugins/scheduler.go:104-132 | in `Most` mode, nodes of memory 10, 50, 100 score 10, 50, 100, which normalise to 0, 44, 100 |
| `GoInt.Wrap` | pkg/plugins/scheduler.go:128 | the int64 result is congruent to the exact one modulo 2^64, and equal to it when that is in range |
| `GoInt.Quo` | pkg/plugins/scheduler.go:131 | Go's `/` by a positive divisor: the remainder has the dividend's sign and is smaller than the divisor |
| `Strconv.Atoi` | pkg/plugins/scheduler.go:72 | Go's `strconv.Atoi`: succeeds exactly on an optional sign followed by one or more digits whose value fits in an int64, and then returns that value |
| `Strconv.AtoiPlusSign` | pkg/plugins/scheduler.go:72 | a leading `+` before digits changes nothing (`"+12"` reads as `"12"`) |
| `Strconv.AtoiMinusSign` | pkg/plugins/scheduler.go:72 | a leading `-` before digits negates their value, down to MinInt64 |
| `Strconv.AtoiItoa` | pkg/plugins/scheduler.go:72 | every int64 written in decimal is read back by `Atoi` |
| `Strconv.AtoiAcceptsOnlyIntegers` | pkg/plugins/scheduler.go:72 | `Atoi` succeeds only on an optional sign followed by one or more digits |
| `Strconv.AtoiExamples` | pkg/plugins/scheduler.go:72 | `""`, `"+"`, `"-"`, `"1a"` and `" 1"` are rejected; `"3"`, `"+3"`, `"-1"` and `"007"` are accepted |

## Left out

- The framework `Handle`, `CycleState`, `context.Context` and the pod object: the model
  takes the pod's labels, the two host queries and the node name as parameters.
- The shared-informer pod lister and the snapshot node lister: they are function
  parameters returning a value or an error. Who they list is the host's business,
  including whether the pod counts itself.
- JSON decoding of `CustomSchedulerArgs`: the arguments are modelled as the decoded mode
  string. A failed decode is only printed in the source and leaves the mode `""`; the
  model's input is that string.
- `log.Printf` and `fmt.Printf` output, `Name`, `PreFilterExtensions` and
  `ScoreExtensions`: these print or are plugin plumbing returning constants.
- The `*framework.PreFilterResult` that `PreFilter` returns: it is always `nil`.
- Concurrent `Score` calls: a call reads only its own inputs and the immutable mode.
- Scheduler.CustomScheduler.PreFilter: the parse error's own text, which Go appends
  after `invalid minAvailable value: `, is not modelled; the modelled reason is the
  fixed prefix.
- Scheduler.NormalizedInRange: proved only for batches with `Headroom`; beyond it Go's
  int64 wrap-around breaks the bound (`OverflowBreaksRangeAndOrder` rewrites a score
  to -2).
- Scheduler.NormalizedEndpoints: proved only for batches with `Headroom`, for the same
  reason (`OverflowLosesMaximum`, `WideSpreadZeroes`).
- Scheduler.NormalizedReachesBothEnds: proved only for batches with `Headroom`.
- Scheduler.NormalizedMonotone: proved only for batches with `Headroom`; beyond it Go's
  wrap-around breaks the order (`OverflowBreaksRangeAndOrder`: raw 0 <= 2^61, rewritten
  0 > -2).
- Scheduler.ScoreOrdersByMemory: excludes a node with memory MinInt64. Go's negation
  leaves that value unchanged, so `Least` ranks such a node lowest rather than highest.
- Scheduler.ScoreModesOpposite: excludes a node with memory MinInt64, whose int64
  negation is itself (`ScoreOfMinInt64`).
