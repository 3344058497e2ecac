/**
 * The decision logic of the `CustomScheduler` plugin of a Kubernetes scheduler:
 * mode validation at construction (`New`), gang admission (`PreFilter`),
 * memory-based node scoring (`Score`) and the in-place rescaling of one pod's
 * node scores to [0, 100] (`NormalizeScore`).
 *
 * The two host queries (the pod lister behind the shared informer and the node
 * snapshot) are parameters: functions that answer with a value or an error.
 */
module Scheduler {
  import opened Wrappers
  import opened GoInt
  import opened Strconv

  const GroupNameLabel: string := "podGroup"
  const MinAvailableLabel: string := "minAvailable"
  const LeastMode: string := "Least"
  const MostMode: string := "Most"

  /** The framework status codes the plugin returns, each with its reason. */
  datatype Status = Success | Unschedulable(reason: string) | Error(reason: string)

  /** `CustomSchedulerArgs` once decoded: `mode` is "" when the field is absent or the JSON did not decode. */
  datatype SchedulerArgs = SchedulerArgs(mode: string)

  /** One entry of a `NodeScoreList`. */
  datatype NodeScore = NodeScore(name: string, score: Int64)

  /** What `Score` returns to the host: the raw score and its status. */
  datatype ScoreResult = ScoreResult(score: Int64, status: Status)

  /** A label's value, or "" when the pod does not carry it (a Go map lookup). */
  function LabelValue(labels: map<string, string>, key: string): (v: string)
    ensures key in labels ==> v == labels[key]
    ensures key !in labels ==> v == ""
  {
    if key in labels then labels[key] else ""
  }

  /** The plugin value; `scoreMode` is fixed when `New` builds it. */
  datatype CustomScheduler = CustomScheduler(scoreMode: string)
  {
    predicate Valid()
    {
      scoreMode == LeastMode || scoreMode == MostMode
    }

    /**
     * Gang admission: the pod may pass once the pods carrying its group label
     * number at least its `minAvailable` label.
     */
    function PreFilter(labels: map<string, string>, listByGroup: string -> Result<nat>): (status: Status)
      ensures var quorum := Atoi(LabelValue(labels, MinAvailableLabel));
              var listed := listByGroup(LabelValue(labels, GroupNameLabel));
              && (status.Error? <==> quorum.None? || listed.Err?)
              && (status.Unschedulable? <==> quorum.Some? && listed.Ok? && listed.value < quorum.value)
              && (status.Success? <==> quorum.Some? && listed.Ok? && listed.value >= quorum.value)
      ensures Atoi(LabelValue(labels, MinAvailableLabel)).None? ==> status == Error("invalid minAvailable value")
      ensures Atoi(LabelValue(labels, MinAvailableLabel)).Some? && listByGroup(LabelValue(labels, GroupNameLabel)).Err?
              ==> status == Error("failed to list pods: " + listByGroup(LabelValue(labels, GroupNameLabel)).error)
      ensures status.Unschedulable? ==> status.reason == "not enough pods in the group"
    {
      var podGroup := LabelValue(labels, GroupNameLabel);
      match Atoi(LabelValue(labels, MinAvailableLabel))
      case None => Error("invalid minAvailable value")
      case Some(minAvailable) =>
        match listByGroup(podGroup)
        case Err(e) => Error("failed to list pods: " + e)
        case Ok(count) =>
          if count < minAvailable then Unschedulable("not enough pods in the group") else Success
    }

    /** The raw score of one node: its allocatable memory, negated in `Least` mode. */
    function Score(nodeInfo: string -> Result<Int64>, nodeName: string): (r: ScoreResult)
      ensures r.status.Success? <==> nodeInfo(nodeName).Ok?
      ensures nodeInfo(nodeName).Err? ==> r == ScoreResult(0, Error("failed to get node info: " + nodeInfo(nodeName).error))
      ensures nodeInfo(nodeName).Ok? && scoreMode != LeastMode ==> r.score == nodeInfo(nodeName).value
      ensures nodeInfo(nodeName).Ok? && scoreMode == LeastMode && nodeInfo(nodeName).value != MinInt64
              ==> r.score == -nodeInfo(nodeName).value
    {
      match nodeInfo(nodeName)
      case Err(e) => ScoreResult(0, Error("failed to get node info: " + e))
      case Ok(allocatableMemory) =>
        if scoreMode == LeastMode then ScoreResult(Wrap(-(allocatableMemory as int)), Success)
        else ScoreResult(allocatableMemory, Success)
    }

    /** Rewrites every score of the list in place, with Go's int64 arithmetic; always succeeds. */
    method NormalizeScore(scores: array<NodeScore>) returns (status: Status)
      modifies scores
      ensures scores[..] == Normalized(old(scores[..]))
      ensures status == Success
    {
      var minScore, maxScore := ScoreRange(scores);
      var scoreRange := Wrap(maxScore as int - minScore);
      if scoreRange > 0 {
        RescaleScores(scores, minScore, scoreRange);
      } else {
        ZeroScores(scores);
        assert scores[..] == RewriteAll(old(scores[..]), minScore, scoreRange);
      }
      status := Success;
    }
  }

  /**
   * Plugin construction. Without an arguments object the mode is `Least`; with
   * one, its decoded mode must be exactly `Least` or `Most`.
   */
  function New(obj: Option<SchedulerArgs>): (r: Result<CustomScheduler>)
    ensures r.Ok? ==> r.value.Valid()
    ensures obj.None? ==> r == Ok(CustomScheduler(LeastMode))
    ensures obj.Some? ==> (r.Ok? <==> obj.value.mode in {LeastMode, MostMode})
    ensures obj.Some? && r.Ok? ==> r.value.scoreMode == obj.value.mode
    ensures r.Err? ==> obj.Some? && r.error == "invalid mode, got " + obj.value.mode
  {
    match obj
    case None => Ok(CustomScheduler(LeastMode))
    case Some(args) =>
      var mode := args.mode;
      if mode != LeastMode && mode != MostMode then Err("invalid mode, got " + mode)
      else Ok(CustomScheduler(mode))
  }

  // ---------------------------------------------------------------------------
  // Score normalisation: what the scan and the rewrite loop compute.
  // ---------------------------------------------------------------------------

  /** The running minimum of the scan, starting from MaxInt64. */
  function MinScore(s: seq<NodeScore>): (m: Int64)
    ensures forall i :: 0 <= i < |s| ==> m <= s[i].score
    ensures |s| == 0 ==> m == MaxInt64
  {
    if |s| == 0 then MaxInt64
    else
      var rest := MinScore(s[..|s| - 1]);
      assert forall i :: 0 <= i < |s| - 1 ==> s[..|s| - 1][i] == s[i];
      if s[|s| - 1].score < rest then s[|s| - 1].score else rest
  }

  /** The running maximum of the scan, starting from MinInt64. */
  function MaxScore(s: seq<NodeScore>): (m: Int64)
    ensures forall i :: 0 <= i < |s| ==> s[i].score <= m
    ensures |s| == 0 ==> m == MinInt64
  {
    if |s| == 0 then MinInt64
    else
      var rest := MaxScore(s[..|s| - 1]);
      assert forall i :: 0 <= i < |s| - 1 ==> s[..|s| - 1][i] == s[i];
      if s[|s| - 1].score > rest then s[|s| - 1].score else rest
  }

  /** The minimum is held by some entry of a non-empty list. */
  lemma {:induction false} MinScoreAttained(s: seq<NodeScore>) returns (k: nat)
    requires |s| > 0
    ensures k < |s| && s[k].score == MinScore(s)
  {
    if |s| == 1 || s[|s| - 1].score < MinScore(s[..|s| - 1]) {
      k := |s| - 1;
    } else {
      k := MinScoreAttained(s[..|s| - 1]);
    }
  }

  /** The maximum is held by some entry of a non-empty list. */
  lemma {:induction false} MaxScoreAttained(s: seq<NodeScore>) returns (k: nat)
    requires |s| > 0
    ensures k < |s| && s[k].score == MaxScore(s)
  {
    if |s| == 1 || s[|s| - 1].score > MaxScore(s[..|s| - 1]) {
      k := |s| - 1;
    } else {
      k := MaxScoreAttained(s[..|s| - 1]);
    }
  }

  /** One score rewritten as `((score - minScore) * 100) / scoreRange`, each step in int64. */
  function Rescale(score: Int64, minScore: Int64, scoreRange: Int64): (r: Int64)
    requires scoreRange > 0
    ensures minScore <= score && (score - minScore) * 100 <= MaxInt64
            ==> r == ((score - minScore) * 100) / scoreRange
  {
    var diff := Wrap(score as int - minScore);
    var product := Wrap(diff * 100);
    assert minScore <= score && (score - minScore) * 100 <= MaxInt64 ==> product == (score - minScore) * 100 >= 0;
    Quo(product, scoreRange)
  }

  /** One entry after the rewrite loop of the branch that `scoreRange` selects. */
  function Rewritten(e: NodeScore, minScore: Int64, scoreRange: Int64): NodeScore
  {
    e.(score := if scoreRange > 0 then Rescale(e.score, minScore, scoreRange) else 0)
  }

  /** Every entry of `s` rewritten by the loop that `scoreRange` selects. */
  function RewriteAll(s: seq<NodeScore>, minScore: Int64, scoreRange: Int64): (r: seq<NodeScore>)
    ensures |r| == |s|
    ensures forall i :: 0 <= i < |s| ==> r[i] == Rewritten(s[i], minScore, scoreRange)
  {
    seq(|s|, i requires 0 <= i < |s| => Rewritten(s[i], minScore, scoreRange))
  }

  /** The int64 difference that `NormalizeScore` tests for positivity. */
  function ScoreRangeOf(s: seq<NodeScore>): (r: Int64)
    ensures |s| == 0 ==> r == 1
    ensures |s| > 0 && MaxScore(s) as int - MinScore(s) <= MaxInt64 ==> r == MaxScore(s) - MinScore(s) >= 0
  {
    Wrap(MaxScore(s) as int - MinScore(s))
  }

  /** The list `NormalizeScore` leaves: same nodes in the same order, only scores rewritten. */
  function Normalized(s: seq<NodeScore>): (r: seq<NodeScore>)
    ensures |r| == |s|
    ensures forall i :: 0 <= i < |s| ==> r[i].name == s[i].name
  {
    RewriteAll(s, MinScore(s), ScoreRangeOf(s))
  }

  /** The rewrite loop for a positive range: each score becomes `Rescale` of itself. */
  method RescaleScores(scores: array<NodeScore>, minScore: Int64, scoreRange: Int64)
    requires scoreRange > 0
    modifies scores
    ensures scores[..] == RewriteAll(old(scores[..]), minScore, scoreRange)
  {
    for i := 0 to scores.Length
      invariant forall j :: 0 <= j < i ==> scores[j] == Rewritten(old(scores[j]), minScore, scoreRange)
      invariant forall j :: i <= j < scores.Length ==> scores[j] == old(scores[j])
    {
      scores[i] := scores[i].(score := Rescale(scores[i].score, minScore, scoreRange));
    }
  }

  /** The rewrite loop for a degenerate range: every score becomes 0, names stay. */
  method ZeroScores(scores: array<NodeScore>)
    modifies scores
    ensures forall j :: 0 <= j < scores.Length ==> scores[j] == old(scores[j]).(score := 0)
  {
    for i := 0 to scores.Length
      invariant forall j :: 0 <= j < i ==> scores[j] == old(scores[j]).(score := 0)
      invariant forall j :: i <= j < scores.Length ==> scores[j] == old(scores[j])
    {
      scores[i] := scores[i].(score := 0);
    }
  }

  /** The scan of `NormalizeScore` for the batch minimum and maximum. */
  method ScoreRange(scores: array<NodeScore>) returns (minScore: Int64, maxScore: Int64)
    ensures minScore == MinScore(scores[..]) && maxScore == MaxScore(scores[..])
  {
    minScore, maxScore := MaxInt64, MinInt64;
    for i := 0 to scores.Length
      invariant minScore == MinScore(scores[..i])
      invariant maxScore == MaxScore(scores[..i])
    {
      assert scores[..i + 1][..i] == scores[..i];
      var score := scores[i];
      if score.score < minScore {
        minScore := score.score;
      }
      if score.score > maxScore {
        maxScore := score.score;
      }
    }
    assert scores[..scores.Length] == scores[..];
  }

  // ---------------------------------------------------------------------------
  // What the rewrite means: range, endpoints, order, degenerate and empty batches.
  // ---------------------------------------------------------------------------

  /** The batch's spread times 100 fits in an int64, so no step of the rewrite wraps. */
  predicate Headroom(s: seq<NodeScore>)
  {
    (MaxScore(s) as int - MinScore(s)) * 100 <= MaxInt64
  }

  /**
   * The rescaling in exact arithmetic: `[lo, hi]` mapped onto `[0, 100]`, rounded
   * down, and 0 for a spread of 0.
   */
  function IdealScore(x: int, lo: int, hi: int): int
  {
    if hi > lo then ((x - lo) * 100) / (hi - lo) else 0
  }

  /** Under `Headroom`, Go's int64 rewrite computes exactly the exact-arithmetic rescaling. */
  lemma NormalizedIsIdeal(s: seq<NodeScore>, i: int)
    requires Headroom(s) && 0 <= i < |s|
    ensures Normalized(s)[i].score == IdealScore(s[i].score, MinScore(s), MaxScore(s))
  {
    var lo, hi, x := MinScore(s), MaxScore(s), s[i].score;
    assert Normalized(s)[i] == Rewritten(s[i], lo, ScoreRangeOf(s));
    if hi > lo {
      RangeExact(lo, hi);
      assert ScoreRangeOf(s) == hi - lo;
      RescaleExact(x, lo, hi);
      assert Rewritten(s[i], lo, hi - lo).score == Rescale(x, lo, hi - lo);
    } else {
      assert ScoreRangeOf(s) == 0;
    }
  }

  /** Without wrap-around the int64 range is the exact difference. */
  lemma RangeExact(lo: Int64, hi: Int64)
    requires lo <= hi && (hi - lo) * 100 <= MaxInt64
    ensures Wrap(hi as int - lo) == hi - lo
  {
  }

  /** Without wrap-around one rewritten score is the exact-arithmetic one. */
  lemma RescaleExact(x: Int64, lo: Int64, hi: Int64)
    requires lo <= x <= hi && lo < hi && (hi - lo) * 100 <= MaxInt64
    ensures Rescale(x, lo, hi - lo) == IdealScore(x, lo, hi)
  {
    var n: Int64 := (x - lo) * 100;
    assert Wrap(x as int - lo) == x - lo;
    assert Wrap(Wrap(x as int - lo) * 100) == n;
  }

  lemma IdealScoreBounds(x: int, lo: int, hi: int)
    requires lo <= x <= hi
    ensures 0 <= IdealScore(x, lo, hi) <= 100
  {
    if hi > lo {
      DivMonotone((x - lo) * 100, (hi - lo) * 100, hi - lo);
      MulDivCancel(100, hi - lo);
    }
  }

  lemma IdealScoreEndpoints(lo: int, hi: int)
    requires lo < hi
    ensures IdealScore(lo, lo, hi) == 0 && IdealScore(hi, lo, hi) == 100
  {
    var d := hi - lo;
    assert (hi - lo) * 100 == 100 * d;
    MulDivCancel(100, d);
  }

  lemma IdealScoreMonotone(x: int, y: int, lo: int, hi: int)
    requires lo <= x <= y
    ensures IdealScore(x, lo, hi) <= IdealScore(y, lo, hi)
  {
    if hi > lo {
      DivMonotone((x - lo) * 100, (y - lo) * 100, hi - lo);
    }
  }

  lemma DivMonotone(a: int, b: int, d: int)
    requires 0 <= a <= b && d > 0
    ensures a / d <= b / d
  {
    var qa, qb := a / d, b / d;
    assert a == qa * d + a % d && 0 <= a % d < d;
    assert b == qb * d + b % d && 0 <= b % d < d;
    if qa > qb {
      assert qa * d - qb * d == (qa - qb) * d;
      GoInt.MulMonotone(d, 1, qa - qb);
    }
  }

  lemma MulDivCancel(k: int, d: int)
    requires d > 0
    ensures (k * d) / d == k
  {
    var q, r := (k * d) / d, (k * d) % d;
    assert k * d == q * d + r && 0 <= r < d;
    assert (k - q) * d == r;
    if k - q >= 1 {
      GoInt.MulMonotone(d, 1, k - q);
    } else if k - q <= -1 {
      GoInt.MulMonotone(d, 1, q - k);
    }
  }

  /** Every rewritten score lies in [0, 100]. */
  lemma NormalizedInRange(s: seq<NodeScore>)
    requires Headroom(s)
    ensures forall i :: 0 <= i < |s| ==> 0 <= Normalized(s)[i].score <= 100
  {
    forall i | 0 <= i < |s|
      ensures 0 <= Normalized(s)[i].score <= 100
    {
      NormalizedIsIdeal(s, i);
      IdealScoreBounds(s[i].score, MinScore(s), MaxScore(s));
    }
  }

  /** With a positive spread the batch minimum becomes 0 and the batch maximum 100. */
  lemma NormalizedEndpoints(s: seq<NodeScore>)
    requires Headroom(s) && MinScore(s) < MaxScore(s)
    ensures forall i :: 0 <= i < |s| && s[i].score == MinScore(s) ==> Normalized(s)[i].score == 0
    ensures forall i :: 0 <= i < |s| && s[i].score == MaxScore(s) ==> Normalized(s)[i].score == 100
  {
    forall i | 0 <= i < |s|
      ensures s[i].score == MinScore(s) ==> Normalized(s)[i].score == 0
      ensures s[i].score == MaxScore(s) ==> Normalized(s)[i].score == 100
    {
      NormalizedIsIdeal(s, i);
      IdealScoreEndpoints(MinScore(s), MaxScore(s));
    }
  }

  /** With a positive spread some node scores 0 and some node scores 100. */
  lemma NormalizedReachesBothEnds(s: seq<NodeScore>) returns (low: nat, high: nat)
    requires Headroom(s) && MinScore(s) < MaxScore(s)
    ensures low < |s| && Normalized(s)[low].score == 0
    ensures high < |s| && Normalized(s)[high].score == 100
  {
    low := MinScoreAttained(s);
    high := MaxScoreAttained(s);
    NormalizedEndpoints(s);
  }

  /** Rewriting keeps the order of the raw scores. */
  lemma NormalizedMonotone(s: seq<NodeScore>)
    requires Headroom(s)
    ensures forall i, j :: 0 <= i < |s| && 0 <= j < |s| && s[i].score <= s[j].score
              ==> Normalized(s)[i].score <= Normalized(s)[j].score
  {
    forall i, j | 0 <= i < |s| && 0 <= j < |s| && s[i].score <= s[j].score
      ensures Normalized(s)[i].score <= Normalized(s)[j].score
    {
      NormalizedIsIdeal(s, i);
      NormalizedIsIdeal(s, j);
      IdealScoreMonotone(s[i].score, s[j].score, MinScore(s), MaxScore(s));
    }
  }

  /** A batch whose raw scores are all equal is rewritten to all zeros, whatever their size. */
  lemma NormalizedUniform(s: seq<NodeScore>, c: Int64)
    requires forall i :: 0 <= i < |s| ==> s[i].score == c
    ensures forall i :: 0 <= i < |s| ==> Normalized(s)[i].score == 0
  {
    if |s| > 0 {
      var low := MinScoreAttained(s);
      var high := MaxScoreAttained(s);
      assert ScoreRangeOf(s) == 0;
    }
  }

  /** The empty batch: the sentinels' difference wraps to 1 and nothing is rewritten. */
  lemma NormalizedEmpty()
    ensures ScoreRangeOf([]) == 1
    ensures Normalized([]) == []
  {
  }

  /** 2^55, a bound on memory quantities (32 PiB) far above any node's. */
  const RealisticScoreBound: int := 0x80_0000_0000_0000

  /** Scores of at most 2^55 in magnitude always leave `Headroom`. */
  lemma HeadroomForRealisticScores(s: seq<NodeScore>)
    requires forall i :: 0 <= i < |s| ==> -RealisticScoreBound <= s[i].score <= RealisticScoreBound
    ensures Headroom(s)
  {
    if |s| > 0 {
      var low := MinScoreAttained(s);
      var high := MaxScoreAttained(s);
    }
  }

  /** Beyond `Headroom` the int64 product wraps: here the batch maximum is rewritten to 0, not 100. */
  lemma OverflowLosesMaximum()
    ensures var s := [NodeScore("small", 0), NodeScore("large", 0x4000_0000_0000_0000)];
            !Headroom(s) && Normalized(s)[1].score == 0
  {
    var s := [NodeScore("small", 0), NodeScore("large", 0x4000_0000_0000_0000)];
    assert s[..1] == [s[0]] && [s[0]][..0] == [];
    assert MinScore(s) == 0 && MaxScore(s) == 0x4000_0000_0000_0000;
    assert ScoreRangeOf(s) == 0x4000_0000_0000_0000;
    assert Wrap(0x4000_0000_0000_0000 * 100) == 0;
  }

  /**
   * Beyond `Headroom` the bound and the order both fail: in `[0, 2^61, 2^62]` the
   * product `2^61 * 100` wraps to MinInt64, so the middle node is rewritten to -2,
   * below 0 and below the node whose raw score is smaller.
   */
  lemma OverflowBreaksRangeAndOrder()
    ensures var s := [NodeScore("n1", 0), NodeScore("n2", 0x2000_0000_0000_0000), NodeScore("n3", 0x4000_0000_0000_0000)];
            && !Headroom(s)
            && s[0].score <= s[1].score
            && Normalized(s)[0].score == 0
            && Normalized(s)[1].score == -2
  {
    ThreeNodeBatch(0, 0x2000_0000_0000_0000, 0x4000_0000_0000_0000);
    var s := [NodeScore("n1", 0), NodeScore("n2", 0x2000_0000_0000_0000), NodeScore("n3", 0x4000_0000_0000_0000)];
    assert ScoreRangeOf(s) == 0x4000_0000_0000_0000;
    assert Wrap(0x2000_0000_0000_0000 * 100) == MinInt64;
    assert Quo(MinInt64, 0x4000_0000_0000_0000) == -2;
    assert Rescale(0, 0, 0x4000_0000_0000_0000) == 0;
  }

  /** A spread wider than MaxInt64 wraps to a negative range, so every score is rewritten to 0. */
  lemma WideSpreadZeroes()
    ensures var s := [NodeScore("a", MinInt64), NodeScore("b", MaxInt64)];
            Normalized(s)[0].score == 0 && Normalized(s)[1].score == 0
  {
    var s := [NodeScore("a", MinInt64), NodeScore("b", MaxInt64)];
    assert s[..1] == [s[0]] && [s[0]][..0] == [];
    assert MinScore(s) == MinInt64 && MaxScore(s) == MaxInt64;
    assert ScoreRangeOf(s) == -1;
  }

  // ---------------------------------------------------------------------------
  // Scoring: the two modes and the failed lookup.
  // ---------------------------------------------------------------------------

  /** For the same node, `Least` and `Most` give opposite raw scores. */
  lemma ScoreModesOpposite(nodeInfo: string -> Result<Int64>, nodeName: string)
    requires nodeInfo(nodeName).Ok? && nodeInfo(nodeName).value != MinInt64
    ensures CustomScheduler(LeastMode).Score(nodeInfo, nodeName).score
            == -CustomScheduler(MostMode).Score(nodeInfo, nodeName).score
  {
  }

  /** MinInt64 is its own int64 negation, so both modes give such a node the same score. */
  lemma ScoreOfMinInt64(nodeInfo: string -> Result<Int64>, nodeName: string)
    requires nodeInfo(nodeName) == Ok(MinInt64)
    ensures CustomScheduler(LeastMode).Score(nodeInfo, nodeName).score == MinInt64
    ensures CustomScheduler(MostMode).Score(nodeInfo, nodeName).score == MinInt64
  {
  }

  /** `Least` ranks nodes with less allocatable memory higher, `Most` those with more. */
  lemma ScoreOrdersByMemory(nodeInfo: string -> Result<Int64>, a: string, b: string)
    requires nodeInfo(a).Ok? && nodeInfo(b).Ok? && MinInt64 < nodeInfo(a).value <= nodeInfo(b).value
    ensures CustomScheduler(LeastMode).Score(nodeInfo, a).score >= CustomScheduler(LeastMode).Score(nodeInfo, b).score
    ensures CustomScheduler(MostMode).Score(nodeInfo, a).score <= CustomScheduler(MostMode).Score(nodeInfo, b).score
  {
  }

  /** A node's score depends on the snapshot's answer for that node alone. */
  lemma ScoreReadsOnlyItsNode(cs: CustomScheduler, f: string -> Result<Int64>, g: string -> Result<Int64>, nodeName: string)
    requires f(nodeName) == g(nodeName)
    ensures cs.Score(f, nodeName) == cs.Score(g, nodeName)
  {
  }

  // ---------------------------------------------------------------------------
  // Admission.
  // ---------------------------------------------------------------------------

  /** A pod without a `minAvailable` label fails admission with an error. */
  lemma PreFilterMissingQuorumLabel(cs: CustomScheduler, labels: map<string, string>, listByGroup: string -> Result<nat>)
    requires MinAvailableLabel !in labels
    ensures cs.PreFilter(labels, listByGroup) == Error("invalid minAvailable value")
  {
    AtoiExamples();
  }

  /** A quorum of 0 or less admits the pod once the group listing succeeds. */
  lemma PreFilterNonPositiveQuorum(cs: CustomScheduler, labels: map<string, string>, listByGroup: string -> Result<nat>)
    requires Atoi(LabelValue(labels, MinAvailableLabel)).Some?
    requires Atoi(LabelValue(labels, MinAvailableLabel)).value <= 0
    requires listByGroup(LabelValue(labels, GroupNameLabel)).Ok?
    ensures cs.PreFilter(labels, listByGroup) == Success
  {
  }

  /** `"-1"` parses, so a negative quorum admits rather than failing. */
  lemma PreFilterNegativeQuorumAdmits(cs: CustomScheduler, labels: map<string, string>, listByGroup: string -> Result<nat>)
    requires MinAvailableLabel in labels && labels[MinAvailableLabel] == "-1"
    requires listByGroup(LabelValue(labels, GroupNameLabel)).Ok?
    ensures cs.PreFilter(labels, listByGroup) == Success
  {
    AtoiExamples();
  }

  /** Once admitted, a pod stays admitted when its group grows. */
  lemma PreFilterMonotoneInGroupSize(cs: CustomScheduler, labels: map<string, string>,
                                     before: string -> Result<nat>, after: string -> Result<nat>)
    requires before(LabelValue(labels, GroupNameLabel)).Ok? && after(LabelValue(labels, GroupNameLabel)).Ok?
    requires before(LabelValue(labels, GroupNameLabel)).value <= after(LabelValue(labels, GroupNameLabel)).value
    requires cs.PreFilter(labels, before) == Success
    ensures cs.PreFilter(labels, after) == Success
  {
  }

  /** Admission reads one listing: that of the pod's own group label ("" when absent). */
  lemma PreFilterReadsOnlyOwnGroup(cs: CustomScheduler, labels: map<string, string>,
                                   f: string -> Result<nat>, g: string -> Result<nat>)
    requires f(LabelValue(labels, GroupNameLabel)) == g(LabelValue(labels, GroupNameLabel))
    ensures cs.PreFilter(labels, f) == cs.PreFilter(labels, g)
  {
  }

  /** A gang of quorum 3: two listed pods keep it waiting, three let it through. */
  lemma PreFilterGangOfThree(cs: CustomScheduler, listByGroup: string -> Result<nat>)
    ensures var labels := map[GroupNameLabel := "g1", MinAvailableLabel := "3"];
            && (listByGroup("g1") == Ok(2) ==> cs.PreFilter(labels, listByGroup) == Unschedulable("not enough pods in the group"))
            && (listByGroup("g1") == Ok(3) ==> cs.PreFilter(labels, listByGroup) == Success)
  {
    AtoiExamples();
  }

  // ---------------------------------------------------------------------------
  // Construction.
  // ---------------------------------------------------------------------------

  /** Modes are matched exactly: an absent mode ("") and a differently cased one are refused. */
  lemma NewRejectsOtherModes()
    ensures New(Some(SchedulerArgs(""))) == Err("invalid mode, got ")
    ensures New(Some(SchedulerArgs("least"))).Err?
    ensures New(Some(SchedulerArgs("Most"))) == Ok(CustomScheduler(MostMode))
  {
  }

  // ---------------------------------------------------------------------------
  // From memory to normalised score, for nodes of 10, 50 and 100 units.
  // ---------------------------------------------------------------------------

  /** A node snapshot with nodes n1, n2 and n3 of 10, 50 and 100 units of allocatable memory. */
  function ThreeNodeMemory(nodeName: string): Result<Int64>
  {
    if nodeName == "n1" then Ok(10)
    else if nodeName == "n2" then Ok(50)
    else if nodeName == "n3" then Ok(100)
    else Err("node not found")
  }

  /** The list the host hands to `NormalizeScore` after scoring n1, n2 and n3 with `cs`. */
  function ThreeNodeScores(cs: CustomScheduler): seq<NodeScore>
  {
    [ NodeScore("n1", cs.Score(ThreeNodeMemory, "n1").score),
      NodeScore("n2", cs.Score(ThreeNodeMemory, "n2").score),
      NodeScore("n3", cs.Score(ThreeNodeMemory, "n3").score) ]
  }

  lemma {:induction false} ThreeNodeBatch(a: Int64, b: Int64, c: Int64)
    ensures var s := [NodeScore("n1", a), NodeScore("n2", b), NodeScore("n3", c)];
            MinScore(s) == (if c < (if b < a then b else a) then c else if b < a then b else a)
            && MaxScore(s) == (if c > (if b > a then b else a) then c else if b > a then b else a)
  {
    var s := [NodeScore("n1", a), NodeScore("n2", b), NodeScore("n3", c)];
    assert s[..2] == [s[0], s[1]] && s[..2][..1] == [s[0]] && [s[0]][..0] == [];
    assert MinScore([s[0]]) == a && MaxScore([s[0]]) == a;
    assert MinScore(s[..2]) == (if b < a then b else a);
    assert MaxScore(s[..2]) == (if b > a then b else a);
  }

  /** `Least` favours the fullest node: memories 10, 50, 100 score -10, -50, -100, normalised to 100, 55, 0. */
  lemma LeastModeScenario()
    ensures ThreeNodeScores(CustomScheduler(LeastMode))
            == [NodeScore("n1", -10), NodeScore("n2", -50), NodeScore("n3", -100)]
    ensures Normalized(ThreeNodeScores(CustomScheduler(LeastMode)))
            == [NodeScore("n1", 100), NodeScore("n2", 55), NodeScore("n3", 0)]
  {
    ThreeNodeBatch(-10, -50, -100);
    var s := [NodeScore("n1", -10), NodeScore("n2", -50), NodeScore("n3", -100)];
    assert ThreeNodeScores(CustomScheduler(LeastMode)) == s;
    assert ScoreRangeOf(s) == 90;
    assert Rescale(-10, -100, 90) == 100 && Rescale(-50, -100, 90) == 55 && Rescale(-100, -100, 90) == 0;
  }

  /** `Most` favours the emptiest node: memories 10, 50, 100 score 10, 50, 100, normalised to 0, 44, 100. */
  lemma MostModeScenario()
    ensures ThreeNodeScores(CustomScheduler(MostMode))
            == [NodeScore("n1", 10), NodeScore("n2", 50), NodeScore("n3", 100)]
    ensures Normalized(ThreeNodeScores(CustomScheduler(MostMode)))
            == [NodeScore("n1", 0), NodeScore("n2", 44), NodeScore("n3", 100)]
  {
    ThreeNodeBatch(10, 50, 100);
    var s := [NodeScore("n1", 10), NodeScore("n2", 50), NodeScore("n3", 100)];
    assert ThreeNodeScores(CustomScheduler(MostMode)) == s;
    assert ScoreRangeOf(s) == 90;
    assert Rescale(10, 10, 90) == 0 && Rescale(50, 10, 90) == 44 && Rescale(100, 10, 90) == 100;
  }
}
