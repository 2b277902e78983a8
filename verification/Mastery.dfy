/**
 * The mastery estimate of one skill: a weighted mean over its newest evidence, where newer evidence and more
 * reliable kinds weigh more.
 */
module Mastery {
  import opened Wrappers
  import opened Rounding

  datatype EvidenceKind = Attempt | Assessment | Review | TutorObservation | SelfReport

  datatype MasteryStatus = Unknown | NeedsSupport | Developing | Secure | Strong

  datatype SkillRef = SkillRef(track: string, skill: string)

  /** What makes a stored observation the same observation when it is recorded again. */
  datatype EvidenceKey = EvidenceKey(track: string, skill: string, sourceType: string, sourceId: string)

  datatype Evidence = Evidence(
    key: EvidenceKey,
    kind: EvidenceKind,
    score: real,
    confidence: real,
    objective: Option<string>,
    activity: Option<string>,
    session: Option<string>,
    thread: Option<string>,
    rationale: Option<string>,
    payload: string,
    observedAt: int)
  {
    function Skill(): SkillRef
    {
      SkillRef(key.track, key.skill)
    }

    predicate Bounded()
    {
      0.0 <= score <= 1.0 && 0.0 <= confidence <= 1.0
    }
  }

  const WINDOW: nat := 20

  function KindWeight(kind: EvidenceKind): (w: real)
    ensures w > 0.0
  {
    match kind
    case Attempt => 1.0
    case Assessment => 1.25
    case Review => 1.1
    case TutorObservation => 0.7
    case SelfReport => 0.35
  }

  /** 0.92 to the power of the position, the newest item being at position zero. */
  function Recency(index: nat): (w: real)
    ensures 0.0 < w <= 1.0
  {
    if index == 0 then 1.0 else 0.92 * Recency(index - 1)
  }

  function Weight(item: Evidence, index: nat): real
  {
    KindWeight(item.kind) * item.confidence * Recency(index)
  }

  function Weights(window: seq<Evidence>): (r: seq<real>)
    ensures |r| == |window|
  {
    seq(|window|, i requires 0 <= i < |window| => Weight(window[i], i))
  }

  function Scores(window: seq<Evidence>): (r: seq<real>)
    ensures |r| == |window|
  {
    seq(|window|, i requires 0 <= i < |window| => window[i].score)
  }

  /** Sum of the first `n` weights. */
  function Sum(weights: seq<real>, n: nat): real
    requires n <= |weights|
  {
    if n == 0 then 0.0 else Sum(weights, n - 1) + weights[n - 1]
  }

  /** Sum of the first `n` weighted scores. */
  function WeightedSum(scores: seq<real>, weights: seq<real>, n: nat): real
    requires n <= |weights| == |scores|
  {
    if n == 0 then 0.0 else WeightedSum(scores, weights, n - 1) + scores[n - 1] * weights[n - 1]
  }

  function Quotient(total: real, weight: real): real
  {
    if weight != 0.0 then total / weight else 0.0
  }

  function Mean(scores: seq<real>, weights: seq<real>): real
    requires |scores| == |weights|
  {
    Quotient(WeightedSum(scores, weights, |weights|), Sum(weights, |weights|))
  }

  function Estimate(window: seq<Evidence>): real
  {
    Mean(Scores(window), Weights(window))
  }

  function Confidence(window: seq<Evidence>): real
  {
    Min(1.0, Sum(Weights(window), |window|) / 4.0)
  }

  function StatusOf(window: seq<Evidence>): MasteryStatus
  {
    var estimate := Estimate(window);
    if window == [] then Unknown
    else if estimate < 0.4 then NeedsSupport
    else if estimate < 0.7 then Developing
    else if estimate < 0.85 then Secure
    else Strong
  }

  ghost predicate AllBounded(window: seq<Evidence>)
  {
    forall i :: 0 <= i < |window| ==> window[i].Bounded()
  }

  ghost predicate ScoresWithin(window: seq<Evidence>, least: real, greatest: real)
  {
    forall i :: 0 <= i < |window| ==> least <= window[i].score <= greatest
  }

  ghost predicate SomeConfidence(window: seq<Evidence>)
  {
    exists i :: 0 <= i < |window| && window[i].confidence > 0.0
  }

  // ---- weighted means ---------------------------------------------------------------------------

  ghost predicate Nonnegative(weights: seq<real>)
  {
    forall i :: 0 <= i < |weights| ==> weights[i] >= 0.0
  }

  ghost predicate AllWithin(scores: seq<real>, least: real, greatest: real)
  {
    forall i :: 0 <= i < |scores| ==> least <= scores[i] <= greatest
  }

  lemma {:induction false} SumSign(weights: seq<real>, n: nat)
    requires n <= |weights| && Nonnegative(weights)
    ensures Sum(weights, n) >= 0.0
    ensures Sum(weights, n) > 0.0 <==> exists i :: 0 <= i < n && weights[i] > 0.0
  {
    if n > 0 {
      SumSign(weights, n - 1);
    }
  }

  lemma {:induction false} WeightedSumWithin(scores: seq<real>, weights: seq<real>, n: nat, least: real, greatest: real)
    requires n <= |weights| == |scores|
    requires Nonnegative(weights) && AllWithin(scores, least, greatest)
    ensures least * Sum(weights, n) <= WeightedSum(scores, weights, n) <= greatest * Sum(weights, n)
  {
    if n > 0 {
      WeightedSumWithin(scores, weights, n - 1, least, greatest);
      OneMoreWithin(WeightedSum(scores, weights, n - 1), Sum(weights, n - 1), scores[n - 1], weights[n - 1], least, greatest);
    }
  }

  lemma OneMoreWithin(total: real, weight: real, score: real, more: real, least: real, greatest: real)
    requires least * weight <= total <= greatest * weight && least <= score <= greatest && more >= 0.0
    ensures least * (weight + more) <= total + score * more <= greatest * (weight + more)
  {
    ProductOrder(least, score, more);
    ProductOrder(score, greatest, more);
    SumTimes(least, weight, more);
    SumTimes(greatest, weight, more);
  }

  lemma QuotientWithin(numerator: real, denominator: real, least: real, greatest: real)
    requires denominator > 0.0
    requires least * denominator <= numerator <= greatest * denominator
    ensures least <= numerator / denominator <= greatest
  {
    QuotientOfSum(numerator, 0.0, denominator);
    var q := numerator / denominator;
    if q < least {
      ProductSign(least - q, denominator);
      SumTimes(denominator, least, -q);
    }
    if q > greatest {
      ProductSign(q - greatest, denominator);
      SumTimes(denominator, q, -greatest);
    }
  }

  lemma MeanWithin(scores: seq<real>, weights: seq<real>, least: real, greatest: real)
    requires |scores| == |weights| && Nonnegative(weights) && AllWithin(scores, least, greatest)
    ensures Sum(weights, |weights|) >= 0.0
    ensures Sum(weights, |weights|) > 0.0 ==> least <= Mean(scores, weights) <= greatest
  {
    SumSign(weights, |weights|);
    WeightedSumWithin(scores, weights, |weights|, least, greatest);
    if Sum(weights, |weights|) > 0.0 {
      QuotientWithin(WeightedSum(scores, weights, |weights|), Sum(weights, |weights|), least, greatest);
    }
  }

  lemma MeanTimesSum(scores: seq<real>, weights: seq<real>)
    requires |scores| == |weights| && Nonnegative(weights) && AllWithin(scores, 0.0, 1.0)
    ensures Mean(scores, weights) * Sum(weights, |weights|) == WeightedSum(scores, weights, |weights|)
  {
    SumSign(weights, |weights|);
    WeightedSumWithin(scores, weights, |weights|, 0.0, 1.0);
    if Sum(weights, |weights|) > 0.0 {
      QuotientOfSum(WeightedSum(scores, weights, |weights|), 0.0, Sum(weights, |weights|));
    }
  }

  lemma {:induction false} WeightedSumRises(scores: seq<real>, weights: seq<real>, i: nat, score: real, n: nat)
    requires i < |scores| == |weights| && n <= |weights| && Nonnegative(weights)
    requires scores[i] <= score
    ensures WeightedSum(scores, weights, n) <= WeightedSum(scores[i := score], weights, n)
  {
    if n > 0 {
      WeightedSumRises(scores, weights, i, score, n - 1);
      ProductOrder(scores[n - 1], scores[i := score][n - 1], weights[n - 1]);
    }
  }

  lemma {:induction false} ShiftedSums(scores: seq<real>, weights: seq<real>, longer: seq<real>, heavier: seq<real>, n: nat)
    requires |scores| == |weights| && |longer| == |heavier| == |scores| + 1 && n <= |scores|
    requires forall i :: 0 <= i < |scores| ==> longer[i + 1] == scores[i] && heavier[i + 1] == 0.92 * weights[i]
    ensures Sum(heavier, n + 1) == heavier[0] + 0.92 * Sum(weights, n)
    ensures WeightedSum(longer, heavier, n + 1) == longer[0] * heavier[0] + 0.92 * WeightedSum(scores, weights, n)
  {
    if n == 0 {
      assert Sum(heavier, 0) == 0.0 && WeightedSum(longer, heavier, 0) == 0.0;
    } else {
      ShiftedSums(scores, weights, longer, heavier, n - 1);
      ScaledProduct(scores[n - 1], weights[n - 1]);
    }
  }

  lemma ScaledProduct(a: real, b: real)
    ensures a * (0.92 * b) == 0.92 * (a * b)
  {
  }

  /** A weighted mean of two values lies between them. */
  lemma MeanOfTwo(a: real, wa: real, b: real, wb: real)
    requires wa >= 0.0 && wb >= 0.0 && wa + wb > 0.0
    ensures Min(a, b) <= (a * wa + b * wb) / (wa + wb) <= Max(a, b)
  {
    var low, high := Min(a, b), Max(a, b);
    ProductOrder(low, a, wa);
    ProductOrder(low, b, wb);
    ProductOrder(a, high, wa);
    ProductOrder(b, high, wb);
    SumTimes(low, wa, wb);
    SumTimes(high, wa, wb);
    QuotientWithin(a * wa + b * wb, wa + wb, low, high);
  }

  lemma QuotientOfTwo(a: real, wa: real, b: real, wb: real, total: real, weight: real)
    requires wa >= 0.0 && wb >= 0.0 && a >= 0.0 && (wb == 0.0 ==> b == 0.0)
    requires total == a * wa + b * wb && weight == wa + wb
    ensures Min(b, a) <= Quotient(total, weight) <= Max(b, a)
  {
    if weight > 0.0 {
      MeanOfTwo(a, wa, b, wb);
    }
  }

  // ---- the estimate -----------------------------------------------------------------------------

  lemma WeightSign(item: Evidence, index: nat)
    requires item.Bounded()
    ensures Weight(item, index) >= 0.0
    ensures Weight(item, index) > 0.0 <==> item.confidence > 0.0
  {
    var kind, recency := KindWeight(item.kind), Recency(index);
    TripleSign(kind, item.confidence, recency);
    assert Weight(item, index) == kind * item.confidence * recency;
  }

  lemma TripleSign(kind: real, confidence: real, recency: real)
    requires kind > 0.0 && recency > 0.0 && confidence >= 0.0
    ensures kind * confidence * recency >= 0.0
    ensures kind * confidence * recency > 0.0 <==> confidence > 0.0
  {
    ProductSign(confidence, kind);
    ProductSign(kind * confidence, recency);
  }

  lemma WindowItems(window: seq<Evidence>)
    requires AllBounded(window)
    ensures Nonnegative(Weights(window)) && AllWithin(Scores(window), 0.0, 1.0)
    ensures forall i :: 0 <= i < |window| ==> (Weights(window)[i] > 0.0 <==> window[i].confidence > 0.0)
  {
    forall i | 0 <= i < |window|
      ensures Weights(window)[i] >= 0.0
      ensures Weights(window)[i] > 0.0 <==> window[i].confidence > 0.0
    {
      assert window[i].Bounded();
      WeightSign(window[i], i);
    }
    forall i | 0 <= i < |window|
      ensures 0.0 <= Scores(window)[i] <= 1.0
    {
      assert window[i].Bounded();
    }
  }

  lemma WindowWeights(window: seq<Evidence>)
    requires AllBounded(window)
    ensures Nonnegative(Weights(window)) && AllWithin(Scores(window), 0.0, 1.0)
    ensures forall i :: 0 <= i < |window| ==> (Weights(window)[i] > 0.0 <==> window[i].confidence > 0.0)
    ensures Sum(Weights(window), |window|) > 0.0 <==> SomeConfidence(window)
  {
    WindowItems(window);
    SumSign(Weights(window), |window|);
  }

  /**
   * The estimate lies between the least and the greatest score of the window exactly when some item carries
   * confidence or the least score is zero: with no confidence at all the estimate is zero whatever the scores.
   */
  lemma EstimateWithinScoresExactly(window: seq<Evidence>, least: real, greatest: real)
    requires AllBounded(window) && ScoresWithin(window, least, greatest)
    requires exists i :: 0 <= i < |window| && window[i].score == least
    requires exists i :: 0 <= i < |window| && window[i].score == greatest
    ensures least <= Estimate(window) <= greatest <==> (SomeConfidence(window) || least == 0.0)
  {
    WindowWeights(window);
    assert AllWithin(Scores(window), least, greatest);
    MeanWithin(Scores(window), Weights(window), least, greatest);
    var i :| 0 <= i < |window| && window[i].score == least;
    var j :| 0 <= j < |window| && window[j].score == greatest;
    assert window[i].Bounded() && window[j].Bounded();
  }

  /** One item without confidence: whatever its score, the estimate is zero. */
  lemma NoConfidenceGivesZero(item: Evidence)
    requires item.Bounded() && item.confidence == 0.0
    ensures Estimate([item]) == 0.0
  {
    WindowWeights([item]);
    assert !SomeConfidence([item]);
  }

  lemma EstimateIsBounded(window: seq<Evidence>)
    requires AllBounded(window)
    ensures 0.0 <= Estimate(window) <= 1.0
    ensures 0.0 <= Confidence(window) <= 1.0
    ensures 0.0 <= Round6(Estimate(window)) <= 1.0 && 0.0 <= Round6(Confidence(window)) <= 1.0
  {
    WindowWeights(window);
    MeanWithin(Scores(window), Weights(window), 0.0, 1.0);
    NearestOfWhole(0);
    NearestOfWhole(1000000);
    Round6IsMonotone(0.0, Estimate(window));
    Round6IsMonotone(Estimate(window), 1.0);
    Round6IsMonotone(0.0, Confidence(window));
    Round6IsMonotone(Confidence(window), 1.0);
  }

  /** Raising one score never lowers the estimate, stored to six decimals or not. */
  lemma EstimateIsMonotone(window: seq<Evidence>, i: nat, score: real)
    requires i < |window| && AllBounded(window)
    requires window[i].score <= score <= 1.0
    ensures Estimate(window) <= Estimate(window[i := window[i].(score := score)])
    ensures Round6(Estimate(window)) <= Round6(Estimate(window[i := window[i].(score := score)]))
  {
    var raised := window[i := window[i].(score := score)];
    forall k | 0 <= k < |window|
      ensures Weights(raised)[k] == Weights(window)[k]
    {
      assert raised[k].kind == window[k].kind && raised[k].confidence == window[k].confidence;
    }
    assert Weights(raised) == Weights(window);
    assert Scores(raised) == Scores(window)[i := score];
    WindowWeights(window);
    SumSign(Weights(window), |window|);
    WeightedSumRises(Scores(window), Weights(window), i, score, |window|);
    if Sum(Weights(window), |window|) > 0.0 {
      QuotientOrder(WeightedSum(Scores(window), Weights(window), |window|),
                    WeightedSum(Scores(raised), Weights(raised), |window|), Sum(Weights(window), |window|));
    }
    Round6IsMonotone(Estimate(window), Estimate(raised));
  }

  lemma QuotientOrder(a: real, b: real, denominator: real)
    requires a <= b && denominator > 0.0
    ensures a / denominator <= b / denominator
  {
    QuotientOfSum(a, b - a, denominator);
    ProductSign(b - a, 1.0 / denominator);
    assert (b - a) / denominator == (b - a) * (1.0 / denominator);
  }

  /** One place further down the window an item weighs 0.92 of what it did. */
  lemma OnePlaceDown(newest: Evidence, window: seq<Evidence>, i: nat)
    requires i < |window|
    ensures Scores([newest] + window)[i + 1] == Scores(window)[i]
    ensures Weights([newest] + window)[i + 1] == 0.92 * Weights(window)[i]
  {
    assert ([newest] + window)[i + 1] == window[i];
    ScaledProduct(KindWeight(window[i].kind) * window[i].confidence, Recency(i));
  }

  lemma OneInFront(newest: Evidence, window: seq<Evidence>)
    ensures var longer := [newest] + window;
            && Scores(longer)[0] == newest.score
            && forall i :: 0 <= i < |window| ==>
                 Scores(longer)[i + 1] == Scores(window)[i] && Weights(longer)[i + 1] == 0.92 * Weights(window)[i]
  {
    forall i | 0 <= i < |window|
      ensures Scores([newest] + window)[i + 1] == Scores(window)[i]
      ensures Weights([newest] + window)[i + 1] == 0.92 * Weights(window)[i]
    {
      OnePlaceDown(newest, window, i);
    }
  }

  lemma BothBounded(newest: Evidence, window: seq<Evidence>)
    requires newest.Bounded() && AllBounded(window)
    ensures Nonnegative(Weights(window)) && AllWithin(Scores(window), 0.0, 1.0)
    ensures Nonnegative(Weights([newest] + window))
  {
    WindowItems(window);
    WindowItems([newest] + window);
  }

  /**
   * As long as the window is not full, one newer item moves the estimate to a point between the old estimate
   * and the new score.
   */
  lemma NewestMovesTowardsItsScore(newest: Evidence, window: seq<Evidence>)
    requires |window| < WINDOW
    requires newest.Bounded() && AllBounded(window)
    ensures Min(Estimate(window), newest.score) <= Estimate([newest] + window) <= Max(Estimate(window), newest.score)
  {
    OneInFront(newest, window);
    BothBounded(newest, window);
    ShiftedMean(Scores(window), Weights(window), Scores([newest] + window), Weights([newest] + window));
  }

  lemma ShiftedTotals(scores: seq<real>, weights: seq<real>, longer: seq<real>, heavier: seq<real>)
    returns (rest: real)
    requires |scores| == |weights| && |longer| == |heavier| == |scores| + 1
    requires Nonnegative(weights) && AllWithin(scores, 0.0, 1.0)
    requires forall i :: 0 <= i < |scores| ==> longer[i + 1] == scores[i] && heavier[i + 1] == 0.92 * weights[i]
    ensures rest >= 0.0 && (rest == 0.0 ==> Sum(weights, |weights|) == 0.0)
    ensures Sum(heavier, |heavier|) == heavier[0] + rest
    ensures WeightedSum(longer, heavier, |heavier|) == longer[0] * heavier[0] + Mean(scores, weights) * rest
  {
    rest := 0.92 * Sum(weights, |weights|);
    ShiftedSums(scores, weights, longer, heavier, |scores|);
    MeanTimesSum(scores, weights);
    SumSign(weights, |weights|);
    ScaledProduct(Mean(scores, weights), Sum(weights, |weights|));
  }

  lemma ShiftedMean(scores: seq<real>, weights: seq<real>, longer: seq<real>, heavier: seq<real>)
    requires |scores| == |weights| && |longer| == |heavier| == |scores| + 1
    requires Nonnegative(weights) && Nonnegative(heavier) && AllWithin(scores, 0.0, 1.0) && longer[0] >= 0.0
    requires forall i :: 0 <= i < |scores| ==> longer[i + 1] == scores[i] && heavier[i + 1] == 0.92 * weights[i]
    ensures Min(Mean(scores, weights), longer[0]) <= Mean(longer, heavier) <= Max(Mean(scores, weights), longer[0])
  {
    var rest := ShiftedTotals(scores, weights, longer, heavier);
    assert rest == 0.0 ==> Mean(scores, weights) == 0.0;
    QuotientOfTwo(longer[0], heavier[0], Mean(scores, weights), rest,
                  WeightedSum(longer, heavier, |heavier|), Sum(heavier, |heavier|));
  }

  // ---- what kinds of evidence, confidence and place are worth -----------------------------------

  /** Two windows from which the same estimate is drawn with the same confidence. */
  ghost predicate CountAlike(a: seq<Evidence>, b: seq<Evidence>)
  {
    Estimate(a) == Estimate(b) && Confidence(a) == Confidence(b)
  }

  lemma AlikeWeights(window: seq<Evidence>, i: nat, a: Evidence, b: Evidence)
    requires i < |window| && a.score == b.score && Weight(a, i) == Weight(b, i)
    ensures CountAlike(window[i := a], window[i := b])
  {
    var first, second := window[i := a], window[i := b];
    forall k | 0 <= k < |window|
      ensures Weights(first)[k] == Weights(second)[k] && Scores(first)[k] == Scores(second)[k]
    {
      assert k != i ==> first[k] == window[k] && second[k] == window[k];
    }
    assert Weights(first) == Weights(second) && Scores(first) == Scores(second);
  }

  /** An attempt of so much more or less confidence counts as the item does when it is of a kind. */
  ghost predicate CountsAsAttempt(window: seq<Evidence>, i: nat, kind: EvidenceKind, factor: real)
    requires i < |window|
  {
    CountAlike(window[i := window[i].(kind := kind)],
               window[i := window[i].(kind := Attempt, confidence := factor * window[i].confidence)])
  }

  lemma WeightOfAttempt(item: Evidence, index: nat)
    requires item.kind == Attempt
    ensures Weight(item, index) == item.confidence * Recency(index)
  {
    assert KindWeight(Attempt) * item.confidence == item.confidence;
  }

  lemma KindCountsAsAttempt(window: seq<Evidence>, i: nat, kind: EvidenceKind)
    requires i < |window|
    ensures CountsAsAttempt(window, i, kind, KindWeight(kind))
  {
    var item := window[i];
    var attempt := item.(kind := Attempt, confidence := KindWeight(kind) * item.confidence);
    WeightOfAttempt(attempt, i);
    AlikeWeights(window, i, item.(kind := kind), attempt);
  }

  /**
   * Wherever it stands, an assessment counts as an attempt of five quarters of its confidence, a review as one of
   * eleven tenths, a tutor's observation as one of seven tenths and a self-report as one of seven twentieths.
   */
  lemma KindsCountAsAttempts(window: seq<Evidence>, i: nat)
    requires i < |window|
    ensures CountsAsAttempt(window, i, Assessment, 1.25)
    ensures CountsAsAttempt(window, i, Review, 1.1)
    ensures CountsAsAttempt(window, i, TutorObservation, 0.7)
    ensures CountsAsAttempt(window, i, SelfReport, 0.35)
  {
    KindCountsAsAttempt(window, i, Assessment);
    KindCountsAsAttempt(window, i, Review);
    KindCountsAsAttempt(window, i, TutorObservation);
    KindCountsAsAttempt(window, i, SelfReport);
  }

  lemma OneItem(item: Evidence)
    ensures Sum(Weights([item]), 1) == Weight(item, 0) && WeightedSum(Scores([item]), Weights([item]), 1) == item.score * Weight(item, 0)
  {
    assert Sum(Weights([item]), 0) == 0.0 && WeightedSum(Scores([item]), Weights([item]), 0) == 0.0;
  }

  /** A single attempt made with full confidence gives its own score, and a quarter of full confidence in it. */
  lemma OneSureAttempt(item: Evidence)
    requires item.kind == Attempt && item.confidence == 1.0
    ensures Estimate([item]) == item.score && Confidence([item]) == 0.25
  {
    OneItem(item);
    assert Recency(0) == 1.0;
  }

  /** Of two attempts the older counts 92 hundredths of what its confidence says. */
  lemma TwoAttempts(newer: Evidence, older: Evidence)
    requires newer.kind == Attempt && older.kind == Attempt && newer.confidence > 0.0 && older.confidence >= 0.0
    ensures Estimate([newer, older])
            == (newer.score * newer.confidence + older.score * (0.92 * older.confidence)) / (newer.confidence + 0.92 * older.confidence)
  {
    var weights, scores := Weights([newer, older]), Scores([newer, older]);
    assert Recency(0) == 1.0 && Recency(1) == 0.92;
    assert weights[0] == newer.confidence && weights[1] == 0.92 * older.confidence;
    assert Sum(weights, 0) == 0.0 && Sum(weights, 1) == weights[0];
    assert WeightedSum(scores, weights, 0) == 0.0 && WeightedSum(scores, weights, 1) == scores[0] * weights[0];
  }

  /** The kinds in the order of what they count, the lightest first. */
  const KINDS: seq<EvidenceKind> := [SelfReport, TutorObservation, Attempt, Review, Assessment]

  predicate CountsMore(more: EvidenceKind, less: EvidenceKind)
  {
    exists i, j :: 0 <= i < j < |KINDS| && KINDS[i] == less && KINDS[j] == more
  }

  lemma {:induction false} SumsUpdated(scores: seq<real>, weights: seq<real>, i: nat, weight: real, n: nat)
    requires i < |weights| == |scores| && n <= |weights|
    ensures Sum(weights[i := weight], n) == Sum(weights, n) + if i < n then weight - weights[i] else 0.0
    ensures WeightedSum(scores, weights[i := weight], n)
            == WeightedSum(scores, weights, n) + if i < n then scores[i] * (weight - weights[i]) else 0.0
  {
    if n > 0 {
      SumsUpdated(scores, weights, i, weight, n - 1);
      if i == n - 1 {
        SumTimes(scores[i], weights[i], weight - weights[i]);
      }
    }
  }

  /** Weighing one score more moves a mean towards that score. */
  lemma MeanMovesTowards(scores: seq<real>, weights: seq<real>, i: nat, weight: real)
    requires |scores| == |weights| && i < |weights| && Nonnegative(weights) && AllWithin(scores, 0.0, 1.0)
    requires weights[i] <= weight
    ensures Min(Mean(scores, weights), scores[i]) <= Mean(scores, weights[i := weight]) <= Max(Mean(scores, weights), scores[i])
  {
    var n, more := |weights|, weight - weights[i];
    SumSign(weights, n);
    SumsUpdated(scores, weights, i, weight, n);
    MeanTimesSum(scores, weights);
    assert Sum(weights, n) == 0.0 ==> Mean(scores, weights) == 0.0;
    QuotientOfTwo(scores[i], more, Mean(scores, weights), Sum(weights, n),
                  WeightedSum(scores, weights[i := weight], n), Sum(weights[i := weight], n));
  }

  lemma HeavierWeighs(item: Evidence, kind: EvidenceKind, index: nat)
    requires item.Bounded() && CountsMore(kind, item.kind)
    ensures Weight(item, index) <= Weight(item.(kind := kind), index)
  {
    var light, heavy, recency := KindWeight(item.kind), KindWeight(kind), Recency(index);
    ProductOrder(light, heavy, item.confidence);
    ProductOrder(light * item.confidence, heavy * item.confidence, recency);
    assert Weight(item, index) == light * item.confidence * recency;
    assert Weight(item.(kind := kind), index) == heavy * item.confidence * recency;
  }

  /** Evidence of a kind that counts more, in place of the same of one that counts less, moves the estimate towards its score. */
  lemma HeavierKindMovesTowardsItsScore(window: seq<Evidence>, i: nat, kind: EvidenceKind)
    requires i < |window| && AllBounded(window) && CountsMore(kind, window[i].kind)
    ensures var heavier := window[i := window[i].(kind := kind)];
            Min(Estimate(window), window[i].score) <= Estimate(heavier) <= Max(Estimate(window), window[i].score)
  {
    var heavier := window[i := window[i].(kind := kind)];
    WindowItems(window);
    HeavierWeighs(window[i], kind, i);
    assert Scores(heavier) == Scores(window);
    assert Weights(heavier) == Weights(window)[i := Weight(heavier[i], i)];
    MeanMovesTowards(Scores(window), Weights(window), i, Weight(heavier[i], i));
  }

  /** The status is that of the band of scores the evidence is in. */
  lemma StatusFollowsScores(window: seq<Evidence>, least: real, greatest: real)
    requires AllBounded(window) && ScoresWithin(window, least, greatest)
    ensures window == [] <==> StatusOf(window) == Unknown
    ensures SomeConfidence(window) && greatest < 0.4 ==> StatusOf(window) == NeedsSupport
    ensures SomeConfidence(window) && 0.4 <= least && greatest < 0.7 ==> StatusOf(window) == Developing
    ensures SomeConfidence(window) && 0.7 <= least && greatest < 0.85 ==> StatusOf(window) == Secure
    ensures SomeConfidence(window) && 0.85 <= least ==> StatusOf(window) == Strong
  {
    if SomeConfidence(window) {
      WindowWeights(window);
      assert AllWithin(Scores(window), least, greatest);
      MeanWithin(Scores(window), Weights(window), least, greatest);
    }
  }
}
