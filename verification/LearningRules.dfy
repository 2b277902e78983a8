/**
 * What the learner model's operations write, in terms of what they were given: which reports are accepted, what their
 * evidence is, when a review is due and how urgent it is, and what completing or changing a review leaves.
 */
module LearningRules {
  import opened Wrappers
  import opened Rounding
  import opened Mastery
  import opened Collections
  import opened Text
  import opened LearningModel

  // ---- accepting a report -----------------------------------------------------------------------

  ghost predicate HasContent(text: string)
  {
    exists i :: 0 <= i < |text| && !IsSpace(text[i])
  }

  /** An objective that is named must be known, of the track, and of the skill if it names one. */
  ghost predicate FitsObjective(cat: Catalogue, report: Report, objective: string)
  {
    objective != "" ==>
      && objective in cat.objectives && cat.objectives[objective].track == report.skill.track
      && (cat.objectives[objective].skill in {None, Some(""), Some(report.skill.skill)})
  }

  ghost predicate FitsActivity(cat: Catalogue, report: Report, activity: string)
  {
    activity != "" ==> activity in cat.activities && cat.activities[activity] == report.skill.track
  }

  ghost predicate Acceptable(cat: Catalogue, report: Report)
  {
    && report.skill in cat.skills
    && 0.0 <= report.score <= 1.0 && 0.0 <= report.confidence <= 1.0
    && HasContent(report.sourceType) && HasContent(report.sourceId)
    && (report.objective.Some? ==> FitsObjective(cat, report, report.objective.value))
    && (report.activity.Some? ==> FitsActivity(cat, report, report.activity.value))
  }

  /** Why a report is refused, each reason only where it applies. */
  ghost predicate Explains(cat: Catalogue, evidence: map<int, Evidence>, report: Report, error: LearningError)
  {
    match error
    case UnknownSkill => report.skill !in cat.skills
    case OutOfRange => report.score < 0.0 || report.score > 1.0 || report.confidence < 0.0 || report.confidence > 1.0
    case SourceRequired => !HasContent(report.sourceType) || !HasContent(report.sourceId)
    case UnknownObjective => report.objective.Some? && report.objective.value !in cat.objectives
    case ObjectiveMismatch => report.objective.Some? && report.objective.value in cat.objectives
                              && !FitsObjective(cat, report, report.objective.value)
    case UnknownActivity => report.activity.Some? && report.activity.value !in cat.activities
    case ActivityMismatch => report.activity.Some? && report.activity.value in cat.activities
                             && !FitsActivity(cat, report, report.activity.value)
    case IdTaken => var id := cat.evidenceId(EvidenceKeyOf(report)); id in evidence && evidence[id].key != EvidenceKeyOf(report)
    case _ => false
  }

  lemma SourcesHaveContent(report: Report)
    ensures Clean(report.sourceType, SOURCE_TYPE_LIMIT) == "" <==> !HasContent(report.sourceType)
    ensures CleanSource(report.sourceId) == "" <==> !HasContent(report.sourceId)
  {
    CleanIsEmptyExactly(report.sourceType, SOURCE_TYPE_LIMIT);
    CleanIsEmptyExactly(report.sourceId, SOURCE_ID_LIMIT);
  }

  lemma NotRefusedIsAcceptable(cat: Catalogue, report: Report)
    ensures Refusal(cat, report).None? <==> Acceptable(cat, report)
  {
    SourcesHaveContent(report);
  }

  lemma RefusalExplains(cat: Catalogue, evidence: map<int, Evidence>, report: Report)
    ensures Refusal(cat, report).Some? ==> Explains(cat, evidence, report, Refusal(cat, report).value)
  {
    SourcesHaveContent(report);
  }

  lemma RecordedUnlessRefused(cat: Catalogue, st: Store, report: Report, schedule: bool, now: int)
    ensures var r, refusal := Recorded(cat, st, report, schedule, now), RefusalAt(cat, st.evidence, report);
            if refusal.Some? then r == Err(refusal.value) else r.Ok?
  {
  }

  /** A report is recorded exactly when it is acceptable and no other observation has the id of its evidence. */
  lemma RecordedExactly(cat: Catalogue, st: Store, report: Report, schedule: bool, now: int)
    ensures var r, id := Recorded(cat, st, report, schedule, now), cat.evidenceId(EvidenceKeyOf(report));
            && (r.Ok? <==> Acceptable(cat, report) && (id in st.evidence ==> st.evidence[id].key == EvidenceKeyOf(report)))
            && (r.Err? ==> Explains(cat, st.evidence, report, r.error))
  {
    NotRefusedIsAcceptable(cat, report);
    RefusalExplains(cat, st.evidence, report);
    RecordedUnlessRefused(cat, st, report, schedule, now);
  }

  /**
   * The evidence of a recorded report carries what was reported, and the time it was given, or else the time it had, or
   * else the present; no other evidence changes.
   */
  lemma EvidenceIsAsReported(cat: Catalogue, st: Store, report: Report, schedule: bool, now: int)
    requires Recorded(cat, st, report, schedule, now).Ok?
    ensures var after := Recorded(cat, st, report, schedule, now).value.evidence;
            var id := cat.evidenceId(EvidenceKeyOf(report));
            && after.Keys == st.evidence.Keys + {id}
            && (forall other :: other in st.evidence && other != id ==> after[other] == st.evidence[other])
            && after[id].key.track == report.skill.track && after[id].key.skill == report.skill.skill
            && after[id].key.sourceType == Clean(report.sourceType, 80) && after[id].key.sourceId == Clean(report.sourceId, 240)
            && after[id].kind == report.kind && after[id].score == report.score && after[id].confidence == report.confidence
            && after[id].objective == report.objective && after[id].activity == report.activity
            && after[id].session == report.session && after[id].thread == report.thread
            && after[id].rationale == report.rationale && after[id].payload == report.payload
            && (report.observedAt.Some? ==> after[id].observedAt == report.observedAt.value)
            && (report.observedAt.None? ==>
                  after[id].observedAt == if id in st.evidence then st.evidence[id].observedAt else now)
  {
    RecordedEvidence(cat, st, report, schedule, now);
  }

  // ---- what a mastery row is drawn from ---------------------------------------------------------

  /** The ids of a skill's rows, from the newest to the oldest. */
  ghost predicate IsNewestFirst(rows: map<int, Evidence>, ids: seq<int>)
  {
    && |ids| == |rows| && (forall id :: id in ids <==> id in rows)
    && forall i, j :: 0 <= i < j < |ids| ==>
         || rows[ids[i]].observedAt > rows[ids[j]].observedAt
         || (rows[ids[i]].observedAt == rows[ids[j]].observedAt && ids[i] > ids[j])
  }

  lemma NewestInFront(rows: map<int, Evidence>, id: int, rest: seq<int>)
    requires IsNewest(rows, id) && IsNewestFirst(rows - {id}, rest)
    ensures IsNewestFirst(rows, [id] + rest)
  {
    var ids := [id] + rest;
    assert |(rows - {id}).Keys| == |rows.Keys| - 1;
    forall j | 0 < j < |ids|
      ensures ids[j] == rest[j - 1] && ids[j] in rows - {id}
    {
      assert rest[j - 1] in rest;
    }
    forall other | other in rows && other != id
      ensures other in ids
    {
      assert other in rows - {id} && other in rest;
    }
  }

  lemma {:induction false} NewestFirstIsSorted(rows: map<int, Evidence>)
    ensures IsNewestFirst(rows, NewestFirst(rows))
    decreases |rows|
  {
    if rows != map[] {
      NewestExists(rows);
      var id :| IsNewest(rows, id);
      NewestFirstStarts(rows, id);
      assert |(rows - {id}).Keys| == |rows.Keys| - 1;
      NewestFirstIsSorted(rows - {id});
      NewestInFront(rows, id, NewestFirst(rows - {id}));
    }
  }

  /** A mastery row that is up to date is drawn from the twenty newest rows of its skill, or from all when there are fewer. */
  lemma RowIsDrawnFromNewest(st: Store, skill: SkillRef) returns (ids: seq<int>, window: seq<Evidence>)
    requires skill in st.mastery && UpToDate(st, skill)
    ensures var rows, row := RowsOf(st.evidence, skill), st.mastery[skill];
            && IsNewestFirst(rows, ids)
            && |window| == (if |rows| < 20 then |rows| else 20) && row.evidenceCount == |window|
            && (forall i :: 0 <= i < |window| ==> ids[i] in rows && window[i] == rows[ids[i]])
            && row.estimate == Round6(Estimate(window)) && row.confidence == Round6(Confidence(window))
            && row.status == StatusOf(window)
            && row.lastEvidenceAt == if window == [] then None else Some(window[0].observedAt)
  {
    var rows := RowsOf(st.evidence, skill);
    ids, window := NewestFirst(rows), Window(rows);
    NewestFirstIsSorted(rows);
    forall i | 0 <= i < |window|
      ensures ids[i] in rows && window[i] == rows[ids[i]]
    {
      WindowItem(rows, i);
    }
  }

  // ---- when a review is due ---------------------------------------------------------------------

  /**
   * A weak skill is due the next day, a middling one in three days; one that is secure in a week and one that is strong
   * in two, doubled after the first repetition and doubled again after the second.
   */
  ghost predicate IsInterval(estimate: real, repetitions: nat, days: int)
  {
    if estimate < 0.5 then days == 1
    else if estimate < 0.7 then days == 3
    else
      var weeks := if estimate < 0.85 then 1 else 2;
      match repetitions
      case 0 => days == 7 * weeks
      case 1 => days == 14 * weeks
      case _ => days == 28 * weeks
  }

  /** How urgent a review is: the hundredths missing to certainty, ten at least. */
  ghost predicate IsPriority(estimate: real, priority: int)
  {
    && 10 <= priority <= 100
    && (estimate <= 0.9 ==> -0.5 <= priority as real - 100.0 * (1.0 - estimate) <= 0.5)
    && (estimate > 0.9 ==> priority == 10)
  }

  lemma IntervalIs(estimate: real, repetitions: nat)
    ensures IsInterval(estimate, repetitions, IntervalDays(estimate, repetitions))
  {
  }

  lemma PriorityIs(estimate: real)
    requires 0.0 <= estimate <= 1.0
    ensures IsPriority(estimate, PriorityOf(estimate))
  {
    NearestOfWhole(10);
    NearestOfWhole(100);
    NearestIsMonotone((1.0 - estimate) * 100.0, 100.0);
    if estimate <= 0.9 {
      NearestIsMonotone(10.0, (1.0 - estimate) * 100.0);
    } else {
      NearestIsMonotone((1.0 - estimate) * 100.0, 10.0);
    }
  }

  /** A schedule row that follows from the estimate of its skill: due after the interval, and as urgent as it is weak. */
  ghost predicate FollowsEstimate(row: ReviewRow, estimate: real, now: int)
  {
    && IsInterval(estimate, row.repetitions, row.intervalDays)
    && row.dueAt == now + 86400 * row.intervalDays
    && IsPriority(estimate, row.priority)
  }

  /** Recording new or changed evidence schedules the review by the estimate it leaves. */
  lemma ReviewFollowsEstimate(cat: Catalogue, st: Store, report: Report, now: int)
    requires Rooted(cat, st) && Recorded(cat, st, report, true, now).Ok? && EvidenceChanged(cat, st, report, now)
    ensures var after := Recorded(cat, st, report, true, now).value;
            var key := ReviewKey(report.skill, if report.objective == Some("") then None else report.objective);
            && key in after.reviews && FollowsEstimate(after.reviews[key], after.mastery[report.skill].estimate, now)
            && after.reviews[key].status == Pending
            && after.reviews[key].repetitions == (if key in st.reviews then st.reviews[key].repetitions else 0)
            && after.reviews[key].lastReviewedAt == (if key in st.reviews then st.reviews[key].lastReviewedAt else None)
  {
    var upserted := Upserted(cat, st, report, now);
    UpsertKeeps(cat, st, report, now);
    var estimate := upserted.mastery[report.skill].estimate;
    WindowIsBounded(cat, upserted, report.skill);
    EstimateIsBounded(Window(RowsOf(upserted.evidence, report.skill)));
    var key := KeyOf(report.skill, report.objective);
    IntervalIs(estimate, if key in st.reviews then st.reviews[key].repetitions else 0);
    PriorityIs(estimate);
  }

  /** Evidence counts as changed exactly when its row would not be what is stored. */
  lemma ChangedExactly(cat: Catalogue, st: Store, report: Report, now: int)
    requires Recorded(cat, st, report, false, now).Ok?
    ensures EvidenceChanged(cat, st, report, now) <==> Recorded(cat, st, report, false, now).value.evidence != st.evidence
  {
    RecordedEvidence(cat, st, report, false, now);
    var id := cat.evidenceId(EvidenceKeyOf(report));
    assert Recorded(cat, st, report, false, now).value.evidence[id] == RowFor(cat, st.evidence, report, now);
    if !EvidenceChanged(cat, st, report, now) {
      assert st.evidence[id := st.evidence[id]] == st.evidence;
    }
  }

  /** A review of the skill that is pending or in progress. */
  ghost predicate IsWaiting(reviews: map<ReviewKey, ReviewRow>, skill: SkillRef, key: ReviewKey)
  {
    key in reviews && key.skill == skill && (reviews[key].status.Pending? || reviews[key].status.InProgress?)
  }

  /** The cached date is the earliest at which a review of the skill that is waiting is due, if there is one. */
  lemma CachedDateIsEarliest(st: Store, skill: SkillRef)
    requires skill in st.mastery && NextReviewUpToDate(st, skill)
    ensures var date := st.mastery[skill].nextReviewAt;
            && (date.Some? <==> exists key :: IsWaiting(st.reviews, skill, key))
            && (date.Some? ==> exists key :: IsWaiting(st.reviews, skill, key) && st.reviews[key].dueAt == date.value)
            && (date.Some? ==> forall key :: IsWaiting(st.reviews, skill, key) ==> date.value <= st.reviews[key].dueAt)
  {
    var due, date := OpenDue(st.reviews, skill), st.mastery[skill].nextReviewAt;
    assert date == Earliest(due);
    forall key | IsWaiting(st.reviews, skill, key)
      ensures st.reviews[key].dueAt in due
    {
    }
    if date.Some? {
      var key :| key in st.reviews && key.skill == skill && st.reviews[key].Open() && st.reviews[key].dueAt == date.value;
      assert IsWaiting(st.reviews, skill, key);
    }
  }

  // ---- completing and changing reviews ----------------------------------------------------------

  /** A review can be completed exactly when it exists, is not dismissed and its evidence can be recorded. */
  lemma CompletedExactly(cat: Catalogue, st: Store, key: ReviewKey, score: real, confidence: real,
                         rationale: Option<string>, continueReview: bool, now: int)
    ensures var r := ReviewCompleted(cat, st, key, score, confidence, rationale, continueReview, now);
            && (r == Err(UnknownReview) <==> key !in st.reviews)
            && (r == Err(ReviewDismissed) <==> key in st.reviews && st.reviews[key].status == Dismissed)
            && (key in st.reviews && st.reviews[key].status != Dismissed ==>
                  (r.Ok? <==> Recorded(cat, st, ReviewReport(key, st.reviews[key], score, confidence, rationale), false, now).Ok?))
  {
    if key in st.reviews {
      RecordedExactly(cat, st, ReviewReport(key, st.reviews[key], score, confidence, rationale), false, now);
    }
  }

  lemma CompletionRecords(cat: Catalogue, st: Store, key: ReviewKey, score: real, confidence: real,
                          rationale: Option<string>, continueReview: bool, now: int)
    requires ReviewCompleted(cat, st, key, score, confidence, rationale, continueReview, now).Ok?
    ensures key in st.reviews
    ensures var after := ReviewCompleted(cat, st, key, score, confidence, rationale, continueReview, now).value;
            var report := ReviewReport(key, st.reviews[key], score, confidence, rationale);
            && Recorded(cat, st, report, false, now).Ok? && after.evidence == Recorded(cat, st, report, false, now).value.evidence
            && key in after.reviews && after.reviews[key].source == Some(cat.evidenceId(EvidenceKeyOf(report)))
  {
  }

  lemma ReviewSourceTypeStays()
    ensures Clean("learning_review", 80) == "learning_review"
  {
    var source := "learning_review";
    assert |source| == 15 && source[0] == 'l' && source[14] == 'w';
    AlreadyClean(source, 80);
  }

  /** Completing a review stores the score as a review's, under the review and the repetition it ends. */
  lemma CompletionIsEvidence(cat: Catalogue, st: Store, key: ReviewKey, score: real, confidence: real,
                             rationale: Option<string>, continueReview: bool, now: int)
    requires ReviewCompleted(cat, st, key, score, confidence, rationale, continueReview, now).Ok?
    ensures var after := ReviewCompleted(cat, st, key, score, confidence, rationale, continueReview, now).value;
            && key in st.reviews && key in after.reviews
            && after.reviews[key].source.Some? && after.reviews[key].source.value in after.evidence
            && var row := after.evidence[after.reviews[key].source.value];
               && row.kind == Review && row.score == score && row.confidence == confidence && row.rationale == rationale
               && row.key.track == key.skill.track && row.key.skill == key.skill.skill && row.objective == key.objective
               && row.key.sourceType == "learning_review"
               && row.key.sourceId == Clean(st.reviews[key].reviewId + ":" + Decimal(st.reviews[key].repetitions + 1), 240)
               && row.payload == st.reviews[key].reviewId + ":" + Decimal(st.reviews[key].repetitions + 1)
  {
    CompletionRecords(cat, st, key, score, confidence, rationale, continueReview, now);
    EvidenceIsAsReported(cat, st, ReviewReport(key, st.reviews[key], score, confidence, rationale), false, now);
    ReviewSourceTypeStays();
  }

  /** A review that goes on is due by the estimate its completion leaves; one that ends keeps its dates. */
  lemma CompletionFollowsEstimate(cat: Catalogue, st: Store, key: ReviewKey, score: real, confidence: real,
                                  rationale: Option<string>, continueReview: bool, now: int)
    requires ReviewCompleted(cat, st, key, score, confidence, rationale, continueReview, now).Ok?
    ensures var after := ReviewCompleted(cat, st, key, score, confidence, rationale, continueReview, now).value;
            && key in st.reviews && key in after.reviews && key.skill in after.mastery
            && var before, row := st.reviews[key], after.reviews[key];
               && row.reviewId == before.reviewId && row.priority == before.priority
               && row.repetitions == before.repetitions + 1 && row.lastReviewedAt == Some(now)
               && if continueReview then
                    row.status == Pending && IsInterval(after.mastery[key.skill].estimate, row.repetitions, row.intervalDays)
                    && row.dueAt == now + 86400 * row.intervalDays
                  else row.status == Completed && row.dueAt == before.dueAt && row.intervalDays == before.intervalDays
  {
    var report := ReviewReport(key, st.reviews[key], score, confidence, rationale);
    var estimate := Recorded(cat, st, report, false, now).value.mastery[key.skill].estimate;
    IntervalIs(estimate, st.reviews[key].repetitions + 1);
  }

  /** A review takes on every status but completed, and nothing else about it changes, nor any other review or evidence. */
  lemma StatusIsWritten(st: Store, key: ReviewKey, status: ReviewStatus)
    ensures var r := StatusUpdated(st, key, status);
            && (r.Ok? <==> status != Completed && key in st.reviews)
            && (r.Err? ==> r.error == if status == Completed then UnsupportedStatus else UnknownReview)
            && (r.Ok? ==>
                  && r.value.evidence == st.evidence && r.value.reviews.Keys == st.reviews.Keys
                  && (forall other :: other in st.reviews && other != key ==> r.value.reviews[other] == st.reviews[other])
                  && r.value.reviews[key].status == status
                  && r.value.reviews[key].(status := st.reviews[key].status) == st.reviews[key])
  {
  }
}
