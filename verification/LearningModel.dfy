/**
 * The learner model's tables and the operations that keep them in step: evidence rows are upserted, and the
 * mastery row and the cached next review date of a skill are projections of its evidence and open reviews.
 */
module LearningModel {
  import opened Wrappers
  import opened Rounding
  import opened Mastery
  import opened Collections
  import opened Text

  datatype ReviewStatus = Pending | InProgress | Completed | Dismissed

  /** The stable key of a review schedule. */
  datatype ReviewKey = ReviewKey(skill: SkillRef, objective: Option<string>)

  datatype ReviewRow = ReviewRow(
    reviewId: string,
    status: ReviewStatus,
    dueAt: int,
    intervalDays: nat,
    repetitions: nat,
    priority: int,
    source: Option<int>,
    lastReviewedAt: Option<int>)
  {
    predicate Open()
    {
      status == Pending || status == InProgress
    }
  }

  datatype MasteryRow = MasteryRow(
    estimate: real,
    confidence: real,
    evidenceCount: nat,
    status: MasteryStatus,
    lastEvidenceAt: Option<int>,
    nextReviewAt: Option<int>)

  /** The tables; evidence rows are keyed by evidence id, reviews by their stable key. */
  datatype Store = Store(
    evidence: map<int, Evidence>,
    mastery: map<SkillRef, MasteryRow>,
    reviews: map<ReviewKey, ReviewRow>,
    issued: nat)

  datatype Objective = Objective(track: string, skill: Option<string>)

  /**
   * What the operations read but do not change: the skills of the domain packs, the objectives and activities,
   * the digest that names an evidence row, and the source of fresh review ids.
   */
  datatype Catalogue = Catalogue(
    skills: set<SkillRef>,
    objectives: map<string, Objective>,
    activities: map<string, string>,
    evidenceId: EvidenceKey -> int,
    reviewToken: (nat, ReviewKey) -> string)

  datatype LearningError =
    | UnknownSkill
    | OutOfRange
    | SourceRequired
    | UnknownObjective
    | ObjectiveMismatch
    | UnknownActivity
    | ActivityMismatch
    | UnknownReview
    | ReviewDismissed
    | UnsupportedStatus
    | IdTaken

  /** The arguments with which one piece of evidence is reported. */
  datatype Report = Report(
    skill: SkillRef,
    score: real,
    confidence: real,
    kind: EvidenceKind,
    sourceType: string,
    sourceId: string,
    objective: Option<string>,
    activity: Option<string>,
    session: Option<string>,
    thread: Option<string>,
    rationale: Option<string>,
    payload: string,
    observedAt: Option<int>)

  const SOURCE_TYPE_LIMIT: nat := 80
  const SOURCE_ID_LIMIT: nat := 240

  function CleanSource(text: string): string
  {
    Clean(text, SOURCE_ID_LIMIT)
  }

  // ---- the evidence window ----------------------------------------------------------------------

  function RowsOf(evidence: map<int, Evidence>, skill: SkillRef): (r: map<int, Evidence>)
  {
    map id | id in evidence && evidence[id].Skill() == skill :: evidence[id]
  }

  predicate Newer(rows: map<int, Evidence>, a: int, b: int)
    requires a in rows && b in rows
  {
    rows[a].observedAt > rows[b].observedAt || (rows[a].observedAt == rows[b].observedAt && a > b)
  }

  predicate IsNewest(rows: map<int, Evidence>, id: int)
  {
    id in rows && forall other :: other in rows && other != id ==> Newer(rows, id, other)
  }

  lemma {:induction false} NewestExists(rows: map<int, Evidence>)
    requires rows != map[]
    ensures exists id :: IsNewest(rows, id)
    decreases |rows|
  {
    assert rows.Keys != {};
    var id := MemberOf(rows.Keys);
    var rest := rows - {id};
    if rest == map[] {
      assert forall other :: other in rows && other != id ==> other in rest;
      assert IsNewest(rows, id);
    } else {
      assert |rest.Keys| < |rows.Keys|;
      NewestExists(rest);
      var best :| IsNewest(rest, best);
      assert forall other :: other in rows && other != id && other != best ==> other in rest && Newer(rest, best, other);
      if Newer(rows, id, best) {
        assert forall other :: other in rows && other != id ==> Newer(rows, id, other);
        assert IsNewest(rows, id);
      } else {
        assert IsNewest(rows, best);
      }
    }
  }

  /** Row ids from newest to oldest, later evidence ids first among equal times. */
  function NewestFirst(rows: map<int, Evidence>): (ids: seq<int>)
    ensures |ids| == |rows|
    ensures forall id :: id in ids <==> id in rows
    decreases |rows|
  {
    if rows == map[] then []
    else
      NewestExists(rows);
      var id :| IsNewest(rows, id);
      assert |(rows - {id}).Keys| == |rows.Keys| - 1;
      [id] + NewestFirst(rows - {id})
  }

  function Window(rows: map<int, Evidence>): (window: seq<Evidence>)
    ensures |window| == if |rows| < WINDOW then |rows| else WINDOW
    ensures forall i :: 0 <= i < |window| ==> window[i] in rows.Values
  {
    var ids := NewestFirst(rows);
    seq(if |ids| < WINDOW then |ids| else WINDOW, i requires 0 <= i < |ids| =>
      assert ids[i] in rows; rows[ids[i]])
  }

  // ---- projections ------------------------------------------------------------------------------

  function OpenDue(reviews: map<ReviewKey, ReviewRow>, skill: SkillRef): set<int>
  {
    set key | key in reviews && key.skill == skill && reviews[key].Open() :: reviews[key].dueAt
  }

  lemma {:induction false} LeastExists(dates: set<int>)
    requires dates != {}
    ensures exists d :: d in dates && forall e :: e in dates ==> d <= e
    decreases |dates|
  {
    var d := MemberOf(dates);
    var rest := dates - {d};
    if rest == {} {
      assert forall e :: e in dates && e != d ==> e in rest;
    } else {
      LeastExists(rest);
      var least :| least in rest && forall e :: e in rest ==> least <= e;
      var best := if d <= least then d else least;
      forall e | e in dates
        ensures best <= e
      {
        assert e == d || e in rest;
      }
      assert best in dates;
    }
  }

  function Earliest(dates: set<int>): (r: Option<int>)
    ensures r.None? <==> dates == {}
    ensures r.Some? ==> r.value in dates && forall d :: d in dates ==> r.value <= d
  {
    if dates == {} then None
    else
      LeastExists(dates);
      var d :| d in dates && forall e :: e in dates ==> d <= e;
      Some(d)
  }

  /** A skill's mastery row computed from nothing but its evidence and the due dates of its open reviews. */
  function Projection(rows: map<int, Evidence>, due: set<int>): MasteryRow
  {
    var window := Window(rows);
    MasteryRow(Round6(Estimate(window)), Round6(Confidence(window)), |window|, StatusOf(window),
               if window == [] then None else Some(window[0].observedAt), Earliest(due))
  }

  function Fresh(st: Store, skill: SkillRef): MasteryRow
  {
    Projection(RowsOf(st.evidence, skill), OpenDue(st.reviews, skill))
  }

  ghost predicate UpToDate(st: Store, skill: SkillRef)
  {
    skill in st.mastery ==> st.mastery[skill] == Fresh(st, skill)
  }

  /** The cached review date alone is what it should be. */
  ghost predicate NextReviewUpToDate(st: Store, skill: SkillRef)
  {
    skill in st.mastery ==> st.mastery[skill].nextReviewAt == Earliest(OpenDue(st.reviews, skill))
  }

  /** Every skill with evidence or a review schedule has a mastery row, and evidence rows carry their own id. */
  ghost predicate Rooted(cat: Catalogue, st: Store)
  {
    && (forall id :: id in st.evidence ==>
          && id == cat.evidenceId(st.evidence[id].key)
          && st.evidence[id].Bounded()
          && st.evidence[id].Skill() in st.mastery)
    && (forall key :: key in st.reviews ==> key.skill in st.mastery)
  }

  /** The whole projection agrees with a recomputation from scratch. */
  ghost predicate Consistent(cat: Catalogue, st: Store)
  {
    Rooted(cat, st) && forall skill :: UpToDate(st, skill)
  }

  // ---- the steps --------------------------------------------------------------------------------

  function Recalculated(st: Store, skill: SkillRef): Store
  {
    st.(mastery := st.mastery[skill := Fresh(st, skill)])
  }

  /** The cached review date of a skill that has a mastery row set to the earliest open due date. */
  function RefreshedRows(mastery: map<SkillRef, MasteryRow>, reviews: map<ReviewKey, ReviewRow>, skill: SkillRef)
    : map<SkillRef, MasteryRow>
  {
    if skill in mastery then mastery[skill := mastery[skill].(nextReviewAt := Earliest(OpenDue(reviews, skill)))] else mastery
  }

  function Refreshed(st: Store, skill: SkillRef): Store
  {
    st.(mastery := RefreshedRows(st.mastery, st.reviews, skill))
  }

  function IntervalDays(score: real, repetitions: nat): (days: nat)
  {
    var base := if score >= 0.85 then 14 else if score >= 0.7 then 7 else if score >= 0.5 then 3 else 1;
    if repetitions > 0 && score >= 0.7 then base * (if repetitions == 1 then 2 else 4) else base
  }

  const DAY: int := 86400

  function PriorityOf(score: real): (p: int)
    ensures 10 <= p <= 100
  {
    var p := Nearest((1.0 - score) * 100.0);
    if p < 10 then 10 else if p > 100 then 100 else p
  }

  function KeyOf(skill: SkillRef, objective: Option<string>): ReviewKey
  {
    ReviewKey(skill, Given(objective))
  }

  /** The schedule row after new evidence: pending again, due after the interval for the estimate. */
  function ScheduleRow(cat: Catalogue, previous: Option<ReviewRow>, issued: nat, key: ReviewKey, evidenceId: int,
                       score: real, now: int): ReviewRow
  {
    var repetitions := if previous.Some? then previous.value.repetitions else 0;
    var days := IntervalDays(score, repetitions);
    ReviewRow(
      if previous.Some? then previous.value.reviewId else cat.reviewToken(issued, key),
      Pending, now + DAY * days, days, repetitions, PriorityOf(score), Some(evidenceId),
      if previous.Some? then previous.value.lastReviewedAt else None)
  }

  function Scheduled(cat: Catalogue, st: Store, key: ReviewKey, evidenceId: int, score: real, now: int): Store
  {
    var row := ScheduleRow(cat, Lookup(st.reviews, key), st.issued, key, evidenceId, score, now);
    Refreshed(st.(reviews := st.reviews[key := row], issued := st.issued + 1), key.skill)
  }

  // ---- recording evidence -----------------------------------------------------------------------

  function Refusal(cat: Catalogue, report: Report): Option<LearningError>
  {
    var objective, activity := Given(report.objective), Given(report.activity);
    if report.skill !in cat.skills then Some(UnknownSkill)
    else if !(0.0 <= report.score <= 1.0) || !(0.0 <= report.confidence <= 1.0) then Some(OutOfRange)
    else if Clean(report.sourceType, SOURCE_TYPE_LIMIT) == "" || CleanSource(report.sourceId) == "" then Some(SourceRequired)
    else if objective.Some? && objective.value !in cat.objectives then Some(UnknownObjective)
    else if objective.Some? && cat.objectives[objective.value].track != report.skill.track then Some(ObjectiveMismatch)
    else if objective.Some? && Given(cat.objectives[objective.value].skill).Some?
            && cat.objectives[objective.value].skill != Some(report.skill.skill) then Some(ObjectiveMismatch)
    else if activity.Some? && activity.value !in cat.activities then Some(UnknownActivity)
    else if activity.Some? && cat.activities[activity.value] != report.skill.track then Some(ActivityMismatch)
    else None
  }

  function EvidenceKeyOf(report: Report): EvidenceKey
  {
    EvidenceKey(report.skill.track, report.skill.skill,
                Clean(report.sourceType, SOURCE_TYPE_LIMIT), CleanSource(report.sourceId))
  }

  /** The id of an observation is not that of a stored row for another one, as the primary key demands. */
  predicate IdIsFree(cat: Catalogue, evidence: map<int, Evidence>, key: EvidenceKey)
  {
    var id := cat.evidenceId(key);
    id in evidence ==> evidence[id].key == key
  }

  /** What stands in the way of recording a report: its own arguments first, and then the id its evidence would get. */
  function RefusalAt(cat: Catalogue, evidence: map<int, Evidence>, report: Report): Option<LearningError>
  {
    if Refusal(cat, report).Some? then Refusal(cat, report)
    else if !IdIsFree(cat, evidence, EvidenceKeyOf(report)) then Some(IdTaken)
    else None
  }

  /** The row an upsert leaves: the report's values, at the old time when none is given. */
  function RowFor(cat: Catalogue, evidence: map<int, Evidence>, report: Report, now: int): Evidence
  {
    var key := EvidenceKeyOf(report);
    var id := cat.evidenceId(key);
    var observed := if report.observedAt.Some? then report.observedAt.value
                    else if id in evidence then evidence[id].observedAt else now;
    Evidence(key, report.kind, report.score, report.confidence, report.objective, report.activity, report.session,
             report.thread, report.rationale, report.payload, observed)
  }

  /** A row written under its own id, followed by the recalculation of its skill. */
  function WithRow(cat: Catalogue, st: Store, row: Evidence): Store
  {
    Recalculated(st.(evidence := st.evidence[cat.evidenceId(row.key) := row]), row.Skill())
  }

  function Upserted(cat: Catalogue, st: Store, report: Report, now: int): Store
  {
    WithRow(cat, st, RowFor(cat, st.evidence, report, now))
  }

  predicate EvidenceChanged(cat: Catalogue, st: Store, report: Report, now: int)
  {
    var row := RowFor(cat, st.evidence, report, now);
    var id := cat.evidenceId(row.key);
    id !in st.evidence || st.evidence[id] != row
  }

  function Recorded(cat: Catalogue, st: Store, report: Report, schedule: bool, now: int): (r: Result<Store, LearningError>)
    ensures r.Ok? ==> report.skill in r.value.mastery
  {
    var refusal := RefusalAt(cat, st.evidence, report);
    if refusal.Some? then Err(refusal.value)
    else
      var after := Upserted(cat, st, report, now);
      if schedule && EvidenceChanged(cat, st, report, now)
      then Ok(Scheduled(cat, after, KeyOf(report.skill, report.objective), cat.evidenceId(EvidenceKeyOf(report)),
                        after.mastery[report.skill].estimate, now))
      else Ok(after)
  }

  // ---- reviews ----------------------------------------------------------------------------------

  const REVIEW_SOURCE: string := "learning_review"

  function ReviewReport(key: ReviewKey, row: ReviewRow, score: real, confidence: real, rationale: Option<string>): Report
  {
    Report(key.skill, score, confidence, Review, REVIEW_SOURCE, ReviewSource(row.reviewId, row.repetitions + 1),
           key.objective, None, None, None, rationale, ReviewSource(row.reviewId, row.repetitions + 1), None)
  }

  function ReviewedRow(row: ReviewRow, estimate: real, evidenceId: int, continueReview: bool, now: int): ReviewRow
  {
    var next := row.repetitions + 1;
    if continueReview then
      var days := IntervalDays(estimate, next);
      ReviewRow(row.reviewId, Pending, now + DAY * days, days, next, row.priority, Some(evidenceId), Some(now))
    else
      ReviewRow(row.reviewId, Completed, row.dueAt, row.intervalDays, next, row.priority, Some(evidenceId), Some(now))
  }

  function ReviewCompleted(cat: Catalogue, st: Store, key: ReviewKey, score: real, confidence: real,
                           rationale: Option<string>, continueReview: bool, now: int)
    : Result<Store, LearningError>
  {
    if key !in st.reviews then Err(UnknownReview)
    else if st.reviews[key].status == Dismissed then Err(ReviewDismissed)
    else
      var report := ReviewReport(key, st.reviews[key], score, confidence, rationale);
      match Recorded(cat, st, report, false, now)
      case Err(error) => Err(error)
      case Ok(after) =>
        var row := ReviewedRow(st.reviews[key], after.mastery[key.skill].estimate,
                               cat.evidenceId(EvidenceKeyOf(report)), continueReview, now);
        Ok(Refreshed(after.(reviews := after.reviews[key := row]), key.skill))
  }

  function StatusUpdated(st: Store, key: ReviewKey, status: ReviewStatus): Result<Store, LearningError>
  {
    if status == Completed then Err(UnsupportedStatus)
    else if key !in st.reviews then Err(UnknownReview)
    else Ok(Refreshed(st.(reviews := st.reviews[key := st.reviews[key].(status := status)]), key.skill))
  }

  // ---- what every step keeps --------------------------------------------------------------------

  /** A step that touches one skill's evidence and reviews, and leaves that skill up to date, leaves all others alone. */
  ghost predicate TouchesOnly(before: Store, after: Store, skill: SkillRef)
  {
    && (forall other :: other != skill ==> RowsOf(after.evidence, other) == RowsOf(before.evidence, other))
    && (forall other :: other != skill ==> OpenDue(after.reviews, other) == OpenDue(before.reviews, other))
    && after.mastery.Keys == before.mastery.Keys + {skill}
    && (forall other :: other != skill && other in before.mastery ==> after.mastery[other] == before.mastery[other])
  }

  lemma TouchedStaysConsistent(before: Store, after: Store, skill: SkillRef)
    requires TouchesOnly(before, after, skill)
    ensures forall other :: other != skill && UpToDate(before, other) ==> UpToDate(after, other)
    ensures forall other :: other != skill && NextReviewUpToDate(before, other) ==> NextReviewUpToDate(after, other)
  {
    forall other | other != skill && UpToDate(before, other)
      ensures UpToDate(after, other)
    {
      assert RowsOf(after.evidence, other) == RowsOf(before.evidence, other);
      assert OpenDue(after.reviews, other) == OpenDue(before.reviews, other);
    }
  }

  lemma OtherSkillsRows(evidence: map<int, Evidence>, id: int, row: Evidence, other: SkillRef)
    requires id in evidence ==> evidence[id].Skill() == row.Skill()
    requires other != row.Skill()
    ensures RowsOf(evidence[id := row], other) == RowsOf(evidence, other)
  {
  }

  lemma WithRowTouchesOnly(cat: Catalogue, st: Store, row: Evidence)
    requires Rooted(cat, st) && IdIsFree(cat, st.evidence, row.key) && row.Bounded()
    ensures TouchesOnly(st, WithRow(cat, st, row), row.Skill())
  {
    forall other | other != row.Skill()
      ensures RowsOf(WithRow(cat, st, row).evidence, other) == RowsOf(st.evidence, other)
    {
      OtherSkillsRows(st.evidence, cat.evidenceId(row.key), row, other);
    }
  }

  lemma WithRowRooted(cat: Catalogue, st: Store, row: Evidence)
    requires Rooted(cat, st) && row.Bounded()
    ensures Rooted(cat, WithRow(cat, st, row))
    ensures UpToDate(WithRow(cat, st, row), row.Skill())
  {
    var id := cat.evidenceId(row.key);
    var written := st.(evidence := st.evidence[id := row]);
    var after := WithRow(cat, st, row);
    assert after == Recalculated(written, row.Skill());
    assert Fresh(after, row.Skill()) == Fresh(written, row.Skill());
  }

  lemma UpsertTouchesOnly(cat: Catalogue, st: Store, report: Report, now: int)
    requires Rooted(cat, st) && RefusalAt(cat, st.evidence, report).None?
    ensures TouchesOnly(st, Upserted(cat, st, report, now), report.skill)
    ensures Rooted(cat, Upserted(cat, st, report, now))
    ensures UpToDate(Upserted(cat, st, report, now), report.skill)
  {
    WithRowTouchesOnly(cat, st, RowFor(cat, st.evidence, report, now));
    WithRowRooted(cat, st, RowFor(cat, st.evidence, report, now));
  }

  lemma RescheduleTouchesOnly(cat: Catalogue, st: Store, key: ReviewKey, row: ReviewRow, issued: nat)
    requires Rooted(cat, st) && key.skill in st.mastery
    ensures var after := Refreshed(st.(reviews := st.reviews[key := row], issued := issued), key.skill);
            && TouchesOnly(st, after, key.skill) && Rooted(cat, after)
            && NextReviewUpToDate(after, key.skill)
            && (UpToDate(st, key.skill) ==> UpToDate(after, key.skill))
  {
    var after := Refreshed(st.(reviews := st.reviews[key := row], issued := issued), key.skill);
    forall other | other != key.skill
      ensures OpenDue(after.reviews, other) == OpenDue(st.reviews, other)
    {
      forall d
        ensures d in OpenDue(after.reviews, other) <==> d in OpenDue(st.reviews, other)
      {
        if d in OpenDue(st.reviews, other) {
          var k :| k in st.reviews && k.skill == other && st.reviews[k].Open() && st.reviews[k].dueAt == d;
          assert k in after.reviews && after.reviews[k] == st.reviews[k];
        }
      }
    }
  }

  /** Recording evidence keeps every skill's projection as good as it was and brings its own skill's up to date. */
  lemma RecordedKeepsProjection(cat: Catalogue, st: Store, report: Report, schedule: bool, now: int)
    requires Rooted(cat, st)
    requires Recorded(cat, st, report, schedule, now).Ok?
    ensures Keeps(cat, st, Recorded(cat, st, report, schedule, now).value, report.skill)
  {
    var upserted := Upserted(cat, st, report, now);
    UpsertKeeps(cat, st, report, now);
    if schedule && EvidenceChanged(cat, st, report, now) {
      var key, id := KeyOf(report.skill, report.objective), cat.evidenceId(EvidenceKeyOf(report));
      var estimate := upserted.mastery[report.skill].estimate;
      ScheduledKeeps(cat, upserted, key, id, estimate, now);
      KeepsTwice(cat, st, upserted, Scheduled(cat, upserted, key, id, estimate, now), report.skill);
    }
  }

  lemma UpsertKeeps(cat: Catalogue, st: Store, report: Report, now: int)
    requires Rooted(cat, st) && RefusalAt(cat, st.evidence, report).None?
    ensures report.skill in Upserted(cat, st, report, now).mastery
    ensures Keeps(cat, st, Upserted(cat, st, report, now), report.skill)
  {
    UpsertTouchesOnly(cat, st, report, now);
    TouchedStaysConsistent(st, Upserted(cat, st, report, now), report.skill);
  }

  lemma KeepsTwice(cat: Catalogue, before: Store, between: Store, after: Store, skill: SkillRef)
    requires Keeps(cat, before, between, skill) && Keeps(cat, between, after, skill)
    ensures Keeps(cat, before, after, skill)
  {
  }

  /** The projections are as good after as before, and that of one skill is up to date. */
  ghost predicate Keeps(cat: Catalogue, before: Store, after: Store, skill: SkillRef)
  {
    && Rooted(cat, after) && skill in after.mastery && UpToDate(after, skill)
    && (forall other :: UpToDate(before, other) ==> UpToDate(after, other))
    && (forall other :: NextReviewUpToDate(before, other) ==> NextReviewUpToDate(after, other))
  }

  lemma ScheduledKeeps(cat: Catalogue, st: Store, key: ReviewKey, evidenceId: int, score: real, now: int)
    requires Rooted(cat, st) && key.skill in st.mastery && UpToDate(st, key.skill)
    ensures Keeps(cat, st, Scheduled(cat, st, key, evidenceId, score, now), key.skill)
  {
    var row := ScheduleRow(cat, Lookup(st.reviews, key), st.issued, key, evidenceId, score, now);
    RescheduleTouchesOnly(cat, st, key, row, st.issued + 1);
    TouchedStaysConsistent(st, Scheduled(cat, st, key, evidenceId, score, now), key.skill);
  }

  lemma ReviewCompletedKeepsProjection(cat: Catalogue, st: Store, key: ReviewKey, score: real, confidence: real,
                                       rationale: Option<string>, continueReview: bool, now: int)
    requires Rooted(cat, st)
    requires ReviewCompleted(cat, st, key, score, confidence, rationale, continueReview, now).Ok?
    ensures Keeps(cat, st, ReviewCompleted(cat, st, key, score, confidence, rationale, continueReview, now).value, key.skill)
  {
    var report := ReviewReport(key, st.reviews[key], score, confidence, rationale);
    RecordedKeepsProjection(cat, st, report, false, now);
    var recorded := Recorded(cat, st, report, false, now).value;
    var row := ReviewedRow(st.reviews[key], recorded.mastery[key.skill].estimate,
                           cat.evidenceId(EvidenceKeyOf(report)), continueReview, now);
    RescheduledKeeps(cat, recorded, key, row);
  }

  lemma RescheduledKeeps(cat: Catalogue, st: Store, key: ReviewKey, row: ReviewRow)
    requires Rooted(cat, st) && key.skill in st.mastery
    ensures var after := Refreshed(st.(reviews := st.reviews[key := row]), key.skill);
            && Rooted(cat, after)
            && (forall other :: UpToDate(st, other) ==> UpToDate(after, other))
            && (forall other :: NextReviewUpToDate(st, other) ==> NextReviewUpToDate(after, other))
            && (UpToDate(st, key.skill) ==> Keeps(cat, st, after, key.skill))
  {
    var after := Refreshed(st.(reviews := st.reviews[key := row]), key.skill);
    assert after == Refreshed(st.(reviews := st.reviews[key := row], issued := st.issued), key.skill);
    RescheduleTouchesOnly(cat, st, key, row, st.issued);
    TouchedStaysConsistent(st, after, key.skill);
  }

  lemma StatusUpdatedKeepsProjection(cat: Catalogue, st: Store, key: ReviewKey, status: ReviewStatus)
    requires Rooted(cat, st)
    requires StatusUpdated(st, key, status).Ok?
    ensures var after := StatusUpdated(st, key, status).value;
            && Rooted(cat, after)
            && (forall skill :: UpToDate(st, skill) ==> UpToDate(after, skill))
            && (forall skill :: NextReviewUpToDate(st, skill) ==> NextReviewUpToDate(after, skill))
  {
    RescheduledKeeps(cat, st, key, st.reviews[key].(status := status));
  }

  // ---- doing it again ---------------------------------------------------------------------------

  lemma RecordedEvidence(cat: Catalogue, st: Store, report: Report, schedule: bool, now: int)
    requires Recorded(cat, st, report, schedule, now).Ok?
    ensures Recorded(cat, st, report, schedule, now).value.evidence
            == st.evidence[cat.evidenceId(EvidenceKeyOf(report)) := RowFor(cat, st.evidence, report, now)]
  {
  }

  lemma SameRowAgain(cat: Catalogue, evidence: map<int, Evidence>, report: Report, now: int, later: int)
    ensures var row := RowFor(cat, evidence, report, now);
            RowFor(cat, evidence[cat.evidenceId(EvidenceKeyOf(report)) := row], report, later) == row
  {
  }

  lemma RewritingFreshRow(cat: Catalogue, st: Store, row: Evidence)
    requires Lookup(st.evidence, cat.evidenceId(row.key)) == Some(row)
    requires row.Skill() in st.mastery && UpToDate(st, row.Skill())
    ensures WithRow(cat, st, row) == st
  {
    assert st.evidence[cat.evidenceId(row.key) := row] == st.evidence;
  }

  lemma UnchangedIsNotScheduled(cat: Catalogue, st: Store, report: Report, schedule: bool, now: int)
    requires RefusalAt(cat, st.evidence, report).None? && !EvidenceChanged(cat, st, report, now)
    ensures Recorded(cat, st, report, schedule, now) == Ok(Upserted(cat, st, report, now))
  {
  }

  /** Recording the same report again, at whatever time, changes nothing: no evidence, mastery row, schedule or date. */
  lemma RecordingAgainChangesNothing(cat: Catalogue, st: Store, report: Report, schedule: bool, now: int,
                                     again: bool, later: int)
    requires Rooted(cat, st)
    requires Recorded(cat, st, report, schedule, now).Ok?
    ensures var after := Recorded(cat, st, report, schedule, now).value;
            Recorded(cat, after, report, again, later) == Ok(after)
  {
    var after := Recorded(cat, st, report, schedule, now).value;
    var row := RowFor(cat, st.evidence, report, now);
    RecordedEvidence(cat, st, report, schedule, now);
    SameRowAgain(cat, st.evidence, report, now, later);
    RecordedKeepsProjection(cat, st, report, schedule, now);
    UnchangedIsNotScheduled(cat, after, report, again, later);
    RewritingFreshRow(cat, after, row);
  }

  lemma RecordedReviews(cat: Catalogue, st: Store, report: Report, now: int)
    requires Recorded(cat, st, report, false, now).Ok?
    ensures Recorded(cat, st, report, false, now).value.reviews == st.reviews
  {
  }

  /**
   * Completing a review counts one repetition and touches no other review; it either ends the review or makes it
   * due again one day to eight weeks from now, and the cached date of its skill takes that into account.
   */
  lemma CompletionAdvancesReview(cat: Catalogue, st: Store, key: ReviewKey, score: real, confidence: real,
                                 rationale: Option<string>, continueReview: bool, now: int)
    requires Rooted(cat, st)
    requires ReviewCompleted(cat, st, key, score, confidence, rationale, continueReview, now).Ok?
    ensures var after := ReviewCompleted(cat, st, key, score, confidence, rationale, continueReview, now).value;
            && after.reviews.Keys == st.reviews.Keys
            && (forall other :: other in st.reviews && other != key ==> after.reviews[other] == st.reviews[other])
            && after.reviews[key].repetitions == st.reviews[key].repetitions + 1
            && (after.reviews[key].Open() <==> continueReview)
            && (continueReview ==>
                  now + DAY <= after.reviews[key].dueAt <= now + 56 * DAY
                  && after.mastery[key.skill].nextReviewAt.Some?
                  && after.mastery[key.skill].nextReviewAt.value <= after.reviews[key].dueAt)
  {
    ReviewCompletedKeepsProjection(cat, st, key, score, confidence, rationale, continueReview, now);
    CompletedReviews(cat, st, key, score, confidence, rationale, continueReview, now);
    var after := ReviewCompleted(cat, st, key, score, confidence, rationale, continueReview, now).value;
    if continueReview {
      CachedDateCovers(after, key);
    }
  }

  lemma CompletedReviews(cat: Catalogue, st: Store, key: ReviewKey, score: real, confidence: real,
                         rationale: Option<string>, continueReview: bool, now: int)
    requires ReviewCompleted(cat, st, key, score, confidence, rationale, continueReview, now).Ok?
    ensures var reviews := ReviewCompleted(cat, st, key, score, confidence, rationale, continueReview, now).value.reviews;
            && key in st.reviews && reviews == st.reviews[key := reviews[key]]
            && reviews[key].repetitions == st.reviews[key].repetitions + 1
            && (reviews[key].Open() <==> continueReview)
            && (continueReview ==> now + DAY <= reviews[key].dueAt <= now + 56 * DAY)
  {
    var report := ReviewReport(key, st.reviews[key], score, confidence, rationale);
    RecordedReviews(cat, st, report, now);
    var estimate := Recorded(cat, st, report, false, now).value.mastery[key.skill].estimate;
    IntervalGrows(estimate, estimate, st.reviews[key].repetitions + 1, st.reviews[key].repetitions + 1);
  }

  lemma CachedDateCovers(st: Store, key: ReviewKey)
    requires key in st.reviews && st.reviews[key].Open() && key.skill in st.mastery
    requires NextReviewUpToDate(st, key.skill)
    ensures st.mastery[key.skill].nextReviewAt.Some? && st.mastery[key.skill].nextReviewAt.value <= st.reviews[key].dueAt
  {
    assert st.reviews[key].dueAt in OpenDue(st.reviews, key.skill);
  }

  lemma ScheduledIs(cat: Catalogue, st: Store, key: ReviewKey, evidenceId: int, score: real, now: int)
    requires Rooted(cat, st) && key.skill in st.mastery && UpToDate(st, key.skill)
    ensures var after := Scheduled(cat, st, key, evidenceId, score, now);
            var row := after.reviews[key];
            && after.evidence == st.evidence
            && (forall other :: other != key ==> Lookup(after.reviews, other) == Lookup(st.reviews, other))
            && row.status == Pending && row.source == Some(evidenceId)
            && now + DAY <= row.dueAt <= now + 56 * DAY
            && (key in st.reviews ==> row.repetitions == st.reviews[key].repetitions && row.reviewId == st.reviews[key].reviewId)
            && key.skill in after.mastery
            && after.mastery[key.skill].nextReviewAt.Some? && after.mastery[key.skill].nextReviewAt.value <= row.dueAt
  {
    var repetitions := if key in st.reviews then st.reviews[key].repetitions else 0;
    IntervalGrows(score, score, repetitions, repetitions);
    ScheduledKeeps(cat, st, key, evidenceId, score, now);
    CachedDateCovers(Scheduled(cat, st, key, evidenceId, score, now), key);
  }

  /**
   * New or changed evidence makes the review of its skill and objective pending again, for that evidence, due one
   * day to eight weeks from now; it touches no other review and loses no repetition.
   */
  lemma ChangedEvidenceIsScheduled(cat: Catalogue, st: Store, report: Report, now: int)
    requires Rooted(cat, st) && RefusalAt(cat, st.evidence, report).None?
    requires EvidenceChanged(cat, st, report, now)
    ensures Recorded(cat, st, report, true, now).Ok?
    ensures var after := Recorded(cat, st, report, true, now).value;
            var key, id := KeyOf(report.skill, report.objective), cat.evidenceId(EvidenceKeyOf(report));
            && Lookup(after.evidence, id) == Some(RowFor(cat, st.evidence, report, now))
            && (forall other :: other != key ==> Lookup(after.reviews, other) == Lookup(st.reviews, other))
            && key in after.reviews && after.reviews[key].status == Pending && after.reviews[key].source == Some(id)
            && now + DAY <= after.reviews[key].dueAt <= now + 56 * DAY
            && (key in st.reviews ==> after.reviews[key].repetitions == st.reviews[key].repetitions)
            && after.mastery[report.skill].nextReviewAt.Some?
            && after.mastery[report.skill].nextReviewAt.value <= after.reviews[key].dueAt
  {
    var upserted := Upserted(cat, st, report, now);
    UpsertKeeps(cat, st, report, now);
    RecordedEvidence(cat, st, report, true, now);
    ScheduledIs(cat, upserted, KeyOf(report.skill, report.objective), cat.evidenceId(EvidenceKeyOf(report)),
                upserted.mastery[report.skill].estimate, now);
  }

  function ReviewSource(reviewId: string, repetition: nat): string
  {
    reviewId + ":" + Decimal(repetition)
  }

  lemma ReviewSourceIsClean(reviewId: string, repetition: nat)
    requires reviewId != "" && !IsSpace(reviewId[0]) && |ReviewSource(reviewId, repetition)| <= SOURCE_ID_LIMIT
    ensures CleanSource(ReviewSource(reviewId, repetition)) == ReviewSource(reviewId, repetition)
  {
    var text := ReviewSource(reviewId, repetition);
    DecimalDigits(repetition);
    assert IsDigit(text[|text| - 1]) && text[0] == reviewId[0];
    AlreadyClean(text, SOURCE_ID_LIMIT);
  }

  lemma ReviewSourcesDiffer(reviewId: string, m: nat, n: nat)
    requires ReviewSource(reviewId, m) == ReviewSource(reviewId, n)
    ensures m == n
  {
    assert ReviewSource(reviewId, m)[|reviewId| + 1..] == Decimal(m);
    assert ReviewSource(reviewId, n)[|reviewId| + 1..] == Decimal(n);
    DecimalsDiffer(m, n);
  }

  lemma ReviewSourcesAreDistinct(a: Report, b: Report, reviewId: string, m: nat, n: nat)
    requires m != n && reviewId != "" && !IsSpace(reviewId[0])
    requires a.sourceId == ReviewSource(reviewId, m) && b.sourceId == ReviewSource(reviewId, n)
    requires |a.sourceId| <= SOURCE_ID_LIMIT && |b.sourceId| <= SOURCE_ID_LIMIT
    ensures EvidenceKeyOf(a) != EvidenceKeyOf(b)
  {
    ReviewSourceIsClean(reviewId, m);
    ReviewSourceIsClean(reviewId, n);
    if a.sourceId == b.sourceId {
      ReviewSourcesDiffer(reviewId, m, n);
    }
    assert EvidenceKeyOf(a).sourceId != EvidenceKeyOf(b).sourceId;
  }

  /** Evidence for another observation is never overwritten: a report that would get its id is refused. */
  lemma OtherEvidenceStays(cat: Catalogue, st: Store, report: Report, schedule: bool, now: int, id: int)
    requires id in st.evidence && st.evidence[id].key != EvidenceKeyOf(report)
    requires Recorded(cat, st, report, schedule, now).Ok?
    ensures Lookup(Recorded(cat, st, report, schedule, now).value.evidence, id) == Some(st.evidence[id])
  {
    RecordedEvidence(cat, st, report, schedule, now);
  }

  /** Two completions of one review at different repetitions are two observations: the second never overwrites the first. */
  lemma CompletionsAreDistinct(cat: Catalogue, st: Store, key: ReviewKey, first: ReviewRow, second: ReviewRow,
                               score: real, confidence: real, rationale: Option<string>, now: int, id: int)
    requires first.reviewId == second.reviewId && first.repetitions != second.repetitions
    requires first.reviewId != "" && !IsSpace(first.reviewId[0])
    requires |ReviewSource(first.reviewId, first.repetitions + 1)| <= SOURCE_ID_LIMIT
    requires |ReviewSource(first.reviewId, second.repetitions + 1)| <= SOURCE_ID_LIMIT
    requires id in st.evidence
             && st.evidence[id].key == EvidenceKeyOf(ReviewReport(key, first, score, confidence, rationale))
    ensures var r := Recorded(cat, st, ReviewReport(key, second, score, confidence, rationale), false, now);
            r.Ok? ==> Lookup(r.value.evidence, id) == Some(st.evidence[id])
  {
    ReviewSourcesAreDistinct(ReviewReport(key, first, score, confidence, rationale),
                             ReviewReport(key, second, score, confidence, rationale),
                             first.reviewId, first.repetitions + 1, second.repetitions + 1);
    NeverOverwrites(cat, st, ReviewReport(key, second, score, confidence, rationale), now, id);
  }

  lemma NeverOverwrites(cat: Catalogue, st: Store, report: Report, now: int, id: int)
    requires id in st.evidence && st.evidence[id].key != EvidenceKeyOf(report)
    ensures var r := Recorded(cat, st, report, false, now);
            r.Ok? ==> Lookup(r.value.evidence, id) == Some(st.evidence[id])
  {
    if Recorded(cat, st, report, false, now).Ok? {
      OtherEvidenceStays(cat, st, report, false, now, id);
    }
  }

  // ---- ids --------------------------------------------------------------------------------------

  /** The text an evidence id is the digest of: the parts of the key, joined. */
  function Joined(key: EvidenceKey): string
  {
    key.track + "|" + key.skill + "|" + key.sourceType + "|" + key.sourceId
  }

  /** Source types and ids that themselves contain the separator can join to the same text. */
  lemma JoinedAlike(track: string, skill: string, a: string, b: string, c: string)
    ensures Joined(EvidenceKey(track, skill, a + "|" + b, c)) == Joined(EvidenceKey(track, skill, a, b + "|" + c))
  {
    var head := track + "|" + skill + "|";
    assert head + (a + "|" + b) + "|" + c == head + a + "|" + (b + "|" + c);
  }

  /** The second of two such observations is refused once the first is stored, whatever the digest. */
  lemma SecondOfAlikeIsRefused(cat: Catalogue, st: Store, digest: string -> int, first: EvidenceKey, second: Report)
    requires forall key :: cat.evidenceId(key) == digest(Joined(key))
    requires cat.evidenceId(first) in st.evidence && st.evidence[cat.evidenceId(first)].key == first
    requires Joined(EvidenceKeyOf(second)) == Joined(first) && EvidenceKeyOf(second) != first && Refusal(cat, second).None?
    ensures forall schedule: bool, now: int :: Recorded(cat, st, second, schedule, now) == Err(IdTaken)
  {
  }

  // ---- scheduling and the window ----------------------------------------------------------------

  /** A better estimate and one more repetition never bring a review closer, and never beyond eight weeks. */
  lemma IntervalGrows(score: real, better: real, repetitions: nat, more: nat)
    requires score <= better && repetitions <= more
    ensures 1 <= IntervalDays(score, repetitions) <= IntervalDays(better, more) <= 56
  {
  }

  lemma {:induction false} NewestFirstStarts(rows: map<int, Evidence>, id: int)
    requires IsNewest(rows, id)
    ensures NewestFirst(rows) == [id] + NewestFirst(rows - {id})
  {
    NewestExists(rows);
    forall other | IsNewest(rows, other)
      ensures other == id
    {
      assert other != id ==> Newer(rows, id, other) && Newer(rows, other, id);
    }
  }

  lemma WindowItem(rows: map<int, Evidence>, i: nat)
    requires i < |Window(rows)|
    ensures NewestFirst(rows)[i] in rows && Window(rows)[i] == rows[NewestFirst(rows)[i]]
  {
  }

  /** While a skill's window is not full, evidence newer than all it holds is simply put in front of the window. */
  lemma NewerEvidenceLeadsWindow(rows: map<int, Evidence>, id: int, item: Evidence)
    requires id !in rows && |rows| < WINDOW
    requires forall other :: other in rows ==> rows[other].observedAt < item.observedAt
    ensures Window(rows[id := item]) == [item] + Window(rows)
  {
    var longer := rows[id := item];
    assert IsNewest(longer, id);
    NewestFirstStarts(longer, id);
    assert longer - {id} == rows;
    var ids := NewestFirst(rows);
    assert NewestFirst(longer) == [id] + ids;
    assert |Window(longer)| == |rows| + 1;
    forall i | 0 <= i < |Window(longer)|
      ensures Window(longer)[i] == ([item] + Window(rows))[i]
    {
      WindowItem(longer, i);
      if i > 0 {
        WindowItem(rows, i - 1);
        assert ([id] + ids)[i] == ids[i - 1];
      }
    }
  }

  lemma RowsAfterWrite(evidence: map<int, Evidence>, id: int, row: Evidence)
    ensures id !in evidence ==> RowsOf(evidence[id := row], row.Skill()) == RowsOf(evidence, row.Skill())[id := row]
  {
  }

  /** New evidence, newer than all a skill holds, moves the stored estimate towards its score while the window is not full. */
  lemma RecordingNewestMovesEstimate(cat: Catalogue, st: Store, report: Report, schedule: bool, now: int)
    requires Consistent(cat, st) && Recorded(cat, st, report, schedule, now).Ok?
    requires cat.evidenceId(EvidenceKeyOf(report)) !in st.evidence
    requires |RowsOf(st.evidence, report.skill)| < WINDOW
    requires forall id :: id in RowsOf(st.evidence, report.skill) ==>
               st.evidence[id].observedAt < RowFor(cat, st.evidence, report, now).observedAt
    ensures report.skill in Recorded(cat, st, report, schedule, now).value.mastery
    ensures var before := Estimate(Window(RowsOf(st.evidence, report.skill)));
            var after := Recorded(cat, st, report, schedule, now).value.mastery[report.skill].estimate;
            Round6(Min(before, report.score)) <= after <= Round6(Max(before, report.score))
  {
    EstimateAfterScheduling(cat, st, report, schedule, now);
    WindowIsBounded(cat, st, report.skill);
    RowMovesEstimate(cat, st, report.skill, RowFor(cat, st.evidence, report, now));
  }

  lemma RowMovesEstimate(cat: Catalogue, st: Store, skill: SkillRef, row: Evidence)
    requires AllBounded(Window(RowsOf(st.evidence, skill))) && row.Bounded() && row.Skill() == skill
    requires cat.evidenceId(row.key) !in st.evidence
    requires |RowsOf(st.evidence, skill)| < WINDOW
    requires forall id :: id in RowsOf(st.evidence, skill) ==> st.evidence[id].observedAt < row.observedAt
    ensures var after := st.evidence[cat.evidenceId(row.key) := row];
            var estimate := Projection(RowsOf(after, skill), OpenDue(st.reviews, skill)).estimate;
            Round6(Min(Estimate(Window(RowsOf(st.evidence, skill))), row.score)) <= estimate
            <= Round6(Max(Estimate(Window(RowsOf(st.evidence, skill))), row.score))
  {
    RowsAfterWrite(st.evidence, cat.evidenceId(row.key), row);
    ProjectionMoves(RowsOf(st.evidence, skill), cat.evidenceId(row.key), row, OpenDue(st.reviews, skill));
  }

  /** Scheduling a review changes only the cached date of the mastery row. */
  lemma EstimateAfterScheduling(cat: Catalogue, st: Store, report: Report, schedule: bool, now: int)
    requires Recorded(cat, st, report, schedule, now).Ok?
    ensures var upserted := Upserted(cat, st, report, now);
            && report.skill in Recorded(cat, st, report, schedule, now).value.mastery
            && Recorded(cat, st, report, schedule, now).value.mastery[report.skill].estimate
               == Projection(RowsOf(upserted.evidence, report.skill), OpenDue(upserted.reviews, report.skill)).estimate
  {
  }

  lemma RoundedBetween(a: real, b: real, between: real)
    requires Min(a, b) <= between <= Max(a, b)
    ensures Round6(Min(a, b)) <= Round6(between) <= Round6(Max(a, b))
  {
    Round6IsMonotone(Min(a, b), between);
    Round6IsMonotone(between, Max(a, b));
  }

  lemma ProjectionMoves(rows: map<int, Evidence>, id: int, item: Evidence, due: set<int>)
    requires AllBounded(Window(rows)) && item.Bounded()
    requires id !in rows && |rows| < WINDOW
    requires forall other :: other in rows ==> rows[other].observedAt < item.observedAt
    ensures Round6(Min(Estimate(Window(rows)), item.score)) <= Projection(rows[id := item], due).estimate
            <= Round6(Max(Estimate(Window(rows)), item.score))
  {
    NewerEvidenceLeadsWindow(rows, id, item);
    NewestMovesTowardsItsScore(item, Window(rows));
    RoundedBetween(Estimate(Window(rows)), item.score, Estimate(Window(rows[id := item])));
  }

  lemma WindowIsBounded(cat: Catalogue, st: Store, skill: SkillRef)
    requires Rooted(cat, st)
    ensures AllBounded(Window(RowsOf(st.evidence, skill)))
  {
    var rows := RowsOf(st.evidence, skill);
    var window := Window(rows);
    forall i | 0 <= i < |window|
      ensures window[i].Bounded()
    {
      assert window[i] in rows.Values;
      var id := KeyWithValue(rows, window[i]);
      assert id in st.evidence;
    }
  }

  lemma StoredMasteryIsBounded(cat: Catalogue, st: Store, skill: SkillRef)
    requires Consistent(cat, st) && skill in st.mastery
    ensures 0.0 <= st.mastery[skill].estimate <= 1.0
    ensures 0.0 <= st.mastery[skill].confidence <= 1.0
    ensures st.mastery[skill].evidenceCount <= WINDOW
  {
    assert UpToDate(st, skill);
    WindowIsBounded(cat, st, skill);
    EstimateIsBounded(Window(RowsOf(st.evidence, skill)));
  }
}
