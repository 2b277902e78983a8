/**
 * What a formal session says about the learner, item by item, and the evidence that is left of it: the results of
 * questions, the criteria of a rubric, or the score of the session as a whole.
 */
module SessionEvidence {
  import opened Wrappers
  import opened Rounding
  import opened Mastery
  import opened Collections
  import opened Text
  import opened LearningModel
  import opened Upserts
  import opened SessionIngest

  // ---- what a session says ----------------------------------------------------------------------

  /** One thing a session says: about which skill, from which source, how well, how surely, of which kind, and why. */
  datatype Saying = Saying(
    skill: string,
    source: string,
    score: real,
    confidence: real,
    kind: EvidenceKind,
    rationale: string,
    payload: string)

  /** The key under which a saying is stored. */
  function KeyOfSaying(said: Saying): EvidenceKey
  {
    EvidenceKey("ielts-academic", said.skill, "ielts_session", CleanSource(said.source))
  }

  /** A question with a result says right or wrong, and is sure of it. */
  ghost predicate QuestionSays(pack: Pack, session: string, dimension: string, data: SessionData, i: nat, said: Saying)
  {
    && i < |data.questions| && data.questions[i].isCorrect.Some?
    && var item := data.questions[i];
       && said.skill == pack.resolve(dimension, "question_type", item.questionType)
       && (if item.key.Some? && item.key.value != "" then said.source == session + ":question:" + item.key.value
           else said.source == session + ":question:index-" + Decimal(i + 1))
       && said.score == (if item.isCorrect == Some(true) then 1.0 else 0.0)
       && said.confidence == 1.0 && said.kind == Attempt && said.payload == item.payload
       && said.rationale == "Question result: " + if item.questionType == "" then "unspecified type" else item.questionType
  }

  /** A band on the scale from nothing to nine, as a score. */
  ghost predicate IsBandScore(band: real, score: real)
  {
    if band <= 0.0 then score == 0.0 else if band >= 9.0 then score == 1.0 else score * 9.0 == band
  }

  ghost predicate IsLabelConfidence(pack: Pack, level: string, confidence: real)
  {
    && (pack.fold(level) == "high" ==> confidence == 0.9)
    && (pack.fold(level) == "medium" ==> confidence == 0.7)
    && (pack.fold(level) == "low" ==> confidence == 0.45)
    && (pack.fold(level) !in {"high", "medium", "low"} ==> confidence == 0.5)
  }

  /** The score of a criterion is its band, or the middle of its range of bands. */
  ghost predicate IsCriterionBand(item: Criterion, band: real)
  {
    if item.score.Some? then band == item.score.value
    else item.low.Some? && item.high.Some? && band + band == item.low.value + item.high.value
  }

  /** The first of two labels that is given, or else a third. */
  ghost predicate IsLabel(first: Option<string>, second: Option<string>, third: string, level: string)
  {
    if first.Some? && first.value != "" then level == first.value
    else if second.Some? && second.value != "" then level == second.value
    else level == third
  }

  /** What a criterion says under a name, with a band and a level of confidence. */
  ghost predicate CriterionSaysWith(pack: Pack, session: string, dimension: string, data: SessionData, i: nat, said: Saying,
                                    band: real, name: string, level: string)
    requires i < |data.criteria|
  {
    var item := data.criteria[i];
    && IsCriterionBand(item, band) && IsBandScore(band, said.score)
    && IsLabel(item.name, None, "criterion-" + Decimal(i + 1), name)
    && IsLabel(item.confidence, data.scoreConfidence, "medium", level)
    && IsLabelConfidence(pack, level, said.confidence)
    && said.skill == pack.resolve(dimension, "criterion", name)
    && said.source == session + ":criterion:" + pack.fold(name)
    && said.kind == Assessment && said.payload == item.payload
    && said.rationale == "Validated IELTS criterion score: " + name
  }

  /** A criterion of a local rubric says its band, as surely as its label. */
  ghost predicate CriterionSays(pack: Pack, session: string, dimension: string, data: SessionData, i: nat, said: Saying)
  {
    && i < |data.criteria| && data.criteria[i].role == "local_rubric"
    && exists band: real, name: string, level: string ::
         CriterionSaysWith(pack, session, dimension, data, i, said, band, name, level)
  }

  /** The score of the session as a whole counts when it is of an accepted kind. */
  ghost predicate OverallSays(pack: Pack, session: string, dimension: string, data: SessionData, said: Saying)
  {
    && data.band.Some? && IsBandScore(data.band.value, said.score)
    && (data.scoreKind == "official_result" || data.scoreKind == "answer_key_estimate" || data.scoreKind == "ai_training_estimate")
    && (exists level: string ::
          IsLabel(data.scoreConfidence, None, "low", level) && IsLabelConfidence(pack, level, said.confidence))
    && said.skill == pack.defaultSkill(dimension) && said.source == session + ":overall"
    && said.kind == Assessment && said.payload == data.overallPayload
    && said.rationale == "Accepted session score (" + data.scoreKind + ")"
  }

  /** Some question or criterion says something. */
  ghost predicate IsDetailed(data: SessionData)
  {
    || (exists i :: 0 <= i < |data.questions| && data.questions[i].isCorrect.Some?)
    || (exists i :: 0 <= i < |data.criteria| && data.criteria[i].role == "local_rubric"
                    && (data.criteria[i].score.Some? || (data.criteria[i].low.Some? && data.criteria[i].high.Some?)))
  }

  /** Everything a session says. The whole is asked only when the parts say nothing. */
  ghost predicate Says(pack: Pack, session: string, dimension: string, data: SessionData, said: Saying)
  {
    || (exists i :: QuestionSays(pack, session, dimension, data, i, said))
    || (exists i :: CriterionSays(pack, session, dimension, data, i, said))
    || (!IsDetailed(data) && OverallSays(pack, session, dimension, data, said))
  }

  /** The session is of the IELTS track, has an id and is about a dimension of the pack, both as they are written here. */
  ghost predicate Noticed(pack: Pack, data: SessionData, session: string, dimension: string)
  {
    && (data.track == None || data.track == Some("") || data.track == Some("ielts-academic"))
    && session == StripRight(StripLeft(data.sessionId)) && session != ""
    && dimension == pack.fold(StripRight(StripLeft(data.dimension))) && dimension in pack.dimensions
  }

  function TimeOf(data: SessionData, now: int): int
  {
    match data.occurredAt
    case None => now
    case Some(at) => at
  }

  /** The row that is left of a saying. */
  ghost predicate IsRowOf(said: Saying, session: string, at: int, row: Evidence)
  {
    && row.key == KeyOfSaying(said)
    && row.kind == said.kind && row.score == said.score && row.confidence == said.confidence
    && row.objective == None && row.activity == None && row.session == Some(session) && row.thread == None
    && row.rationale == Some(said.rationale) && row.payload == said.payload && row.observedAt == at
  }

  // ---- the reports are what the session says ----------------------------------------------------

  /** The report of a saying. */
  ghost predicate Reports(report: Report, said: Saying, session: string, at: int)
  {
    && report.skill == SkillRef(IELTS, said.skill) && report.sourceType == SESSION_SOURCE && report.sourceId == said.source
    && report.score == said.score && report.confidence == said.confidence && report.kind == said.kind
    && report.rationale == Some(said.rationale) && report.payload == said.payload
    && report.objective == None && report.activity == None && report.session == Some(session) && report.thread == None
    && report.observedAt == Some(at)
  }

  function SayingOf(report: Report): Saying
  {
    Saying(report.skill.skill, report.sourceId, report.score, report.confidence, report.kind,
           if report.rationale.Some? then report.rationale.value else "", report.payload)
  }

  lemma ReportIsStored(report: Report, said: Saying, session: string, at: int)
    requires Reports(report, said, session, at)
    ensures IsRowOf(said, session, at, StoredRow(report))
    ensures EvidenceKeyOf(report) == KeyOfSaying(said)
  {
    SessionSourceStays();
  }

  lemma SourceIs(session: string, kind: string, key: string)
    ensures session + ":" + (kind + ":" + key) == session + (":" + kind + ":") + key
  {
  }

  lemma QuestionIsSaid(pack: Pack, session: string, dimension: string, at: int, data: SessionData, i: nat)
    requires i < |data.questions|
    ensures var report := QuestionReport(pack, session, dimension, at, data.questions[i], i);
            && (report.Some? <==> data.questions[i].isCorrect.Some?)
            && (report.Some? ==>
                  && Reports(report.value, SayingOf(report.value), session, at)
                  && QuestionSays(pack, session, dimension, data, i, SayingOf(report.value)))
  {
    var item := data.questions[i];
    SourceIs(session, "question", if Given(item.key).Some? then item.key.value else "");
    SourceIs(session, "question", "index-" + Decimal(i + 1));
    assert ":" + "question" + ":" == ":question:" && "question" + ":" == "question:";
    assert session + ":question:index-" + Decimal(i + 1) == session + ":question:" + ("index-" + Decimal(i + 1));
  }

  lemma QuestionSaysOnce(pack: Pack, session: string, dimension: string, data: SessionData, i: nat, a: Saying, b: Saying)
    requires QuestionSays(pack, session, dimension, data, i, a) && QuestionSays(pack, session, dimension, data, i, b)
    ensures a == b
  {
  }

  lemma CriterionIsSaid(pack: Pack, session: string, dimension: string, at: int, data: SessionData, i: nat)
    requires i < |data.criteria|
    ensures var report := CriterionReport(pack, session, dimension, at, data.scoreConfidence, data.criteria[i], i);
            && (report.Some? <==> data.criteria[i].role == "local_rubric" && CriterionScore(data.criteria[i]).Some?)
            && (report.Some? ==>
                  && Reports(report.value, SayingOf(report.value), session, at)
                  && CriterionSays(pack, session, dimension, data, i, SayingOf(report.value)))
  {
    var item := data.criteria[i];
    var report := CriterionReport(pack, session, dimension, at, data.scoreConfidence, data.criteria[i], i);
    if report.Some? {
      var name := if Given(item.name).Some? then item.name.value else "criterion-" + Decimal(i + 1);
      var level := if Given(item.confidence).Some? then item.confidence.value
                   else if Given(data.scoreConfidence).Some? then data.scoreConfidence.value else "medium";
      var band := CriterionScore(item).value;
      SourceIs(session, "criterion", pack.fold(name));
      assert ":" + "criterion" + ":" == ":criterion:" && "criterion" + ":" == "criterion:";
      assert CriterionSaysWith(pack, session, dimension, data, i, SayingOf(report.value), band, name, level);
    }
  }

  lemma CriterionSaysOnce(pack: Pack, session: string, dimension: string, data: SessionData, i: nat, a: Saying, b: Saying)
    requires CriterionSays(pack, session, dimension, data, i, a) && CriterionSays(pack, session, dimension, data, i, b)
    ensures a == b
  {
  }

  lemma QuestionReportIs(pack: Pack, session: string, dimension: string, at: int, data: SessionData, i: nat, said: Saying)
    requires QuestionSays(pack, session, dimension, data, i, said)
    ensures var report := QuestionReport(pack, session, dimension, at, data.questions[i], i);
            report.Some? && Reports(report.value, said, session, at)
  {
    QuestionIsSaid(pack, session, dimension, at, data, i);
    var report := QuestionReport(pack, session, dimension, at, data.questions[i], i);
    QuestionSaysOnce(pack, session, dimension, data, i, said, SayingOf(report.value));
  }

  lemma CriterionReportIs(pack: Pack, session: string, dimension: string, at: int, data: SessionData, i: nat, said: Saying)
    requires CriterionSays(pack, session, dimension, data, i, said)
    ensures var report := CriterionReport(pack, session, dimension, at, data.scoreConfidence, data.criteria[i], i);
            report.Some? && Reports(report.value, said, session, at)
  {
    CriterionIsSaid(pack, session, dimension, at, data, i);
    var report := CriterionReport(pack, session, dimension, at, data.scoreConfidence, data.criteria[i], i);
    CriterionSaysOnce(pack, session, dimension, data, i, said, SayingOf(report.value));
  }

  /** Every report of a list says something the session says, for a question at or after a place. */
  ghost predicate SaidByQuestions(pack: Pack, session: string, dimension: string, at: int, data: SessionData,
                                  reports: seq<Report>, from: nat, to: nat, start: nat)
  {
    forall q :: start <= q < |reports| ==>
      && Reports(reports[q], SayingOf(reports[q]), session, at)
      && exists j :: from <= j < to && QuestionSays(pack, session, dimension, data, j, SayingOf(reports[q]))
  }

  ghost predicate SaidByCriteria(pack: Pack, session: string, dimension: string, at: int, data: SessionData,
                                 reports: seq<Report>, from: nat, to: nat, start: nat)
  {
    forall q :: start <= q < |reports| ==>
      && Reports(reports[q], SayingOf(reports[q]), session, at)
      && exists j :: from <= j < to && CriterionSays(pack, session, dimension, data, j, SayingOf(reports[q]))
  }

  lemma QuestionsExtended(pack: Pack, session: string, dimension: string, at: int, data: SessionData, n: nat)
    requires n < |data.questions|
    ensures QuestionReports(pack, session, dimension, at, data.questions[..n + 1])
            == Appended(QuestionReports(pack, session, dimension, at, data.questions[..n]),
                        QuestionReport(pack, session, dimension, at, data.questions[n], n))
  {
    assert data.questions[..n + 1][..n] == data.questions[..n];
  }

  lemma CriteriaExtended(pack: Pack, session: string, dimension: string, at: int, data: SessionData, n: nat)
    requires n < |data.criteria|
    ensures CriterionReports(pack, session, dimension, at, data.scoreConfidence, data.criteria[..n + 1])
            == Appended(CriterionReports(pack, session, dimension, at, data.scoreConfidence, data.criteria[..n]),
                        CriterionReport(pack, session, dimension, at, data.scoreConfidence, data.criteria[n], n))
  {
    assert data.criteria[..n + 1][..n] == data.criteria[..n];
  }

  lemma QuestionExtends(pack: Pack, session: string, dimension: string, at: int, data: SessionData,
                        shorter: seq<Report>, from: nat, to: nat, start: nat)
    requires SaidByQuestions(pack, session, dimension, at, data, shorter, from, to, start)
    requires from <= to < |data.questions| && start <= |shorter|
    ensures SaidByQuestions(pack, session, dimension, at, data,
                            Appended(shorter, QuestionReport(pack, session, dimension, at, data.questions[to], to)), from, to + 1, start)
  {
    QuestionIsSaid(pack, session, dimension, at, data, to);
  }

  lemma CriterionExtends(pack: Pack, session: string, dimension: string, at: int, data: SessionData,
                         shorter: seq<Report>, from: nat, to: nat, start: nat)
    requires SaidByCriteria(pack, session, dimension, at, data, shorter, from, to, start)
    requires from <= to < |data.criteria| && start <= |shorter|
    ensures SaidByCriteria(pack, session, dimension, at, data,
                           Appended(shorter, CriterionReport(pack, session, dimension, at, data.scoreConfidence, data.criteria[to], to)),
                           from, to + 1, start)
  {
    CriterionIsSaid(pack, session, dimension, at, data, to);
  }

  lemma {:induction false} QuestionsSay(pack: Pack, session: string, dimension: string, at: int, data: SessionData, n: nat)
    requires n <= |data.questions|
    ensures SaidByQuestions(pack, session, dimension, at, data,
                            QuestionReports(pack, session, dimension, at, data.questions[..n]), 0, n, 0)
  {
    if n > 0 {
      QuestionsSay(pack, session, dimension, at, data, n - 1);
      QuestionsExtended(pack, session, dimension, at, data, n - 1);
      QuestionExtends(pack, session, dimension, at, data, QuestionReports(pack, session, dimension, at, data.questions[..n - 1]),
                      0, n - 1, 0);
    }
  }

  lemma {:induction false} CriteriaSay(pack: Pack, session: string, dimension: string, at: int, data: SessionData, n: nat)
    requires n <= |data.criteria|
    ensures SaidByCriteria(pack, session, dimension, at, data,
                           CriterionReports(pack, session, dimension, at, data.scoreConfidence, data.criteria[..n]), 0, n, 0)
  {
    if n > 0 {
      CriteriaSay(pack, session, dimension, at, data, n - 1);
      CriteriaExtended(pack, session, dimension, at, data, n - 1);
      CriterionExtends(pack, session, dimension, at, data,
                       CriterionReports(pack, session, dimension, at, data.scoreConfidence, data.criteria[..n - 1]), 0, n - 1, 0);
    }
  }

  lemma {:induction false} QuestionsSilent(pack: Pack, session: string, dimension: string, at: int, data: SessionData, n: nat)
    requires n <= |data.questions|
    ensures QuestionReports(pack, session, dimension, at, data.questions[..n]) == []
            <==> forall i :: 0 <= i < n ==> data.questions[i].isCorrect.None?
  {
    if n > 0 {
      QuestionsSilent(pack, session, dimension, at, data, n - 1);
      QuestionsExtended(pack, session, dimension, at, data, n - 1);
    }
  }

  lemma {:induction false} CriteriaSilent(pack: Pack, session: string, dimension: string, at: int, data: SessionData, n: nat)
    requires n <= |data.criteria|
    ensures CriterionReports(pack, session, dimension, at, data.scoreConfidence, data.criteria[..n]) == []
            <==> forall i :: 0 <= i < n ==>
                   !(data.criteria[i].role == "local_rubric"
                     && (data.criteria[i].score.Some? || (data.criteria[i].low.Some? && data.criteria[i].high.Some?)))
  {
    if n > 0 {
      CriteriaSilent(pack, session, dimension, at, data, n - 1);
      CriteriaExtended(pack, session, dimension, at, data, n - 1);
    }
  }

  /** What a question says is reported at a position, and behind it stand only reports of later questions. */
  ghost predicate QuestionStandsAt(pack: Pack, session: string, dimension: string, at: int, data: SessionData,
                                   reports: seq<Report>, n: nat, i: nat, said: Saying, p: nat)
  {
    && p < |reports| && Reports(reports[p], said, session, at)
    && SaidByQuestions(pack, session, dimension, at, data, reports, i + 1, n, p + 1)
  }

  ghost predicate CriterionStandsAt(pack: Pack, session: string, dimension: string, at: int, data: SessionData,
                                    reports: seq<Report>, n: nat, i: nat, said: Saying, p: nat)
  {
    && p < |reports| && Reports(reports[p], said, session, at)
    && SaidByCriteria(pack, session, dimension, at, data, reports, i + 1, n, p + 1)
  }

  lemma {:induction false} QuestionPlace(pack: Pack, session: string, dimension: string, at: int, data: SessionData, n: nat,
                                         i: nat, said: Saying)
    returns (p: nat)
    requires i < n <= |data.questions| && QuestionSays(pack, session, dimension, data, i, said)
    ensures QuestionStandsAt(pack, session, dimension, at, data, QuestionReports(pack, session, dimension, at, data.questions[..n]),
                             n, i, said, p)
  {
    var shorter := QuestionReports(pack, session, dimension, at, data.questions[..n - 1]);
    QuestionsExtended(pack, session, dimension, at, data, n - 1);
    if i == n - 1 {
      p := |shorter|;
      QuestionReportIs(pack, session, dimension, at, data, i, said);
    } else {
      p := QuestionPlace(pack, session, dimension, at, data, n - 1, i, said);
      QuestionExtends(pack, session, dimension, at, data, shorter, i + 1, n - 1, p + 1);
    }
  }

  lemma {:induction false} CriterionPlace(pack: Pack, session: string, dimension: string, at: int, data: SessionData, n: nat,
                                          i: nat, said: Saying)
    returns (p: nat)
    requires i < n <= |data.criteria| && CriterionSays(pack, session, dimension, data, i, said)
    ensures CriterionStandsAt(pack, session, dimension, at, data,
                              CriterionReports(pack, session, dimension, at, data.scoreConfidence, data.criteria[..n]), n, i, said, p)
    decreases n
  {
    CriteriaExtended(pack, session, dimension, at, data, n - 1);
    if i == n - 1 {
      p := CriterionStandsLast(pack, session, dimension, at, data, i, said,
                               CriterionReports(pack, session, dimension, at, data.scoreConfidence, data.criteria[..i]));
    } else {
      p := CriterionPlace(pack, session, dimension, at, data, n - 1, i, said);
      CriterionStandsOn(pack, session, dimension, at, data,
                        CriterionReports(pack, session, dimension, at, data.scoreConfidence, data.criteria[..n - 1]), n - 1, i, said, p);
    }
  }

  lemma CriterionStandsLast(pack: Pack, session: string, dimension: string, at: int, data: SessionData, i: nat, said: Saying,
                            shorter: seq<Report>)
    returns (p: nat)
    requires CriterionSays(pack, session, dimension, data, i, said)
    ensures CriterionStandsAt(pack, session, dimension, at, data,
                              Appended(shorter, CriterionReport(pack, session, dimension, at, data.scoreConfidence, data.criteria[i], i)),
                              i + 1, i, said, p)
  {
    CriterionReportIs(pack, session, dimension, at, data, i, said);
    p := |shorter|;
  }

  lemma CriterionStandsOn(pack: Pack, session: string, dimension: string, at: int, data: SessionData, shorter: seq<Report>,
                          n: nat, i: nat, said: Saying, p: nat)
    requires i < n < |data.criteria| && CriterionStandsAt(pack, session, dimension, at, data, shorter, n, i, said, p)
    ensures CriterionStandsAt(pack, session, dimension, at, data,
                              Appended(shorter, CriterionReport(pack, session, dimension, at, data.scoreConfidence, data.criteria[n], n)),
                              n + 1, i, said, p)
  {
    CriterionExtends(pack, session, dimension, at, data, shorter, i + 1, n, p + 1);
  }

  lemma OverallIsSaid(pack: Pack, session: string, dimension: string, at: int, data: SessionData)
    ensures var reports := OverallReports(pack, session, dimension, at, data);
            && |reports| <= 1
            && (reports != [] ==>
                  && Reports(reports[0], SayingOf(reports[0]), session, at)
                  && OverallSays(pack, session, dimension, data, SayingOf(reports[0])))
            && (reports == [] ==> forall said :: !OverallSays(pack, session, dimension, data, said))
  {
    var reports := OverallReports(pack, session, dimension, at, data);
    if reports != [] {
      var level := if Given(data.scoreConfidence).Some? then data.scoreConfidence.value else "low";
      assert ":" + "overall" == ":overall" && session + ":" + "overall" == session + ":overall";
      assert IsLabel(data.scoreConfidence, None, "low", level) && IsLabelConfidence(pack, level, reports[0].confidence);
    }
  }

  lemma OverallSaysOnce(pack: Pack, session: string, dimension: string, data: SessionData, a: Saying, b: Saying)
    requires OverallSays(pack, session, dimension, data, a) && OverallSays(pack, session, dimension, data, b)
    ensures a == b
  {
  }

  /** The detailed reports are empty exactly when nothing is said in detail. */
  lemma DetailedReports(pack: Pack, session: string, dimension: string, at: int, data: SessionData)
    ensures var detailed := QuestionReports(pack, session, dimension, at, data.questions)
                            + CriterionReports(pack, session, dimension, at, data.scoreConfidence, data.criteria);
            && (detailed != [] <==> IsDetailed(data))
            && forall q :: 0 <= q < |detailed| ==>
                 Reports(detailed[q], SayingOf(detailed[q]), session, at)
                 && Says(pack, session, dimension, data, SayingOf(detailed[q]))
  {
    var n, m := |data.questions|, |data.criteria|;
    assert data.questions[..n] == data.questions && data.criteria[..m] == data.criteria;
    QuestionsSay(pack, session, dimension, at, data, n);
    CriteriaSay(pack, session, dimension, at, data, m);
    QuestionsSilent(pack, session, dimension, at, data, n);
    CriteriaSilent(pack, session, dimension, at, data, m);
  }

  lemma PendingIsSaid(pack: Pack, session: string, dimension: string, at: int, data: SessionData)
    ensures var pending := PendingReports(pack, session, dimension, at, data);
            forall q :: 0 <= q < |pending| ==>
              Reports(pending[q], SayingOf(pending[q]), session, at)
              && Says(pack, session, dimension, data, SayingOf(pending[q]))
  {
    DetailedReports(pack, session, dimension, at, data);
    OverallIsSaid(pack, session, dimension, at, data);
  }

  // ---- what is left in the store ----------------------------------------------------------------

  lemma NoticedIsIngested(cat: Catalogue, pack: Pack, st: Store, data: SessionData, now: int, session: string, dimension: string)
    requires Noticed(pack, data, session, dimension)
    ensures var pending := PendingReports(pack, session, dimension, TimeOf(data, now), data);
            && (forall q :: 0 <= q < |pending| ==> pending[q].observedAt.Some?)
            && Ingested(cat, pack, st, data, now) == IngestedSession(cat, st, session, pending, now)
  {
    PendingFromSession(pack, session, dimension, TimeOf(data, now), data);
  }

  /** A session that is of another track, or has no id, or is about no dimension of the pack, changes nothing. */
  lemma UnnoticedChangesNothing(cat: Catalogue, pack: Pack, st: Store, data: SessionData, now: int)
    requires forall session, dimension :: !Noticed(pack, data, session, dimension)
    ensures Ingested(cat, pack, st, data, now) == Ok(st)
  {
    assert !Noticed(pack, data, StripRight(StripLeft(data.sessionId)), pack.fold(StripRight(StripLeft(data.dimension))));
  }

  /** A report that no later one of its key overwrites is what its id ends up with. */
  lemma LastReportIsStored(cat: Catalogue, st: Store, session: string, pending: seq<Report>, now: int, p: nat)
    requires forall q :: 0 <= q < |pending| ==> pending[q].observedAt.Some?
    requires IngestedSession(cat, st, session, pending, now).Ok?
    requires p < |pending| && forall q :: p < q < |pending| ==> EvidenceKeyOf(pending[q]) != EvidenceKeyOf(pending[p])
    ensures Lookup(IngestedSession(cat, st, session, pending, now).value.evidence, IdOf(cat, pending[p]))
            == Some(StoredRow(pending[p]))
  {
    var writes := Writes(cat, pending);
    IngestedIsSettled(cat, st, session, pending, now);
    AppliedIsLastWins(Kept(st.evidence, session, RawSlots(pending)), writes);
    assert IsLast(writes, IdOf(cat, pending[p]), p);
  }

  lemma SayingIsStored(cat: Catalogue, pack: Pack, st: Store, data: SessionData, now: int, session: string, dimension: string,
                       said: Saying, p: nat)
    requires Noticed(pack, data, session, dimension) && Ingested(cat, pack, st, data, now).Ok?
    requires var pending := PendingReports(pack, session, dimension, TimeOf(data, now), data);
             && p < |pending| && Reports(pending[p], said, session, TimeOf(data, now))
             && NoneUnder(pending, KeyOfSaying(said), p + 1)
    ensures IsStored(cat, Ingested(cat, pack, st, data, now).value, said, session, TimeOf(data, now))
  {
    var at := TimeOf(data, now);
    var pending := PendingReports(pack, session, dimension, at, data);
    NoticedIsIngested(cat, pack, st, data, now, session, dimension);
    PendingIsSaid(pack, session, dimension, at, data);
    ReportIsStored(pending[p], said, session, at);
    forall q | p < q < |pending|
      ensures EvidenceKeyOf(pending[q]) == KeyOfSaying(SayingOf(pending[q]))
    {
      ReportIsStored(pending[q], SayingOf(pending[q]), session, at);
    }
    LastReportIsStored(cat, st, session, pending, now, p);
  }

  /** The saying has its row in the store. */
  ghost predicate IsStored(cat: Catalogue, st: Store, said: Saying, session: string, at: int)
  {
    var id := cat.evidenceId(KeyOfSaying(said));
    id in st.evidence && IsRowOf(said, session, at, st.evidence[id])
  }

  /** No later question and no criterion says anything under the key. */
  ghost predicate LastOfQuestions(pack: Pack, session: string, dimension: string, data: SessionData, i: nat, key: EvidenceKey)
  {
    && (forall j, other :: i < j && QuestionSays(pack, session, dimension, data, j, other) ==> KeyOfSaying(other) != key)
    && (forall j, other :: CriterionSays(pack, session, dimension, data, j, other) ==> KeyOfSaying(other) != key)
  }

  ghost predicate LastOfCriteria(pack: Pack, session: string, dimension: string, data: SessionData, i: nat, key: EvidenceKey)
  {
    forall j, other :: i < j && CriterionSays(pack, session, dimension, data, j, other) ==> KeyOfSaying(other) != key
  }

  /** From some position on no report is stored under the key. */
  predicate NoneUnder(reports: seq<Report>, key: EvidenceKey, start: nat)
  {
    forall q :: start <= q < |reports| ==> KeyOfSaying(SayingOf(reports[q])) != key
  }

  lemma LaterQuestionsDiffer(pack: Pack, session: string, dimension: string, at: int, data: SessionData, i: nat, key: EvidenceKey,
                             reports: seq<Report>, p: nat)
    requires SaidByQuestions(pack, session, dimension, at, data, reports, i + 1, |data.questions|, p + 1)
    requires LastOfQuestions(pack, session, dimension, data, i, key)
    ensures NoneUnder(reports, key, p + 1)
  {
  }

  lemma CriteriaDiffer(pack: Pack, session: string, dimension: string, at: int, data: SessionData, i: nat, key: EvidenceKey)
    requires LastOfQuestions(pack, session, dimension, data, i, key)
    ensures NoneUnder(CriterionReports(pack, session, dimension, at, data.scoreConfidence, data.criteria), key, 0)
  {
    assert data.criteria[..|data.criteria|] == data.criteria;
    CriteriaSay(pack, session, dimension, at, data, |data.criteria|);
  }

  lemma LaterCriteriaDiffer(pack: Pack, session: string, dimension: string, at: int, data: SessionData, i: nat, key: EvidenceKey,
                            reports: seq<Report>, p: nat)
    requires SaidByCriteria(pack, session, dimension, at, data, reports, i + 1, |data.criteria|, p + 1)
    requires LastOfCriteria(pack, session, dimension, data, i, key)
    ensures NoneUnder(reports, key, p + 1)
  {
  }

  lemma NoneUnderEither(first: seq<Report>, second: seq<Report>, key: EvidenceKey, p: nat)
    requires p < |first| && NoneUnder(first, key, p + 1) && NoneUnder(second, key, 0)
    ensures NoneUnder(first + second, key, p + 1)
  {
  }

  lemma NoneUnderSecond(first: seq<Report>, second: seq<Report>, key: EvidenceKey, p: nat)
    requires p < |second| && NoneUnder(second, key, p + 1)
    ensures NoneUnder(first + second, key, |first| + p + 1)
  {
  }

  /**
   * Every question with a result whose key no later question and no criterion repeats has its row: an attempt, made
   * with full confidence, of score one when the answer was right and of score zero when it was not.
   */
  lemma QuestionIsStored(cat: Catalogue, pack: Pack, st: Store, data: SessionData, now: int, session: string, dimension: string,
                         i: nat, said: Saying)
    requires Noticed(pack, data, session, dimension) && Ingested(cat, pack, st, data, now).Ok?
    requires QuestionSays(pack, session, dimension, data, i, said)
    requires LastOfQuestions(pack, session, dimension, data, i, KeyOfSaying(said))
    ensures IsStored(cat, Ingested(cat, pack, st, data, now).value, said, session, TimeOf(data, now))
    ensures said.kind == Attempt && said.confidence == 1.0
            && said.score == if data.questions[i].isCorrect.value then 1.0 else 0.0
  {
    var at := TimeOf(data, now);
    var p := QuestionPending(pack, session, dimension, at, data, i, said);
    SayingIsStored(cat, pack, st, data, now, session, dimension, said, p);
  }

  lemma QuestionPending(pack: Pack, session: string, dimension: string, at: int, data: SessionData, i: nat, said: Saying)
    returns (p: nat)
    requires QuestionSays(pack, session, dimension, data, i, said)
    requires LastOfQuestions(pack, session, dimension, data, i, KeyOfSaying(said))
    ensures var pending := PendingReports(pack, session, dimension, at, data);
            p < |pending| && Reports(pending[p], said, session, at) && NoneUnder(pending, KeyOfSaying(said), p + 1)
  {
    var questions := QuestionReports(pack, session, dimension, at, data.questions);
    assert data.questions[..|data.questions|] == data.questions;
    p := QuestionPlace(pack, session, dimension, at, data, |data.questions|, i, said);
    LaterQuestionsDiffer(pack, session, dimension, at, data, i, KeyOfSaying(said), questions, p);
    CriteriaDiffer(pack, session, dimension, at, data, i, KeyOfSaying(said));
    NoneUnderEither(questions, CriterionReports(pack, session, dimension, at, data.scoreConfidence, data.criteria),
                    KeyOfSaying(said), p);
  }

  /** So has every criterion of a local rubric with a band whose key no later criterion repeats. */
  lemma CriterionIsStored(cat: Catalogue, pack: Pack, st: Store, data: SessionData, now: int, session: string, dimension: string,
                          i: nat, said: Saying)
    requires Noticed(pack, data, session, dimension) && Ingested(cat, pack, st, data, now).Ok?
    requires CriterionSays(pack, session, dimension, data, i, said)
    requires LastOfCriteria(pack, session, dimension, data, i, KeyOfSaying(said))
    ensures IsStored(cat, Ingested(cat, pack, st, data, now).value, said, session, TimeOf(data, now))
  {
    var p := CriterionPending(pack, session, dimension, TimeOf(data, now), data, i, said);
    SayingIsStored(cat, pack, st, data, now, session, dimension, said, p);
  }

  lemma CriterionPending(pack: Pack, session: string, dimension: string, at: int, data: SessionData, i: nat, said: Saying)
    returns (p: nat)
    requires CriterionSays(pack, session, dimension, data, i, said)
    requires LastOfCriteria(pack, session, dimension, data, i, KeyOfSaying(said))
    ensures var pending := PendingReports(pack, session, dimension, at, data);
            p < |pending| && Reports(pending[p], said, session, at) && NoneUnder(pending, KeyOfSaying(said), p + 1)
  {
    var questions := QuestionReports(pack, session, dimension, at, data.questions);
    var criteria := CriterionReports(pack, session, dimension, at, data.scoreConfidence, data.criteria);
    assert data.criteria[..|data.criteria|] == data.criteria;
    var place := CriterionPlace(pack, session, dimension, at, data, |data.criteria|, i, said);
    LaterCriteriaDiffer(pack, session, dimension, at, data, i, KeyOfSaying(said), criteria, place);
    NoneUnderSecond(questions, criteria, KeyOfSaying(said), place);
    p := |questions| + place;
  }

  /** The score of the session as a whole is stored when nothing is said in detail and its kind is accepted. */
  lemma OverallIsStored(cat: Catalogue, pack: Pack, st: Store, data: SessionData, now: int, session: string, dimension: string,
                        said: Saying)
    requires Noticed(pack, data, session, dimension) && Ingested(cat, pack, st, data, now).Ok?
    requires !IsDetailed(data) && OverallSays(pack, session, dimension, data, said)
    ensures IsStored(cat, Ingested(cat, pack, st, data, now).value, said, session, TimeOf(data, now))
  {
    var at := TimeOf(data, now);
    DetailedReports(pack, session, dimension, at, data);
    OverallIsSaid(pack, session, dimension, at, data);
    var reports := OverallReports(pack, session, dimension, at, data);
    OverallSaysOnce(pack, session, dimension, data, said, SayingOf(reports[0]));
    SayingIsStored(cat, pack, st, data, now, session, dimension, said, 0);
  }

  lemma RowIsReported(cat: Catalogue, st: Store, session: string, pending: seq<Report>, now: int, id: int) returns (q: nat)
    requires forall q :: 0 <= q < |pending| ==> pending[q].observedAt.Some?
    requires IngestedSession(cat, st, session, pending, now).Ok?
    requires var after := IngestedSession(cat, st, session, pending, now).value.evidence;
             id in after && OfSession(after[id], session)
    ensures var row := IngestedSession(cat, st, session, pending, now).value.evidence[id];
            && q < |pending|
            && (row == StoredRow(pending[q]) || (Lookup(st.evidence, id) == Some(row) && SlotOfRow(row) == SlotOfReport(pending[q])))
  {
    var writes := Writes(cat, pending);
    var kept := Kept(st.evidence, session, RawSlots(pending));
    IngestedIsSettled(cat, st, session, pending, now);
    AppliedIsLastWins(kept, writes);
    if id in KeysOf(writes) {
      q := LastExists(writes, id);
    } else {
      assert id in kept && kept[id] == st.evidence[id];
      q :| 0 <= q < |pending| && SlotOfReport(pending[q]) == SlotOfRow(st.evidence[id]);
    }
  }

  /**
   * Whatever evidence the session has afterwards says what the session says: a row is that of a saying, or it was there
   * before under the skill of a saying and its source as it was given.
   */
  lemma RowsAreSaid(cat: Catalogue, pack: Pack, st: Store, data: SessionData, now: int, session: string, dimension: string, id: int)
    requires Noticed(pack, data, session, dimension) && Ingested(cat, pack, st, data, now).Ok?
    requires var after := Ingested(cat, pack, st, data, now).value.evidence;
             id in after && after[id].session == Some(session) && after[id].key.sourceType == "ielts_session"
    ensures var row := Ingested(cat, pack, st, data, now).value.evidence[id];
            exists said :: Says(pack, session, dimension, data, said)
              && (IsRowOf(said, session, TimeOf(data, now), row)
                  || (Lookup(st.evidence, id) == Some(row) && row.key.skill == said.skill && row.key.sourceId == said.source))
  {
    var at := TimeOf(data, now);
    var pending := PendingReports(pack, session, dimension, at, data);
    NoticedIsIngested(cat, pack, st, data, now, session, dimension);
    PendingIsSaid(pack, session, dimension, at, data);
    var q := RowIsReported(cat, st, session, pending, now, id);
    ReportIsStored(pending[q], SayingOf(pending[q]), session, at);
    assert Says(pack, session, dimension, data, SayingOf(pending[q]));
  }

  /** What the session does not say leaves no row: nothing of the session stays under a skill and a source it does not name. */
  lemma UnsaidLeavesNoRow(cat: Catalogue, pack: Pack, st: Store, data: SessionData, now: int, session: string, dimension: string,
                          skill: string, sourceId: string)
    requires Noticed(pack, data, session, dimension) && Ingested(cat, pack, st, data, now).Ok?
    requires forall said :: Says(pack, session, dimension, data, said) ==> !Names(said, skill, sourceId)
    ensures var after := Ingested(cat, pack, st, data, now).value.evidence;
            forall id :: id in after && after[id].session == Some(session) && after[id].key.sourceType == "ielts_session" ==>
              !(after[id].key.skill == skill && after[id].key.sourceId == sourceId)
  {
    var after := Ingested(cat, pack, st, data, now).value.evidence;
    forall id | id in after && after[id].session == Some(session) && after[id].key.sourceType == "ielts_session"
      ensures !(after[id].key.skill == skill && after[id].key.sourceId == sourceId)
    {
      RowsAreSaid(cat, pack, st, data, now, session, dimension, id);
    }
  }

  /** A question without a result says nothing, and neither does a criterion of another rubric or without a band. */
  lemma Silent(pack: Pack, session: string, dimension: string, data: SessionData, i: nat)
    ensures i < |data.questions| ==>
              (data.questions[i].isCorrect.None? <==> forall said :: !QuestionSays(pack, session, dimension, data, i, said))
    ensures i < |data.criteria| ==>
              (data.criteria[i].role == "local_rubric"
               && (data.criteria[i].score.Some? || (data.criteria[i].low.Some? && data.criteria[i].high.Some?))
               <==> exists said :: CriterionSays(pack, session, dimension, data, i, said))
  {
    if i < |data.questions| {
      QuestionIsSaid(pack, session, dimension, 0, data, i);
    }
    if i < |data.criteria| {
      CriterionIsSaid(pack, session, dimension, 0, data, i);
    }
  }

  ghost predicate Names(said: Saying, skill: string, sourceId: string)
  {
    said.skill == skill && (said.source == sourceId || CleanSource(said.source) == sourceId)
  }

  /** A question without a result leaves no row of the session where its own would be, unless something else is said there. */
  lemma UnansweredLeavesNoRow(cat: Catalogue, pack: Pack, st: Store, data: SessionData, now: int, session: string, dimension: string,
                              i: nat, skill: string, sourceId: string)
    requires Noticed(pack, data, session, dimension) && Ingested(cat, pack, st, data, now).Ok?
    requires i < |data.questions| && data.questions[i].isCorrect.None?
    requires skill == pack.resolve(dimension, "question_type", data.questions[i].questionType)
    requires forall j, said :: j != i && QuestionSays(pack, session, dimension, data, j, said) ==> !Names(said, skill, sourceId)
    requires forall j, said :: CriterionSays(pack, session, dimension, data, j, said) ==> !Names(said, skill, sourceId)
    requires forall said :: OverallSays(pack, session, dimension, data, said) ==> !Names(said, skill, sourceId)
    ensures var after := Ingested(cat, pack, st, data, now).value.evidence;
            forall id :: id in after && after[id].session == Some(session) && after[id].key.sourceType == "ielts_session" ==>
              !(after[id].key.skill == skill && after[id].key.sourceId == sourceId)
  {
    forall said | Says(pack, session, dimension, data, said)
      ensures !Names(said, skill, sourceId)
    {
    }
    UnsaidLeavesNoRow(cat, pack, st, data, now, session, dimension, skill, sourceId);
  }
}
