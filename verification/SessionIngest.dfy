/**
 * Projecting one formal session into the learner model: the session's data become evidence reports, and the
 * stored rows of the session are patched to match them.
 */
module SessionIngest {
  import opened Wrappers
  import opened Rounding
  import opened Mastery
  import opened Collections
  import opened Text
  import opened LearningModel
  import opened Upserts

  const IELTS: string := "ielts-academic"
  const SESSION_SOURCE: string := "ielts_session"

  // ---- the projection of session data -----------------------------------------------------------

  datatype Question = Question(isCorrect: Option<bool>, questionType: string, key: Option<string>, payload: string)

  datatype Criterion = Criterion(
    role: string, score: Option<real>, low: Option<real>, high: Option<real>,
    name: Option<string>, confidence: Option<string>, payload: string)

  datatype SessionData = SessionData(
    track: Option<string>,
    sessionId: string,
    dimension: string,
    occurredAt: Option<int>,
    questions: seq<Question>,
    criteria: seq<Criterion>,
    band: Option<real>,
    scoreKind: string,
    scoreConfidence: Option<string>,
    overallPayload: string)

  /** The parts of the domain pack the projection consults. */
  datatype Pack = Pack(
    dimensions: set<string>,
    resolve: (string, string, string) -> string,
    defaultSkill: string -> string,
    fold: string -> string)

  function Normalised(band: real): (score: real)
    ensures 0.0 <= score <= 1.0
  {
    Max(0.0, Min(9.0, band)) / 9.0
  }

  function ConfidenceValue(level: string): (c: real)
    ensures 0.0 <= c <= 1.0
  {
    if level == "high" then 0.9 else if level == "medium" then 0.7 else if level == "low" then 0.45 else 0.5
  }

  function SessionReport(session: string, skill: string, score: real, confidence: real, kind: EvidenceKind,
                         tail: string, rationale: string, payload: string, at: int): Report
  {
    Report(SkillRef(IELTS, skill), score, confidence, kind, SESSION_SOURCE, session + ":" + tail,
           None, None, Some(session), None, Some(rationale), payload, Some(at))
  }

  function LabelOf(questionType: string): string
  {
    if questionType == "" then "unspecified type" else questionType
  }

  /** The report of a question at its place, if it has a result. */
  function QuestionReport(pack: Pack, session: string, dimension: string, at: int, item: Question, place: nat): Option<Report>
  {
    if item.isCorrect.None? then None
    else
      var key := if Given(item.key).Some? then item.key.value else "index-" + Decimal(place + 1);
      Some(SessionReport(session, pack.resolve(dimension, "question_type", item.questionType),
                         if item.isCorrect.value then 1.0 else 0.0, 1.0, Attempt, "question:" + key,
                         "Question result: " + LabelOf(item.questionType), item.payload, at))
  }

  function Appended(reports: seq<Report>, report: Option<Report>): seq<Report>
  {
    if report.Some? then reports + [report.value] else reports
  }

  function QuestionReports(pack: Pack, session: string, dimension: string, at: int, questions: seq<Question>): seq<Report>
  {
    if questions == [] then []
    else
      var n := |questions| - 1;
      Appended(QuestionReports(pack, session, dimension, at, questions[..n]),
               QuestionReport(pack, session, dimension, at, questions[n], n))
  }

  function CriterionScore(item: Criterion): Option<real>
  {
    if item.score.Some? then item.score
    else if item.low.Some? && item.high.Some? then Some((item.low.value + item.high.value) / 2.0)
    else None
  }

  /** The report of a criterion at its place, if it is one of a local rubric and has a score. */
  function CriterionReport(pack: Pack, session: string, dimension: string, at: int, scoreConfidence: Option<string>,
                           item: Criterion, place: nat): Option<Report>
  {
    if item.role != "local_rubric" || CriterionScore(item).None? then None
    else
      var name := if Given(item.name).Some? then item.name.value else "criterion-" + Decimal(place + 1);
      var level := if Given(item.confidence).Some? then item.confidence.value
                   else if Given(scoreConfidence).Some? then scoreConfidence.value else "medium";
      Some(SessionReport(session, pack.resolve(dimension, "criterion", name), Normalised(CriterionScore(item).value),
                         ConfidenceValue(pack.fold(level)), Assessment, "criterion:" + pack.fold(name),
                         "Validated IELTS criterion score: " + name, item.payload, at))
  }

  function CriterionReports(pack: Pack, session: string, dimension: string, at: int, scoreConfidence: Option<string>,
                            criteria: seq<Criterion>): seq<Report>
  {
    if criteria == [] then []
    else
      var n := |criteria| - 1;
      Appended(CriterionReports(pack, session, dimension, at, scoreConfidence, criteria[..n]),
               CriterionReport(pack, session, dimension, at, scoreConfidence, criteria[n], n))
  }

  function OverallReports(pack: Pack, session: string, dimension: string, at: int, data: SessionData): seq<Report>
  {
    var level := if Given(data.scoreConfidence).Some? then data.scoreConfidence.value else "low";
    if data.band.None? || data.scoreKind !in {"official_result", "answer_key_estimate", "ai_training_estimate"} then []
    else [SessionReport(session, pack.defaultSkill(dimension), Normalised(data.band.value),
                        ConfidenceValue(pack.fold(level)), Assessment, "overall",
                        "Accepted session score (" + data.scoreKind + ")", data.overallPayload, at)]
  }

  function PendingReports(pack: Pack, session: string, dimension: string, at: int, data: SessionData): seq<Report>
  {
    var detailed := QuestionReports(pack, session, dimension, at, data.questions)
                    + CriterionReports(pack, session, dimension, at, data.scoreConfidence, data.criteria);
    if detailed == [] then OverallReports(pack, session, dimension, at, data) else detailed
  }

  /** What every report projected from a session has in common. */
  ghost predicate FromSession(report: Report, session: string, at: int)
  {
    && report.skill.track == IELTS
    && report.sourceType == SESSION_SOURCE
    && session + ":" <= report.sourceId
    && report.session == Some(session)
    && report.objective == None && report.activity == None && report.thread == None
    && report.rationale.Some?
    && report.observedAt == Some(at)
    && 0.0 <= report.score <= 1.0 && 0.0 <= report.confidence <= 1.0
  }

  ghost predicate AllFromSession(pending: seq<Report>, session: string, at: int)
  {
    forall i :: 0 <= i < |pending| ==> FromSession(pending[i], session, at)
  }

  lemma {:induction false} QuestionsFromSession(pack: Pack, session: string, dimension: string, at: int, questions: seq<Question>)
    ensures AllFromSession(QuestionReports(pack, session, dimension, at, questions), session, at)
  {
    if questions != [] {
      QuestionsFromSession(pack, session, dimension, at, questions[..|questions| - 1]);
    }
  }

  lemma {:induction false} CriteriaFromSession(pack: Pack, session: string, dimension: string, at: int,
                                               scoreConfidence: Option<string>, criteria: seq<Criterion>)
    ensures AllFromSession(CriterionReports(pack, session, dimension, at, scoreConfidence, criteria), session, at)
  {
    if criteria != [] {
      CriteriaFromSession(pack, session, dimension, at, scoreConfidence, criteria[..|criteria| - 1]);
    }
  }

  lemma PendingFromSession(pack: Pack, session: string, dimension: string, at: int, data: SessionData)
    ensures AllFromSession(PendingReports(pack, session, dimension, at, data), session, at)
  {
    QuestionsFromSession(pack, session, dimension, at, data.questions);
    CriteriaFromSession(pack, session, dimension, at, data.scoreConfidence, data.criteria);
  }

  // ---- patching the evidence table --------------------------------------------------------------

  /** A stored row belongs to a session by its session id and source type alone, whatever its track. */
  predicate OfSession(row: Evidence, session: string)
  {
    row.session == Some(session) && row.key.sourceType == SESSION_SOURCE
  }

  function SessionRows(evidence: map<int, Evidence>, session: string): map<int, Evidence>
  {
    map id | id in evidence && OfSession(evidence[id], session) :: evidence[id]
  }

  /** The pair by which stored rows and reports are matched: the skill without its track, and the source id as given. */
  datatype Slot = Slot(skill: string, sourceId: string)

  function SlotOfRow(row: Evidence): Slot
  {
    Slot(row.key.skill, row.key.sourceId)
  }

  function SlotOfReport(report: Report): Slot
  {
    Slot(report.skill.skill, report.sourceId)
  }

  function RawSlots(pending: seq<Report>): set<Slot>
  {
    set i | 0 <= i < |pending| :: SlotOfReport(pending[i])
  }

  function IdOf(cat: Catalogue, report: Report): int
  {
    cat.evidenceId(EvidenceKeyOf(report))
  }

  function Stale(evidence: map<int, Evidence>, session: string, slots: set<Slot>): set<int>
  {
    set id | id in evidence && OfSession(evidence[id], session) && SlotOfRow(evidence[id]) !in slots
  }

  /** The row a dated report is stored as, which no longer depends on what was stored before. */
  function StoredRow(report: Report): Evidence
    requires report.observedAt.Some?
  {
    Evidence(EvidenceKeyOf(report), report.kind, report.score, report.confidence, report.objective, report.activity,
             report.session, report.thread, report.rationale, report.payload, report.observedAt.value)
  }

  /** The row writes a list of dated reports amounts to, in order. */
  function Writes(cat: Catalogue, pending: seq<Report>): (writes: seq<Write<int, Evidence>>)
    requires forall i :: 0 <= i < |pending| ==> pending[i].observedAt.Some?
    ensures |writes| == |pending|
  {
    seq(|pending|, i requires 0 <= i < |pending| => Write(IdOf(cat, pending[i]), StoredRow(pending[i])))
  }

  /** What remains of the evidence table once the session's unmatched rows are deleted and the reports are written. */
  function Patched(evidence: map<int, Evidence>, session: string, slots: set<Slot>, writes: seq<Write<int, Evidence>>)
    : map<int, Evidence>
  {
    Applied(evidence - Stale(evidence, session, slots), writes)
  }

  // ---- the reference: wholesale replacement -----------------------------------------------------

  /**
   * Replacing a session's evidence outright: none of its old rows, every write with the last one of each id
   * winning, and everything else as it was.
   */
  ghost predicate IsReplacement(before: map<int, Evidence>, session: string, writes: seq<Write<int, Evidence>>,
                                after: map<int, Evidence>)
  {
    && after.Keys == (before.Keys - SessionRows(before, session).Keys) + KeysOf(writes)
    && (forall id, i :: IsLast(writes, id, i) ==> id in after && after[id] == writes[i].value)
    && (forall id :: id in after && id !in KeysOf(writes) ==> after[id] == before[id])
  }

  /** No stored row of the session answers to a report as given while that report is stored under another, cleaned, id. */
  ghost predicate EverySlotIsRewritten(evidence: map<int, Evidence>, session: string, slots: set<Slot>,
                                       writes: seq<Write<int, Evidence>>)
  {
    forall id :: id in evidence && OfSession(evidence[id], session) && SlotOfRow(evidence[id]) in slots
                 ==> id in KeysOf(writes)
  }

  /** Diffing, deleting and upserting amounts to a wholesale replacement exactly when every matched slot is rewritten. */
  lemma PatchIsReplacementExactly(evidence: map<int, Evidence>, session: string, slots: set<Slot>,
                                  writes: seq<Write<int, Evidence>>)
    ensures IsReplacement(evidence, session, writes, Patched(evidence, session, slots, writes))
            <==> EverySlotIsRewritten(evidence, session, slots, writes)
  {
    var kept := evidence - Stale(evidence, session, slots);
    AppliedIsLastWins(kept, writes);
    forall id, i | IsLast(writes, id, i)
      ensures id in KeysOf(writes)
    {
    }
    if EverySlotIsRewritten(evidence, session, slots, writes) {
      forall id
        ensures id in kept.Keys + KeysOf(writes)
                <==> id in (evidence.Keys - SessionRows(evidence, session).Keys) + KeysOf(writes)
      {
        if id in evidence && !OfSession(evidence[id], session) {
          assert id in kept;
        }
      }
    } else {
      var id :| id in evidence && OfSession(evidence[id], session)
                && SlotOfRow(evidence[id]) in slots && id !in KeysOf(writes);
      assert id in kept && id in Patched(evidence, session, slots, writes);
    }
  }

  // ---- when the patch is a replacement ----------------------------------------------------------

  /** Source ids that cleaning leaves as they are. */
  ghost predicate AllClean(pending: seq<Report>)
  {
    forall i :: 0 <= i < |pending| ==> EvidenceKeyOf(pending[i]).sourceId == pending[i].sourceId
  }

  /** The stored rows of the session that a report matches are all on the IELTS track. */
  ghost predicate NoForeignMatches(evidence: map<int, Evidence>, session: string, slots: set<Slot>)
  {
    forall id :: id in evidence && OfSession(evidence[id], session) && SlotOfRow(evidence[id]) in slots
                 ==> evidence[id].key.track == IELTS
  }

  // ---- what the ingestion refuses ---------------------------------------------------------------

  /** The first report that is refused when they are upserted in order, each into what the ones before it left. */
  function FirstRefusal(cat: Catalogue, evidence: map<int, Evidence>, pending: seq<Report>): Option<LearningError>
    requires forall i :: 0 <= i < |pending| ==> pending[i].observedAt.Some?
    decreases |pending|
  {
    if pending == [] then None
    else if RefusalAt(cat, evidence, pending[0]).Some? then RefusalAt(cat, evidence, pending[0])
    else FirstRefusal(cat, evidence[IdOf(cat, pending[0]) := StoredRow(pending[0])], pending[1..])
  }

  /** No report would get the id of other evidence in the table, or of another report. */
  ghost predicate Compatible(cat: Catalogue, evidence: map<int, Evidence>, pending: seq<Report>)
  {
    && (forall i :: 0 <= i < |pending| ==> IdIsFree(cat, evidence, EvidenceKeyOf(pending[i])))
    && (forall i, j :: 0 <= i < |pending| && 0 <= j < |pending| && IdOf(cat, pending[i]) == IdOf(cat, pending[j]) ==>
          EvidenceKeyOf(pending[i]) == EvidenceKeyOf(pending[j]))
  }

  lemma CompatibleRest(cat: Catalogue, evidence: map<int, Evidence>, pending: seq<Report>)
    requires pending != [] && pending[0].observedAt.Some? && Compatible(cat, evidence, pending)
    ensures IdIsFree(cat, evidence, EvidenceKeyOf(pending[0]))
    ensures Compatible(cat, evidence[IdOf(cat, pending[0]) := StoredRow(pending[0])], pending[1..])
  {
    var rest, written := pending[1..], evidence[IdOf(cat, pending[0]) := StoredRow(pending[0])];
    forall i | 0 <= i < |rest|
      ensures IdIsFree(cat, written, EvidenceKeyOf(rest[i]))
    {
      assert rest[i] == pending[i + 1] && IdIsFree(cat, evidence, EvidenceKeyOf(pending[i + 1]));
      assert IdOf(cat, pending[i + 1]) == IdOf(cat, pending[0]) ==> EvidenceKeyOf(pending[i + 1]) == EvidenceKeyOf(pending[0]);
    }
  }

  lemma CompatibleWith(cat: Catalogue, evidence: map<int, Evidence>, first: Report, other: Report)
    requires first.observedAt.Some? && IdIsFree(cat, evidence, EvidenceKeyOf(first))
    requires IdIsFree(cat, evidence[IdOf(cat, first) := StoredRow(first)], EvidenceKeyOf(other))
    ensures IdIsFree(cat, evidence, EvidenceKeyOf(other))
    ensures IdOf(cat, other) == IdOf(cat, first) ==> EvidenceKeyOf(other) == EvidenceKeyOf(first)
  {
  }

  lemma CompatibleAll(cat: Catalogue, evidence: map<int, Evidence>, pending: seq<Report>)
    requires pending != [] && pending[0].observedAt.Some? && IdIsFree(cat, evidence, EvidenceKeyOf(pending[0]))
    requires Compatible(cat, evidence[IdOf(cat, pending[0]) := StoredRow(pending[0])], pending[1..])
    ensures Compatible(cat, evidence, pending)
  {
    var rest := pending[1..];
    forall i | 0 < i < |pending|
      ensures IdIsFree(cat, evidence, EvidenceKeyOf(pending[i]))
      ensures IdOf(cat, pending[i]) == IdOf(cat, pending[0]) ==> EvidenceKeyOf(pending[i]) == EvidenceKeyOf(pending[0])
    {
      assert pending[i] == rest[i - 1];
      CompatibleWith(cat, evidence, pending[0], rest[i - 1]);
    }
    forall i, j | 0 < i < |pending| && 0 < j < |pending| && IdOf(cat, pending[i]) == IdOf(cat, pending[j])
      ensures EvidenceKeyOf(pending[i]) == EvidenceKeyOf(pending[j])
    {
      assert pending[i] == rest[i - 1] && pending[j] == rest[j - 1];
    }
  }

  /** The reports are upserted to the end exactly when none is refused by itself and their ids are compatible. */
  lemma {:induction false} NotRefusedExactly(cat: Catalogue, evidence: map<int, Evidence>, pending: seq<Report>)
    requires forall i :: 0 <= i < |pending| ==> pending[i].observedAt.Some?
    ensures FirstRefusal(cat, evidence, pending).None?
            <==> (forall i :: 0 <= i < |pending| ==> Refusal(cat, pending[i]).None?) && Compatible(cat, evidence, pending)
    decreases |pending|
  {
    if pending != [] {
      var rest := pending[1..];
      var written := evidence[IdOf(cat, pending[0]) := StoredRow(pending[0])];
      if Compatible(cat, evidence, pending) {
        CompatibleRest(cat, evidence, pending);
      } else if IdIsFree(cat, evidence, EvidenceKeyOf(pending[0])) && Compatible(cat, written, rest) {
        CompatibleAll(cat, evidence, pending);
      }
      NotRefusedExactly(cat, written, rest);
      assert (forall i :: 0 <= i < |pending| ==> Refusal(cat, pending[i]).None?)
             <==> Refusal(cat, pending[0]).None? && forall i :: 0 <= i < |rest| ==> Refusal(cat, rest[i]).None? by {
        forall i | 0 < i < |pending|
          ensures pending[i] == rest[i - 1]
        {
        }
      }
    }
  }

  /** The rows that are left when the session's unmatched rows are deleted. */
  function Kept(evidence: map<int, Evidence>, session: string, slots: set<Slot>): map<int, Evidence>
  {
    evidence - Stale(evidence, session, slots)
  }

  ghost predicate Storable(cat: Catalogue, evidence: map<int, Evidence>, session: string, pending: seq<Report>)
  {
    Compatible(cat, Kept(evidence, session, RawSlots(pending)), pending)
  }

  lemma SessionSourceIsClean(report: Report, session: string, at: int)
    requires FromSession(report, session, at)
    ensures EvidenceKeyOf(report).sourceType == SESSION_SOURCE
  {
    SessionSourceStays();
  }

  lemma SessionSourceStays()
    ensures Clean(SESSION_SOURCE, SOURCE_TYPE_LIMIT) == SESSION_SOURCE
  {
    var source := SESSION_SOURCE;
    assert |source| == 13 && source[0] == 'i' && source[12] == 'n';
    AlreadyClean(source, SOURCE_TYPE_LIMIT);
  }

  /** A row of another track that a report matches survives the ingestion, which then is no replacement. */
  lemma ForeignMatchSurvives(cat: Catalogue, st: Store, session: string, at: int, pending: seq<Report>, id: int)
    requires AllFromSession(pending, session, at) && Storable(cat, st.evidence, session, pending)
    requires id in st.evidence && OfSession(st.evidence[id], session) && st.evidence[id].key.track != IELTS
    requires SlotOfRow(st.evidence[id]) in RawSlots(pending)
    ensures var after := Patched(st.evidence, session, RawSlots(pending), Writes(cat, pending));
            id in after && after[id] == st.evidence[id] && !IsReplacement(st.evidence, session, Writes(cat, pending), after)
  {
    var writes := Writes(cat, pending);
    forall i | 0 <= i < |pending|
      ensures writes[i].key != id
    {
      assert FromSession(pending[i], session, at);
      assert IdIsFree(cat, Kept(st.evidence, session, RawSlots(pending)), EvidenceKeyOf(pending[i]));
    }
    AppliedIsLastWins(Kept(st.evidence, session, RawSlots(pending)), writes);
    PatchIsReplacementExactly(st.evidence, session, RawSlots(pending), writes);
  }

  lemma CleanReportsReplace(cat: Catalogue, st: Store, session: string, at: int, pending: seq<Report>)
    requires Rooted(cat, st) && AllFromSession(pending, session, at)
    requires AllClean(pending) && NoForeignMatches(st.evidence, session, RawSlots(pending))
    ensures EverySlotIsRewritten(st.evidence, session, RawSlots(pending), Writes(cat, pending))
    ensures IsReplacement(st.evidence, session, Writes(cat, pending),
                          Patched(st.evidence, session, RawSlots(pending), Writes(cat, pending)))
  {
    var writes := Writes(cat, pending);
    forall id | id in st.evidence && OfSession(st.evidence[id], session) && SlotOfRow(st.evidence[id]) in RawSlots(pending)
      ensures id in KeysOf(writes)
    {
      var i :| 0 <= i < |pending| && SlotOfReport(pending[i]) == SlotOfRow(st.evidence[id]);
      SessionSourceIsClean(pending[i], session, at);
      assert EvidenceKeyOf(pending[i]) == st.evidence[id].key;
      assert writes[i].key == id;
    }
    PatchIsReplacementExactly(st.evidence, session, RawSlots(pending), writes);
  }

  /** Session ids without a colon keep the source ids of two sessions apart. */
  lemma PrefixesDiffer(session: string, other: string, a: string, b: string)
    requires session + ":" <= a && other + ":" <= b
    requires ':' !in session && ':' !in other && session != other
    ensures a != b
  {
    if |session| < |other| {
      assert a[|session|] == ':' && b[|session|] == other[|session|];
    } else if |other| < |session| {
      assert b[|other|] == ':' && a[|other|] == session[|other|];
    } else {
      assert a[..|session|] == session && b[..|session|] == other;
    }
  }

  lemma {:induction false} StripRightKeeps(text: string, prefix: string)
    requires prefix != "" && prefix <= text && !IsSpace(prefix[|prefix| - 1])
    ensures prefix <= StripRight(text)
  {
    if IsSpace(text[|text| - 1]) {
      assert prefix <= text[..|text| - 1];
      StripRightKeeps(text[..|text| - 1], prefix);
    }
  }

  /** Cleaning a source id leaves the prefix of its session, which ends in a colon and starts with no space. */
  lemma CleaningKeepsPrefix(session: string, sourceId: string)
    requires session != "" && !IsSpace(session[0]) && |session| < SOURCE_ID_LIMIT && session + ":" <= sourceId
    ensures session + ":" <= CleanSource(sourceId)
  {
    assert sourceId[0] == session[0] && StripLeft(sourceId) == sourceId;
    StripRightKeeps(sourceId, session + ":");
  }

  lemma OtherRowsStay(cat: Catalogue, st: Store, session: string, other: string, at: int, pending: seq<Report>, id: int)
    requires AllFromSession(pending, session, at) && Storable(cat, st.evidence, session, pending)
    requires session != "" && !IsSpace(session[0]) && |session| < SOURCE_ID_LIMIT
    requires ':' !in session && ':' !in other && session != other
    requires id in st.evidence && st.evidence[id].session == Some(other) && other + ":" <= st.evidence[id].key.sourceId
    ensures var after := Patched(st.evidence, session, RawSlots(pending), Writes(cat, pending));
            id in after && after[id] == st.evidence[id]
  {
    var writes := Writes(cat, pending);
    forall i | 0 <= i < |pending|
      ensures writes[i].key != id
    {
      CleaningKeepsPrefix(session, pending[i].sourceId);
      PrefixesDiffer(session, other, CleanSource(pending[i].sourceId), st.evidence[id].key.sourceId);
      assert IdIsFree(cat, Kept(st.evidence, session, RawSlots(pending)), EvidenceKeyOf(pending[i]));
    }
    AppliedIsLastWins(Kept(st.evidence, session, RawSlots(pending)), writes);
  }

  // ---- the whole ingestion ----------------------------------------------------------------------

  /** What is compared to decide whether the projection changed. */
  datatype Signature = Signature(
    kind: EvidenceKind, score: real, confidence: real, rationale: string, payload: string, observedAt: int)

  function SignatureOf(row: Evidence): Signature
  {
    Signature(row.kind, row.score, row.confidence, if row.rationale.Some? then row.rationale.value else "None",
              row.payload, row.observedAt)
  }

  function ReportSignatures(pending: seq<Report>): seq<Write<Slot, Signature>>
    requires forall i :: 0 <= i < |pending| ==> pending[i].observedAt.Some?
  {
    seq(|pending|, i requires 0 <= i < |pending| => Write(SlotOfReport(pending[i]), SignatureOf(StoredRow(pending[i]))))
  }

  /** Rows are scanned newest first; the order matters only when rows of two tracks share a slot. */
  function RowSignatures(rows: map<int, Evidence>): (r: seq<Write<Slot, Signature>>)
    ensures |r| == |NewestFirst(rows)|
  {
    var ids := NewestFirst(rows);
    seq(|ids|, i requires 0 <= i < |ids| =>
      assert ids[i] in rows; Write(SlotOfRow(rows[ids[i]]), SignatureOf(rows[ids[i]])))
  }

  function ExpectedSignatures(pending: seq<Report>): map<Slot, Signature>
    requires forall i :: 0 <= i < |pending| ==> pending[i].observedAt.Some?
  {
    Applied(map[], ReportSignatures(pending))
  }

  function ExistingSignatures(rows: map<int, Evidence>): map<Slot, Signature>
  {
    Applied(map[], RowSignatures(rows))
  }

  function ProjectionChanged(evidence: map<int, Evidence>, session: string, pending: seq<Report>): bool
    requires forall i :: 0 <= i < |pending| ==> pending[i].observedAt.Some?
  {
    ExistingSignatures(SessionRows(evidence, session)) != ExpectedSignatures(pending)
  }

  /** The skills recalculated at the end: those of the session's old rows, taken as IELTS skills, and those reported. */
  function Affected(evidence: map<int, Evidence>, session: string, pending: seq<Report>): set<SkillRef>
  {
    (set id | id in evidence && OfSession(evidence[id], session) :: SkillRef(IELTS, evidence[id].key.skill))
    + (set i | 0 <= i < |pending| :: pending[i].skill)
  }

  /** Deleting evidence clears the reference of schedules that named it. */
  function Orphaned(reviews: map<ReviewKey, ReviewRow>, deleted: set<int>): map<ReviewKey, ReviewRow>
  {
    map key | key in reviews ::
      if reviews[key].source.Some? && reviews[key].source.value in deleted then reviews[key].(source := None)
      else reviews[key]
  }

  function BareKey(skill: SkillRef): ReviewKey
  {
    ReviewKey(skill, None)
  }

  /** The schedule of an affected skill after a changed projection, or none when no evidence is left. */
  function SkillSchedule(cat: Catalogue, rows: map<int, Evidence>, previous: Option<ReviewRow>, issued: nat,
                         skill: SkillRef, now: int): Option<ReviewRow>
  {
    if rows == map[] then None
    else Some(ScheduleRow(cat, previous, issued, BareKey(skill), NewestFirst(rows)[0], Round6(Estimate(Window(rows))), now))
  }

  /** The bare schedules of some skills replaced, or removed where none is given. */
  function Rescheduled(reviews: map<ReviewKey, ReviewRow>, schedules: map<SkillRef, Option<ReviewRow>>): map<ReviewKey, ReviewRow>
  {
    map key | key in reviews.Keys + (set skill | skill in schedules :: BareKey(skill))
              && !(key.objective.None? && key.skill in schedules && schedules[key.skill].None?) ::
      if key.objective.None? && key.skill in schedules then schedules[key.skill].value else reviews[key]
  }

  function SkillSchedules(cat: Catalogue, evidence: map<int, Evidence>, reviews: map<ReviewKey, ReviewRow>, issued: nat,
                          affected: set<SkillRef>, now: int): map<SkillRef, Option<ReviewRow>>
  {
    map skill | skill in affected ::
      SkillSchedule(cat, RowsOf(evidence, skill), Lookup(reviews, BareKey(skill)), issued, skill, now)
  }

  function FinalReviews(cat: Catalogue, st: Store, affected: set<SkillRef>, now: int): map<ReviewKey, ReviewRow>
  {
    Rescheduled(st.reviews, SkillSchedules(cat, st.evidence, st.reviews, st.issued, affected, now))
  }

  function FreshRows(evidence: map<int, Evidence>, reviews: map<ReviewKey, ReviewRow>, skills: set<SkillRef>): map<SkillRef, MasteryRow>
  {
    map skill | skill in skills :: Projection(RowsOf(evidence, skill), OpenDue(reviews, skill))
  }

  function Finished(cat: Catalogue, st: Store, affected: set<SkillRef>, changed: bool, now: int): Store
  {
    var reviews := if changed then FinalReviews(cat, st, affected, now) else st.reviews;
    Store(st.evidence, st.mastery + FreshRows(st.evidence, reviews, affected), reviews,
          if changed then st.issued + 1 else st.issued)
  }

  /** The session as the ingestion sees it, when it takes any notice of it. */
  datatype Intake = Ignored | Session(id: string, pending: seq<Report>)

  function IntakeOf(pack: Pack, data: SessionData, now: int): (r: Intake)
    ensures r.Session? ==> AllFromSession(r.pending, r.id, if data.occurredAt.Some? then data.occurredAt.value else now)
  {
    var session := StripRight(StripLeft(data.sessionId));
    var dimension := pack.fold(StripRight(StripLeft(data.dimension)));
    var at := if data.occurredAt.Some? then data.occurredAt.value else now;
    if Given(data.track).Some? && data.track.value != IELTS then Ignored
    else if session == "" || dimension !in pack.dimensions then Ignored
    else
      PendingFromSession(pack, session, dimension, at, data);
      Session(session, PendingReports(pack, session, dimension, at, data))
  }

  function PatchedStore(cat: Catalogue, st: Store, session: string, pending: seq<Report>): Store
    requires forall i :: 0 <= i < |pending| ==> pending[i].observedAt.Some?
  {
    var slots := RawSlots(pending);
    st.(evidence := Patched(st.evidence, session, slots, Writes(cat, pending)),
        reviews := Orphaned(st.reviews, Stale(st.evidence, session, slots)))
  }

  /** The outcome, given the patched tables and what the patching found. */
  function Outcome(cat: Catalogue, patched: Store, affected: set<SkillRef>, changed: bool, refusal: Option<LearningError>,
                   now: int)
    : Result<Store, LearningError>
  {
    if refusal.Some? then Err(refusal.value)
    else if !(affected <= cat.skills) then Err(UnknownSkill)
    else Ok(Finished(cat, patched, affected, changed, now))
  }

  function IngestedSession(cat: Catalogue, st: Store, session: string, pending: seq<Report>, now: int): Result<Store, LearningError>
    requires forall i :: 0 <= i < |pending| ==> pending[i].observedAt.Some?
  {
    Outcome(cat, PatchedStore(cat, st, session, pending), Affected(st.evidence, session, pending),
            ProjectionChanged(st.evidence, session, pending), FirstRefusal(cat, Kept(st.evidence, session, RawSlots(pending)), pending), now)
  }

  function Ingested(cat: Catalogue, pack: Pack, st: Store, data: SessionData, now: int): Result<Store, LearningError>
  {
    match IntakeOf(pack, data, now)
    case Ignored => Ok(st)
    case Session(session, pending) => IngestedSession(cat, st, session, pending, now)
  }

  // ---- what ingestion keeps ---------------------------------------------------------------------

  lemma OpenDueOfOthers(reviews: map<ReviewKey, ReviewRow>, after: map<ReviewKey, ReviewRow>, skill: SkillRef)
    requires forall key: ReviewKey :: key.skill == skill ==> (key in after <==> key in reviews)
    requires forall key: ReviewKey :: key.skill == skill && key in reviews && key in after ==>
               reviews[key].Open() == after[key].Open() && reviews[key].dueAt == after[key].dueAt
    ensures OpenDue(after, skill) == OpenDue(reviews, skill)
  {
    forall d
      ensures d in OpenDue(after, skill) <==> d in OpenDue(reviews, skill)
    {
      if d in OpenDue(after, skill) {
        var key :| key in after && key.skill == skill && after[key].Open() && after[key].dueAt == d;
        assert key in reviews && reviews[key].Open();
      }
      if d in OpenDue(reviews, skill) {
        var key :| key in reviews && key.skill == skill && reviews[key].Open() && reviews[key].dueAt == d;
        assert key in after && after[key].Open();
      }
    }
  }

  lemma ReschedulingLeavesOthers(reviews: map<ReviewKey, ReviewRow>, schedules: map<SkillRef, Option<ReviewRow>>, skill: SkillRef)
    requires skill !in schedules
    ensures OpenDue(Rescheduled(reviews, schedules), skill) == OpenDue(reviews, skill)
  {
    OpenDueOfOthers(reviews, Rescheduled(reviews, schedules), skill);
  }

  lemma FinishedKeys(cat: Catalogue, st: Store, affected: set<SkillRef>, changed: bool, now: int)
    ensures Finished(cat, st, affected, changed, now).mastery.Keys == st.mastery.Keys + affected
  {
  }

  lemma FinishedRows(cat: Catalogue, st: Store, affected: set<SkillRef>, changed: bool, now: int, skill: SkillRef)
    requires skill in affected || skill in st.mastery
    ensures var after := Finished(cat, st, affected, changed, now);
            && skill in after.mastery
            && after.mastery[skill] == if skill in affected then Fresh(after, skill) else st.mastery[skill]
  {
  }

  lemma FinishedReviews(cat: Catalogue, st: Store, affected: set<SkillRef>, changed: bool, now: int)
    ensures forall key :: key in Finished(cat, st, affected, changed, now).reviews ==> key in st.reviews || key.skill in affected
  {
  }

  /** Finishing brings the affected skills up to date and leaves the others exactly as they were. */
  lemma FinishedTouchesAffected(cat: Catalogue, st: Store, affected: set<SkillRef>, changed: bool, now: int)
    ensures var after := Finished(cat, st, affected, changed, now);
            && after.evidence == st.evidence
            && after.mastery.Keys == st.mastery.Keys + affected
            && (forall skill :: skill in affected ==> UpToDate(after, skill))
            && (forall skill :: skill !in affected ==> OpenDue(after.reviews, skill) == OpenDue(st.reviews, skill))
            && (forall skill :: skill !in affected && skill in st.mastery ==> after.mastery[skill] == st.mastery[skill])
            && (forall key :: key in after.reviews ==> key in st.reviews || key.skill in affected)
  {
    forall skill | skill !in affected && changed
      ensures OpenDue(FinalReviews(cat, st, affected, now), skill) == OpenDue(st.reviews, skill)
    {
      ReschedulingLeavesOthers(st.reviews, SkillSchedules(cat, st.evidence, st.reviews, st.issued, affected, now), skill);
    }
    FinishedKeys(cat, st, affected, changed, now);
    forall skill | skill in affected || skill in st.mastery
      ensures var after := Finished(cat, st, affected, changed, now);
              skill in after.mastery && after.mastery[skill] == if skill in affected then Fresh(after, skill) else st.mastery[skill]
    {
      FinishedRows(cat, st, affected, changed, now, skill);
    }
    FinishedReviews(cat, st, affected, changed, now);
  }

  lemma WrittenRow(cat: Catalogue, st: Store, session: string, at: int, pending: seq<Report>, id: int)
    requires Rooted(cat, st) && Storable(cat, st.evidence, session, pending) && AllFromSession(pending, session, at)
    requires id in KeysOf(Writes(cat, pending))
    ensures var after := PatchedStore(cat, st, session, pending).evidence;
            && id in after && after[id].Skill() in (set i | 0 <= i < |pending| :: pending[i].skill)
            && after[id].Bounded() && id == cat.evidenceId(after[id].key)
            && (id in Kept(st.evidence, session, RawSlots(pending)) ==> st.evidence[id].key == after[id].key)
  {
    var writes := Writes(cat, pending);
    var i := LastExists(writes, id);
    AppliedIsLastWins(Kept(st.evidence, session, RawSlots(pending)), writes);
    assert FromSession(pending[i], session, at);
    assert IdIsFree(cat, Kept(st.evidence, session, RawSlots(pending)), EvidenceKeyOf(pending[i]));
    assert StoredRow(pending[i]).Skill() == pending[i].skill;
  }

  lemma UnwrittenRow(cat: Catalogue, st: Store, session: string, at: int, pending: seq<Report>, id: int)
    requires AllFromSession(pending, session, at)
    requires id !in KeysOf(Writes(cat, pending))
    ensures var after := PatchedStore(cat, st, session, pending).evidence;
            && (id in after <==> id in st.evidence && id !in Stale(st.evidence, session, RawSlots(pending)))
            && (id in after ==> after[id] == st.evidence[id])
  {
    AppliedIsLastWins(st.evidence - Stale(st.evidence, session, RawSlots(pending)), Writes(cat, pending));
  }

  /** A skill that is not affected and loses no row keeps its rows. */
  lemma UnaffectedRows(cat: Catalogue, st: Store, session: string, at: int, pending: seq<Report>, skill: SkillRef)
    requires Rooted(cat, st) && Storable(cat, st.evidence, session, pending) && AllFromSession(pending, session, at)
    requires skill !in Affected(st.evidence, session, pending)
    requires forall id :: id in Stale(st.evidence, session, RawSlots(pending)) ==> st.evidence[id].Skill() != skill
    ensures RowsOf(PatchedStore(cat, st, session, pending).evidence, skill) == RowsOf(st.evidence, skill)
  {
    var after := PatchedStore(cat, st, session, pending).evidence;
    forall id
      ensures id in RowsOf(after, skill) <==> id in RowsOf(st.evidence, skill)
      ensures id in RowsOf(after, skill) ==> after[id] == st.evidence[id]
    {
      if id in KeysOf(Writes(cat, pending)) {
        WrittenRow(cat, st, session, at, pending, id);
      } else {
        UnwrittenRow(cat, st, session, at, pending, id);
      }
    }
  }

  lemma OrphaningKeepsDates(reviews: map<ReviewKey, ReviewRow>, deleted: set<int>, skill: SkillRef)
    ensures OpenDue(Orphaned(reviews, deleted), skill) == OpenDue(reviews, skill)
  {
    OpenDueOfOthers(reviews, Orphaned(reviews, deleted), skill);
  }

  /** What an ingestion that is not refused comes to. */
  function Settled(cat: Catalogue, st: Store, session: string, pending: seq<Report>, now: int): Store
    requires forall i :: 0 <= i < |pending| ==> pending[i].observedAt.Some?
  {
    Finished(cat, PatchedStore(cat, st, session, pending), Affected(st.evidence, session, pending),
             ProjectionChanged(st.evidence, session, pending), now)
  }

  lemma IngestedIsSettled(cat: Catalogue, st: Store, session: string, pending: seq<Report>, now: int)
    requires forall i :: 0 <= i < |pending| ==> pending[i].observedAt.Some?
    requires IngestedSession(cat, st, session, pending, now).Ok?
    ensures IngestedSession(cat, st, session, pending, now).value == Settled(cat, st, session, pending, now)
    ensures Storable(cat, st.evidence, session, pending)
    ensures forall i :: 0 <= i < |pending| ==> Refusal(cat, pending[i]).None?
    ensures Affected(st.evidence, session, pending) <= cat.skills
  {
    NotRefusedExactly(cat, Kept(st.evidence, session, RawSlots(pending)), pending);
  }

  lemma PatchedEvidenceIsRooted(cat: Catalogue, st: Store, session: string, at: int, pending: seq<Report>, id: int)
    requires Rooted(cat, st) && Storable(cat, st.evidence, session, pending) && AllFromSession(pending, session, at)
    requires id in PatchedStore(cat, st, session, pending).evidence
    ensures var row := PatchedStore(cat, st, session, pending).evidence[id];
            id == cat.evidenceId(row.key) && row.Bounded()
            && row.Skill() in st.mastery.Keys + Affected(st.evidence, session, pending)
  {
    if id in KeysOf(Writes(cat, pending)) {
      WrittenRow(cat, st, session, at, pending, id);
    } else {
      UnwrittenRow(cat, st, session, at, pending, id);
    }
  }

  lemma SettledIsRooted(cat: Catalogue, st: Store, session: string, at: int, pending: seq<Report>, now: int)
    requires Rooted(cat, st) && Storable(cat, st.evidence, session, pending) && AllFromSession(pending, session, at)
    ensures Rooted(cat, Settled(cat, st, session, pending, now))
  {
    var patched, after := PatchedStore(cat, st, session, pending), Settled(cat, st, session, pending, now);
    FinishedTouchesAffected(cat, patched, Affected(st.evidence, session, pending),
                            ProjectionChanged(st.evidence, session, pending), now);
    forall id | id in after.evidence
      ensures id == cat.evidenceId(after.evidence[id].key) && after.evidence[id].Bounded()
      ensures after.evidence[id].Skill() in after.mastery
    {
      PatchedEvidenceIsRooted(cat, st, session, at, pending, id);
    }
  }

  lemma SettledKeepsDate(cat: Catalogue, st: Store, session: string, pending: seq<Report>, now: int, skill: SkillRef)
    requires forall i :: 0 <= i < |pending| ==> pending[i].observedAt.Some?
    requires NextReviewUpToDate(st, skill)
    ensures NextReviewUpToDate(Settled(cat, st, session, pending, now), skill)
  {
    FinishedTouchesAffected(cat, PatchedStore(cat, st, session, pending), Affected(st.evidence, session, pending),
                            ProjectionChanged(st.evidence, session, pending), now);
    OrphaningKeepsDates(st.reviews, Stale(st.evidence, session, RawSlots(pending)), skill);
    if skill in Affected(st.evidence, session, pending) {
      assert UpToDate(Settled(cat, st, session, pending, now), skill);
    }
  }

  lemma SettledKeepsSkill(cat: Catalogue, st: Store, session: string, at: int, pending: seq<Report>, now: int, skill: SkillRef)
    requires Rooted(cat, st) && Storable(cat, st.evidence, session, pending) && AllFromSession(pending, session, at)
    requires UpToDate(st, skill)
    requires skill.track == IELTS
             || forall id :: id in Stale(st.evidence, session, RawSlots(pending)) ==> st.evidence[id].Skill() != skill
    ensures UpToDate(Settled(cat, st, session, pending, now), skill)
  {
    var affected := Affected(st.evidence, session, pending);
    FinishedTouchesAffected(cat, PatchedStore(cat, st, session, pending), affected,
                            ProjectionChanged(st.evidence, session, pending), now);
    if skill !in affected {
      forall id | id in Stale(st.evidence, session, RawSlots(pending))
        ensures st.evidence[id].Skill() != skill
      {
        assert SkillRef(IELTS, st.evidence[id].key.skill) in affected;
      }
      OrphaningKeepsDates(st.reviews, Stale(st.evidence, session, RawSlots(pending)), skill);
      UnaffectedRows(cat, st, session, at, pending, skill);
    }
  }

  /**
   * Ingestion keeps the cached review date of every skill and the projection of every IELTS skill; a skill of
   * another track stays up to date when none of its rows is deleted as a stale row of the session.
   */
  lemma IngestedKeepsProjection(cat: Catalogue, st: Store, session: string, at: int, pending: seq<Report>, now: int)
    requires Rooted(cat, st) && AllFromSession(pending, session, at)
    requires IngestedSession(cat, st, session, pending, now).Ok?
    ensures var after := IngestedSession(cat, st, session, pending, now).value;
            && Rooted(cat, after)
            && (forall skill :: NextReviewUpToDate(st, skill) ==> NextReviewUpToDate(after, skill))
            && (forall skill :: UpToDate(st, skill) && skill.track == IELTS ==> UpToDate(after, skill))
            && (forall skill :: UpToDate(st, skill)
                                && (forall id :: id in Stale(st.evidence, session, RawSlots(pending)) ==> st.evidence[id].Skill() != skill)
                                ==> UpToDate(after, skill))
  {
    IngestedIsSettled(cat, st, session, pending, now);
    SettledIsRooted(cat, st, session, at, pending, now);
    var after := Settled(cat, st, session, pending, now);
    forall skill | NextReviewUpToDate(st, skill)
      ensures NextReviewUpToDate(after, skill)
    {
      SettledKeepsDate(cat, st, session, pending, now, skill);
    }
    forall skill: SkillRef | UpToDate(st, skill)
                   && (skill.track == IELTS
                       || forall id :: id in Stale(st.evidence, session, RawSlots(pending)) ==> st.evidence[id].Skill() != skill)
      ensures UpToDate(after, skill)
    {
      SettledKeepsSkill(cat, st, session, at, pending, now, skill);
    }
  }

  /** Whatever its reports, an ingestion neither deletes nor overwrites the rows another session stored under its own prefix. */
  lemma OtherSessionsAreUntouched(cat: Catalogue, st: Store, session: string, other: string, at: int, pending: seq<Report>,
                                  now: int, id: int)
    requires AllFromSession(pending, session, at)
    requires session != "" && !IsSpace(session[0]) && |session| < SOURCE_ID_LIMIT
    requires ':' !in session && ':' !in other && session != other
    requires id in st.evidence && st.evidence[id].session == Some(other) && other + ":" <= st.evidence[id].key.sourceId
    ensures var r := IngestedSession(cat, st, session, pending, now);
            r.Ok? ==> Lookup(r.value.evidence, id) == Some(st.evidence[id])
  {
    if IngestedSession(cat, st, session, pending, now).Ok? {
      IngestedIsSettled(cat, st, session, pending, now);
      OtherRowsStay(cat, st, session, other, at, pending, id);
      assert Settled(cat, st, session, pending, now).evidence
             == Patched(st.evidence, session, RawSlots(pending), Writes(cat, pending));
    }
  }

  /** The rows a skill of another track has left after it lost one. */
  lemma ForeignRowsLost(cat: Catalogue, st: Store, session: string, at: int, pending: seq<Report>, lost: int)
    requires Rooted(cat, st) && Storable(cat, st.evidence, session, pending) && AllFromSession(pending, session, at)
    requires lost in Stale(st.evidence, session, RawSlots(pending)) && st.evidence[lost].key.track != IELTS
    ensures |RowsOf(PatchedStore(cat, st, session, pending).evidence, st.evidence[lost].Skill())|
            < |RowsOf(st.evidence, st.evidence[lost].Skill())|
  {
    var skill := st.evidence[lost].Skill();
    var before, after := RowsOf(st.evidence, skill), RowsOf(PatchedStore(cat, st, session, pending).evidence, skill);
    forall id | id in after
      ensures id in before && id != lost
    {
      if id in KeysOf(Writes(cat, pending)) {
        WrittenRow(cat, st, session, at, pending, id);
      } else {
        UnwrittenRow(cat, st, session, at, pending, id);
      }
    }
    CardinalityBound(after.Keys, before.Keys - {lost});
  }

  lemma CardinalityBound<X>(a: set<X>, b: set<X>)
    requires a <= b
    ensures |a| <= |b|
  {
    assert b == a + (b - a);
  }

  lemma ForeignSkillIsNotAffected(evidence: map<int, Evidence>, session: string, at: int, pending: seq<Report>, skill: SkillRef)
    requires AllFromSession(pending, session, at) && skill.track != IELTS
    ensures skill !in Affected(evidence, session, pending)
  {
    forall i | 0 <= i < |pending|
      ensures pending[i].skill != skill
    {
      assert FromSession(pending[i], session, at);
    }
  }

  /**
   * Where ingestion goes wrong: a skill of another track that loses a row it shares with the session keeps its
   * old mastery row, which is then no longer its projection whenever the window showed all its rows.
   */
  lemma ForeignRowsGoStale(cat: Catalogue, st: Store, session: string, at: int, pending: seq<Report>, now: int, lost: int)
    requires Rooted(cat, st) && AllFromSession(pending, session, at)
    requires IngestedSession(cat, st, session, pending, now).Ok?
    requires lost in Stale(st.evidence, session, RawSlots(pending)) && st.evidence[lost].key.track != IELTS
    requires UpToDate(st, st.evidence[lost].Skill())
    requires |RowsOf(st.evidence, st.evidence[lost].Skill())| <= WINDOW
    ensures !UpToDate(IngestedSession(cat, st, session, pending, now).value, st.evidence[lost].Skill())
  {
    IngestedIsSettled(cat, st, session, pending, now);
    SettledGoesStale(cat, st, session, at, pending, now, lost);
  }

  lemma SettledGoesStale(cat: Catalogue, st: Store, session: string, at: int, pending: seq<Report>, now: int, lost: int)
    requires Rooted(cat, st) && Storable(cat, st.evidence, session, pending) && AllFromSession(pending, session, at)
    requires lost in Stale(st.evidence, session, RawSlots(pending)) && st.evidence[lost].key.track != IELTS
    requires UpToDate(st, st.evidence[lost].Skill())
    requires |RowsOf(st.evidence, st.evidence[lost].Skill())| <= WINDOW
    ensures !UpToDate(Settled(cat, st, session, pending, now), st.evidence[lost].Skill())
  {
    var skill := st.evidence[lost].Skill();
    ForeignSkillIsNotAffected(st.evidence, session, at, pending, skill);
    FinishedTouchesAffected(cat, PatchedStore(cat, st, session, pending), Affected(st.evidence, session, pending),
                            ProjectionChanged(st.evidence, session, pending), now);
    ForeignRowsLost(cat, st, session, at, pending, lost);
    FewerRowsGoStale(st, Settled(cat, st, session, pending, now), skill);
  }

  lemma FewerRowsGoStale(before: Store, after: Store, skill: SkillRef)
    requires skill in before.mastery && skill in after.mastery && after.mastery[skill] == before.mastery[skill]
    requires UpToDate(before, skill) && |RowsOf(before.evidence, skill)| <= WINDOW
    requires |RowsOf(after.evidence, skill)| < |RowsOf(before.evidence, skill)|
    ensures !UpToDate(after, skill)
  {
    assert Fresh(before, skill).evidenceCount == |RowsOf(before.evidence, skill)|;
    assert Fresh(after, skill).evidenceCount == |RowsOf(after.evidence, skill)|;
  }

  /**
   * Where the skills of another track that lose a row have all their evidence in the window, ingestion keeps a
   * consistent store consistent exactly when there are none: no row it deletes belongs to another track.
   */
  lemma IngestedIsConsistentExactly(cat: Catalogue, st: Store, session: string, at: int, pending: seq<Report>, now: int)
    requires Consistent(cat, st) && AllFromSession(pending, session, at)
    requires IngestedSession(cat, st, session, pending, now).Ok?
    requires forall id :: id in Stale(st.evidence, session, RawSlots(pending)) && st.evidence[id].key.track != IELTS ==>
               |RowsOf(st.evidence, st.evidence[id].Skill())| <= WINDOW
    ensures Consistent(cat, IngestedSession(cat, st, session, pending, now).value)
            <==> forall id :: id in Stale(st.evidence, session, RawSlots(pending)) ==> st.evidence[id].key.track == IELTS
  {
    var after := IngestedSession(cat, st, session, pending, now).value;
    IngestedKeepsProjection(cat, st, session, at, pending, now);
    if lost: int :| lost in Stale(st.evidence, session, RawSlots(pending)) && st.evidence[lost].key.track != IELTS {
      ForeignRowsGoStale(cat, st, session, at, pending, now, lost);
    } else {
      forall skill
        ensures UpToDate(after, skill)
      {
        assert UpToDate(st, skill);
        forall id | id in Stale(st.evidence, session, RawSlots(pending)) && skill.track != IELTS
          ensures st.evidence[id].Skill() != skill
        {
        }
      }
    }
  }

  // ---- ingesting the same data again ------------------------------------------------------------

  lemma CleanSlot(report: Report, session: string, at: int)
    requires FromSession(report, session, at) && EvidenceKeyOf(report).sourceId == report.sourceId
    ensures EvidenceKeyOf(report) == EvidenceKey(IELTS, report.skill.skill, SESSION_SOURCE, report.sourceId)
    ensures SlotOfRow(StoredRow(report)) == SlotOfReport(report)
  {
    SessionSourceIsClean(report, session, at);
  }

  /** After a clean ingestion the session's rows are exactly the last writes of its reports. */
  lemma SessionRowAfter(cat: Catalogue, st: Store, session: string, at: int, pending: seq<Report>, id: int) returns (i: int)
    requires Rooted(cat, st) && Storable(cat, st.evidence, session, pending) && AllFromSession(pending, session, at)
    requires AllClean(pending) && NoForeignMatches(st.evidence, session, RawSlots(pending))
    requires var after := PatchedStore(cat, st, session, pending).evidence;
             id in after && OfSession(after[id], session)
    ensures IsLast(Writes(cat, pending), id, i)
    ensures PatchedStore(cat, st, session, pending).evidence[id] == StoredRow(pending[i])
    ensures SlotOfRow(StoredRow(pending[i])) == SlotOfReport(pending[i])
  {
    CleanReportsReplace(cat, st, session, at, pending);
    if id !in KeysOf(Writes(cat, pending)) {
      UnwrittenRow(cat, st, session, at, pending, id);
    }
    i := LastExists(Writes(cat, pending), id);
    AppliedIsLastWins(st.evidence - Stale(st.evidence, session, RawSlots(pending)), Writes(cat, pending));
    CleanSlot(pending[i], session, at);
  }

  /** The last report for a slot is also the last write of its id. */
  lemma LastOfSlot(cat: Catalogue, evidence: map<int, Evidence>, session: string, at: int, pending: seq<Report>, i: int)
    requires Compatible(cat, evidence, pending) && AllFromSession(pending, session, at) && AllClean(pending)
    requires 0 <= i < |pending|
    requires forall j :: i < j < |pending| ==> SlotOfReport(pending[j]) != SlotOfReport(pending[i])
    ensures IsLast(Writes(cat, pending), IdOf(cat, pending[i]), i)
  {
    CleanSlot(pending[i], session, at);
    forall j | i < j < |pending|
      ensures IdOf(cat, pending[j]) != IdOf(cat, pending[i])
    {
      CleanSlot(pending[j], session, at);
      assert EvidenceKeyOf(pending[j]) != EvidenceKeyOf(pending[i]);
    }
  }

  lemma RowSignature(rows: map<int, Evidence>, k: int)
    requires 0 <= k < |NewestFirst(rows)|
    ensures NewestFirst(rows)[k] in rows
    ensures RowSignatures(rows)[k] == Write(SlotOfRow(rows[NewestFirst(rows)[k]]), SignatureOf(rows[NewestFirst(rows)[k]]))
  {
  }

  /** The row whose signature is stored for a slot, and the last report for it. */
  lemma StoredSlot(cat: Catalogue, st: Store, session: string, at: int, pending: seq<Report>, slot: Slot) returns (i: int)
    requires Rooted(cat, st) && Storable(cat, st.evidence, session, pending) && AllFromSession(pending, session, at)
    requires AllClean(pending) && NoForeignMatches(st.evidence, session, RawSlots(pending))
    requires slot in ExistingSignatures(SessionRows(PatchedStore(cat, st, session, pending).evidence, session))
    ensures 0 <= i < |pending| && SlotOfReport(pending[i]) == slot
    ensures forall j :: i < j < |pending| ==> SlotOfReport(pending[j]) != slot
    ensures ExistingSignatures(SessionRows(PatchedStore(cat, st, session, pending).evidence, session))[slot]
            == SignatureOf(StoredRow(pending[i]))
  {
    var rows := SessionRows(PatchedStore(cat, st, session, pending).evidence, session);
    var existing := RowSignatures(rows);
    AppliedIsLastWins(map[], existing);
    var k := LastExists(existing, slot);
    RowSignature(rows, k);
    var id := NewestFirst(rows)[k];
    i := SessionRowAfter(cat, st, session, at, pending, id);
    SlotOfLastWrite(cat, session, at, pending, id, i);
  }

  /** The signature stored for a slot is that of the last report for it. */
  lemma StoredSignature(cat: Catalogue, st: Store, session: string, at: int, pending: seq<Report>, slot: Slot)
    requires Rooted(cat, st) && Storable(cat, st.evidence, session, pending) && AllFromSession(pending, session, at)
    requires AllClean(pending) && NoForeignMatches(st.evidence, session, RawSlots(pending))
    requires slot in ExistingSignatures(SessionRows(PatchedStore(cat, st, session, pending).evidence, session))
    ensures slot in ExpectedSignatures(pending)
    ensures ExistingSignatures(SessionRows(PatchedStore(cat, st, session, pending).evidence, session))[slot]
            == ExpectedSignatures(pending)[slot]
  {
    var i := StoredSlot(cat, st, session, at, pending, slot);
    ExpectedOfLast(pending, slot, i);
  }

  lemma ExpectedOfLast(pending: seq<Report>, slot: Slot, i: int)
    requires forall j :: 0 <= j < |pending| ==> pending[j].observedAt.Some?
    requires 0 <= i < |pending| && SlotOfReport(pending[i]) == slot
    requires forall j :: i < j < |pending| ==> SlotOfReport(pending[j]) != slot
    ensures slot in ExpectedSignatures(pending) && ExpectedSignatures(pending)[slot] == SignatureOf(StoredRow(pending[i]))
  {
    var expected := ReportSignatures(pending);
    AppliedIsLastWins(map[], expected);
    assert IsLast(expected, slot, i);
    assert expected[i].key in KeysOf(expected);
  }

  /** The last write of an id is the last report for its slot. */
  lemma SlotOfLastWrite(cat: Catalogue, session: string, at: int, pending: seq<Report>, id: int, i: int)
    requires AllFromSession(pending, session, at) && AllClean(pending)
    requires IsLast(Writes(cat, pending), id, i)
    ensures forall j :: i < j < |pending| ==> SlotOfReport(pending[j]) != SlotOfReport(pending[i])
  {
    CleanSlot(pending[i], session, at);
    forall j | i < j < |pending|
      ensures SlotOfReport(pending[j]) != SlotOfReport(pending[i])
    {
      CleanSlot(pending[j], session, at);
      assert Writes(cat, pending)[j].key != id;
    }
  }

  lemma SignatureOfStoredRow(rows: map<int, Evidence>, id: int)
    requires id in rows
    ensures SlotOfRow(rows[id]) in ExistingSignatures(rows)
  {
    assert id in NewestFirst(rows);
    var k :| 0 <= k < |NewestFirst(rows)| && NewestFirst(rows)[k] == id;
    RowSignature(rows, k);
    AppliedIsLastWins(map[], RowSignatures(rows));
    assert RowSignatures(rows)[k].key in KeysOf(RowSignatures(rows));
  }

  lemma ReportIsStored(cat: Catalogue, st: Store, session: string, at: int, pending: seq<Report>, i: int)
    requires AllFromSession(pending, session, at) && AllClean(pending)
    requires 0 <= i < |pending| && IsLast(Writes(cat, pending), IdOf(cat, pending[i]), i)
    ensures var rows := SessionRows(PatchedStore(cat, st, session, pending).evidence, session);
            var id := IdOf(cat, pending[i]);
            id in rows && SlotOfRow(rows[id]) == SlotOfReport(pending[i])
  {
    CleanSlot(pending[i], session, at);
    AppliedIsLastWins(st.evidence - Stale(st.evidence, session, RawSlots(pending)), Writes(cat, pending));
    assert IdOf(cat, pending[i]) in KeysOf(Writes(cat, pending));
  }

  lemma LastReport(pending: seq<Report>, slot: Slot) returns (i: int)
    requires forall i :: 0 <= i < |pending| ==> pending[i].observedAt.Some?
    requires slot in ExpectedSignatures(pending)
    ensures 0 <= i < |pending| && SlotOfReport(pending[i]) == slot
    ensures forall j :: i < j < |pending| ==> SlotOfReport(pending[j]) != slot
  {
    AppliedIsLastWins(map[], ReportSignatures(pending));
    i := LastExists(ReportSignatures(pending), slot);
    forall j | i < j < |pending|
      ensures SlotOfReport(pending[j]) != slot
    {
      assert ReportSignatures(pending)[j].key == SlotOfReport(pending[j]);
    }
  }

  lemma AgainSameRows(cat: Catalogue, st: Store, session: string, at: int, pending: seq<Report>)
    requires Rooted(cat, st) && Storable(cat, st.evidence, session, pending) && AllFromSession(pending, session, at)
    requires AllClean(pending) && NoForeignMatches(st.evidence, session, RawSlots(pending))
    ensures var after := PatchedStore(cat, st, session, pending).evidence;
            && Stale(after, session, RawSlots(pending)) == {}
            && Affected(after, session, pending) == (set i | 0 <= i < |pending| :: pending[i].skill)
  {
    var after := PatchedStore(cat, st, session, pending).evidence;
    forall id | id in after && OfSession(after[id], session)
      ensures SlotOfRow(after[id]) in RawSlots(pending)
      ensures SkillRef(IELTS, after[id].key.skill) in (set i | 0 <= i < |pending| :: pending[i].skill)
    {
      var i := SessionRowAfter(cat, st, session, at, pending, id);
      assert FromSession(pending[i], session, at);
    }
  }

  lemma AgainSameSignatures(cat: Catalogue, st: Store, session: string, at: int, pending: seq<Report>)
    requires Rooted(cat, st) && Storable(cat, st.evidence, session, pending) && AllFromSession(pending, session, at)
    requires AllClean(pending) && NoForeignMatches(st.evidence, session, RawSlots(pending))
    ensures !ProjectionChanged(PatchedStore(cat, st, session, pending).evidence, session, pending)
  {
    var existing := ExistingSignatures(SessionRows(PatchedStore(cat, st, session, pending).evidence, session));
    var expected := ExpectedSignatures(pending);
    forall slot
      ensures slot in existing <==> slot in expected
      ensures slot in existing ==> existing[slot] == expected[slot]
    {
      if slot in existing {
        StoredSignature(cat, st, session, at, pending, slot);
      } else if slot in expected {
        ExpectedIsStored(cat, st, session, at, pending, slot);
      }
    }
    assert existing == expected;
  }

  lemma ExpectedIsStored(cat: Catalogue, st: Store, session: string, at: int, pending: seq<Report>, slot: Slot)
    requires Storable(cat, st.evidence, session, pending) && AllFromSession(pending, session, at) && AllClean(pending)
    requires slot in ExpectedSignatures(pending)
    ensures slot in ExistingSignatures(SessionRows(PatchedStore(cat, st, session, pending).evidence, session))
  {
    var i := LastReport(pending, slot);
    LastOfSlot(cat, Kept(st.evidence, session, RawSlots(pending)), session, at, pending, i);
    ReportIsStored(cat, st, session, at, pending, i);
    SignatureOfStoredRow(SessionRows(PatchedStore(cat, st, session, pending).evidence, session), IdOf(cat, pending[i]));
  }

  lemma AgainSameEvidence(cat: Catalogue, st: Store, session: string, at: int, pending: seq<Report>)
    requires Rooted(cat, st) && Storable(cat, st.evidence, session, pending) && AllFromSession(pending, session, at)
    requires AllClean(pending) && NoForeignMatches(st.evidence, session, RawSlots(pending))
    ensures var after := PatchedStore(cat, st, session, pending).evidence;
            Patched(after, session, RawSlots(pending), Writes(cat, pending)) == after
  {
    var after := PatchedStore(cat, st, session, pending).evidence;
    AgainSameRows(cat, st, session, at, pending);
    RewritingChangesNothing(st.evidence - Stale(st.evidence, session, RawSlots(pending)), Writes(cat, pending));
    assert after - Stale(after, session, RawSlots(pending)) == after;
  }

  lemma RewritingChangesNothing<K, V>(table: map<K, V>, writes: seq<Write<K, V>>)
    ensures Applied(Applied(table, writes), writes) == Applied(table, writes)
  {
    var once := Applied(table, writes);
    AppliedIsLastWins(table, writes);
    AppliedIsLastWins(once, writes);
    forall key | key in Applied(once, writes)
      ensures key in once && Applied(once, writes)[key] == once[key]
    {
      if key in KeysOf(writes) {
        var i := LastExists(writes, key);
      }
    }
    assert Applied(once, writes).Keys == once.Keys;
  }

  /** The reports of an ingestion are compatible with what it leaves. */
  lemma AgainStorable(cat: Catalogue, st: Store, session: string, at: int, pending: seq<Report>)
    requires Storable(cat, st.evidence, session, pending) && AllFromSession(pending, session, at)
    ensures Compatible(cat, PatchedStore(cat, st, session, pending).evidence, pending)
  {
    var kept, writes := Kept(st.evidence, session, RawSlots(pending)), Writes(cat, pending);
    AppliedIsLastWins(kept, writes);
    forall i | 0 <= i < |pending|
      ensures IdIsFree(cat, Applied(kept, writes), EvidenceKeyOf(pending[i]))
    {
      var id := IdOf(cat, pending[i]);
      assert writes[i].key == id && id in KeysOf(writes);
      var last := LastExists(writes, id);
      assert IdOf(cat, pending[last]) == id;
    }
  }

  /** Nothing stale, nothing changed and every affected skill fresh: settling such a store once more leaves it as it is. */
  lemma SettledAgain(cat: Catalogue, st: Store, session: string, pending: seq<Report>, now: int)
    requires forall i :: 0 <= i < |pending| ==> pending[i].observedAt.Some?
    requires Stale(st.evidence, session, RawSlots(pending)) == {} && !ProjectionChanged(st.evidence, session, pending)
    requires Patched(st.evidence, session, RawSlots(pending), Writes(cat, pending)) == st.evidence
    requires Affected(st.evidence, session, pending) <= st.mastery.Keys
    requires forall skill :: skill in Affected(st.evidence, session, pending) ==> UpToDate(st, skill)
    ensures Settled(cat, st, session, pending, now) == st
  {
    OrphaningNothing(st.reviews);
    assert PatchedStore(cat, st, session, pending) == st;
    FinishingUpToDate(cat, st, Affected(st.evidence, session, pending), now);
  }

  lemma NotRefused(cat: Catalogue, st: Store, session: string, pending: seq<Report>, now: int)
    requires forall i :: 0 <= i < |pending| ==> pending[i].observedAt.Some? && Refusal(cat, pending[i]).None?
    requires Storable(cat, st.evidence, session, pending) && Affected(st.evidence, session, pending) <= cat.skills
    ensures IngestedSession(cat, st, session, pending, now) == Ok(Settled(cat, st, session, pending, now))
  {
    NotRefusedExactly(cat, Kept(st.evidence, session, RawSlots(pending)), pending);
  }

  /** A second ingestion of the same dated reports with clean ids returns the very same store. */
  lemma SecondIngestionChangesNothing(cat: Catalogue, st: Store, session: string, at: int, pending: seq<Report>,
                                      now: int, later: int)
    requires Rooted(cat, st) && AllFromSession(pending, session, at)
    requires AllClean(pending) && NoForeignMatches(st.evidence, session, RawSlots(pending))
    requires IngestedSession(cat, st, session, pending, now).Ok?
    ensures var after := IngestedSession(cat, st, session, pending, now).value;
            IngestedSession(cat, after, session, pending, later) == Ok(after)
  {
    IngestedIsSettled(cat, st, session, pending, now);
    SettlesOnce(cat, st, session, at, pending, now, later);
    NotRefused(cat, Settled(cat, st, session, pending, now), session, pending, later);
  }

  lemma SettlesOnce(cat: Catalogue, st: Store, session: string, at: int, pending: seq<Report>, now: int, later: int)
    requires Rooted(cat, st) && Storable(cat, st.evidence, session, pending) && AllFromSession(pending, session, at)
    requires AllClean(pending) && NoForeignMatches(st.evidence, session, RawSlots(pending))
    ensures var after := Settled(cat, st, session, pending, now);
            && Settled(cat, after, session, pending, later) == after
            && Storable(cat, after.evidence, session, pending)
            && Affected(after.evidence, session, pending) <= Affected(st.evidence, session, pending)
  {
    var after := Settled(cat, st, session, pending, now);
    FinishedTouchesAffected(cat, PatchedStore(cat, st, session, pending), Affected(st.evidence, session, pending),
                            ProjectionChanged(st.evidence, session, pending), now);
    AgainSameRows(cat, st, session, at, pending);
    AgainSameSignatures(cat, st, session, at, pending);
    AgainSameEvidence(cat, st, session, at, pending);
    AgainStorable(cat, st, session, at, pending);
    NothingStaleKeepsAll(after.evidence, session, RawSlots(pending));
    SettledAgain(cat, after, session, pending, later);
  }

  lemma NothingStaleKeepsAll(evidence: map<int, Evidence>, session: string, slots: set<Slot>)
    requires Stale(evidence, session, slots) == {}
    ensures Kept(evidence, session, slots) == evidence
  {
  }

  lemma OrphaningNothing(reviews: map<ReviewKey, ReviewRow>)
    ensures Orphaned(reviews, {}) == reviews
  {
  }

  lemma FinishingUpToDate(cat: Catalogue, st: Store, skills: set<SkillRef>, now: int)
    requires skills <= st.mastery.Keys && forall skill :: skill in skills ==> UpToDate(st, skill)
    ensures Finished(cat, st, skills, false, now) == st
  {
    var final := Finished(cat, st, skills, false, now);
    assert final.mastery == st.mastery;
  }

  /** The same for whole session data with a fixed time of occurrence. */
  lemma SameDataAgain(cat: Catalogue, pack: Pack, st: Store, data: SessionData, now: int, later: int)
    requires Rooted(cat, st) && data.occurredAt.Some?
    requires Ingested(cat, pack, st, data, now).Ok?
    requires var intake := IntakeOf(pack, data, now);
             intake.Session? ==>
               AllClean(intake.pending) && NoForeignMatches(st.evidence, intake.id, RawSlots(intake.pending))
    ensures var after := Ingested(cat, pack, st, data, now).value;
            Ingested(cat, pack, after, data, later) == Ok(after)
  {
    assert IntakeOf(pack, data, later) == IntakeOf(pack, data, now);
    var intake := IntakeOf(pack, data, now);
    if intake.Session? {
      SecondIngestionChangesNothing(cat, st, intake.id, data.occurredAt.value, intake.pending, now, later);
    }
  }
}
