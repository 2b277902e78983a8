/** The learner model as an object whose tables the operations update in place, and what holds over any run of them. */
module LearningStore {
  import opened Wrappers
  import opened Rounding
  import opened Mastery
  import opened Collections
  import opened Text
  import opened LearningModel
  import opened SessionIngest
  import opened Upserts

  /** The weighted mean and the coverage of a window, accumulated item by item. */
  method EstimateOf(rows: seq<Evidence>) returns (estimate: real, confidence: real)
    ensures estimate == Estimate(rows) && confidence == Confidence(rows)
  {
    var weightedTotal, weightTotal := 0.0, 0.0;
    for index := 0 to |rows|
      invariant weightTotal == Sum(Weights(rows), index)
      invariant weightedTotal == WeightedSum(Scores(rows), Weights(rows), index)
    {
      var weight := Weight(rows[index], index);
      assert Weights(rows)[index] == weight && Scores(rows)[index] == rows[index].score;
      weightedTotal := weightedTotal + rows[index].score * weight;
      weightTotal := weightTotal + weight;
    }
    estimate := if weightTotal != 0.0 then weightedTotal / weightTotal else 0.0;
    confidence := Min(1.0, weightTotal / 4.0);
  }

  class LearnerTables {
    const cat: Catalogue
    var evidence: map<int, Evidence>
    var mastery: map<SkillRef, MasteryRow>
    var reviews: map<ReviewKey, ReviewRow>
    var issued: nat

    /** The tables as one value. */
    function State(): Store
      reads this
    {
      Store(evidence, mastery, reviews, issued)
    }

    constructor (cat: Catalogue)
      ensures this.cat == cat && State() == Store(map[], map[], map[], 0)
    {
      this.cat := cat;
      evidence, mastery, reviews, issued := map[], map[], map[], 0;
    }

    method Recalculate(skill: SkillRef)
      modifies this`mastery
      ensures mastery == old(mastery)[skill := Projection(RowsOf(evidence, skill), OpenDue(reviews, skill))]
    {
      var rows := Window(RowsOf(evidence, skill));
      var estimate, confidence := EstimateOf(rows);
      var status :=
        if rows == [] then Unknown
        else if estimate < 0.4 then NeedsSupport
        else if estimate < 0.7 then Developing
        else if estimate < 0.85 then Secure
        else Strong;
      mastery := mastery[skill := MasteryRow(
        Round6(estimate), Round6(confidence), |rows|, status,
        if rows == [] then None else Some(rows[0].observedAt), Earliest(OpenDue(reviews, skill)))];
    }

    method RefreshNextReview(skill: SkillRef)
      modifies this`mastery
      ensures mastery == RefreshedRows(old(mastery), reviews, skill)
    {
      if skill in mastery {
        mastery := mastery[skill := mastery[skill].(nextReviewAt := Earliest(OpenDue(reviews, skill)))];
      }
    }

    method ScheduleReview(key: ReviewKey, evidenceId: int, score: real, now: int)
      modifies this`mastery, this`reviews, this`issued
      ensures State() == Scheduled(cat, old(State()), key, evidenceId, score, now)
    {
      reviews := reviews[key := ScheduleRow(cat, Lookup(reviews, key), issued, key, evidenceId, score, now)];
      issued := issued + 1;
      RefreshNextReview(key.skill);
    }

    method Upsert(row: Evidence)
      modifies this`evidence, this`mastery
      ensures evidence == old(evidence)[cat.evidenceId(row.key) := row]
      ensures mastery == old(mastery)[row.Skill() := Projection(RowsOf(evidence, row.Skill()), OpenDue(reviews, row.Skill()))]
    {
      evidence := evidence[cat.evidenceId(row.key) := row];
      Recalculate(row.Skill());
    }

    method Record(report: Report, schedule: bool, now: int) returns (r: Result<(), LearningError>)
      modifies this
      ensures Recorded(cat, old(State()), report, schedule, now).Ok? ==>
                r.Ok? && State() == Recorded(cat, old(State()), report, schedule, now).value
      ensures Recorded(cat, old(State()), report, schedule, now).Err? ==>
                r == Err(Recorded(cat, old(State()), report, schedule, now).error) && State() == old(State())
    {
      var refusal := RefusalAt(cat, evidence, report);
      if refusal.Some? {
        return Err(refusal.value);
      }
      var row := RowFor(cat, evidence, report, now);
      var id := cat.evidenceId(row.key);
      var changed := id !in evidence || evidence[id] != row;
      Upsert(row);
      if schedule && changed {
        ScheduleReview(KeyOf(report.skill, report.objective), id, mastery[report.skill].estimate, now);
      }
      return Ok(());
    }

    method CompleteReview(key: ReviewKey, score: real, confidence: real, rationale: Option<string>,
                          continueReview: bool, now: int)
      returns (r: Result<(), LearningError>)
      modifies this
      ensures var spec := ReviewCompleted(cat, old(State()), key, score, confidence, rationale, continueReview, now);
              if spec.Ok? then r.Ok? && State() == spec.value else r == Err(spec.error) && State() == old(State())
    {
      if key !in reviews {
        return Err(UnknownReview);
      }
      var review := reviews[key];
      if review.status == Dismissed {
        return Err(ReviewDismissed);
      }
      var report := ReviewReport(key, review, score, confidence, rationale);
      r := Record(report, false, now);
      if r.Err? {
        return;
      }
      CloseReview(key, review, cat.evidenceId(EvidenceKeyOf(report)), continueReview, now);
    }

    method CloseReview(key: ReviewKey, review: ReviewRow, evidenceId: int, continueReview: bool, now: int)
      requires key.skill in mastery
      modifies this`reviews, this`mastery
      ensures var row := ReviewedRow(review, old(mastery)[key.skill].estimate, evidenceId, continueReview, now);
              State() == Refreshed(old(State()).(reviews := old(reviews)[key := row]), key.skill)
    {
      reviews := reviews[key := ReviewedRow(review, mastery[key.skill].estimate, evidenceId, continueReview, now)];
      RefreshNextReview(key.skill);
    }

    method UpdateReviewStatus(key: ReviewKey, status: ReviewStatus) returns (r: Result<(), LearningError>)
      modifies this
      ensures var spec := StatusUpdated(old(State()), key, status);
              if spec.Ok? then r.Ok? && State() == spec.value else r == Err(spec.error) && State() == old(State())
    {
      if status == Completed {
        return Err(UnsupportedStatus);
      }
      if key !in reviews {
        return Err(UnknownReview);
      }
      reviews := reviews[key := reviews[key].(status := status)];
      RefreshNextReview(key.skill);
      return Ok(());
    }

    /** Deletes the session's rows that no report answers to. */
    method DeleteStale(session: string, slots: set<Slot>)
      modifies this`evidence, this`reviews
      ensures evidence == Kept(old(evidence), session, slots)
      ensures reviews == Orphaned(old(reviews), Stale(old(evidence), session, slots))
    {
      var rows := SessionRows(evidence, session);
      var ids := NewestFirst(rows);
      ghost var stale, gone := Stale(evidence, session, slots), {};
      OrphaningNothing(reviews);
      for i := 0 to |ids|
        invariant gone <= stale && forall k :: 0 <= k < i && ids[k] in stale ==> ids[k] in gone
        invariant evidence == old(evidence) - gone
        invariant reviews == Orphaned(old(reviews), gone)
      {
        assert ids[i] in rows;
        if SlotOfRow(rows[ids[i]]) !in slots {
          OrphaningMore(old(reviews), gone, {ids[i]});
          evidence := evidence - {ids[i]};
          reviews := Orphaned(reviews, {ids[i]});
          gone := gone + {ids[i]};
        }
      }
      forall id | id in stale
        ensures id in gone
      {
        assert id in ids;
      }
      assert gone == stale;
    }

    /** Upserts the reports in order, stopping at the first that is refused. */
    method UpsertAll(pending: seq<Report>, now: int) returns (r: Result<(), LearningError>)
      requires forall i :: 0 <= i < |pending| ==> pending[i].observedAt.Some?
      modifies this
      ensures var refusal := FirstRefusal(cat, old(evidence), pending);
              if refusal.Some? then r == Err(refusal.value) else r.Ok?
      ensures r.Ok? ==> evidence == Applied(old(evidence), Writes(cat, pending))
      ensures reviews == old(reviews) && issued == old(issued)
      ensures old(mastery).Keys <= mastery.Keys <= old(mastery).Keys + (set i | 0 <= i < |pending| :: pending[i].skill)
      ensures forall skill :: skill in old(mastery) && (forall i :: 0 <= i < |pending| ==> pending[i].skill != skill)
                ==> mastery[skill] == old(mastery)[skill]
    {
      for i := 0 to |pending|
        invariant FirstRefusal(cat, old(evidence), pending) == FirstRefusal(cat, evidence, pending[i..])
        invariant evidence == Applied(old(evidence), Writes(cat, pending)[..i])
        invariant reviews == old(reviews) && issued == old(issued)
        invariant old(mastery).Keys <= mastery.Keys <= old(mastery).Keys + (set k | 0 <= k < |pending| :: pending[k].skill)
        invariant forall skill :: skill in old(mastery) && (forall k :: 0 <= k < |pending| ==> pending[k].skill != skill)
                    ==> mastery[skill] == old(mastery)[skill]
      {
        RefusalFrom(cat, evidence, pending, i);
        AppliedOneMore(old(evidence), Writes(cat, pending), i);
        var refusal := RefusalAt(cat, evidence, pending[i]);
        if refusal.Some? {
          return Err(refusal.value);
        }
        Upsert(StoredRow(pending[i]));
      }
      assert Writes(cat, pending)[..|pending|] == Writes(cat, pending);
      return Ok(());
    }

    /** Replaces or removes the bare schedule of a skill whose mastery row is fresh. */
    method RescheduleSkill(skill: SkillRef, estimate: real, now: int)
      requires estimate == Round6(Estimate(Window(RowsOf(evidence, skill))))
      modifies this`reviews
      ensures var schedule := SkillSchedule(cat, RowsOf(evidence, skill), Lookup(old(reviews), BareKey(skill)), issued, skill, now);
              reviews == WithSchedule(old(reviews), skill, schedule)
    {
      var rows := RowsOf(evidence, skill);
      if rows == map[] {
        reviews := reviews - {BareKey(skill)};
      } else {
        var row := ScheduleRow(cat, Lookup(reviews, BareKey(skill)), issued, BareKey(skill), NewestFirst(rows)[0], estimate, now);
        reviews := reviews[BareKey(skill) := row];
      }
    }

    /** Recalculates one skill and, when the projection changed, its bare schedule and cached review date. */
    method FinishSkill(skill: SkillRef, changed: bool, now: int)
      modifies this`reviews, this`mastery
      ensures var schedule := SkillSchedule(cat, RowsOf(evidence, skill), Lookup(old(reviews), BareKey(skill)), issued, skill, now);
              reviews == if changed then WithSchedule(old(reviews), skill, schedule) else old(reviews)
      ensures mastery == old(mastery)[skill := Projection(RowsOf(evidence, skill), OpenDue(reviews, skill))]
    {
      Recalculate(skill);
      if changed {
        ghost var due := OpenDue(reviews, skill);
        RescheduleSkill(skill, mastery[skill].estimate, now);
        RefreshedProjection(old(mastery), RowsOf(evidence, skill), due, reviews, skill);
        RefreshNextReview(skill);
      }
    }

    /** Finishes one of the affected skills still to do, `was` being the tables before the first of them. */
    method FinishNext(ghost was: Store, affected: set<SkillRef>, todo: set<SkillRef>, skill: SkillRef, changed: bool, now: int)
      requires skill in todo && todo <= affected && evidence == was.evidence && issued == was.issued
      requires reviews == ReviewsBut(cat, was, affected, todo, changed, now)
      requires mastery == was.mastery + FreshRows(evidence, reviews, affected - todo)
      modifies this`reviews, this`mastery
      ensures reviews == ReviewsBut(cat, was, affected, todo - {skill}, changed, now)
      ensures mastery == was.mastery + FreshRows(evidence, reviews, affected - (todo - {skill}))
    {
      ghost var before := reviews;
      FinishSkill(skill, changed, now);
      NextReviews(cat, was, affected, todo, skill, changed, now);
      NextMastery(was.mastery, evidence, before, reviews, affected, todo, skill);
    }

    /** Recalculates each affected skill and, when the projection changed, its schedule. */
    method FinishEach(affected: set<SkillRef>, changed: bool, now: int)
      modifies this`reviews, this`mastery
      ensures reviews == if changed then FinalReviews(cat, old(State()), affected, now) else old(reviews)
      ensures mastery == old(mastery) + FreshRows(evidence, reviews, affected)
    {
      var todo := affected;
      ghost var was := State();
      NothingFinished(cat, was, affected, changed, now);
      while todo != {}
        invariant todo <= affected
        invariant reviews == ReviewsBut(cat, was, affected, todo, changed, now)
        invariant mastery == was.mastery + FreshRows(evidence, reviews, affected - todo)
      {
        var skill :| skill in todo;
        FinishNext(was, affected, todo, skill, changed, now);
        todo := todo - {skill};
      }
      EverythingFinished(cat, was, affected, changed, now);
      assert affected - {} == affected;
    }

    method FinishSkills(affected: set<SkillRef>, changed: bool, now: int)
      modifies this
      ensures State() == Finished(cat, old(State()), affected, changed, now)
    {
      FinishEach(affected, changed, now);
      if changed {
        issued := issued + 1;
      }
    }

    method IngestSession(pack: Pack, data: SessionData, now: int) returns (r: Result<(), LearningError>)
      modifies this
      ensures var spec := Ingested(cat, pack, old(State()), data, now);
              if spec.Ok? then r.Ok? && State() == spec.value else r == Err(spec.error) && State() == old(State())
    {
      var intake := IntakeOf(pack, data, now);
      if intake.Ignored? {
        return Ok(());
      }
      var saved := State();
      r := IngestPending(intake.id, intake.pending, now);
      if r.Err? {
        RollBack(saved);
      }
    }

    method RollBack(saved: Store)
      modifies this
      ensures State() == saved
    {
      evidence, mastery, reviews, issued := saved.evidence, saved.mastery, saved.reviews, saved.issued;
    }

    method PatchEvidence(session: string, pending: seq<Report>, now: int) returns (r: Result<(), LearningError>)
      requires forall i :: 0 <= i < |pending| ==> pending[i].observedAt.Some?
      modifies this
      ensures var refusal := FirstRefusal(cat, Kept(old(evidence), session, RawSlots(pending)), pending);
              if refusal.Some? then r == Err(refusal.value) else r.Ok?
      ensures r.Ok? ==> evidence == PatchedStore(cat, old(State()), session, pending).evidence
      ensures reviews == PatchedStore(cat, old(State()), session, pending).reviews && issued == old(issued)
      ensures old(mastery).Keys <= mastery.Keys <= old(mastery).Keys + (set i | 0 <= i < |pending| :: pending[i].skill)
      ensures forall skill :: skill in old(mastery) && (forall i :: 0 <= i < |pending| ==> pending[i].skill != skill)
                ==> mastery[skill] == old(mastery)[skill]
    {
      DeleteStale(session, RawSlots(pending));
      r := UpsertAll(pending, now);
    }

    /** The ingestion inside its transaction: a refusal leaves the tables half patched, for the caller to roll back. */
    method IngestPending(session: string, pending: seq<Report>, now: int) returns (r: Result<(), LearningError>)
      requires forall i :: 0 <= i < |pending| ==> pending[i].observedAt.Some?
      modifies this
      ensures var spec := IngestedSession(cat, old(State()), session, pending, now);
              if spec.Ok? then r.Ok? && State() == spec.value else r == Err(spec.error)
    {
      ghost var saved := State();
      var affected := Affected(evidence, session, pending);
      var changed := ProjectionChanged(evidence, session, pending);
      r := PatchEvidence(session, pending, now);
      if r.Ok? {
        if affected <= cat.skills {
          FinishIngestion(saved, session, pending, affected, changed, now);
        } else {
          r := Err(UnknownSkill);
        }
      }
    }

    /** The last part of an ingestion, once the evidence is patched; `saved` is the store before the patch. */
    method FinishIngestion(ghost saved: Store, session: string, pending: seq<Report>, affected: set<SkillRef>, changed: bool, now: int)
      requires affected == Affected(saved.evidence, session, pending)
      requires forall i :: 0 <= i < |pending| ==> pending[i].observedAt.Some?
      requires evidence == PatchedStore(cat, saved, session, pending).evidence
      requires reviews == PatchedStore(cat, saved, session, pending).reviews && issued == saved.issued
      requires saved.mastery.Keys <= mastery.Keys <= saved.mastery.Keys + (set i | 0 <= i < |pending| :: pending[i].skill)
      requires forall skill :: skill in saved.mastery && (forall i :: 0 <= i < |pending| ==> pending[i].skill != skill)
                 ==> mastery[skill] == saved.mastery[skill]
      modifies this
      ensures State() == Finished(cat, PatchedStore(cat, saved, session, pending), affected, changed, now)
    {
      FinishingAfterPatch(cat, saved, State(), session, pending, changed, now);
      FinishSkills(affected, changed, now);
    }
  }

  lemma BareScheduleDates(before: map<ReviewKey, ReviewRow>, after: map<ReviewKey, ReviewRow>, done: set<SkillRef>, skill: SkillRef)
    requires skill !in done
    requires forall key: ReviewKey :: key != BareKey(skill) ==> Lookup(after, key) == Lookup(before, key)
    ensures forall other :: other in done ==> OpenDue(after, other) == OpenDue(before, other)
  {
    forall other | other in done
      ensures OpenDue(after, other) == OpenDue(before, other)
    {
      SameSchedulesSameDates(before, after, other);
    }
  }

  lemma FreshRowsOfSameDates(evidence: map<int, Evidence>, before: map<ReviewKey, ReviewRow>, after: map<ReviewKey, ReviewRow>,
                             done: set<SkillRef>)
    requires forall other :: other in done ==> OpenDue(after, other) == OpenDue(before, other)
    ensures FreshRows(evidence, after, done) == FreshRows(evidence, before, done)
  {
  }

  /** Only the cached review date of a projection depends on the due dates. */
  lemma RefreshedProjection(mastery: map<SkillRef, MasteryRow>, rows: map<int, Evidence>, due: set<int>,
                            reviews: map<ReviewKey, ReviewRow>, skill: SkillRef)
    ensures RefreshedRows(mastery[skill := Projection(rows, due)], reviews, skill)
            == mastery[skill := Projection(rows, OpenDue(reviews, skill))]
  {
  }

  lemma FreshRowsOneMore(evidence: map<int, Evidence>, reviews: map<ReviewKey, ReviewRow>, done: set<SkillRef>, skill: SkillRef)
    ensures FreshRows(evidence, reviews, done + {skill})
            == FreshRows(evidence, reviews, done)[skill := Projection(RowsOf(evidence, skill), OpenDue(reviews, skill))]
  {
  }

  lemma MasteryOneMore(mastery: map<SkillRef, MasteryRow>, evidence: map<int, Evidence>, before: map<ReviewKey, ReviewRow>,
                       after: map<ReviewKey, ReviewRow>, done: set<SkillRef>, skill: SkillRef)
    requires skill !in done
    requires forall key: ReviewKey :: key != BareKey(skill) ==> Lookup(after, key) == Lookup(before, key)
    ensures (mastery + FreshRows(evidence, before, done))[skill := Projection(RowsOf(evidence, skill), OpenDue(after, skill))]
            == mastery + FreshRows(evidence, after, done + {skill})
  {
    BareScheduleDates(before, after, done, skill);
    FreshRowsOfSameDates(evidence, before, after, done);
    FreshRowsOneMore(evidence, after, done, skill);
    MergedThenWritten(mastery, FreshRows(evidence, after, done), skill, Projection(RowsOf(evidence, skill), OpenDue(after, skill)));
  }

  lemma OneLessToDo<X>(all: set<X>, todo: set<X>, x: X)
    requires x in todo && todo <= all
    ensures all - todo + {x} == all - (todo - {x})
  {
  }

  lemma MergedThenWritten<K, V>(table: map<K, V>, rows: map<K, V>, key: K, value: V)
    ensures (table + rows)[key := value] == table + rows[key := value]
  {
  }

  lemma MergingHides<K, V>(table: map<K, V>, other: map<K, V>, rows: map<K, V>)
    requires table.Keys <= other.Keys <= table.Keys + rows.Keys
    requires forall key :: key in table && key !in rows ==> other[key] == table[key]
    ensures other + rows == table + rows
  {
  }

  lemma SameSchedulesSameDates(reviews: map<ReviewKey, ReviewRow>, after: map<ReviewKey, ReviewRow>, skill: SkillRef)
    requires forall key: ReviewKey :: key.skill == skill ==> Lookup(after, key) == Lookup(reviews, key)
    ensures OpenDue(after, skill) == OpenDue(reviews, skill)
  {
    forall key: ReviewKey | key.skill == skill
      ensures key in after <==> key in reviews
      ensures key in after ==> after[key] == reviews[key]
    {
      assert Lookup(after, key) == Lookup(reviews, key);
    }
    OpenDueOfOthers(reviews, after, skill);
  }

  function WithSchedule(reviews: map<ReviewKey, ReviewRow>, skill: SkillRef, schedule: Option<ReviewRow>): map<ReviewKey, ReviewRow>
  {
    if schedule.None? then reviews - {BareKey(skill)} else reviews[BareKey(skill) := schedule.value]
  }

  /** The schedules of all but some skills replaced. */
  function RescheduledBut(reviews: map<ReviewKey, ReviewRow>, schedules: map<SkillRef, Option<ReviewRow>>, todo: set<SkillRef>)
    : map<ReviewKey, ReviewRow>
  {
    Rescheduled(reviews, schedules - todo)
  }

  function ReviewsBut(cat: Catalogue, was: Store, affected: set<SkillRef>, todo: set<SkillRef>, changed: bool, now: int)
    : map<ReviewKey, ReviewRow>
  {
    if !changed then was.reviews
    else RescheduledBut(was.reviews, SkillSchedules(cat, was.evidence, was.reviews, was.issued, affected, now), todo)
  }

  /** The change of the schedules that brings one more skill in. */
  lemma NextReviews(cat: Catalogue, was: Store, affected: set<SkillRef>, todo: set<SkillRef>, skill: SkillRef, changed: bool, now: int)
    requires skill in todo && todo <= affected
    ensures var before := ReviewsBut(cat, was, affected, todo, changed, now);
            var schedule := SkillSchedule(cat, RowsOf(was.evidence, skill), Lookup(before, BareKey(skill)), was.issued, skill, now);
            ReviewsBut(cat, was, affected, todo - {skill}, changed, now)
            == if changed then WithSchedule(before, skill, schedule) else before
  {
    if changed {
      RescheduledOneMore(was.reviews, SkillSchedules(cat, was.evidence, was.reviews, was.issued, affected, now), todo, skill);
    }
  }

  lemma NextMastery(mastery: map<SkillRef, MasteryRow>, evidence: map<int, Evidence>, before: map<ReviewKey, ReviewRow>,
                    after: map<ReviewKey, ReviewRow>, affected: set<SkillRef>, todo: set<SkillRef>, skill: SkillRef)
    requires skill in todo && todo <= affected
    requires after == before || exists schedule :: after == WithSchedule(before, skill, schedule)
    ensures (mastery + FreshRows(evidence, before, affected - todo))
              [skill := Projection(RowsOf(evidence, skill), OpenDue(after, skill))]
            == mastery + FreshRows(evidence, after, affected - (todo - {skill}))
  {
    MasteryOneMore(mastery, evidence, before, after, affected - todo, skill);
    OneLessToDo(affected, todo, skill);
  }

  lemma NothingFinished(cat: Catalogue, was: Store, affected: set<SkillRef>, changed: bool, now: int)
    ensures ReviewsBut(cat, was, affected, affected, changed, now) == was.reviews
    ensures was.mastery + FreshRows(was.evidence, was.reviews, affected - affected) == was.mastery
  {
    RescheduledNone(was.reviews, SkillSchedules(cat, was.evidence, was.reviews, was.issued, affected, now), affected);
  }

  lemma EverythingFinished(cat: Catalogue, was: Store, affected: set<SkillRef>, changed: bool, now: int)
    ensures ReviewsBut(cat, was, affected, {}, changed, now)
            == if changed then FinalReviews(cat, was, affected, now) else was.reviews
  {
    RescheduledAll(was.reviews, SkillSchedules(cat, was.evidence, was.reviews, was.issued, affected, now));
  }

  lemma RescheduledNone(reviews: map<ReviewKey, ReviewRow>, schedules: map<SkillRef, Option<ReviewRow>>, todo: set<SkillRef>)
    requires schedules.Keys <= todo
    ensures RescheduledBut(reviews, schedules, todo) == reviews
  {
  }

  lemma RescheduledAll(reviews: map<ReviewKey, ReviewRow>, schedules: map<SkillRef, Option<ReviewRow>>)
    ensures RescheduledBut(reviews, schedules, {}) == Rescheduled(reviews, schedules)
  {
    assert schedules - {} == schedules;
  }

  lemma FinishingAfterPatch(cat: Catalogue, saved: Store, current: Store, session: string, pending: seq<Report>,
                            changed: bool, now: int)
    requires forall i :: 0 <= i < |pending| ==> pending[i].observedAt.Some?
    requires current.evidence == PatchedStore(cat, saved, session, pending).evidence
    requires current.reviews == PatchedStore(cat, saved, session, pending).reviews && current.issued == saved.issued
    requires saved.mastery.Keys <= current.mastery.Keys <= saved.mastery.Keys + (set i | 0 <= i < |pending| :: pending[i].skill)
    requires forall skill :: skill in saved.mastery && (forall i :: 0 <= i < |pending| ==> pending[i].skill != skill)
               ==> current.mastery[skill] == saved.mastery[skill]
    ensures var affected := Affected(saved.evidence, session, pending);
            Finished(cat, current, affected, changed, now)
            == Finished(cat, PatchedStore(cat, saved, session, pending), affected, changed, now)
  {
    FinishingIgnoresRecalculated(cat, PatchedStore(cat, saved, session, pending), current,
                                 Affected(saved.evidence, session, pending), changed, now);
  }

  /** Finishing gives the same result whether or not affected skills were already recalculated. */
  lemma FinishingIgnoresRecalculated(cat: Catalogue, st: Store, recalculated: Store, affected: set<SkillRef>, changed: bool, now: int)
    requires recalculated.evidence == st.evidence && recalculated.reviews == st.reviews && recalculated.issued == st.issued
    requires st.mastery.Keys <= recalculated.mastery.Keys <= st.mastery.Keys + affected
    requires forall skill :: skill in st.mastery && skill !in affected ==> recalculated.mastery[skill] == st.mastery[skill]
    ensures Finished(cat, recalculated, affected, changed, now) == Finished(cat, st, affected, changed, now)
  {
    var reviews := if changed then FinalReviews(cat, st, affected, now) else st.reviews;
    MergingHides(st.mastery, recalculated.mastery, FreshRows(st.evidence, reviews, affected));
  }

  lemma RefusalFrom(cat: Catalogue, evidence: map<int, Evidence>, pending: seq<Report>, i: nat)
    requires i < |pending| && forall k :: 0 <= k < |pending| ==> pending[k].observedAt.Some?
    ensures FirstRefusal(cat, evidence, pending[i..])
            == if RefusalAt(cat, evidence, pending[i]).Some? then RefusalAt(cat, evidence, pending[i])
               else FirstRefusal(cat, evidence[IdOf(cat, pending[i]) := StoredRow(pending[i])], pending[i + 1..])
  {
    assert pending[i..][0] == pending[i] && pending[i..][1..] == pending[i + 1..];
  }

  lemma AppliedOneMore<K, V>(table: map<K, V>, writes: seq<Write<K, V>>, i: nat)
    requires i < |writes|
    ensures Applied(table, writes[..i + 1]) == Applied(table, writes[..i])[writes[i].key := writes[i].value]
  {
    assert writes[..i + 1][..i] == writes[..i];
  }

  lemma OrphaningMore(reviews: map<ReviewKey, ReviewRow>, gone: set<int>, more: set<int>)
    ensures Orphaned(Orphaned(reviews, gone), more) == Orphaned(reviews, gone + more)
  {
  }

  lemma RescheduledKey(reviews: map<ReviewKey, ReviewRow>, schedules: map<SkillRef, Option<ReviewRow>>, todo: set<SkillRef>,
                       key: ReviewKey)
    ensures Lookup(RescheduledBut(reviews, schedules, todo), key)
            == if key.objective.None? && key.skill in schedules && key.skill !in todo then schedules[key.skill]
               else Lookup(reviews, key)
  {
    assert key.objective.None? ==> key == BareKey(key.skill);
  }

  lemma WithScheduleKey(reviews: map<ReviewKey, ReviewRow>, skill: SkillRef, schedule: Option<ReviewRow>, key: ReviewKey)
    ensures Lookup(WithSchedule(reviews, skill, schedule), key) == if key == BareKey(skill) then schedule else Lookup(reviews, key)
  {
  }

  /** One more rescheduled skill rewrites or removes just its bare schedule, which the others left alone. */
  lemma RescheduledOneMore(reviews: map<ReviewKey, ReviewRow>, schedules: map<SkillRef, Option<ReviewRow>>,
                           todo: set<SkillRef>, skill: SkillRef)
    requires skill in schedules && skill in todo
    ensures var before, after := RescheduledBut(reviews, schedules, todo), RescheduledBut(reviews, schedules, todo - {skill});
            && after == WithSchedule(before, skill, schedules[skill])
            && Lookup(before, BareKey(skill)) == Lookup(reviews, BareKey(skill))
  {
    var before, after := RescheduledBut(reviews, schedules, todo), RescheduledBut(reviews, schedules, todo - {skill});
    forall key: ReviewKey
      ensures Lookup(after, key) == Lookup(WithSchedule(before, skill, schedules[skill]), key)
    {
      RescheduledKey(reviews, schedules, todo, key);
      RescheduledKey(reviews, schedules, todo - {skill}, key);
      WithScheduleKey(before, skill, schedules[skill], key);
      assert key == BareKey(skill) <==> key.objective.None? && key.skill == skill;
    }
    SameLookups(after, WithSchedule(before, skill, schedules[skill]));
    RescheduledKey(reviews, schedules, todo, BareKey(skill));
  }

  // ---- runs -------------------------------------------------------------------------------------

  datatype Operation =
    | RecordEvidence(report: Report, schedule: bool, now: int)
    | IngestSession(data: SessionData, now: int)
    | FinishReview(key: ReviewKey, score: real, confidence: real, rationale: Option<string>, continueReview: bool, now: int)
    | SetReviewStatus(key: ReviewKey, status: ReviewStatus)

  function Outcome(cat: Catalogue, pack: Pack, st: Store, op: Operation): Result<Store, LearningError>
  {
    match op
    case RecordEvidence(report, schedule, now) => Recorded(cat, st, report, schedule, now)
    case IngestSession(data, now) => Ingested(cat, pack, st, data, now)
    case FinishReview(key, score, confidence, rationale, continueReview, now) =>
      ReviewCompleted(cat, st, key, score, confidence, rationale, continueReview, now)
    case SetReviewStatus(key, status) => StatusUpdated(st, key, status)
  }

  /** A refused operation is rolled back. */
  function Step(cat: Catalogue, pack: Pack, st: Store, op: Operation): Store
  {
    var r := Outcome(cat, pack, st, op);
    if r.Ok? then r.value else st
  }

  function Run(cat: Catalogue, pack: Pack, st: Store, ops: seq<Operation>): Store
  {
    if ops == [] then st else Step(cat, pack, Run(cat, pack, st, ops[..|ops| - 1]), ops[|ops| - 1])
  }

  const EMPTY: Store := Store(map[], map[], map[], 0)

  /** What holds of every store a run can reach. */
  ghost predicate AlwaysHolds(cat: Catalogue, st: Store)
  {
    && Rooted(cat, st)
    && (forall skill :: NextReviewUpToDate(st, skill))
    && (forall skill: SkillRef :: skill.track == IELTS ==> UpToDate(st, skill))
  }

  lemma StepKeepsWhatAlwaysHolds(cat: Catalogue, pack: Pack, st: Store, op: Operation)
    requires AlwaysHolds(cat, st)
    ensures AlwaysHolds(cat, Step(cat, pack, st, op))
  {
    if Outcome(cat, pack, st, op).Ok? {
      match op {
        case RecordEvidence(report, schedule, now) => RecordedKeepsProjection(cat, st, report, schedule, now);
        case IngestSession(data, now) =>
          var intake := IntakeOf(pack, data, now);
          if intake.Session? {
            var at := if data.occurredAt.Some? then data.occurredAt.value else now;
            IngestedKeepsProjection(cat, st, intake.id, at, intake.pending, now);
          }
        case FinishReview(key, score, confidence, rationale, continueReview, now) =>
          ReviewCompletedKeepsProjection(cat, st, key, score, confidence, rationale, continueReview, now);
        case SetReviewStatus(key, status) => StatusUpdatedKeepsProjection(cat, st, key, status);
      }
    }
  }

  /**
   * After any sequence of operations every IELTS mastery row is what a recomputation from scratch would give, and
   * the cached review date of every skill on every track is the earliest due date of its open reviews.
   */
  lemma {:induction false} AnyRunKeepsProjection(cat: Catalogue, pack: Pack, ops: seq<Operation>)
    ensures AlwaysHolds(cat, Run(cat, pack, EMPTY, ops))
  {
    if ops != [] {
      AnyRunKeepsProjection(cat, pack, ops[..|ops| - 1]);
      StepKeepsWhatAlwaysHolds(cat, pack, Run(cat, pack, EMPTY, ops[..|ops| - 1]), ops[|ops| - 1]);
    }
  }

  // ---- all tracks -------------------------------------------------------------------------------

  /** No evidence is reported for another track under the session source type with a session id. */
  predicate KeepsToItsTrack(op: Operation)
  {
    op.RecordEvidence? && op.report.session.Some? && Clean(op.report.sourceType, SOURCE_TYPE_LIMIT) == SESSION_SOURCE
    ==> op.report.skill.track == IELTS
  }

  ghost predicate SessionRowsAreIelts(st: Store)
  {
    forall id :: id in st.evidence && st.evidence[id].session.Some? && st.evidence[id].key.sourceType == SESSION_SOURCE
                 ==> st.evidence[id].key.track == IELTS
  }

  lemma IngestionKeepsSessionRowsIelts(cat: Catalogue, st: Store, session: string, at: int, pending: seq<Report>)
    requires Rooted(cat, st) && SessionRowsAreIelts(st) && AllFromSession(pending, session, at)
    requires Storable(cat, st.evidence, session, pending)
    ensures SessionRowsAreIelts(PatchedStore(cat, st, session, pending))
  {
    var after := PatchedStore(cat, st, session, pending).evidence;
    forall id | id in after && after[id].session.Some? && after[id].key.sourceType == SESSION_SOURCE
      ensures after[id].key.track == IELTS
    {
      if id in KeysOf(Writes(cat, pending)) {
        WrittenRow(cat, st, session, at, pending, id);
        var i :| 0 <= i < |pending| && pending[i].skill == after[id].Skill();
        assert FromSession(pending[i], session, at);
      } else {
        UnwrittenRow(cat, st, session, at, pending, id);
      }
    }
  }

  lemma UpsertKeepsSessionRowsIelts(cat: Catalogue, st: Store, report: Report, now: int)
    requires SessionRowsAreIelts(st)
    requires report.session.Some? && Clean(report.sourceType, SOURCE_TYPE_LIMIT) == SESSION_SOURCE
             ==> report.skill.track == IELTS
    ensures SessionRowsAreIelts(Upserted(cat, st, report, now))
  {
    var row := RowFor(cat, st.evidence, report, now);
    assert row.session == report.session && row.key.sourceType == Clean(report.sourceType, SOURCE_TYPE_LIMIT);
  }

  lemma IngestKeepsSessionRowsIelts(cat: Catalogue, pack: Pack, st: Store, data: SessionData, now: int)
    requires Rooted(cat, st) && SessionRowsAreIelts(st)
    requires Ingested(cat, pack, st, data, now).Ok?
    ensures SessionRowsAreIelts(Ingested(cat, pack, st, data, now).value)
  {
    var intake := IntakeOf(pack, data, now);
    if intake.Session? {
      var at := if data.occurredAt.Some? then data.occurredAt.value else now;
      IngestedIsSettled(cat, st, intake.id, intake.pending, now);
      IngestionKeepsSessionRowsIelts(cat, st, intake.id, at, intake.pending);
      FinishedTouchesAffected(cat, PatchedStore(cat, st, intake.id, intake.pending),
                              Affected(st.evidence, intake.id, intake.pending),
                              ProjectionChanged(st.evidence, intake.id, intake.pending), now);
    }
  }

  lemma ReviewIsNotFromSession(key: ReviewKey, row: ReviewRow, score: real, confidence: real, rationale: Option<string>)
    ensures ReviewReport(key, row, score, confidence, rationale).session.None?
  {
  }

  lemma CompletedReviewKeepsSessionRowsIelts(cat: Catalogue, st: Store, key: ReviewKey, score: real, confidence: real,
                                             rationale: Option<string>, continueReview: bool, now: int)
    requires SessionRowsAreIelts(st)
    requires ReviewCompleted(cat, st, key, score, confidence, rationale, continueReview, now).Ok?
    ensures SessionRowsAreIelts(ReviewCompleted(cat, st, key, score, confidence, rationale, continueReview, now).value)
  {
    ReviewIsNotFromSession(key, st.reviews[key], score, confidence, rationale);
    UpsertKeepsSessionRowsIelts(cat, st, ReviewReport(key, st.reviews[key], score, confidence, rationale), now);
  }

  lemma StepKeepsSessionRowsIelts(cat: Catalogue, pack: Pack, st: Store, op: Operation)
    requires Rooted(cat, st) && SessionRowsAreIelts(st) && KeepsToItsTrack(op)
    ensures SessionRowsAreIelts(Step(cat, pack, st, op))
  {
    if Outcome(cat, pack, st, op).Ok? {
      match op {
        case RecordEvidence(report, schedule, now) => UpsertKeepsSessionRowsIelts(cat, st, report, now);
        case IngestSession(data, now) => IngestKeepsSessionRowsIelts(cat, pack, st, data, now);
        case FinishReview(key, score, confidence, rationale, continueReview, now) =>
          CompletedReviewKeepsSessionRowsIelts(cat, st, key, score, confidence, rationale, continueReview, now);
        case SetReviewStatus(key, status) =>
      }
    }
  }

  lemma IngestionKeepsConsistency(cat: Catalogue, st: Store, session: string, at: int, pending: seq<Report>, now: int)
    requires Consistent(cat, st) && SessionRowsAreIelts(st) && AllFromSession(pending, session, at)
    requires IngestedSession(cat, st, session, pending, now).Ok?
    ensures Consistent(cat, IngestedSession(cat, st, session, pending, now).value)
  {
    IngestedKeepsProjection(cat, st, session, at, pending, now);
    StaleRowsAreIelts(st, session, RawSlots(pending));
    var after := IngestedSession(cat, st, session, pending, now).value;
    forall skill: SkillRef
      ensures UpToDate(after, skill)
    {
      assert UpToDate(st, skill);
    }
  }

  lemma StaleRowsAreIelts(st: Store, session: string, slots: set<Slot>)
    requires SessionRowsAreIelts(st)
    ensures forall id, skill: SkillRef :: id in Stale(st.evidence, session, slots) && skill.track != IELTS
                                          ==> st.evidence[id].Skill() != skill
  {
  }

  lemma StepKeepsConsistency(cat: Catalogue, pack: Pack, st: Store, op: Operation)
    requires Consistent(cat, st) && SessionRowsAreIelts(st)
    ensures Consistent(cat, Step(cat, pack, st, op))
  {
    if Outcome(cat, pack, st, op).Ok? {
      match op {
        case RecordEvidence(report, schedule, now) => RecordedKeepsProjection(cat, st, report, schedule, now);
        case IngestSession(data, now) =>
          var intake := IntakeOf(pack, data, now);
          if intake.Session? {
            var at := if data.occurredAt.Some? then data.occurredAt.value else now;
            IngestionKeepsConsistency(cat, st, intake.id, at, intake.pending, now);
          }
        case FinishReview(key, score, confidence, rationale, continueReview, now) =>
          ReviewCompletedKeepsProjection(cat, st, key, score, confidence, rationale, continueReview, now);
        case SetReviewStatus(key, status) => StatusUpdatedKeepsProjection(cat, st, key, status);
      }
    }
  }

  /** When session evidence keeps to its track, every mastery row of every track is its projection after any run. */
  lemma {:induction false} RunsOnOneTrackAreConsistent(cat: Catalogue, pack: Pack, ops: seq<Operation>)
    requires forall i :: 0 <= i < |ops| ==> KeepsToItsTrack(ops[i])
    ensures Consistent(cat, Run(cat, pack, EMPTY, ops)) && SessionRowsAreIelts(Run(cat, pack, EMPTY, ops))
  {
    if ops != [] {
      RunsOnOneTrackAreConsistent(cat, pack, ops[..|ops| - 1]);
      var before := Run(cat, pack, EMPTY, ops[..|ops| - 1]);
      StepKeepsConsistency(cat, pack, before, ops[|ops| - 1]);
      StepKeepsSessionRowsIelts(cat, pack, before, ops[|ops| - 1]);
    }
  }

  lemma RecordedFirst(cat: Catalogue, report: Report, now: int) returns (id: int)
    requires Refusal(cat, report).None?
    ensures var st := Recorded(cat, EMPTY, report, false, now).value;
            && id in st.evidence && st.evidence.Keys == {id}
            && st.evidence[id].Skill() == report.skill && st.evidence[id].session == report.session
            && st.evidence[id].key.sourceType == Clean(report.sourceType, SOURCE_TYPE_LIMIT)
  {
    id := cat.evidenceId(EvidenceKeyOf(report));
  }

  lemma AlmostNoRows(evidence: map<int, Evidence>, id: int, skill: SkillRef)
    requires evidence.Keys == {id}
    ensures |RowsOf(evidence, skill)| <= WINDOW
  {
    CardinalityBound(RowsOf(evidence, skill).Keys, {id});
  }

  /**
   * Two operations are enough to leave a mastery row stale: evidence for a skill of another track recorded under a
   * session, and an ingestion of that session which reports nothing for it.
   */
  lemma SharedSkillGoesStale(cat: Catalogue, pack: Pack, report: Report, data: SessionData, session: string, now: int)
    requires Refusal(cat, report).None?
    requires report.skill.track != IELTS && SkillRef(IELTS, report.skill.skill) in cat.skills
    requires report.session == Some(session) && Clean(report.sourceType, SOURCE_TYPE_LIMIT) == SESSION_SOURCE
    requires IntakeOf(pack, data, now) == Session(session, [])
    ensures !UpToDate(Run(cat, pack, EMPTY, [RecordEvidence(report, false, now), IngestSession(data, now)]), report.skill)
  {
    var first, second := RecordEvidence(report, false, now), IngestSession(data, now);
    var id := RecordedFirst(cat, report, now);
    RecordedKeepsProjection(cat, EMPTY, report, false, now);
    assert Step(cat, pack, EMPTY, first) == Recorded(cat, EMPTY, report, false, now).value;
    IngestingNothing(cat, pack, Step(cat, pack, EMPTY, first), data, session, id, now);
    RunOfTwo(cat, pack, first, second);
  }

  lemma IngestingNothing(cat: Catalogue, pack: Pack, st: Store, data: SessionData, session: string, id: int, now: int)
    requires Rooted(cat, st) && IntakeOf(pack, data, now) == Session(session, [])
    requires st.evidence.Keys == {id} && OfSession(st.evidence[id], session) && st.evidence[id].key.track != IELTS
    requires SkillRef(IELTS, st.evidence[id].key.skill) in cat.skills && UpToDate(st, st.evidence[id].Skill())
    ensures !UpToDate(Step(cat, pack, st, IngestSession(data, now)), st.evidence[id].Skill())
  {
    AlmostNoRows(st.evidence, id, st.evidence[id].Skill());
    OneForeignRow(cat, st, session, id, now);
    StepIsIngestion(cat, pack, st, data, session, now);
    StaleNowIsStaleAfter(cat, st, session, id, now);
  }

  lemma StepIsIngestion(cat: Catalogue, pack: Pack, st: Store, data: SessionData, session: string, now: int)
    requires IntakeOf(pack, data, now) == Session(session, [])
    requires IngestedSession(cat, st, session, [], now).Ok?
    ensures Step(cat, pack, st, IngestSession(data, now)) == IngestedSession(cat, st, session, [], now).value
  {
  }

  lemma StaleNowIsStaleAfter(cat: Catalogue, st: Store, session: string, id: int, now: int)
    requires Rooted(cat, st) && IngestedSession(cat, st, session, [], now).Ok?
    requires id in Stale(st.evidence, session, RawSlots([])) && st.evidence[id].key.track != IELTS
    requires UpToDate(st, st.evidence[id].Skill()) && |RowsOf(st.evidence, st.evidence[id].Skill())| <= WINDOW
    ensures !UpToDate(IngestedSession(cat, st, session, [], now).value, st.evidence[id].Skill())
  {
    ForeignRowsGoStale(cat, st, session, now, [], now, id);
  }

  lemma OneForeignRow(cat: Catalogue, st: Store, session: string, id: int, now: int)
    requires st.evidence.Keys == {id} && OfSession(st.evidence[id], session)
    requires SkillRef(IELTS, st.evidence[id].key.skill) in cat.skills
    ensures IngestedSession(cat, st, session, [], now).Ok? && id in Stale(st.evidence, session, RawSlots([]))
  {
    OneAffected(st.evidence, session, id);
    NotRefused(cat, st, session, [], now);
  }

  lemma OneAffected(evidence: map<int, Evidence>, session: string, id: int)
    requires evidence.Keys == {id} && OfSession(evidence[id], session)
    ensures Affected(evidence, session, []) == {SkillRef(IELTS, evidence[id].key.skill)}
  {
  }

  lemma RunOfTwo(cat: Catalogue, pack: Pack, first: Operation, second: Operation)
    ensures Run(cat, pack, EMPTY, [first, second]) == Step(cat, pack, Step(cat, pack, EMPTY, first), second)
  {
    assert [first, second][..1] == [first] && [first][..0] == [];
    assert Run(cat, pack, EMPTY, [first]) == Step(cat, pack, Run(cat, pack, EMPTY, []), first);
  }
}
