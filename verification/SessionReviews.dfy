/** What the ingestion of a session does to reviews: when it reschedules, which reviews, and from which evidence. */
module SessionReviews {
  import opened Wrappers
  import opened Rounding
  import opened Mastery
  import opened Collections
  import opened LearningModel
  import opened LearningRules
  import opened Upserts
  import opened SessionIngest

  // ---- when the projection counts as changed ----------------------------------------------------

  /** A stored row that says the same as a report: all it says, but not under which track. */
  ghost predicate SaysTheSame(row: Evidence, report: Report)
  {
    && SlotOfRow(row) == SlotOfReport(report)
    && row.kind == report.kind && row.score == report.score && row.confidence == report.confidence
    && row.rationale == report.rationale && row.payload == report.payload && report.observedAt == Some(row.observedAt)
  }

  /** The report is the last one of its skill and source. */
  ghost predicate IsLastOfSlot(pending: seq<Report>, p: int)
  {
    0 <= p < |pending| && forall q :: p < q < |pending| ==> SlotOfReport(pending[q]) != SlotOfReport(pending[p])
  }

  ghost predicate OneRowPerSlot(evidence: map<int, Evidence>, session: string)
  {
    forall a, b ::
      (a in evidence && b in evidence && OfSession(evidence[a], session) && OfSession(evidence[b], session)
       && SlotOfRow(evidence[a]) == SlotOfRow(evidence[b])) ==> a == b
  }

  ghost predicate HasRationales(evidence: map<int, Evidence>, session: string, pending: seq<Report>)
  {
    && (forall id :: id in evidence && OfSession(evidence[id], session) ==> evidence[id].rationale.Some?)
    && (forall p :: 0 <= p < |pending| ==> pending[p].rationale.Some? && pending[p].observedAt.Some?)
  }

  /** Every row of the session says what the last report of its slot says, and every report has a row in its slot. */
  ghost predicate RowsSayWhatReportsSay(evidence: map<int, Evidence>, session: string, pending: seq<Report>)
  {
    && (forall id :: id in evidence && OfSession(evidence[id], session) ==>
          exists p :: IsLastOfSlot(pending, p) && SaysTheSame(evidence[id], pending[p]))
    && (forall p :: 0 <= p < |pending| ==>
          exists id :: id in evidence && OfSession(evidence[id], session) && SlotOfRow(evidence[id]) == SlotOfReport(pending[p]))
  }

  lemma ExistingSignature(evidence: map<int, Evidence>, session: string, id: int)
    requires OneRowPerSlot(evidence, session) && id in evidence && OfSession(evidence[id], session)
    ensures Lookup(ExistingSignatures(SessionRows(evidence, session)), SlotOfRow(evidence[id])) == Some(SignatureOf(evidence[id]))
  {
    var rows := SessionRows(evidence, session);
    var ids, writes := NewestFirst(rows), RowSignatures(rows);
    assert id in rows;
    var k :| 0 <= k < |ids| && ids[k] == id;
    assert writes[k].key == SlotOfRow(evidence[id]);
    var last := LastExists(writes, SlotOfRow(evidence[id]));
    assert ids[last] in rows && ids[last] == id;
    AppliedIsLastWins(map[], writes);
  }

  lemma NoExistingSignature(evidence: map<int, Evidence>, session: string, slot: Slot) returns (id: int)
    requires slot in ExistingSignatures(SessionRows(evidence, session))
    ensures id in evidence && OfSession(evidence[id], session) && SlotOfRow(evidence[id]) == slot
  {
    var rows := SessionRows(evidence, session);
    var writes := RowSignatures(rows);
    AppliedIsLastWins(map[], writes);
    var k := LastExists(writes, slot);
    id := NewestFirst(rows)[k];
    assert id in rows;
  }

  lemma ReportSlots(pending: seq<Report>)
    requires forall q :: 0 <= q < |pending| ==> pending[q].observedAt.Some?
    ensures |ReportSignatures(pending)| == |pending|
    ensures forall q :: 0 <= q < |pending| ==>
              ReportSignatures(pending)[q] == Write(SlotOfReport(pending[q]), SignatureOf(StoredRow(pending[q])))
  {
  }

  lemma LastSignature(pending: seq<Report>, slot: Slot, p: int)
    requires forall q :: 0 <= q < |pending| ==> pending[q].observedAt.Some?
    ensures IsLast(ReportSignatures(pending), slot, p) <==> IsLastOfSlot(pending, p) && SlotOfReport(pending[p]) == slot
  {
    ReportSlots(pending);
    var writes := ReportSignatures(pending);
    assert forall q :: 0 <= q < |pending| ==> writes[q].key == SlotOfReport(pending[q]);
  }

  lemma ExpectedSignature(pending: seq<Report>, p: int)
    requires forall q :: 0 <= q < |pending| ==> pending[q].observedAt.Some?
    requires IsLastOfSlot(pending, p)
    ensures Lookup(ExpectedSignatures(pending), SlotOfReport(pending[p])) == Some(SignatureOf(StoredRow(pending[p])))
  {
    AppliedIsLastWins(map[], ReportSignatures(pending));
    LastSignature(pending, SlotOfReport(pending[p]), p);
    ReportSlots(pending);
  }

  lemma SomeReportExpected(pending: seq<Report>, slot: Slot) returns (p: int)
    requires forall q :: 0 <= q < |pending| ==> pending[q].observedAt.Some?
    requires slot in ExpectedSignatures(pending)
    ensures IsLastOfSlot(pending, p) && SlotOfReport(pending[p]) == slot
  {
    AppliedIsLastWins(map[], ReportSignatures(pending));
    p := LastExists(ReportSignatures(pending), slot);
    LastSignature(pending, slot, p);
  }

  lemma LastOfSlot(pending: seq<Report>, p: nat) returns (last: int)
    requires p < |pending| && forall q :: 0 <= q < |pending| ==> pending[q].observedAt.Some?
    ensures IsLastOfSlot(pending, last) && SlotOfReport(pending[last]) == SlotOfReport(pending[p])
  {
    AppliedIsLastWins(map[], ReportSignatures(pending));
    ReportSlots(pending);
    assert ReportSignatures(pending)[p].key in KeysOf(ReportSignatures(pending));
    last := SomeReportExpected(pending, SlotOfReport(pending[p]));
  }

  lemma UnchangedSaysTheSame(evidence: map<int, Evidence>, session: string, pending: seq<Report>)
    requires OneRowPerSlot(evidence, session) && HasRationales(evidence, session, pending)
    requires !ProjectionChanged(evidence, session, pending)
    ensures RowsSayWhatReportsSay(evidence, session, pending)
  {
    forall id | id in evidence && OfSession(evidence[id], session)
      ensures exists p :: IsLastOfSlot(pending, p) && SaysTheSame(evidence[id], pending[p])
    {
      ExistingSignature(evidence, session, id);
      var p := SomeReportExpected(pending, SlotOfRow(evidence[id]));
      ExpectedSignature(pending, p);
      assert SaysTheSame(evidence[id], pending[p]);
    }
    forall p | 0 <= p < |pending|
      ensures exists id :: id in evidence && OfSession(evidence[id], session) && SlotOfRow(evidence[id]) == SlotOfReport(pending[p])
    {
      var last := LastOfSlot(pending, p);
      ExpectedSignature(pending, last);
      var id := NoExistingSignature(evidence, session, SlotOfReport(pending[p]));
    }
  }

  lemma SameSignature(evidence: map<int, Evidence>, session: string, pending: seq<Report>, slot: Slot)
    requires OneRowPerSlot(evidence, session) && HasRationales(evidence, session, pending)
    requires RowsSayWhatReportsSay(evidence, session, pending)
    ensures Lookup(ExistingSignatures(SessionRows(evidence, session)), slot) == Lookup(ExpectedSignatures(pending), slot)
  {
    if slot in ExistingSignatures(SessionRows(evidence, session)) {
      var id := NoExistingSignature(evidence, session, slot);
      ExistingSignature(evidence, session, id);
      var p :| IsLastOfSlot(pending, p) && SaysTheSame(evidence[id], pending[p]);
      ExpectedSignature(pending, p);
    } else if slot in ExpectedSignatures(pending) {
      var p := SomeReportExpected(pending, slot);
      var id :| id in evidence && OfSession(evidence[id], session) && SlotOfRow(evidence[id]) == SlotOfReport(pending[p]);
      ExistingSignature(evidence, session, id);
      assert false;
    }
  }

  lemma SameSayingIsUnchanged(evidence: map<int, Evidence>, session: string, pending: seq<Report>)
    requires OneRowPerSlot(evidence, session) && HasRationales(evidence, session, pending)
    requires RowsSayWhatReportsSay(evidence, session, pending)
    ensures !ProjectionChanged(evidence, session, pending)
  {
    forall slot: Slot
      ensures Lookup(ExistingSignatures(SessionRows(evidence, session)), slot) == Lookup(ExpectedSignatures(pending), slot)
    {
      SameSignature(evidence, session, pending, slot);
    }
    SameLookups(ExistingSignatures(SessionRows(evidence, session)), ExpectedSignatures(pending));
  }

  /** The projection counts as changed exactly when the session's rows no longer say what the reports say. */
  lemma ProjectionChangedExactly(evidence: map<int, Evidence>, session: string, pending: seq<Report>)
    requires OneRowPerSlot(evidence, session) && HasRationales(evidence, session, pending)
    ensures ProjectionChanged(evidence, session, pending) <==> !RowsSayWhatReportsSay(evidence, session, pending)
  {
    if RowsSayWhatReportsSay(evidence, session, pending) {
      SameSayingIsUnchanged(evidence, session, pending);
    } else if !ProjectionChanged(evidence, session, pending) {
      UnchangedSaysTheSame(evidence, session, pending);
    }
  }

  // ---- which reviews are rescheduled ------------------------------------------------------------

  /** A skill is concerned when a report names it, or a row the session had before does, whatever its track. */
  ghost predicate IsConcerned(evidence: map<int, Evidence>, session: string, pending: seq<Report>, skill: SkillRef)
  {
    || (exists p :: 0 <= p < |pending| && pending[p].skill == skill)
    || (skill.track == "ielts-academic"
        && exists id :: id in evidence && evidence[id].session == Some(session) && evidence[id].key.sourceType == "ielts_session"
                        && evidence[id].key.skill == skill.skill)
  }

  /** A review stays as it was, save that it no longer refers to a row of the session that no report answers to. */
  ghost predicate IsKept(evidence: map<int, Evidence>, session: string, pending: seq<Report>, before: ReviewRow, after: ReviewRow)
  {
    && after == before.(source := after.source)
    && if before.source.Some? && before.source.value in evidence && OfSession(evidence[before.source.value], session)
          && (forall p :: 0 <= p < |pending| ==> SlotOfReport(pending[p]) != SlotOfRow(evidence[before.source.value]))
       then after.source.None? else after.source == before.source
  }

  lemma FinalReview(cat: Catalogue, st: Store, affected: set<SkillRef>, now: int, skill: SkillRef)
    requires skill in affected
    ensures var rows, key := RowsOf(st.evidence, skill), ReviewKey(skill, None);
            Lookup(FinalReviews(cat, st, affected, now), key)
            == if rows == map[] then None
               else Some(ScheduleRow(cat, Lookup(st.reviews, key), st.issued, key, NewestFirst(rows)[0],
                                     Round6(Estimate(Window(rows))), now))
  {
  }

  lemma FirstIsNewest(rows: map<int, Evidence>)
    requires rows != map[]
    ensures NewestFirst(rows) != [] && IsNewest(rows, NewestFirst(rows)[0])
  {
    NewestExists(rows);
    var id :| IsNewest(rows, id);
    NewestFirstStarts(rows, id);
  }

  /** The review of a concerned skill, once the projection has changed. */
  ghost predicate IsRescheduled(cat: Catalogue, before: Store, after: Store, skill: SkillRef, now: int)
  {
    var key, rows := ReviewKey(skill, None), RowsOf(after.evidence, skill);
    if rows == map[] then key !in after.reviews
    else
      && key in after.reviews && skill in after.mastery
      && var review := after.reviews[key];
         && review.status == Pending && FollowsEstimate(review, after.mastery[skill].estimate, now)
         && review.source.Some? && IsNewest(rows, review.source.value)
         && review.repetitions == (if key in before.reviews then before.reviews[key].repetitions else 0)
         && review.lastReviewedAt == (if key in before.reviews then before.reviews[key].lastReviewedAt else None)
         && (key in before.reviews ==> review.reviewId == before.reviews[key].reviewId)
  }

  lemma ScheduleFollows(cat: Catalogue, previous: Option<ReviewRow>, issued: nat, key: ReviewKey, id: int, estimate: real, now: int)
    requires 0.0 <= estimate <= 1.0
    ensures FollowsEstimate(ScheduleRow(cat, previous, issued, key, id, estimate, now), estimate, now)
  {
    IntervalIs(estimate, if previous.Some? then previous.value.repetitions else 0);
    PriorityIs(estimate);
  }

  lemma ConcernedIsAffected(evidence: map<int, Evidence>, session: string, pending: seq<Report>, skill: SkillRef)
    ensures skill in Affected(evidence, session, pending) <==> IsConcerned(evidence, session, pending, skill)
  {
  }

  lemma OrphanedIsKept(st: Store, session: string, pending: seq<Report>, key: ReviewKey)
    requires key in st.reviews
    ensures var orphaned := Orphaned(st.reviews, Stale(st.evidence, session, RawSlots(pending)));
            key in orphaned && IsKept(st.evidence, session, pending, st.reviews[key], orphaned[key])
  {
    var before := st.reviews[key];
    if before.source.Some? && before.source.value in st.evidence {
      var slot := SlotOfRow(st.evidence[before.source.value]);
      assert slot in RawSlots(pending) <==> exists p :: 0 <= p < |pending| && SlotOfReport(pending[p]) == slot;
    }
  }

  lemma OtherReviews(cat: Catalogue, st: Store, affected: set<SkillRef>, now: int, key: ReviewKey)
    requires key.objective.Some? || key.skill !in affected
    ensures Lookup(FinalReviews(cat, st, affected, now), key) == Lookup(st.reviews, key)
  {
  }

  /** With a changed projection the bare review of a concerned skill is rescheduled, or gone with its last evidence. */
  lemma ConcernedIsRescheduled(cat: Catalogue, st: Store, session: string, at: int, pending: seq<Report>, now: int, skill: SkillRef)
    requires Rooted(cat, st) && AllFromSession(pending, session, at) && IngestedSession(cat, st, session, pending, now).Ok?
    requires ProjectionChanged(st.evidence, session, pending) && IsConcerned(st.evidence, session, pending, skill)
    ensures IsRescheduled(cat, st, IngestedSession(cat, st, session, pending, now).value, skill, now)
  {
    IngestedIsSettled(cat, st, session, pending, now);
    IngestedKeepsProjection(cat, st, session, at, pending, now);
    ConcernedIsAffected(st.evidence, session, pending, skill);
    var patched, after := PatchedStore(cat, st, session, pending), Settled(cat, st, session, pending, now);
    var affected, rows, key := Affected(st.evidence, session, pending), RowsOf(after.evidence, skill), ReviewKey(skill, None);
    FinishedTouchesAffected(cat, patched, affected, true, now);
    FinalReview(cat, patched, affected, now, skill);
    if rows != map[] {
      FirstIsNewest(rows);
      WindowIsBounded(cat, after, skill);
      EstimateIsBounded(Window(rows));
      ScheduleFollows(cat, Lookup(patched.reviews, key), patched.issued, key, NewestFirst(rows)[0], Round6(Estimate(Window(rows))), now);
      if key in st.reviews {
        OrphanedIsKept(st, session, pending, key);
      }
    }
  }

  /** Every other review is kept, and no other one is new. */
  lemma OthersAreKept(cat: Catalogue, st: Store, session: string, at: int, pending: seq<Report>, now: int, key: ReviewKey)
    requires AllFromSession(pending, session, at) && IngestedSession(cat, st, session, pending, now).Ok?
    requires !ProjectionChanged(st.evidence, session, pending) || key.objective.Some?
             || !IsConcerned(st.evidence, session, pending, key.skill)
    ensures var after := IngestedSession(cat, st, session, pending, now).value;
            && (key in after.reviews <==> key in st.reviews)
            && (key in st.reviews ==> IsKept(st.evidence, session, pending, st.reviews[key], after.reviews[key]))
  {
    IngestedIsSettled(cat, st, session, pending, now);
    ConcernedIsAffected(st.evidence, session, pending, key.skill);
    var patched, affected := PatchedStore(cat, st, session, pending), Affected(st.evidence, session, pending);
    if ProjectionChanged(st.evidence, session, pending) {
      OtherReviews(cat, patched, affected, now, key);
    }
    if key in st.reviews {
      OrphanedIsKept(st, session, pending, key);
    }
  }
}
