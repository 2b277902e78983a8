/** The teaching cycle tables as an object that the operations update in place, one transaction a method. */
module TeachingStore {
  import opened Wrappers
  import opened Text
  import opened Pedagogy

  class CycleTables {
    var cycles: map<string, Cycle>
    var events: map<string, seq<Event>>

    function State(): Tables
      reads this
    {
      Tables(cycles, events)
    }

    constructor ()
      ensures State() == EMPTY
    {
      cycles, events := map[], map[];
    }

    /** Appends an event to the log of a cycle, unless the unique index over sources refuses it. */
    method AppendEvent(id: string, kind: EventKind, from: Phase, to: Phase, actor: Actor,
                       sourceType: Option<string>, sourceId: Option<string>, status: Option<Status>)
      returns (r: Result<(), CycleError>)
      modifies this`events
      ensures var event := NewEvent(LogOf(old(State()), id), kind, from, to, actor, sourceType, sourceId, status);
              if Clashes(LogOf(old(State()), id), event)
              then r == Err(UniqueViolation) && events == old(events)
              else r == Ok(()) && events == old(events)[id := LogOf(old(State()), id) + [event]]
    {
      var log := if id in events then events[id] else [];
      var event := NewEvent(log, kind, from, to, actor, sourceType, sourceId, status);
      if Clashes(log, event) {
        return Err(UniqueViolation);
      }
      events := events[id := log + [event]];
      return Ok(());
    }

    /** A changed row and its event, both or neither. */
    method Commit(id: string, cycle: Cycle, kind: EventKind, from: Phase, to: Phase, actor: Actor,
                  sourceType: Option<string>, sourceId: Option<string>, status: Option<Status>)
      returns (r: Result<(), CycleError>)
      modifies this
      ensures Ends(r, Committed(old(State()), id, cycle,
                                NewEvent(LogOf(old(State()), id), kind, from, to, actor, sourceType, sourceId, status)),
                   old(State()), State())
    {
      var saved := cycles;
      cycles := cycles[id := cycle];
      r := AppendEvent(id, kind, from, to, actor, sourceType, sourceId, status);
      if r.Err? {
        cycles := saved;
      }
    }

    method StartCycle(id: string, valid: bool, phase: Phase, thread: Option<string>, session: Option<string>,
                      sourceType: string, sourceId: Option<string>)
      returns (r: Result<(), CycleError>)
      modifies this
      ensures Ends(r, Started(old(State()), id, valid, phase, thread, session, sourceType, sourceId), old(State()), State())
    {
      if !valid {
        return Err(InvalidRequest);
      }
      if Given(thread).Some? && Busy(State(), thread.value) {
        return Err(ThreadBusy);
      }
      if id in cycles {
        return Err(UniqueViolation);
      }
      r := Commit(id, Cycle(phase, Active, 0, Given(thread), Given(session)), CycleStarted, phase, phase,
                  if sourceType == "learner" then Learner else Runtime, Some(sourceType), sourceId, None);
    }

    method TransitionCycle(id: string, to: Phase, expected: int, actor: Actor, sourceType: Option<string>, sourceId: Option<string>)
      returns (r: Result<(), CycleError>)
      modifies this
      ensures Ends(r, Transitioned(old(State()), id, to, expected, actor, sourceType, sourceId), old(State()), State())
    {
      if id !in cycles {
        return Err(CycleNotFound);
      }
      var row := cycles[id];
      if row.revision != expected {
        return Err(StaleRevision);
      }
      if row.status != Active || row.phase == to || !Allowed(row.phase, to) {
        return Err(InvalidTransition);
      }
      r := Commit(id, row.(phase := to, revision := row.revision + 1), PhaseTransition, row.phase, to, actor,
                  sourceType, sourceId, None);
    }

    method UpdateStatus(id: string, status: Status, expected: int, actor: Actor) returns (r: Result<(), CycleError>)
      modifies this
      ensures Ends(r, StatusSet(old(State()), id, status, expected, actor), old(State()), State())
    {
      if id !in cycles {
        return Err(CycleNotFound);
      }
      var row := cycles[id];
      if row.revision != expected {
        return Err(StaleRevision);
      }
      if status == row.status || !StatusAllowed(row.status, status) {
        return Err(InvalidTransition);
      }
      r := Commit(id, row.(status := status, revision := row.revision + 1), StatusTransition, row.phase, row.phase, actor,
                  None, None, Some(status));
    }

    method RecordObservation(id: string, expected: int, sourceType: string, sourceId: string) returns (r: Result<(), CycleError>)
      modifies this
      ensures Ends(r, Observed(old(State()), id, expected, sourceType, sourceId), old(State()), State())
    {
      if id !in cycles {
        return Err(CycleNotFound);
      }
      var row := cycles[id];
      if row.revision != expected {
        return Err(StaleRevision);
      }
      if HasSource(LogOf(State(), id), TutorObservation, sourceType, sourceId) {
        return Ok(());
      }
      r := Commit(id, row.(revision := row.revision + 1), TutorObservation, row.phase, row.phase, Runtime,
                  Some(sourceType), Some(sourceId), None);
    }

    method RecordMilestone(id: string, session: string, completed: bool) returns (r: Result<(), CycleError>)
      requires id in cycles
      modifies this
      ensures Ends(r, Milestone(old(State()), id, session, completed), old(State()), State())
    {
      var kind := if completed then SessionCompleted else SessionStarted;
      if HasSource(LogOf(State(), id), kind, SESSION, session) {
        return Ok(());
      }
      var row := cycles[id];
      var to := MilestonePhase(row.phase, kind);
      r := Commit(id, row.(phase := to, session := Some(session), revision := row.revision + 1), kind, row.phase, to, Runtime,
                  Some(SESSION), Some(session), None);
    }

    method IngestSession(thread: Option<string>, session: string, completed: bool) returns (r: Result<(), CycleError>)
      requires OnePerThread(State())
      modifies this
      ensures Ends(r, Ingested(old(State()), thread, session, completed), old(State()), State())
    {
      if Given(thread).None? || !(exists id :: id in cycles && cycles[id].thread == Some(thread.value) && cycles[id].status == Active) {
        return Ok(());
      }
      var id :| id in cycles && cycles[id].thread == Some(thread.value) && cycles[id].status == Active;
      assert ActiveOn(State(), thread.value, id);
      OnlyActive(State(), thread.value, id);
      r := RecordMilestone(id, session, completed);
    }
  }

  /** A method ends as its specification says: with the new tables, or with the error and the old ones. */
  ghost predicate Ends(r: Result<(), CycleError>, spec: Result<Tables, CycleError>, before: Tables, after: Tables)
  {
    if spec.Ok? then r.Ok? && after == spec.value else r == Err(spec.error) && after == before
  }
}
