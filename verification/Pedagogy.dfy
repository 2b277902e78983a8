/** Teaching cycles: an explicit phase graph, revisions that guard every write, and an event log per cycle. */
module Pedagogy {
  import opened Wrappers
  import opened Text
  import opened Collections

  datatype Phase = Diagnose | Teach | GuidedPractice | IndependentPractice | Assess | Review | Consolidate
  datatype Status = Active | Paused | Completed | Cancelled
  datatype Actor = Runtime | Learner
  datatype EventKind =
    | CycleStarted
    | PhaseTransition
    | StatusTransition
    | TutorObservation
    | SessionStarted
    | SessionCompleted

  /** A logged event; `status` is the new status a status transition carries in its metadata. */
  datatype Event = Event(
    sequence: int,
    kind: EventKind,
    from: Phase,
    to: Phase,
    actor: Actor,
    sourceType: Option<string>,
    sourceId: Option<string>,
    status: Option<Status>)

  datatype Cycle = Cycle(
    phase: Phase,
    status: Status,
    revision: nat,
    thread: Option<string>,
    session: Option<string>)
  {
    predicate Unfinished()
    {
      status == Active || status == Paused
    }
  }

  /** The cycle rows, and the events of each cycle in the order they were inserted. */
  datatype Tables = Tables(cycles: map<string, Cycle>, events: map<string, seq<Event>>)

  datatype CycleError =
    | InvalidRequest
    | CycleNotFound
    | StaleRevision
    | InvalidTransition
    | ThreadBusy
    | UniqueViolation

  // ---- the phase graph --------------------------------------------------------------------------

  function Targets(phase: Phase): set<Phase>
  {
    match phase
    case Diagnose => {Teach, GuidedPractice, IndependentPractice, Assess}
    case Teach => {Diagnose, GuidedPractice}
    case GuidedPractice => {Teach, IndependentPractice, Assess}
    case IndependentPractice => {GuidedPractice, Assess}
    case Assess => {Teach, GuidedPractice, Review, Consolidate}
    case Review => {Teach, GuidedPractice, Assess, Consolidate}
    case Consolidate => {Diagnose, Review}
  }

  predicate Allowed(from: Phase, to: Phase)
  {
    to in Targets(from)
  }

  predicate StatusAllowed(from: Status, to: Status)
  {
    match from
    case Active => to != Active
    case Paused => to == Active || to == Cancelled
    case Completed => false
    case Cancelled => false
  }

  // ---- the event log ----------------------------------------------------------------------------

  function MaxSequence(log: seq<Event>): int
  {
    if log == [] then 0
    else
      var rest := MaxSequence(log[..|log| - 1]);
      var last := log[|log| - 1].sequence;
      if last > rest then last else rest
  }

  function LogOf(t: Tables, id: string): seq<Event>
  {
    if id in t.events then t.events[id] else []
  }

  /** The unique index over cycle, kind and source, which ignores events without a complete source. */
  predicate Clashes(log: seq<Event>, event: Event)
  {
    && event.sourceType.Some? && event.sourceId.Some?
    && HasSource(log, event.kind, event.sourceType.value, event.sourceId.value)
  }

  predicate HasSource(log: seq<Event>, kind: EventKind, sourceType: string, sourceId: string)
  {
    exists k :: 0 <= k < |log| && log[k].kind == kind
                && log[k].sourceType == Some(sourceType) && log[k].sourceId == Some(sourceId)
  }

  /** Text as it is stored: nothing for nothing, and otherwise cut to a number of characters. */
  function Stored(text: Option<string>, limit: nat): Option<string>
  {
    if text.None? || text.value == "" then None
    else if |text.value| <= limit then text
    else Some(text.value[..limit])
  }

  function NewEvent(log: seq<Event>, kind: EventKind, from: Phase, to: Phase, actor: Actor,
                    sourceType: Option<string>, sourceId: Option<string>, status: Option<Status>): Event
  {
    Event(MaxSequence(log) + 1, kind, from, to, actor, Stored(sourceType, 80), Stored(sourceId, 240), status)
  }

  /** A changed row and its event in one transaction, or neither when a unique index refuses the event. */
  function Committed(t: Tables, id: string, cycle: Cycle, event: Event): Result<Tables, CycleError>
  {
    if Clashes(LogOf(t, id), event) then Err(UniqueViolation)
    else Ok(Tables(t.cycles[id := cycle], t.events[id := LogOf(t, id) + [event]]))
  }

  // ---- the operations ---------------------------------------------------------------------------

  predicate Busy(t: Tables, thread: string)
  {
    exists id :: id in t.cycles && t.cycles[id].thread == Some(thread) && t.cycles[id].Unfinished()
  }

  /** Starting a cycle; `valid` says whether the title and the linked records passed their checks. */
  function Started(t: Tables, id: string, valid: bool, phase: Phase, thread: Option<string>, session: Option<string>,
                   sourceType: string, sourceId: Option<string>): Result<Tables, CycleError>
  {
    if !valid then Err(InvalidRequest)
    else if Given(thread).Some? && Busy(t, thread.value) then Err(ThreadBusy)
    else if id in t.cycles then Err(UniqueViolation)
    else Committed(t, id, Cycle(phase, Active, 0, Given(thread), Given(session)),
                   NewEvent(LogOf(t, id), CycleStarted, phase, phase,
                            if sourceType == "learner" then Learner else Runtime, Some(sourceType), sourceId, None))
  }

  /** What every guarded write checks first. */
  function Guard(t: Tables, id: string, expected: int): Option<CycleError>
  {
    if id !in t.cycles then Some(CycleNotFound)
    else if t.cycles[id].revision != expected then Some(StaleRevision)
    else None
  }

  function Transitioned(t: Tables, id: string, to: Phase, expected: int, actor: Actor,
                        sourceType: Option<string>, sourceId: Option<string>): Result<Tables, CycleError>
  {
    if Guard(t, id, expected).Some? then Err(Guard(t, id, expected).value)
    else
      var row := t.cycles[id];
      if row.status != Active || row.phase == to || !Allowed(row.phase, to) then Err(InvalidTransition)
      else Committed(t, id, row.(phase := to, revision := row.revision + 1),
                     NewEvent(LogOf(t, id), PhaseTransition, row.phase, to, actor, sourceType, sourceId, None))
  }

  function StatusSet(t: Tables, id: string, status: Status, expected: int, actor: Actor): Result<Tables, CycleError>
  {
    if Guard(t, id, expected).Some? then Err(Guard(t, id, expected).value)
    else
      var row := t.cycles[id];
      if status == row.status || !StatusAllowed(row.status, status) then Err(InvalidTransition)
      else Committed(t, id, row.(status := status, revision := row.revision + 1),
                     NewEvent(LogOf(t, id), StatusTransition, row.phase, row.phase, actor, None, None, Some(status)))
  }

  /** Recording a tutor's observation looks at the revision and at earlier observations, but not at the status. */
  function Observed(t: Tables, id: string, expected: int, sourceType: string, sourceId: string): Result<Tables, CycleError>
  {
    if Guard(t, id, expected).Some? then Err(Guard(t, id, expected).value)
    else if HasSource(LogOf(t, id), TutorObservation, sourceType, sourceId) then Ok(t)
    else
      var row := t.cycles[id];
      Committed(t, id, row.(revision := row.revision + 1),
                NewEvent(LogOf(t, id), TutorObservation, row.phase, row.phase, Runtime, Some(sourceType), Some(sourceId), None))
  }

  const SESSION: string := "session"

  function MilestonePhase(phase: Phase, kind: EventKind): Phase
  {
    var target := if kind == SessionCompleted then Assess else IndependentPractice;
    if target == phase || Allowed(phase, target) then target else phase
  }

  function LoggedMilestone(t: Tables, id: string, kind: EventKind, sourceType: string, session: string): Result<Tables, CycleError>
    requires id in t.cycles
  {
    var row := t.cycles[id];
    var to := MilestonePhase(row.phase, kind);
    if HasSource(LogOf(t, id), kind, sourceType, session) then Ok(t)
    else Committed(t, id, row.(phase := to, session := Some(session), revision := row.revision + 1),
                   NewEvent(LogOf(t, id), kind, row.phase, to, Runtime, Some(sourceType), Some(session), None))
  }

  /** A milestone of a formal session, projected into the active cycle of its thread. */
  function Milestone(t: Tables, id: string, session: string, completed: bool): Result<Tables, CycleError>
    requires id in t.cycles
  {
    LoggedMilestone(t, id, if completed then SessionCompleted else SessionStarted, SESSION, session)
  }

  ghost predicate ActiveOn(t: Tables, thread: string, id: string)
  {
    id in t.cycles && t.cycles[id].thread == Some(thread) && t.cycles[id].status == Active
  }

  /** The active cycle of the session's thread, if the session belongs to an activity with a thread that has one. */
  ghost function Ingested(t: Tables, thread: Option<string>, session: string, completed: bool): Result<Tables, CycleError>
  {
    if Given(thread).Some? && exists id :: ActiveOn(t, thread.value, id)
    then
      var id :| ActiveOn(t, thread.value, id);
      Milestone(t, id, session, completed)
    else Ok(t)
  }

  datatype Action =
    | Start(id: string, valid: bool, phase: Phase, thread: Option<string>, session: Option<string>,
            sourceType: string, sourceId: Option<string>)
    | Transition(id: string, to: Phase, expected: int, actor: Actor, fromType: Option<string>, fromId: Option<string>)
    | SetStatus(id: string, status: Status, expected: int, actor: Actor)
    | Observe(id: string, expected: int, observedType: string, observedId: string)
    | Ingest(activityThread: Option<string>, milestone: string, completed: bool)

  /** One transaction. */
  ghost function Outcome(t: Tables, action: Action): Result<Tables, CycleError>
  {
    match action
    case Start(id, valid, phase, thread, session, sourceType, sourceId) =>
      Started(t, id, valid, phase, thread, session, sourceType, sourceId)
    case Transition(id, to, expected, actor, sourceType, sourceId) =>
      Transitioned(t, id, to, expected, actor, sourceType, sourceId)
    case SetStatus(id, status, expected, actor) => StatusSet(t, id, status, expected, actor)
    case Observe(id, expected, sourceType, sourceId) => Observed(t, id, expected, sourceType, sourceId)
    case Ingest(thread, session, completed) => Ingested(t, thread, session, completed)
  }

  ghost function Step(t: Tables, action: Action): Tables
  {
    var r := Outcome(t, action);
    if r.Ok? then r.value else t
  }

  ghost function Run(t: Tables, actions: seq<Action>): Tables
  {
    if actions == [] then t else Step(Run(t, actions[..|actions| - 1]), actions[|actions| - 1])
  }

  const EMPTY: Tables := Tables(map[], map[])

  // ---- the row is the replay of its log ---------------------------------------------------------

  /** What a log says about its cycle, and whether it is a log the graph allows. */
  datatype Replayed = Nothing | Broken | State(phase: Phase, status: Status, revision: nat)

  function ReplayOne(state: Replayed, position: nat, event: Event): Replayed
  {
    if event.sequence != position + 1 then Broken
    else
      match state
      case Broken => Broken
      case Nothing => if event.kind == CycleStarted && event.from == event.to then State(event.to, Active, 0) else Broken
      case State(phase, status, revision) =>
        if event.from != phase || event.kind == CycleStarted then Broken
        else if event.kind == StatusTransition then
          if event.to == phase && event.status.Some? && StatusAllowed(status, event.status.value)
          then State(phase, event.status.value, revision + 1) else Broken
        else if event.kind == TutorObservation then
          if event.to == phase then State(phase, status, revision + 1) else Broken
        else if status == Active && (Allowed(phase, event.to) || (event.to == phase && event.kind != PhaseTransition))
        then State(event.to, status, revision + 1)
        else Broken
  }

  function Replay(log: seq<Event>): Replayed
  {
    if log == [] then Nothing else ReplayOne(Replay(log[..|log| - 1]), |log| - 1, log[|log| - 1])
  }

  /** The log of a cycle replays, without a gap or an illegal step, to exactly the stored row. */
  ghost predicate Replays(t: Tables, id: string)
  {
    id in t.cycles && Replay(LogOf(t, id)) == State(t.cycles[id].phase, t.cycles[id].status, t.cycles[id].revision)
  }

  predicate Rivals(a: Cycle, b: Cycle)
  {
    a.Unfinished() && b.Unfinished() && a.thread.Some? && a.thread == b.thread
  }

  ghost predicate OnePerThread(t: Tables)
  {
    forall a, b :: a in t.cycles && b in t.cycles && Rivals(t.cycles[a], t.cycles[b]) ==> a == b
  }

  ghost predicate Valid(t: Tables)
  {
    && t.events.Keys == t.cycles.Keys
    && (forall id :: id in t.cycles ==> Replays(t, id))
    && OnePerThread(t)
  }

  // ---- what a log that replays looks like -------------------------------------------------------

  lemma ReplayAppended(log: seq<Event>, event: Event)
    ensures Replay(log + [event]) == ReplayOne(Replay(log), |log|, event)
  {
    assert (log + [event])[..|log|] == log;
  }

  /** Two events of a log, one right after the other. */
  ghost predicate Follows(before: Event, after: Event)
  {
    && before.to == after.from
    && (after.from == after.to || Allowed(after.from, after.to))
    && (after.kind == PhaseTransition ==> after.from != after.to)
    && (after.from != after.to ==> after.kind in {PhaseTransition, SessionStarted, SessionCompleted})
  }

  /** A log that replays runs from 1 without a gap, each event starts where the one before it ended, and ends in its state. */
  lemma {:induction false} ReplayedShape(log: seq<Event>)
    requires Replay(log) != Broken
    ensures MaxSequence(log) == |log|
    ensures forall k :: 0 <= k < |log| ==> log[k].sequence == k + 1
    ensures forall k :: 0 <= k < |log| - 1 ==> Follows(log[k], log[k + 1])
    ensures Replay(log) == Nothing <==> log == []
    ensures log != [] ==> Replay(log).revision == |log| - 1 && Replay(log).phase == log[|log| - 1].to
  {
    if log != [] {
      var rest := log[..|log| - 1];
      ReplayedShape(rest);
      forall k | 0 <= k < |log|
        ensures log[k].sequence == k + 1
      {
        if k < |rest| {
          assert rest[k] == log[k];
        }
      }
      forall k | 0 <= k < |log| - 1
        ensures Follows(log[k], log[k + 1])
      {
        if k + 1 < |rest| {
          assert rest[k] == log[k] && rest[k + 1] == log[k + 1] && Follows(rest[k], rest[k + 1]);
        }
      }
    }
  }

  // ---- every run keeps the tables valid ---------------------------------------------------------

  lemma CommitKeepsOnePerThread(t: Tables, id: string, cycle: Cycle, event: Event)
    requires OnePerThread(t) && Committed(t, id, cycle, event).Ok?
    requires forall other :: other in t.cycles && other != id ==> !Rivals(t.cycles[other], cycle)
    ensures OnePerThread(Committed(t, id, cycle, event).value)
  {
  }

  lemma CommitReplays(t: Tables, id: string, cycle: Cycle, event: Event)
    requires Valid(t) && Committed(t, id, cycle, event).Ok?
    requires ReplayOne(Replay(LogOf(t, id)), |LogOf(t, id)|, event) == State(cycle.phase, cycle.status, cycle.revision)
    requires forall other :: other in t.cycles && other != id ==> !Rivals(t.cycles[other], cycle)
    ensures Valid(Committed(t, id, cycle, event).value)
  {
    var after := Committed(t, id, cycle, event).value;
    CommitKeepsOnePerThread(t, id, cycle, event);
    ReplayAppended(LogOf(t, id), event);
    forall other | other in after.cycles
      ensures Replays(after, other)
    {
      if other != id {
        assert Replays(t, other) && LogOf(after, other) == LogOf(t, other);
      }
    }
  }

  /** An update of a cycle that gives up no thread and reopens nothing keeps its thread to itself. */
  lemma UpdateReplays(t: Tables, id: string, cycle: Cycle, event: Event)
    requires Valid(t) && id in t.cycles && Committed(t, id, cycle, event).Ok?
    requires cycle.thread == t.cycles[id].thread && (cycle.Unfinished() ==> t.cycles[id].Unfinished())
    requires ReplayOne(State(t.cycles[id].phase, t.cycles[id].status, t.cycles[id].revision), |LogOf(t, id)|, event)
             == State(cycle.phase, cycle.status, cycle.revision)
    ensures Valid(Committed(t, id, cycle, event).value)
  {
    NextIsLength(t, id);
    forall other | other in t.cycles && other != id
      ensures !Rivals(t.cycles[other], cycle)
    {
      assert !Rivals(t.cycles[other], t.cycles[id]);
    }
    CommitReplays(t, id, cycle, event);
  }

  lemma NextIsLength(t: Tables, id: string)
    requires Valid(t)
    ensures MaxSequence(LogOf(t, id)) == |LogOf(t, id)|
    ensures id in t.cycles ==> Replay(LogOf(t, id)) == State(t.cycles[id].phase, t.cycles[id].status, t.cycles[id].revision)
  {
    if id in t.cycles {
      assert Replays(t, id);
      ReplayedShape(LogOf(t, id));
    }
  }

  lemma StartKeepsValid(t: Tables, action: Action)
    requires Valid(t) && action.Start?
    ensures Valid(Step(t, action))
  {
    if Outcome(t, action).Ok? {
      NextIsLength(t, action.id);
      CommitReplays(t, action.id, Cycle(action.phase, Active, 0, Given(action.thread), Given(action.session)),
                    NewEvent(LogOf(t, action.id), CycleStarted, action.phase, action.phase,
                             if action.sourceType == "learner" then Learner else Runtime,
                             Some(action.sourceType), action.sourceId, None));
    }
  }

  /** Replaying an event does not look at its source or its actor. */
  lemma LoggedUpdate(t: Tables, id: string, cycle: Cycle, kind: EventKind, actor: Actor,
                     sourceType: Option<string>, sourceId: Option<string>, status: Option<Status>)
    requires Valid(t) && id in t.cycles
    requires cycle.thread == t.cycles[id].thread && (cycle.Unfinished() ==> t.cycles[id].Unfinished())
    requires var row := t.cycles[id];
             ReplayOne(State(row.phase, row.status, row.revision), 0,
                       Event(1, kind, row.phase, cycle.phase, Runtime, None, None, status))
             == State(cycle.phase, cycle.status, cycle.revision)
    ensures var r := Committed(t, id, cycle, NewEvent(LogOf(t, id), kind, t.cycles[id].phase, cycle.phase, actor,
                                                      sourceType, sourceId, status));
            r.Ok? ==> Valid(r.value)
  {
    var event := NewEvent(LogOf(t, id), kind, t.cycles[id].phase, cycle.phase, actor, sourceType, sourceId, status);
    if Committed(t, id, cycle, event).Ok? {
      NextIsLength(t, id);
      UpdateReplays(t, id, cycle, event);
    }
  }

  lemma TransitionReplays(row: Cycle, to: Phase)
    requires row.status == Active && row.phase != to && Allowed(row.phase, to)
    ensures ReplayOne(State(row.phase, row.status, row.revision), 0,
                      Event(1, PhaseTransition, row.phase, to, Runtime, None, None, None))
            == State(to, row.status, row.revision + 1)
  {
  }

  function InPhase(row: Cycle, to: Phase): Cycle
  {
    row.(phase := to, revision := row.revision + 1)
  }

  lemma TransitionCommits(t: Tables, id: string, to: Phase, expected: int, actor: Actor,
                          sourceType: Option<string>, sourceId: Option<string>)
    requires Transitioned(t, id, to, expected, actor, sourceType, sourceId).Ok?
    ensures id in t.cycles && t.cycles[id].status == Active && t.cycles[id].phase != to && Allowed(t.cycles[id].phase, to)
    ensures var cycle := InPhase(t.cycles[id], to);
            Transitioned(t, id, to, expected, actor, sourceType, sourceId)
            == Committed(t, id, cycle, NewEvent(LogOf(t, id), PhaseTransition, t.cycles[id].phase, cycle.phase, actor,
                                                sourceType, sourceId, None))
  {
  }

  lemma TransitionLogs(t: Tables, id: string, to: Phase, actor: Actor, sourceType: Option<string>, sourceId: Option<string>)
    requires Valid(t) && id in t.cycles
    requires t.cycles[id].status == Active && t.cycles[id].phase != to && Allowed(t.cycles[id].phase, to)
    ensures var cycle := InPhase(t.cycles[id], to);
            var r := Committed(t, id, cycle, NewEvent(LogOf(t, id), PhaseTransition, t.cycles[id].phase, cycle.phase, actor,
                                                      sourceType, sourceId, None));
            r.Ok? ==> Valid(r.value)
  {
    TransitionReplays(t.cycles[id], to);
    LoggedUpdate(t, id, InPhase(t.cycles[id], to), PhaseTransition, actor, sourceType, sourceId, None);
  }

  lemma TransitionKeepsValid(t: Tables, id: string, to: Phase, expected: int, actor: Actor,
                             sourceType: Option<string>, sourceId: Option<string>)
    requires Valid(t) && Transitioned(t, id, to, expected, actor, sourceType, sourceId).Ok?
    ensures Valid(Transitioned(t, id, to, expected, actor, sourceType, sourceId).value)
  {
    TransitionCommits(t, id, to, expected, actor, sourceType, sourceId);
    TransitionLogs(t, id, to, actor, sourceType, sourceId);
  }

  lemma SetStatusKeepsValid(t: Tables, action: Action)
    requires Valid(t) && action.SetStatus?
    ensures Valid(Step(t, action))
  {
    if Outcome(t, action).Ok? {
      var row := t.cycles[action.id];
      LoggedUpdate(t, action.id, row.(status := action.status, revision := row.revision + 1), StatusTransition, action.actor,
                   None, None, Some(action.status));
    }
  }

  lemma ObserveKeepsValid(t: Tables, action: Action)
    requires Valid(t) && action.Observe?
    ensures Valid(Step(t, action))
  {
    if Outcome(t, action).Ok? {
      var row := t.cycles[action.id];
      LoggedUpdate(t, action.id, row.(revision := row.revision + 1), TutorObservation, Runtime,
                   Some(action.observedType), Some(action.observedId), None);
    }
  }

  lemma MilestoneReplays(row: Cycle, kind: EventKind)
    requires row.status == Active && (kind == SessionStarted || kind == SessionCompleted)
    ensures var to := MilestonePhase(row.phase, kind);
            ReplayOne(State(row.phase, row.status, row.revision), 0, Event(1, kind, row.phase, to, Runtime, None, None, None))
            == State(to, row.status, row.revision + 1)
  {
  }

  function AfterMilestone(row: Cycle, kind: EventKind, session: string): Cycle
  {
    row.(phase := MilestonePhase(row.phase, kind), session := Some(session), revision := row.revision + 1)
  }

  lemma MilestoneCommits(t: Tables, id: string, kind: EventKind, sourceType: string, session: string)
    requires id in t.cycles && !HasSource(LogOf(t, id), kind, sourceType, session)
    ensures var cycle := AfterMilestone(t.cycles[id], kind, session);
            LoggedMilestone(t, id, kind, sourceType, session)
            == Committed(t, id, cycle, NewEvent(LogOf(t, id), kind, t.cycles[id].phase, cycle.phase, Runtime,
                                                Some(sourceType), Some(session), None))
  {
  }

  lemma MilestoneLogs(t: Tables, id: string, kind: EventKind, sourceType: string, session: string)
    requires Valid(t) && id in t.cycles && t.cycles[id].status == Active
    requires kind == SessionStarted || kind == SessionCompleted
    ensures var cycle := AfterMilestone(t.cycles[id], kind, session);
            var r := Committed(t, id, cycle, NewEvent(LogOf(t, id), kind, t.cycles[id].phase, cycle.phase, Runtime,
                                                      Some(sourceType), Some(session), None));
            r.Ok? ==> Valid(r.value)
  {
    MilestoneReplays(t.cycles[id], kind);
    LoggedUpdate(t, id, AfterMilestone(t.cycles[id], kind, session), kind, Runtime, Some(sourceType), Some(session), None);
  }

  lemma MilestoneKeepsValid(t: Tables, id: string, kind: EventKind, sourceType: string, session: string)
    requires Valid(t) && id in t.cycles && t.cycles[id].status == Active
    requires kind == SessionStarted || kind == SessionCompleted
    requires LoggedMilestone(t, id, kind, sourceType, session).Ok?
    ensures Valid(LoggedMilestone(t, id, kind, sourceType, session).value)
  {
    MilestoneLogs(t, id, kind, sourceType, session);
    if !HasSource(LogOf(t, id), kind, sourceType, session) {
      MilestoneCommits(t, id, kind, sourceType, session);
    }
  }

  lemma StepKeepsValid(t: Tables, action: Action)
    requires Valid(t)
    ensures Valid(Step(t, action))
  {
    match action
    case Start(_, _, _, _, _, _, _) => StartKeepsValid(t, action);
    case Transition(id, to, expected, actor, sourceType, sourceId) =>
      if Transitioned(t, id, to, expected, actor, sourceType, sourceId).Ok? {
        TransitionKeepsValid(t, id, to, expected, actor, sourceType, sourceId);
      }
    case SetStatus(_, _, _, _) => SetStatusKeepsValid(t, action);
    case Observe(_, _, _, _) => ObserveKeepsValid(t, action);
    case Ingest(thread, session, completed) =>
      if Given(thread).Some? && exists id :: ActiveOn(t, thread.value, id) {
        var id :| ActiveOn(t, thread.value, id) && Ingested(t, thread, session, completed) == Milestone(t, id, session, completed);
        if Milestone(t, id, session, completed).Ok? {
          MilestoneKeepsValid(t, id, if completed then SessionCompleted else SessionStarted, SESSION, session);
        }
      }
  }

  /** After any sequence of transactions every row is the replay of its log and no thread has two unfinished cycles. */
  lemma {:induction false} AnyRunIsValid(actions: seq<Action>)
    ensures Valid(Run(EMPTY, actions))
  {
    if actions != [] {
      AnyRunIsValid(actions[..|actions| - 1]);
      StepKeepsValid(Run(EMPTY, actions[..|actions| - 1]), actions[|actions| - 1]);
    }
  }

  /** Sequence 1..n, revision n - 1, and a chain of allowed edges that ends in the stored phase. */
  ghost predicate ChainEndsIn(log: seq<Event>, row: Cycle)
  {
    && log != [] && row.revision == |log| - 1 && row.phase == log[|log| - 1].to
    && (forall k :: 0 <= k < |log| ==> log[k].sequence == k + 1)
    && (forall k :: 0 <= k < |log| - 1 ==> Follows(log[k], log[k + 1]))
  }

  lemma ReplayedChain(log: seq<Event>, row: Cycle)
    requires Replay(log) == State(row.phase, row.status, row.revision)
    ensures ChainEndsIn(log, row)
  {
    ReplayedShape(log);
  }

  /** The log of every cycle any run can reach is such a chain. */
  lemma LogOfAnyRun(actions: seq<Action>, id: string)
    requires id in Run(EMPTY, actions).cycles
    ensures ChainEndsIn(LogOf(Run(EMPTY, actions), id), Run(EMPTY, actions).cycles[id])
  {
    AnyRunIsValid(actions);
    assert Replays(Run(EMPTY, actions), id);
    ReplayedChain(LogOf(Run(EMPTY, actions), id), Run(EMPTY, actions).cycles[id]);
  }

  // ---- what one step can do to a cycle ----------------------------------------------------------

  /** A cycle either stays as it is, or moves to its next revision; a finished one keeps its status and phase. */
  ghost predicate Advances(before: Cycle, after: Cycle)
  {
    && after.thread == before.thread
    && (after == before || after.revision == before.revision + 1)
    && (!before.Unfinished() ==> after.status == before.status && after.phase == before.phase)
  }

  lemma StepAdvances(t: Tables, action: Action, id: string)
    requires id in t.cycles
    ensures id in Step(t, action).cycles && Advances(t.cycles[id], Step(t, action).cycles[id])
    ensures Step(t, action).cycles[id] == t.cycles[id] ==> LogOf(Step(t, action), id) == LogOf(t, id)
  {
    match action
    case Start(_, _, _, _, _, _, _) =>
    case Transition(_, _, _, _, _, _) =>
    case SetStatus(_, _, _, _) =>
    case Observe(_, _, _, _) =>
    case Ingest(thread, session, completed) =>
      if Given(thread).Some? && exists cycle :: ActiveOn(t, thread.value, cycle) {
        var cycle :| ActiveOn(t, thread.value, cycle)
                     && Ingested(t, thread, session, completed) == Milestone(t, cycle, session, completed);
        assert t.cycles[cycle].status == Active;
      }
  }

  lemma {:induction false} RunAdvances(t: Tables, actions: seq<Action>, id: string)
    requires id in t.cycles
    ensures var after := Run(t, actions);
            && id in after.cycles && after.cycles[id].revision >= t.cycles[id].revision
            && after.cycles[id].thread == t.cycles[id].thread
            && (after.cycles[id].revision == t.cycles[id].revision ==> after.cycles[id] == t.cycles[id])
            && (!t.cycles[id].Unfinished() ==>
                  after.cycles[id].status == t.cycles[id].status && after.cycles[id].phase == t.cycles[id].phase)
  {
    if actions != [] {
      RunAdvances(t, actions[..|actions| - 1], id);
      StepAdvances(Run(t, actions[..|actions| - 1]), actions[|actions| - 1], id);
    }
  }

  /** Completed and cancelled cycles keep their status and phase whatever is done afterwards. */
  lemma {:induction false} FinishedIsAbsorbing(t: Tables, actions: seq<Action>, id: string)
    requires id in t.cycles && !t.cycles[id].Unfinished()
    ensures id in Run(t, actions).cycles
    ensures Run(t, actions).cycles[id].status == t.cycles[id].status
    ensures Run(t, actions).cycles[id].phase == t.cycles[id].phase
  {
    RunAdvances(t, actions, id);
  }

  // ---- one winner per revision ------------------------------------------------------------------

  predicate Presents(action: Action, id: string, expected: int)
  {
    match action
    case Transition(cycle, _, revision, _, _, _) => cycle == id && revision == expected
    case SetStatus(cycle, _, revision, _) => cycle == id && revision == expected
    case Observe(cycle, revision, _, _) => cycle == id && revision == expected
    case _ => false
  }

  /** The action at a position of a run presents the revision and changes the cycle. */
  ghost predicate Wins(t: Tables, actions: seq<Action>, i: nat, id: string, expected: int)
    requires i < |actions|
  {
    var before := Run(t, actions[..i]);
    && Presents(actions[i], id, expected)
    && id in before.cycles && Step(before, actions[i]).cycles[id] != before.cycles[id]
  }

  lemma {:induction false} RunJoins(t: Tables, first: seq<Action>, second: seq<Action>)
    ensures Run(t, first + second) == Run(Run(t, first), second)
    decreases |second|
  {
    if second == [] {
      assert first + second == first;
    } else {
      var n := |second| - 1;
      assert (first + second)[..|first| + n] == first + second[..n];
      RunJoins(t, first, second[..n]);
    }
  }

  lemma WinnerRaisesRevision(t: Tables, action: Action, id: string, expected: int)
    requires Presents(action, id, expected) && id in t.cycles && Step(t, action).cycles[id] != t.cycles[id]
    ensures t.cycles[id].revision == expected && Step(t, action).cycles[id].revision == expected + 1
  {
    StepAdvances(t, action, id);
  }

  lemma LaterWinnerPresentsMore(t: Tables, actions: seq<Action>, id: string, expected: int, i: nat, j: nat)
    requires i < j < |actions| && Wins(t, actions, i, id, expected)
    ensures !Wins(t, actions, j, id, expected)
  {
    var before := Run(t, actions[..i]);
    WinnerRaisesRevision(before, actions[i], id, expected);
    assert actions[..i + 1][..i] == actions[..i];
    assert Run(t, actions[..i + 1]) == Step(before, actions[i]);
    assert actions[..j] == actions[..i + 1] + actions[i + 1..j];
    RunJoins(t, actions[..i + 1], actions[i + 1..j]);
    RunAdvances(Step(before, actions[i]), actions[i + 1..j], id);
    if Wins(t, actions, j, id, expected) {
      WinnerRaisesRevision(Run(t, actions[..j]), actions[j], id, expected);
    }
  }

  /** Over any run, of all the operations that present the same revision of a cycle at most one changes it. */
  lemma OneWinnerPerRevision(t: Tables, actions: seq<Action>, id: string, expected: int, i: nat, j: nat)
    requires i < |actions| && j < |actions|
    requires Wins(t, actions, i, id, expected) && Wins(t, actions, j, id, expected)
    ensures i == j
  {
    if i < j {
      LaterWinnerPresentsMore(t, actions, id, expected, i, j);
    } else if j < i {
      LaterWinnerPresentsMore(t, actions, id, expected, j, i);
    }
  }

  // ---- tutor turns ------------------------------------------------------------------------------

  /** How far a tutor turn has come: the cycle of its thread is looked up in one transaction and read in another. */
  datatype Turn =
    | Located(thread: string, found: Option<string>)
    | Snapped(id: string, row: Cycle)

  datatype World = World(tables: Tables, turns: map<nat, Turn>)

  datatype Move =
    | Other(action: Action)
    | Locate(turn: nat, thread: string, found: Option<string>)
    | Read(turn: nat)
    | Apply(turn: nat, target: Phase, run: string, newId: string)

  const AGENT_RUN: string := "agent_run"

  /** The lookup prefers active cycles to paused ones. */
  ghost predicate Locates(t: Tables, thread: string, found: Option<string>)
  {
    match found
    case None => !Busy(t, thread)
    case Some(id) =>
      && id in t.cycles && t.cycles[id].thread == Some(thread) && t.cycles[id].Unfinished()
      && (t.cycles[id].status == Paused ==> forall other :: !ActiveOn(t, thread, other))
  }

  /** What a turn does once it has read its cycle. */
  function TurnAction(turn: Turn, target: Phase, run: string, newId: string): Option<Action>
  {
    match turn
    case Located(thread, None) => Some(Start(newId, true, target, Some(thread), None, "runtime", Some(run)))
    case Located(_, Some(_)) => None
    case Snapped(id, row) =>
      if row.status == Paused then None
      else if target != row.phase && Allowed(row.phase, target)
      then Some(Transition(id, target, row.revision, Runtime, Some(AGENT_RUN), Some(run)))
      else Some(Observe(id, row.revision, AGENT_RUN, run))
  }

  ghost function Moved(w: World, move: Move): World
  {
    match move
    case Other(action) => w.(tables := Step(w.tables, action))
    case Locate(turn, thread, found) =>
      if Locates(w.tables, thread, found) then w.(turns := w.turns[turn := Located(thread, found)]) else w
    case Read(turn) =>
      if turn in w.turns && w.turns[turn].Located? && w.turns[turn].found.Some? && w.turns[turn].found.value in w.tables.cycles
      then
        var id := w.turns[turn].found.value;
        w.(turns := w.turns[turn := Snapped(id, w.tables.cycles[id])])
      else w
    case Apply(turn, target, run, newId) =>
      if turn !in w.turns then w
      else
        var action := TurnAction(w.turns[turn], target, run, newId);
        World(if action.Some? then Step(w.tables, action.value) else w.tables, w.turns - {turn})
  }

  ghost function Played(w: World, moves: seq<Move>): World
  {
    if moves == [] then w else Moved(Played(w, moves[..|moves| - 1]), moves[|moves| - 1])
  }

  const BLANK: World := World(EMPTY, map[])

  /** A snapshot is the row as it was at its revision. */
  ghost predicate Faithful(t: Tables, turn: Turn)
  {
    turn.Snapped? ==>
      && turn.id in t.cycles && turn.row.revision <= t.cycles[turn.id].revision
      && (turn.row.revision == t.cycles[turn.id].revision ==> turn.row == t.cycles[turn.id])
  }

  ghost predicate AllFaithful(w: World)
  {
    forall turn :: turn in w.turns ==> Faithful(w.tables, w.turns[turn])
  }

  lemma StepKeepsFaithful(t: Tables, action: Action, turn: Turn)
    requires Faithful(t, turn)
    ensures Faithful(Step(t, action), turn)
  {
    if turn.Snapped? {
      StepAdvances(t, action, turn.id);
    }
  }

  lemma MoveKeepsFaithful(w: World, move: Move)
    requires AllFaithful(w)
    ensures AllFaithful(Moved(w, move))
  {
    var after := Moved(w, move);
    forall turn | turn in after.turns
      ensures Faithful(after.tables, after.turns[turn])
    {
      match move
      case Other(action) => StepKeepsFaithful(w.tables, action, w.turns[turn]);
      case Apply(one, target, run, newId) =>
        if one in w.turns {
          assert turn in w.turns;
          var action := TurnAction(w.turns[one], target, run, newId);
          if action.Some? {
            StepKeepsFaithful(w.tables, action.value, w.turns[turn]);
          }
        }
      case _ =>
    }
  }

  lemma {:induction false} PlayedIsFaithful(moves: seq<Move>)
    ensures AllFaithful(Played(BLANK, moves))
  {
    if moves != [] {
      PlayedIsFaithful(moves[..|moves| - 1]);
      MoveKeepsFaithful(Played(BLANK, moves[..|moves| - 1]), moves[|moves| - 1]);
    }
  }

  /** In a world a turn is about to append a tutor observation to its cycle. */
  ghost predicate AppendsObservation(w: World, turn: nat, target: Phase, run: string)
  {
    && turn in w.turns && w.turns[turn].Snapped?
    && TurnAction(w.turns[turn], target, run, "") == Some(Observe(w.turns[turn].id, w.turns[turn].row.revision, AGENT_RUN, run))
    && LogOf(Moved(w, Apply(turn, target, run, "")).tables, w.turns[turn].id) != LogOf(w.tables, w.turns[turn].id)
  }

  /**
   * The transaction that appends an observation never looks at the status, and yet under any interleaving the cycle
   * is active at that moment exactly when the turn's own snapshot was; its phase is the snapshot's as well.
   */
  lemma ObservationIsOnActiveExactly(moves: seq<Move>, turn: nat, target: Phase, run: string)
    requires AppendsObservation(Played(BLANK, moves), turn, target, run)
    ensures var w := Played(BLANK, moves);
            var id, row := w.turns[turn].id, w.turns[turn].row;
            && id in w.tables.cycles && w.tables.cycles[id] == row
            && (w.tables.cycles[id].status == Active <==> row.status == Active)
            && row.status != Paused
  {
    PlayedIsFaithful(moves);
    var w := Played(BLANK, moves);
    assert Faithful(w.tables, w.turns[turn]);
    assert w.tables.cycles[w.turns[turn].id].revision == w.turns[turn].row.revision;
  }

  /** The world after the first moves. */
  ghost function At(moves: seq<Move>, k: nat): World
    requires k <= |moves|
  {
    Played(BLANK, moves[..k])
  }

  lemma AtNext(moves: seq<Move>, k: nat)
    requires k < |moves|
    ensures At(moves, k + 1) == Moved(At(moves, k), moves[k])
  {
    assert moves[..k + 1][..k] == moves[..k];
  }

  /** The lookup at a move found the cycle, unfinished, and the turn holds it as found until another one. */
  ghost predicate FoundAt(moves: seq<Move>, turn: nat, thread: string, id: string, located: nat, until: nat)
  {
    && located < until <= |moves| && moves[located] == Locate(turn, thread, Some(id))
    && Locates(At(moves, located).tables, thread, Some(id))
    && forall k :: located < k <= until ==> Lookup(At(moves, k).turns, turn) == Some(Located(thread, Some(id)))
  }

  lemma {:induction false} LocatedSince(moves: seq<Move>, turn: nat, thread: string, id: string, n: nat) returns (located: nat)
    requires n <= |moves| && Lookup(At(moves, n).turns, turn) == Some(Located(thread, Some(id)))
    ensures FoundAt(moves, turn, thread, id, located, n)
    decreases n
  {
    assert n > 0;
    AtNext(moves, n - 1);
    if Lookup(At(moves, n - 1).turns, turn) == Some(Located(thread, Some(id))) {
      located := LocatedSince(moves, turn, thread, id, n - 1);
    } else {
      located := n - 1;
    }
  }

  /** A turn's snapshot was read at one move, from the cycle a lookup had found at an earlier one. */
  ghost predicate ReadAt(moves: seq<Move>, turn: nat, snapshot: Turn, thread: string, located: nat, read: nat)
    requires snapshot.Snapped?
  {
    && read < |moves| && FoundAt(moves, turn, thread, snapshot.id, located, read) && moves[read] == Read(turn)
    && Lookup(At(moves, read).tables.cycles, snapshot.id) == Some(snapshot.row)
  }

  lemma {:induction false} SnappedSince(moves: seq<Move>, turn: nat, snapshot: Turn, n: nat)
    returns (thread: string, located: nat, read: nat)
    requires n <= |moves| && snapshot.Snapped? && Lookup(At(moves, n).turns, turn) == Some(snapshot)
    ensures ReadAt(moves, turn, snapshot, thread, located, read)
    decreases n
  {
    assert n > 0;
    AtNext(moves, n - 1);
    if Lookup(At(moves, n - 1).turns, turn) == Some(snapshot) {
      thread, located, read := SnappedSince(moves, turn, snapshot, n - 1);
    } else {
      var before := At(moves, n - 1).turns[turn];
      thread, read := before.thread, n - 1;
      located := LocatedSince(moves, turn, thread, snapshot.id, n - 1);
    }
  }

  ghost predicate UnfinishedAt(moves: seq<Move>, k: nat, id: string)
    requires k <= |moves|
  {
    id in At(moves, k).tables.cycles && At(moves, k).tables.cycles[id].Unfinished()
  }

  /** The move finishes the cycle. */
  ghost predicate FinishesAt(moves: seq<Move>, k: nat, id: string)
    requires k < |moves|
  {
    UnfinishedAt(moves, k, id) && !UnfinishedAt(moves, k + 1, id)
  }

  lemma MoveAdvances(w: World, move: Move, id: string)
    requires id in w.tables.cycles
    ensures id in Moved(w, move).tables.cycles && Advances(w.tables.cycles[id], Moved(w, move).tables.cycles[id])
  {
    match move
    case Other(action) => StepAdvances(w.tables, action, id);
    case Apply(turn, target, run, newId) =>
      if turn in w.turns && TurnAction(w.turns[turn], target, run, newId).Some? {
        StepAdvances(w.tables, TurnAction(w.turns[turn], target, run, newId).value, id);
      }
    case _ =>
  }

  /** A cycle that is there stays, and if it is finished stays finished. */
  lemma {:induction false} StaysFinished(moves: seq<Move>, id: string, start: nat, end: nat)
    requires start <= end <= |moves| && id in At(moves, start).tables.cycles
    ensures id in At(moves, end).tables.cycles
    ensures !UnfinishedAt(moves, start, id) ==> !UnfinishedAt(moves, end, id)
    decreases end
  {
    if start != end {
      StaysFinished(moves, id, start, end - 1);
      AtNext(moves, end - 1);
      MoveAdvances(At(moves, end - 1), moves[end - 1], id);
    }
  }

  /** Between two moments the cycle was finished exactly when it is finished at the later one and was not at the earlier. */
  lemma {:induction false} FinishedBetween(moves: seq<Move>, id: string, start: nat, end: nat)
    requires start <= end <= |moves| && UnfinishedAt(moves, start, id)
    ensures !UnfinishedAt(moves, end, id) <==> exists k :: start <= k < end && FinishesAt(moves, k, id)
    decreases end
  {
    if start != end {
      FinishedBetween(moves, id, start, end - 1);
      if !UnfinishedAt(moves, end - 1, id) {
        StaysFinished(moves, id, start, end - 1);
        StaysFinished(moves, id, end - 1, end);
      } else if !UnfinishedAt(moves, end, id) {
        assert FinishesAt(moves, end - 1, id);
      }
    }
  }

  /**
   * Under any interleaving the snapshot a turn holds is of a finished cycle exactly when the cycle was finished between
   * the turn's lookup, which found it unfinished, and its read.
   */
  lemma SnapshotIsFinishedExactly(moves: seq<Move>, turn: nat) returns (thread: string, located: nat, read: nat)
    requires turn in Played(BLANK, moves).turns && Played(BLANK, moves).turns[turn].Snapped?
    ensures ReadAt(moves, turn, Played(BLANK, moves).turns[turn], thread, located, read)
    ensures var snapshot := Played(BLANK, moves).turns[turn];
            !snapshot.row.Unfinished() <==> exists k :: located <= k < read && FinishesAt(moves, k, snapshot.id)
  {
    assert moves[..|moves|] == moves;
    var snapshot := Played(BLANK, moves).turns[turn];
    thread, located, read := SnappedSince(moves, turn, snapshot, |moves|);
    FinishedBetween(moves, snapshot.id, located, read);
  }

  /** The snapshot itself may be of a finished cycle, finished between the lookup and the read. */
  lemma ObservationCanFollowCompletion()
    ensures var moves := [
              Other(Start("c", true, Diagnose, Some("t"), None, "learner", None)),
              Locate(0, "t", Some("c")),
              Other(SetStatus("c", Completed, 0, Learner)),
              Read(0)];
            var w := Played(BLANK, moves);
            && AppendsObservation(w, 0, Diagnose, "r")
            && "c" in w.tables.cycles && w.tables.cycles["c"].status == Completed
  {
    var start := Start("c", true, Diagnose, Some("t"), None, "learner", None);
    var complete := SetStatus("c", Completed, 0, Learner);
    var row := Cycle(Diagnose, Active, 0, Some("t"), None);
    var events := FirstCycle(start);
    var w1 := World(Tables(map["c" := row], events), map[]);
    var w2 := World(w1.tables, map[0 := Located("t", Some("c"))]);
    var done := row.(status := Completed, revision := 1);
    var later := CompletedCycle(w1.tables, row, complete);
    var w4 := World(later, map[0 := Snapped("c", done)]);
    assert Moved(BLANK, Other(start)) == w1;
    assert Moved(w1, Locate(0, "t", Some("c"))) == w2;
    assert Moved(w2, Other(complete)) == World(later, w2.turns);
    assert Moved(World(later, w2.turns), Read(0)) == w4;
    FourMoves(Other(start), Locate(0, "t", Some("c")), Other(complete), Read(0));
    ObservationLands(w4, done);
  }

  lemma FirstCycle(start: Action) returns (events: map<string, seq<Event>>)
    requires start == Start("c", true, Diagnose, Some("t"), None, "learner", None)
    ensures Step(EMPTY, start) == Tables(map["c" := Cycle(Diagnose, Active, 0, Some("t"), None)], events)
    ensures "c" in events && |events["c"]| == 1 && events["c"][0].kind == CycleStarted
  {
    events := Step(EMPTY, start).events;
    assert Step(EMPTY, start).cycles == map["c" := Cycle(Diagnose, Active, 0, Some("t"), None)];
  }

  lemma CompletedCycle(t: Tables, row: Cycle, complete: Action) returns (later: Tables)
    requires complete == SetStatus("c", Completed, 0, Learner) && row.status == Active && row.revision == 0
    requires t.cycles == map["c" := row]
    requires "c" in t.events && |t.events["c"]| == 1 && t.events["c"][0].kind == CycleStarted
    ensures later == Step(t, complete) && later.cycles == map["c" := row.(status := Completed, revision := 1)]
    ensures forall k :: 0 <= k < |LogOf(later, "c")| ==> LogOf(later, "c")[k].kind != TutorObservation
  {
    later := Step(t, complete);
  }

  lemma ObservationLands(w: World, row: Cycle)
    requires row.phase == Diagnose && row.status == Completed
    requires w.turns == map[0 := Snapped("c", row)] && w.tables.cycles == map["c" := row]
    requires forall k :: 0 <= k < |LogOf(w.tables, "c")| ==> LogOf(w.tables, "c")[k].kind != TutorObservation
    ensures AppendsObservation(w, 0, Diagnose, "r")
  {
    var action := Observe("c", row.revision, AGENT_RUN, "r");
    assert TurnAction(w.turns[0], Diagnose, "r", "") == Some(action);
    assert |LogOf(Step(w.tables, action), "c")| == |LogOf(w.tables, "c")| + 1;
  }

  lemma FourMoves(a: Move, b: Move, c: Move, d: Move)
    ensures Played(BLANK, [a, b, c, d]) == Moved(Moved(Moved(Moved(BLANK, a), b), c), d)
  {
    assert [a, b, c, d][..3] == [a, b, c] && [a, b, c][..2] == [a, b] && [a, b][..1] == [a] && [a][..0] == [];
    assert Played(BLANK, [a]) == Moved(BLANK, a);
    assert Played(BLANK, [a, b]) == Moved(Played(BLANK, [a]), b);
    assert Played(BLANK, [a, b, c]) == Moved(Played(BLANK, [a, b]), c);
  }

  // ---- milestones of formal sessions ------------------------------------------------------------

  lemma OnlyActive(t: Tables, thread: string, id: string)
    requires OnePerThread(t) && ActiveOn(t, thread, id)
    ensures forall other :: ActiveOn(t, thread, other) ==> other == id
  {
    forall other | ActiveOn(t, thread, other)
      ensures other == id
    {
      assert Rivals(t.cycles[id], t.cycles[other]);
    }
  }

  /** Where a session takes a cycle: a completed one to its assessment, a started one to independent practice. */
  ghost predicate Leads(completed: bool, from: Phase, to: Phase)
  {
    if completed then
      if from in {Diagnose, GuidedPractice, IndependentPractice, Review, Assess} then to == Assess else to == from
    else
      if from in {Diagnose, GuidedPractice, IndependentPractice} then to == IndependentPractice else to == from
  }

  ghost predicate MilestoneLogged(t: Tables, id: string, session: string, completed: bool)
  {
    exists k :: 0 <= k < |LogOf(t, id)| && LogOf(t, id)[k].sourceType == Some("session") && LogOf(t, id)[k].sourceId == Some(session)
                && (if completed then LogOf(t, id)[k].kind.SessionCompleted? else LogOf(t, id)[k].kind.SessionStarted?)
  }

  /** Nothing has changed but one cycle, whose log has grown by one event with the next number. */
  ghost predicate Grows(before: Tables, after: Tables, id: string, kind: EventKind, from: Phase, to: Phase, actor: Actor)
  {
    && (forall other :: other != id ==> Lookup(after.cycles, other) == Lookup(before.cycles, other))
    && (forall other :: other != id ==> LogOf(after, other) == LogOf(before, other))
    && id in after.cycles
    && |LogOf(after, id)| == |LogOf(before, id)| + 1 && LogOf(before, id) <= LogOf(after, id)
    && var event := LogOf(after, id)[|LogOf(before, id)|];
       event.sequence == |LogOf(after, id)| && event.kind == kind && event.from == from && event.to == to && event.actor == actor
  }

  /** The source of the event by which a log has grown, cut to what is stored of it. */
  ghost predicate GrowsBySource(before: Tables, after: Tables, id: string, sourceType: Option<string>, sourceId: Option<string>)
  {
    && |LogOf(before, id)| < |LogOf(after, id)|
    && var event := LogOf(after, id)[|LogOf(before, id)|];
       && event.sourceType == (if sourceType.None? || sourceType.value == "" then None else Some(Head(sourceType.value, 80)))
       && event.sourceId == (if sourceId.None? || sourceId.value == "" then None else Some(Head(sourceId.value, 240)))
  }

  function Head(text: string, limit: nat): string
  {
    if |text| <= limit then text else text[..limit]
  }

  /** An event of the kind from the same complete source is in the log already. */
  ghost predicate IsDuplicate(t: Tables, id: string, kind: EventKind, sourceType: Option<string>, sourceId: Option<string>)
  {
    && sourceType.Some? && sourceType.value != "" && sourceId.Some? && sourceId.value != ""
    && exists k :: 0 <= k < |LogOf(t, id)| && LogOf(t, id)[k].kind == kind
         && LogOf(t, id)[k].sourceType == Some(Head(sourceType.value, 80))
         && LogOf(t, id)[k].sourceId == Some(Head(sourceId.value, 240))
  }

  lemma ClashesAreDuplicates(t: Tables, id: string, kind: EventKind, from: Phase, to: Phase, actor: Actor,
                             sourceType: Option<string>, sourceId: Option<string>, status: Option<Status>)
    ensures Clashes(LogOf(t, id), NewEvent(LogOf(t, id), kind, from, to, actor, sourceType, sourceId, status))
            <==> IsDuplicate(t, id, kind, sourceType, sourceId)
  {
  }

  lemma AppendedGrows(t: Tables, id: string, cycle: Cycle, event: Event)
    requires event.sequence == |LogOf(t, id)| + 1
    ensures Grows(t, Tables(t.cycles[id := cycle], t.events[id := LogOf(t, id) + [event]]), id, event.kind, event.from, event.to,
                  event.actor)
  {
    var after := Tables(t.cycles[id := cycle], t.events[id := LogOf(t, id) + [event]]);
    assert LogOf(after, id) == LogOf(t, id) + [event];
  }

  /** A change is committed exactly when its event is no duplicate; it then is the row and one more event. */
  lemma CommittedGrows(t: Tables, id: string, cycle: Cycle, kind: EventKind, from: Phase, to: Phase, actor: Actor,
                       sourceType: Option<string>, sourceId: Option<string>, status: Option<Status>)
    requires Valid(t)
    ensures var r := Committed(t, id, cycle, NewEvent(LogOf(t, id), kind, from, to, actor, sourceType, sourceId, status));
            if IsDuplicate(t, id, kind, sourceType, sourceId) then r == Err(UniqueViolation)
            else r.Ok? && Grows(t, r.value, id, kind, from, to, actor) && GrowsBySource(t, r.value, id, sourceType, sourceId)
                 && r.value.cycles[id] == cycle && LogOf(r.value, id)[|LogOf(t, id)|].status == status
  {
    var event := NewEvent(LogOf(t, id), kind, from, to, actor, sourceType, sourceId, status);
    NextIsLength(t, id);
    ClashesAreDuplicates(t, id, kind, from, to, actor, sourceType, sourceId, status);
    AppendedGrows(t, id, cycle, event);
    assert (LogOf(t, id) + [event])[|LogOf(t, id)|] == event;
  }

  /** The cycle has moved where the session leads, once, and its log says so. */
  ghost predicate MilestoneReached(before: Tables, after: Tables, id: string, session: string, completed: bool)
    requires id in before.cycles
  {
    && id in after.cycles
    && Grows(before, after, id, if completed then SessionCompleted else SessionStarted, before.cycles[id].phase,
             after.cycles[id].phase, Runtime)
    && GrowsBySource(before, after, id, Some("session"), Some(session))
    && Leads(completed, before.cycles[id].phase, after.cycles[id].phase)
    && after.cycles[id].session == Some(session)
    && after.cycles[id].revision == before.cycles[id].revision + 1
    && after.cycles[id].status == before.cycles[id].status && after.cycles[id].thread == before.cycles[id].thread
  }

  lemma TargetsOfMilestones()
    ensures forall phase :: Leads(true, phase, MilestonePhase(phase, SessionCompleted))
    ensures forall phase :: Leads(false, phase, MilestonePhase(phase, SessionStarted))
  {
  }

  lemma OneActiveIsIngested(t: Tables, thread: string, id: string, session: string, completed: bool)
    requires OnePerThread(t) && ActiveOn(t, thread, id) && thread != ""
    ensures Ingested(t, Some(thread), session, completed) == Milestone(t, id, session, completed)
  {
    OnlyActive(t, thread, id);
  }

  lemma MilestoneIsLogged(t: Tables, id: string, session: string, completed: bool)
    ensures HasSource(LogOf(t, id), if completed then SessionCompleted else SessionStarted, SESSION, session)
            <==> MilestoneLogged(t, id, session, completed)
  {
  }

  /**
   * The first time a session reports a milestone the active cycle of its thread moves where the session leads. It is
   * refused only when the milestone of another session is stored under the same first 240 characters.
   */
  lemma SessionMovesCycle(t: Tables, thread: string, id: string, session: string, completed: bool)
    requires Valid(t) && thread != "" && ActiveOn(t, thread, id) && !MilestoneLogged(t, id, session, completed)
    ensures var r := Ingested(t, Some(thread), session, completed);
            && (r.Ok? <==> |session| <= 240 || !MilestoneLogged(t, id, session[..240], completed))
            && (r.Ok? ==> MilestoneReached(t, r.value, id, session, completed))
  {
    OneActiveIsIngested(t, thread, id, session, completed);
    MilestoneReaches(t, id, session, completed);
  }

  lemma MilestoneReaches(t: Tables, id: string, session: string, completed: bool)
    requires Valid(t) && id in t.cycles && !MilestoneLogged(t, id, session, completed)
    ensures var r := Milestone(t, id, session, completed);
            && (r.Ok? <==> |session| <= 240 || !MilestoneLogged(t, id, session[..240], completed))
            && (r.Ok? ==> MilestoneReached(t, r.value, id, session, completed))
  {
    var kind := if completed then SessionCompleted else SessionStarted;
    var cycle := AfterMilestone(t.cycles[id], kind, session);
    MilestoneIsLogged(t, id, session, completed);
    MilestoneCommits(t, id, kind, SESSION, session);
    CommittedGrows(t, id, cycle, kind, t.cycles[id].phase, cycle.phase, Runtime, Some(SESSION), Some(session), None);
    DuplicateMilestones(t, id, session, completed);
    TargetsOfMilestones();
  }

  lemma DuplicateMilestones(t: Tables, id: string, session: string, completed: bool)
    requires !MilestoneLogged(t, id, session, completed)
    ensures IsDuplicate(t, id, if completed then SessionCompleted else SessionStarted, Some("session"), Some(session))
            <==> |session| > 240 && MilestoneLogged(t, id, session[..240], completed)
  {
  }

  /** A session that belongs to no thread, or to one without an active cycle, changes nothing. */
  lemma NoCycleToMove(t: Tables, thread: Option<string>, session: string, completed: bool)
    requires thread.None? || thread == Some("") || forall id :: !ActiveOn(t, thread.value, id)
    ensures Ingested(t, thread, session, completed) == Ok(t)
  {
  }

  lemma ReachedIsLogged(before: Tables, after: Tables, id: string, session: string, completed: bool)
    requires id in before.cycles && MilestoneReached(before, after, id, session, completed)
    requires !MilestoneLogged(before, id, session, completed)
    ensures MilestoneLogged(after, id, session, completed) <==> 0 < |session| <= 240
  {
    var log, grown := LogOf(before, id), LogOf(after, id);
    forall k | 0 <= k < |log|
      ensures grown[k] == log[k]
    {
      assert grown[..|log|] == log;
    }
  }

  lemma LoggedChangesNothing(t: Tables, thread: string, id: string, session: string, completed: bool)
    requires Valid(t) && thread != "" && ActiveOn(t, thread, id) && MilestoneLogged(t, id, session, completed)
    ensures Ingested(t, Some(thread), session, completed) == Ok(t)
  {
    OneActiveIsIngested(t, thread, id, session, completed);
    MilestoneIsLogged(t, id, session, completed);
  }

  lemma UnloggedChangesSomething(t: Tables, thread: string, id: string, session: string, completed: bool)
    requires Valid(t) && thread != "" && ActiveOn(t, thread, id) && !MilestoneLogged(t, id, session, completed)
    ensures Ingested(t, Some(thread), session, completed) != Ok(t)
  {
    SessionMovesCycle(t, thread, id, session, completed);
  }

  lemma IngestKeepsValid(t: Tables, thread: string, id: string, session: string, completed: bool)
    requires Valid(t) && thread != "" && ActiveOn(t, thread, id) && Ingested(t, Some(thread), session, completed).Ok?
    ensures Valid(Ingested(t, Some(thread), session, completed).value)
  {
    OneActiveIsIngested(t, thread, id, session, completed);
    MilestoneKeepsValid(t, id, if completed then SessionCompleted else SessionStarted, SESSION, session);
  }

  /**
   * Reporting a milestone again changes nothing, exactly when the session's id is stored as it is: it is neither empty
   * nor longer than 240 characters.
   */
  lemma MilestoneTwiceExactly(t: Tables, thread: string, id: string, session: string, completed: bool)
    requires Valid(t) && thread != "" && ActiveOn(t, thread, id)
    requires !MilestoneLogged(t, id, session, completed) && Ingested(t, Some(thread), session, completed).Ok?
    ensures var after := Ingested(t, Some(thread), session, completed).value;
            Ingested(after, Some(thread), session, completed) == Ok(after) <==> 0 < |session| <= 240
  {
    var after := Ingested(t, Some(thread), session, completed).value;
    SessionMovesCycle(t, thread, id, session, completed);
    IngestKeepsValid(t, thread, id, session, completed);
    ReachedIsLogged(t, after, id, session, completed);
    if 0 < |session| <= 240 {
      LoggedChangesNothing(after, thread, id, session, completed);
    } else {
      UnloggedChangesSomething(after, thread, id, session, completed);
    }
  }

  // ---- what each operation does -----------------------------------------------------------------

  /** The phases from which a cycle can move to another. */
  function Sources(to: Phase): set<Phase>
  {
    match to
    case Diagnose => {Teach, Consolidate}
    case Teach => {Diagnose, GuidedPractice, Assess, Review}
    case GuidedPractice => {Diagnose, Teach, IndependentPractice, Assess, Review}
    case IndependentPractice => {Diagnose, GuidedPractice}
    case Assess => {Diagnose, GuidedPractice, IndependentPractice, Review}
    case Review => {Assess, Consolidate}
    case Consolidate => {Assess, Review}
  }

  lemma SourcesAreAllowed(from: Phase, to: Phase)
    ensures Allowed(from, to) <==> from in Sources(to)
  {
  }

  lemma TransitionIs(t: Tables, id: string, to: Phase, expected: int, actor: Actor,
                     sourceType: Option<string>, sourceId: Option<string>)
    requires id in t.cycles && t.cycles[id].revision == expected
    ensures var row := t.cycles[id];
            Transitioned(t, id, to, expected, actor, sourceType, sourceId)
            == if row.status != Active || row.phase !in Sources(to) then Err(InvalidTransition)
               else Committed(t, id, InPhase(row, to), NewEvent(LogOf(t, id), PhaseTransition, row.phase, to, actor,
                                                                sourceType, sourceId, None))
  {
    SourcesAreAllowed(t.cycles[id].phase, to);
  }

  /**
   * A transition is accepted exactly when the cycle is at the revision presented, is active, and comes from a phase
   * that leads to the one asked for, and its source is new. It then moves there and raises the revision, no more.
   */
  lemma TransitionedExactly(t: Tables, id: string, to: Phase, expected: int, actor: Actor,
                            sourceType: Option<string>, sourceId: Option<string>)
    requires Valid(t)
    ensures var r := Transitioned(t, id, to, expected, actor, sourceType, sourceId);
            if id !in t.cycles then r == Err(CycleNotFound)
            else
              var row := t.cycles[id];
              if row.revision != expected then r == Err(StaleRevision)
              else if row.status != Active || row.phase !in Sources(to) then r == Err(InvalidTransition)
              else if IsDuplicate(t, id, PhaseTransition, sourceType, sourceId) then r == Err(UniqueViolation)
              else
                && r.Ok? && Grows(t, r.value, id, PhaseTransition, row.phase, to, actor)
                && GrowsBySource(t, r.value, id, sourceType, sourceId)
                && r.value.cycles[id] == Cycle(to, Active, row.revision + 1, row.thread, row.session)
  {
    if id in t.cycles {
      var row := t.cycles[id];
      if row.revision == expected {
        TransitionIs(t, id, to, expected, actor, sourceType, sourceId);
      }
      CommittedGrows(t, id, InPhase(row, to), PhaseTransition, row.phase, to, actor, sourceType, sourceId, None);
    }
  }

  /** An active cycle can be paused, completed or cancelled, and a paused one resumed or cancelled; nothing else. */
  lemma StatusSetExactly(t: Tables, id: string, status: Status, expected: int, actor: Actor)
    requires Valid(t)
    ensures var r := StatusSet(t, id, status, expected, actor);
            if id !in t.cycles then r == Err(CycleNotFound)
            else
              var row := t.cycles[id];
              if row.revision != expected then r == Err(StaleRevision)
              else if (row.status == Active && status != Active) || (row.status == Paused && status in {Active, Cancelled}) then
                && r.Ok? && Grows(t, r.value, id, StatusTransition, row.phase, row.phase, actor)
                && LogOf(r.value, id)[|LogOf(t, id)|].status == Some(status)
                && r.value.cycles[id] == Cycle(row.phase, status, row.revision + 1, row.thread, row.session)
              else r == Err(InvalidTransition)
  {
    if id in t.cycles {
      var row := t.cycles[id];
      CommittedGrows(t, id, row.(status := status, revision := row.revision + 1), StatusTransition, row.phase, row.phase, actor,
                     None, None, Some(status));
    }
  }

  /**
   * A cycle is started exactly when the request passed its checks, no unfinished cycle is on its thread and its id is
   * new; it is active, at revision zero, and its log says how it started.
   */
  lemma StartedExactly(t: Tables, id: string, valid: bool, phase: Phase, thread: Option<string>, session: Option<string>,
                       sourceType: string, sourceId: Option<string>)
    requires Valid(t)
    ensures var r := Started(t, id, valid, phase, thread, session, sourceType, sourceId);
            var on, of := if thread == Some("") then None else thread, if session == Some("") then None else session;
            if !valid then r == Err(InvalidRequest)
            else if on.Some? && exists other :: other in t.cycles && t.cycles[other].thread == on
                                               && t.cycles[other].status in {Active, Paused}
            then r == Err(ThreadBusy)
            else if id in t.cycles then r == Err(UniqueViolation)
            else
              && r.Ok? && LogOf(t, id) == []
              && Grows(t, r.value, id, CycleStarted, phase, phase, if sourceType == "learner" then Learner else Runtime)
              && GrowsBySource(t, r.value, id, Some(sourceType), sourceId)
              && r.value.cycles[id] == Cycle(phase, Active, 0, on, of)
  {
    if valid && !(Given(thread).Some? && Busy(t, thread.value)) && id !in t.cycles {
      StartGrows(t, id, phase, thread, session, sourceType, sourceId);
    }
  }

  lemma StartGrows(t: Tables, id: string, phase: Phase, thread: Option<string>, session: Option<string>,
                   sourceType: string, sourceId: Option<string>)
    requires Valid(t) && id !in t.cycles && !(Given(thread).Some? && Busy(t, thread.value))
    ensures var r := Started(t, id, true, phase, thread, session, sourceType, sourceId);
            && r.Ok? && LogOf(t, id) == []
            && Grows(t, r.value, id, CycleStarted, phase, phase, if sourceType == "learner" then Learner else Runtime)
            && GrowsBySource(t, r.value, id, Some(sourceType), sourceId)
            && r.value.cycles[id] == Cycle(phase, Active, 0, Given(thread), Given(session))
  {
    CommittedGrows(t, id, Cycle(phase, Active, 0, Given(thread), Given(session)), CycleStarted, phase, phase,
                   if sourceType == "learner" then Learner else Runtime, Some(sourceType), sourceId, None);
  }

  /** An observation adds its event and raises the revision, whatever the status; one already recorded changes nothing. */
  lemma ObservedExactly(t: Tables, id: string, expected: int, sourceType: string, sourceId: string)
    requires Valid(t)
    ensures var r := Observed(t, id, expected, sourceType, sourceId);
            if id !in t.cycles then r == Err(CycleNotFound)
            else
              var row := t.cycles[id];
              if row.revision != expected then r == Err(StaleRevision)
              else if exists k :: 0 <= k < |LogOf(t, id)| && LogOf(t, id)[k].kind == TutorObservation
                          && LogOf(t, id)[k].sourceType == Some(sourceType) && LogOf(t, id)[k].sourceId == Some(sourceId)
              then r == Ok(t)
              else if IsDuplicate(t, id, TutorObservation, Some(sourceType), Some(sourceId)) then r == Err(UniqueViolation)
              else
                && r.Ok? && Grows(t, r.value, id, TutorObservation, row.phase, row.phase, Runtime)
                && GrowsBySource(t, r.value, id, Some(sourceType), Some(sourceId))
                && r.value.cycles[id] == Cycle(row.phase, row.status, row.revision + 1, row.thread, row.session)
  {
    if id in t.cycles {
      var row := t.cycles[id];
      CommittedGrows(t, id, row.(revision := row.revision + 1), TutorObservation, row.phase, row.phase, Runtime,
                     Some(sourceType), Some(sourceId), None);
    }
  }

  /** The observation of the source is in the log, as given or cut to what is stored. */
  ghost predicate IsObserved(t: Tables, id: string, source: string)
  {
    || IsDuplicate(t, id, TutorObservation, Some("agent_run"), Some(source))
    || exists k :: 0 <= k < |LogOf(t, id)| && LogOf(t, id)[k].kind == TutorObservation
         && LogOf(t, id)[k].sourceType == Some("agent_run") && LogOf(t, id)[k].sourceId == Some(source)
  }

  /** A turn that found no cycle starts one in the phase its result calls for, unless its thread has one by now. */
  lemma TurnStarts(w: World, turn: nat, target: Phase, run: string, newId: string)
    requires Valid(w.tables) && turn in w.turns && w.turns[turn].Located? && w.turns[turn].found.None?
    ensures var before, after, thread := w.tables, Moved(w, Apply(turn, target, run, newId)).tables, w.turns[turn].thread;
            if newId in before.cycles || (thread != "" && Busy(before, thread)) then after == before
            else
              && Grows(before, after, newId, CycleStarted, target, target, Runtime)
              && GrowsBySource(before, after, newId, Some("runtime"), Some(run))
              && after.cycles[newId] == Cycle(target, Active, 0, if thread == "" then None else Some(thread), None)
  {
    StartedExactly(w.tables, newId, true, target, Some(w.turns[turn].thread), None, "runtime", Some(run));
  }

  /** A turn does nothing when the cycle it has read is paused, or has changed since. */
  lemma TurnIsLate(w: World, turn: nat, target: Phase, run: string, newId: string)
    requires turn in w.turns && w.turns[turn].Snapped?
    requires var id, row := w.turns[turn].id, w.turns[turn].row;
             row.status == Paused || id !in w.tables.cycles || w.tables.cycles[id].revision != row.revision
    ensures Moved(w, Apply(turn, target, run, newId)).tables == w.tables
  {
  }

  /** Otherwise it moves the cycle to the phase its result calls for, if that is reached from the phase it has read. */
  lemma TurnMoves(w: World, turn: nat, target: Phase, run: string, newId: string)
    requires Valid(w.tables) && turn in w.turns && w.turns[turn].Snapped?
    requires var id, row := w.turns[turn].id, w.turns[turn].row;
             && row.status != Paused && id in w.tables.cycles && w.tables.cycles[id].revision == row.revision
             && row.phase in Sources(target)
    ensures var before, after := w.tables, Moved(w, Apply(turn, target, run, newId)).tables;
            var id, row := w.turns[turn].id, w.tables.cycles[w.turns[turn].id];
            if row.status != Active || row.phase !in Sources(target)
               || IsDuplicate(before, id, PhaseTransition, Some("agent_run"), Some(run)) then after == before
            else
              && Grows(before, after, id, PhaseTransition, row.phase, target, Runtime)
              && GrowsBySource(before, after, id, Some("agent_run"), Some(run))
              && after.cycles[id] == row.(phase := target, revision := row.revision + 1)
  {
    SourcesAreAllowed(w.turns[turn].row.phase, target);
    TransitionedExactly(w.tables, w.turns[turn].id, target, w.turns[turn].row.revision, Runtime, Some("agent_run"), Some(run));
  }

  /** Or else it notes an observation, once. */
  lemma TurnObserves(w: World, turn: nat, target: Phase, run: string, newId: string)
    requires Valid(w.tables) && turn in w.turns && w.turns[turn].Snapped?
    requires var id, row := w.turns[turn].id, w.turns[turn].row;
             && row.status != Paused && id in w.tables.cycles && w.tables.cycles[id].revision == row.revision
             && row.phase !in Sources(target)
    ensures var before, after := w.tables, Moved(w, Apply(turn, target, run, newId)).tables;
            var id, row := w.turns[turn].id, w.tables.cycles[w.turns[turn].id];
            if IsObserved(before, id, run) then after == before
            else
              && Grows(before, after, id, TutorObservation, row.phase, row.phase, Runtime)
              && GrowsBySource(before, after, id, Some("agent_run"), Some(run))
              && after.cycles[id] == row.(revision := row.revision + 1)
  {
    SourcesAreAllowed(w.turns[turn].row.phase, target);
    ObservedExactly(w.tables, w.turns[turn].id, w.turns[turn].row.revision, "agent_run", run);
  }

  /** A turn that found a cycle and has not read it does nothing; each turn is over once it has been applied. */
  lemma TurnEnds(w: World, turn: nat, target: Phase, run: string, newId: string)
    requires turn in w.turns
    ensures turn !in Moved(w, Apply(turn, target, run, newId)).turns
    ensures w.turns[turn].Located? && w.turns[turn].found.Some? ==> Moved(w, Apply(turn, target, run, newId)).tables == w.tables
  {
  }

  // ---- the recommender --------------------------------------------------------------------------

  datatype Advice = Resume | Nowhere | Complete | MoveTo(target: Phase)

  function Recommended(status: Status, phase: Phase, estimate: Option<real>): Advice
  {
    var low := (limit: real) => estimate.Some? && estimate.value < limit;
    var unsure := (limit: real) => estimate.None? || estimate.value < limit;
    if status == Paused then Resume
    else if status == Completed || status == Cancelled then Nowhere
    else
      match phase
      case Diagnose => MoveTo(if unsure(0.45) then Teach else if unsure(0.72) then GuidedPractice else Assess)
      case Teach => MoveTo(GuidedPractice)
      case GuidedPractice => MoveTo(if low(0.45) then Teach else IndependentPractice)
      case IndependentPractice => MoveTo(if low(0.55) then GuidedPractice else Assess)
      case Assess => MoveTo(if unsure(0.8) then Review else Consolidate)
      case Review => MoveTo(if unsure(0.72) then GuidedPractice else Assess)
      case Consolidate => Complete
  }

  /** An estimate that is known and in a range of its values. */
  predicate KnownWithin(estimate: Option<real>, least: real, below: real)
  {
    estimate.Some? && least <= estimate.value < below
  }

  /**
   * What leads to each recommendation. A paused cycle is to be resumed, a finished one goes nowhere, and one that has
   * consolidated is to be completed; an active one moves on by the estimate of its skill.
   */
  lemma RecommendedExactly(status: Status, phase: Phase, estimate: Option<real>)
    requires estimate.Some? ==> 0.0 <= estimate.value <= 1.0
    ensures var advice, active := Recommended(status, phase, estimate), status == Active;
            var weak, strong := KnownWithin(estimate, 0.0, 0.45), KnownWithin(estimate, 0.72, 1.1);
            var toTeach := (phase == Diagnose && (estimate.None? || weak)) || (phase == GuidedPractice && weak);
            var toGuided := || phase == Teach
                            || (phase == Diagnose && KnownWithin(estimate, 0.45, 0.72))
                            || (phase == IndependentPractice && KnownWithin(estimate, 0.0, 0.55))
                            || (phase == Review && (estimate.None? || KnownWithin(estimate, 0.0, 0.72)));
            var toAssess := || (phase in {Diagnose, Review} && strong)
                            || (phase == IndependentPractice && (estimate.None? || KnownWithin(estimate, 0.55, 1.1)));
            && (advice == Resume <==> status == Paused)
            && (advice == Nowhere <==> status == Completed || status == Cancelled)
            && (advice == Complete <==> active && phase == Consolidate)
            && (advice == MoveTo(Teach) <==> active && toTeach)
            && (advice == MoveTo(GuidedPractice) <==> active && toGuided)
            && (advice == MoveTo(IndependentPractice) <==> active && phase == GuidedPractice && !weak)
            && (advice == MoveTo(Assess) <==> active && toAssess)
            && (advice == MoveTo(Review) <==> active && phase == Assess && !KnownWithin(estimate, 0.8, 1.1))
            && (advice == MoveTo(Consolidate) <==> active && phase == Assess && KnownWithin(estimate, 0.8, 1.1))
            && advice != MoveTo(Diagnose)
  {
  }

  /** Every recommended phase can be moved to: the transition at the current revision is accepted. */
  lemma RecommendationIsAccepted(t: Tables, id: string, estimate: Option<real>, actor: Actor)
    requires id in t.cycles && Recommended(t.cycles[id].status, t.cycles[id].phase, estimate).MoveTo?
    ensures var row := t.cycles[id];
            var target := Recommended(row.status, row.phase, estimate).target;
            var r := Transitioned(t, id, target, row.revision, actor, None, None);
            && Allowed(row.phase, target) && r.Ok?
            && r.value.cycles[id].phase == target && r.value.cycles[id].revision == row.revision + 1
  {
  }

  /** The phase of an active cycle after following the recommendation a number of times. */
  function Followed(phase: Phase, estimate: Option<real>, steps: nat): Phase
  {
    if steps == 0 then phase
    else
      var before := Followed(phase, estimate, steps - 1);
      var advice := Recommended(Active, before, estimate);
      if advice.MoveTo? then advice.target else before
  }

  lemma {:induction false} NeverConsolidates(phase: Phase, estimate: Option<real>, steps: nat)
    requires phase != Consolidate && (estimate.None? || estimate.value < 0.8)
    ensures Followed(phase, estimate, steps) != Consolidate
  {
    if steps > 0 {
      NeverConsolidates(phase, estimate, steps - 1);
    }
  }

  lemma {:induction false} StaysConsolidated(phase: Phase, estimate: Option<real>, from: nat, steps: nat)
    requires from <= steps && Followed(phase, estimate, from) == Consolidate
    ensures Followed(phase, estimate, steps) == Consolidate
    decreases steps
  {
    if from < steps {
      StaysConsolidated(phase, estimate, from, steps - 1);
    }
  }

  /** Following the recommendations consolidates within four steps exactly when the estimate is at least 0.8, and otherwise never. */
  lemma ConsolidatesExactly(phase: Phase, estimate: Option<real>, steps: nat)
    requires steps >= 4
    ensures Followed(phase, estimate, steps) == Consolidate
            <==> phase == Consolidate || (estimate.Some? && estimate.value >= 0.8)
  {
    if phase == Consolidate {
      StaysConsolidated(phase, estimate, 0, steps);
    } else if estimate.Some? && estimate.value >= 0.8 {
      var one := Followed(phase, estimate, 1);
      var two := Followed(phase, estimate, 2);
      var three := Followed(phase, estimate, 3);
      StaysConsolidated(phase, estimate, 4, steps);
    } else {
      NeverConsolidates(phase, estimate, steps);
    }
  }
}
