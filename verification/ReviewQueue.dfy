/**
 * The queue of review tasks: it is reconciled with the reviews that are due, and tasks are started and completed
 * together with the practice units that belong to them.
 */
module ReviewQueue {
  import opened Wrappers
  import opened Collections

  datatype Status = Pending | InProgress | Completed | Dismissed
  datatype UnitStatus = Planned | Active | Done | Cancelled

  /** The columns a reconciliation keeps up to date. */
  datatype Details = Details(priority: int, due: string, title: string, action: string, route: string, payload: string)

  datatype Task = Task(status: Status, source: string, session: Option<string>, details: Details, unit: Option<string>)
  {
    predicate Open()
    {
      status == Pending || status == InProgress
    }
  }

  datatype Candidate = Candidate(key: string, source: string, session: Option<string>, details: Details)

  /** Tasks by their stable key, and practice units by their source key. */
  datatype Queue = Queue(tasks: map<string, Task>, units: map<string, UnitStatus>)

  datatype QueueError = UnknownTask | TaskClosed

  const MANAGED: set<string> := {"session_error", "listening_item", "writing_session", "reading_answer"}

  // ---- reconciliation ---------------------------------------------------------------------------

  /** A candidate inserts its task, or refreshes an open one; a closed one stays as it is. */
  function UpsertOne(tasks: map<string, Task>, c: Candidate): map<string, Task>
  {
    if c.key !in tasks then tasks[c.key := Task(Pending, c.source, c.session, c.details, None)]
    else if tasks[c.key].Open() then tasks[c.key := tasks[c.key].(details := c.details)]
    else tasks
  }

  function Upserted(tasks: map<string, Task>, candidates: seq<Candidate>): map<string, Task>
  {
    if candidates == [] then tasks
    else UpsertOne(Upserted(tasks, candidates[..|candidates| - 1]), candidates[|candidates| - 1])
  }

  function KeysOf(candidates: seq<Candidate>): set<string>
  {
    set i | 0 <= i < |candidates| :: candidates[i].key
  }

  function Stale(tasks: map<string, Task>, keys: set<string>): set<string>
  {
    set key | key in tasks && tasks[key].Open() && tasks[key].source in MANAGED && key !in keys
  }

  function Closed(tasks: map<string, Task>, keys: set<string>): map<string, Task>
  {
    map key | key in tasks :: if key in keys then tasks[key].(status := Completed) else tasks[key]
  }

  function Synced(tasks: map<string, Task>, candidates: seq<Candidate>): map<string, Task>
  {
    var upserted := Upserted(tasks, candidates);
    Closed(upserted, Stale(upserted, KeysOf(candidates)))
  }

  function FirstFor(candidates: seq<Candidate>, key: string): Option<Candidate>
  {
    if candidates == [] then None
    else
      var earlier := FirstFor(candidates[..|candidates| - 1], key);
      if earlier.Some? then earlier
      else if candidates[|candidates| - 1].key == key then Some(candidates[|candidates| - 1])
      else None
  }

  function LastFor(candidates: seq<Candidate>, key: string): Option<Candidate>
  {
    if candidates == [] then None
    else if candidates[|candidates| - 1].key == key then Some(candidates[|candidates| - 1])
    else LastFor(candidates[..|candidates| - 1], key)
  }

  /** What a reconciliation should leave under a key, from what was there and the candidates for it. */
  function Reconciled(task: Option<Task>, candidates: seq<Candidate>, key: string): Option<Task>
  {
    var first, last := FirstFor(candidates, key), LastFor(candidates, key);
    match task
    case None => if first.None? || last.None? then None
                 else Some(Task(Pending, first.value.source, first.value.session, last.value.details, None))
    case Some(t) =>
      if !t.Open() then task
      else if last.Some? then Some(t.(details := last.value.details))
      else if t.source in MANAGED then Some(t.(status := Completed))
      else task
  }

  lemma {:induction false} CandidatesFor(candidates: seq<Candidate>, key: string)
    ensures FirstFor(candidates, key).Some? <==> key in KeysOf(candidates)
    ensures LastFor(candidates, key).Some? <==> key in KeysOf(candidates)
  {
    if candidates != [] {
      var n := |candidates| - 1;
      CandidatesFor(candidates[..n], key);
      assert KeysOf(candidates) == KeysOf(candidates[..n]) + {candidates[n].key} by {
        assert forall i :: 0 <= i < n ==> candidates[..n][i] == candidates[i];
      }
    }
  }

  /** Under a key the upserts leave what reconciling would, short of completing stale tasks. */
  lemma {:induction false} UpsertedIs(tasks: map<string, Task>, candidates: seq<Candidate>, key: string)
    ensures Lookup(Upserted(tasks, candidates), key)
            == if Lookup(tasks, key).Some? && LastFor(candidates, key).None? then Lookup(tasks, key)
               else Reconciled(Lookup(tasks, key), candidates, key)
  {
    if candidates != [] {
      var n := |candidates| - 1;
      UpsertedIs(tasks, candidates[..n], key);
      CandidatesFor(candidates, key);
      CandidatesFor(candidates[..n], key);
    }
  }

  /** The reconciliation does to every key exactly what it should. */
  lemma SyncedIsReconciled(tasks: map<string, Task>, candidates: seq<Candidate>, key: string)
    ensures Lookup(Synced(tasks, candidates), key) == Reconciled(Lookup(tasks, key), candidates, key)
  {
    UpsertedIs(tasks, candidates, key);
    CandidatesFor(candidates, key);
  }

  /**
   * Afterwards every candidate has a task, every open managed task is a candidate's and carries its details, and
   * closed tasks are as they were.
   */
  lemma AfterSync(tasks: map<string, Task>, candidates: seq<Candidate>, key: string)
    ensures var after := Synced(tasks, candidates);
            && (key in KeysOf(candidates) ==> key in after)
            && (key in after && after[key].Open() && after[key].source in MANAGED ==>
                  LastFor(candidates, key).Some? && after[key].details == LastFor(candidates, key).value.details)
            && (key in tasks && !tasks[key].Open() ==> key in after && after[key] == tasks[key])
            && (key in tasks ==> key in after)
  {
    SyncedIsReconciled(tasks, candidates, key);
    CandidatesFor(candidates, key);
  }

  lemma ReconciledTwice(task: Option<Task>, candidates: seq<Candidate>, key: string)
    ensures Reconciled(Reconciled(task, candidates, key), candidates, key) == Reconciled(task, candidates, key)
  {
    CandidatesFor(candidates, key);
  }

  /** A second reconciliation with the same candidates changes nothing at all. */
  lemma SyncIsIdempotent(tasks: map<string, Task>, candidates: seq<Candidate>)
    ensures Synced(Synced(tasks, candidates), candidates) == Synced(tasks, candidates)
  {
    var once := Synced(tasks, candidates);
    forall key: string
      ensures Lookup(Synced(once, candidates), key) == Lookup(once, key)
    {
      SyncedIsReconciled(tasks, candidates, key);
      SyncedIsReconciled(once, candidates, key);
      ReconciledTwice(Lookup(tasks, key), candidates, key);
    }
    SameLookups(Synced(once, candidates), once);
  }

  // ---- starting and completing ------------------------------------------------------------------

  function ReviewUnit(key: string): string
  {
    "review:" + key
  }

  /** A new unit, unless one with the same source key exists. */
  function WithUnit(q: Queue, unit: string, status: UnitStatus): Queue
  {
    if unit in q.units then q else q.(units := q.units[unit := status])
  }

  /** The check of a start, and the candidate-free part of its write, which does not look at the status again. */
  function MayStart(q: Queue, key: string): Option<QueueError>
  {
    if key !in q.tasks then Some(UnknownTask)
    else if !q.tasks[key].Open() then Some(TaskClosed)
    else None
  }

  function StartWritten(q: Queue, key: string): Queue
  {
    if key in q.tasks
    then q.(tasks := q.tasks[key := q.tasks[key].(status := InProgress, unit := Some(ReviewUnit(key)))])
    else q
  }

  function Started(q: Queue, candidates: seq<Candidate>, key: string): Queue
  {
    var synced := q.(tasks := Synced(q.tasks, candidates));
    if MayStart(synced, key).Some? then synced else StartWritten(WithUnit(synced, ReviewUnit(key), Active), key)
  }

  function TaskCompleted(q: Queue, key: string): Queue
  {
    if key !in q.tasks then q
    else
      var unit := q.tasks[key].unit;
      q.(tasks := q.tasks[key := q.tasks[key].(status := Completed)],
         units := if unit.Some? && unit.value in q.units then q.units[unit.value := Done] else q.units)
  }

  function UnitCompleted(q: Queue, unit: string): Queue
  {
    if unit !in q.units then q
    else Queue(map key | key in q.tasks ::
                 if q.tasks[key].unit == Some(unit) && q.tasks[key].Open() then q.tasks[key].(status := Completed) else q.tasks[key],
               q.units[unit := Done])
  }

  /** Today's consolidation takes up a pending task, if it is still pending when it is written. */
  function Consolidated(q: Queue, candidates: seq<Candidate>, unit: string, key: string): Queue
  {
    if unit in q.units then q
    else
      var synced := q.(tasks := Synced(q.tasks, candidates));
      if key !in synced.tasks || synced.tasks[key].status != Pending then synced
      else WithUnit(synced, unit, Active).(tasks := synced.tasks[key := synced.tasks[key].(status := InProgress, unit := Some(unit))])
  }

  function Bound(q: Queue, unit: string): Queue
  {
    if unit in q.units && q.units[unit] != Done && q.units[unit] != Cancelled then q.(units := q.units[unit := Active]) else q
  }

  datatype Operation =
    | Sync(candidates: seq<Candidate>)
    | Start(candidates: seq<Candidate>, key: string)
    | CompleteTask(key: string)
    | CompleteUnit(unit: string)
    | Consolidate(candidates: seq<Candidate>, unit: string, key: string)
    | CreateUnit(unit: string, status: UnitStatus)
    | BindUnit(unit: string)

  function Step(q: Queue, op: Operation): Queue
  {
    match op
    case Sync(candidates) => q.(tasks := Synced(q.tasks, candidates))
    case Start(candidates, key) => Started(q, candidates, key)
    case CompleteTask(key) => TaskCompleted(q, key)
    case CompleteUnit(unit) => UnitCompleted(q, unit)
    case Consolidate(candidates, unit, key) => Consolidated(q, candidates, unit, key)
    case CreateUnit(unit, status) => WithUnit(q, unit, status)
    case BindUnit(unit) => Bound(q, unit)
  }

  function Run(q: Queue, ops: seq<Operation>): Queue
  {
    if ops == [] then q else Step(Run(q, ops[..|ops| - 1]), ops[|ops| - 1])
  }

  predicate IsClosed(q: Queue, key: string)
  {
    key in q.tasks && !q.tasks[key].Open()
  }

  lemma StepKeepsClosed(q: Queue, op: Operation, key: string)
    requires IsClosed(q, key)
    ensures IsClosed(Step(q, op), key)
  {
    match op
    case Sync(candidates) => AfterSync(q.tasks, candidates, key);
    case Start(candidates, _) => AfterSync(q.tasks, candidates, key);
    case Consolidate(candidates, _, _) => AfterSync(q.tasks, candidates, key);
    case _ =>
  }

  /** No sequence of operations, each one step, reopens a closed task. */
  lemma {:induction false} ClosedStaysClosed(q: Queue, ops: seq<Operation>, key: string)
    requires IsClosed(q, key)
    ensures IsClosed(Run(q, ops), key)
  {
    if ops != [] {
      ClosedStaysClosed(q, ops[..|ops| - 1], key);
      StepKeepsClosed(Run(q, ops[..|ops| - 1]), ops[|ops| - 1], key);
    }
  }

  /** Completing a unit closes every task it was practised for and no other, and completing a task completes its unit. */
  lemma UnitsAndTasksCloseTogether(q: Queue, unit: string, key: string)
    requires key in q.tasks && unit in q.units
    ensures var closed := UnitCompleted(q, unit);
            && closed.units == q.units[unit := Done] && closed.tasks.Keys == q.tasks.Keys
            && (q.tasks[key].unit == Some(unit) ==> IsClosed(closed, key))
            && (q.tasks[key].unit != Some(unit) ==> closed.tasks[key] == q.tasks[key])
    ensures q.tasks[key].unit == Some(unit) ==>
              IsClosed(TaskCompleted(q, key), key) && TaskCompleted(q, key).units[unit] == Done
  {
  }

  /** An open task that is nobody's candidate is completed exactly when it comes from a source the queue manages. */
  lemma UnnamedTaskCloses(tasks: map<string, Task>, candidates: seq<Candidate>, key: string)
    requires key in tasks && tasks[key].Open() && forall i :: 0 <= i < |candidates| ==> candidates[i].key != key
    ensures Lookup(Synced(tasks, candidates), key)
            == Some(if tasks[key].source == "session_error" || tasks[key].source == "listening_item"
                  || tasks[key].source == "writing_session" || tasks[key].source == "reading_answer"
                    then tasks[key].(status := Completed) else tasks[key])
  {
    SyncedIsReconciled(tasks, candidates, key);
    CandidatesFor(candidates, key);
  }

  /** The unit is there: as it was, or new and under way. */
  ghost predicate IsUnderWay(before: map<string, UnitStatus>, after: map<string, UnitStatus>, unit: string)
  {
    && after.Keys == before.Keys + {unit} && (unit !in before ==> after[unit].Active?)
    && forall other :: other in before ==> after[other] == before[other]
  }

  /** The task is in progress with a unit, and no other task has changed. */
  ghost predicate IsTakenUp(before: map<string, Task>, after: map<string, Task>, key: string, unit: string)
  {
    && key in before && after.Keys == before.Keys
    && after[key].status.InProgress? && after[key].unit == Some(unit)
    && after[key].source == before[key].source && after[key].session == before[key].session && after[key].details == before[key].details
    && forall other :: other in before && other != key ==> after[other] == before[other]
  }

  /**
   * A start reconciles first. An unknown or a closed task is then refused; an open one is taken up with the unit named
   * after it, which is made if there is none.
   */
  lemma StartTakesUp(q: Queue, candidates: seq<Candidate>, key: string)
    ensures var synced, after := Synced(q.tasks, candidates), Started(q, candidates, key);
            var refusal := MayStart(q.(tasks := synced), key);
            && (key !in q.tasks && (forall i :: 0 <= i < |candidates| ==> candidates[i].key != key) <==> refusal == Some(UnknownTask))
            && (refusal == Some(TaskClosed) <==> key in synced && (synced[key].status.Completed? || synced[key].status.Dismissed?))
            && (refusal.Some? ==> after.tasks == synced && after.units == q.units)
            && (refusal.None? ==>
                  IsTakenUp(synced, after.tasks, key, "review:" + key) && IsUnderWay(q.units, after.units, "review:" + key))
  {
    SyncedIsReconciled(q.tasks, candidates, key);
    CandidatesFor(candidates, key);
  }

  /** Consolidating takes up a pending task with the day's unit, unless the day has its unit already. */
  lemma ConsolidationTakesUp(q: Queue, candidates: seq<Candidate>, unit: string, key: string)
    ensures var synced, after := Synced(q.tasks, candidates), Consolidated(q, candidates, unit, key);
            && (unit in q.units ==> after == q)
            && (unit !in q.units && (key !in synced || !synced[key].status.Pending?) ==> after.tasks == synced && after.units == q.units)
            && (unit !in q.units && key in synced && synced[key].status.Pending? ==>
                  IsTakenUp(synced, after.tasks, key, unit) && IsUnderWay(q.units, after.units, unit))
  {
  }

  /** Binding sets a planned unit going; one that is done or cancelled stays so, and tasks are not touched. */
  lemma BindingSetsGoing(q: Queue, unit: string)
    ensures Bound(q, unit).tasks == q.tasks && Bound(q, unit).units.Keys == q.units.Keys
    ensures forall other :: other in q.units ==>
              Bound(q, unit).units[other]
              == if other == unit && (q.units[unit].Planned? || q.units[unit].Active?) then Active else q.units[other]
  {
  }

  // ---- starts as they are -----------------------------------------------------------------------

  /** A start checks in one transaction and writes in another; `starting` holds the tasks checked and not yet written. */
  datatype World = World(queue: Queue, starting: set<string>)

  datatype Move =
    | Whole(op: Operation)
    | CheckStart(candidates: seq<Candidate>, key: string)
    | WriteStart(key: string)

  function Moved(w: World, move: Move): World
  {
    match move
    case Whole(op) => w.(queue := Step(w.queue, op))
    case CheckStart(candidates, key) =>
      var synced := w.queue.(tasks := Synced(w.queue.tasks, candidates));
      World(synced, if MayStart(synced, key).None? then w.starting + {key} else w.starting)
    case WriteStart(key) =>
      if key in w.starting then World(StartWritten(WithUnit(w.queue, ReviewUnit(key), Active), key), w.starting - {key}) else w
  }

  /** A start that is written right after its check is the whole start. */
  lemma UndisturbedStart(q: Queue, candidates: seq<Candidate>, key: string)
    ensures Moved(Moved(World(q, {}), CheckStart(candidates, key)), WriteStart(key)) == World(Started(q, candidates, key), {})
  {
    assert {key} - {key} == {};
  }

  /** A closed task is reopened exactly by the write of a start that was checked while it was still open. */
  lemma ReopenedExactly(w: World, move: Move, key: string)
    requires IsClosed(w.queue, key)
    ensures !IsClosed(Moved(w, move).queue, key) <==> move == WriteStart(key) && key in w.starting
  {
    match move
    case Whole(op) => StepKeepsClosed(w.queue, op, key);
    case CheckStart(candidates, _) => AfterSync(w.queue.tasks, candidates, key);
    case WriteStart(_) =>
  }

  /** It can happen: any open task, checked for a start, completed, and only then written. */
  lemma CompletionBetweenIsUndone(q: Queue, candidates: seq<Candidate>, key: string)
    requires MayStart(q.(tasks := Synced(q.tasks, candidates)), key).None?
    ensures var checked := Moved(World(q, {}), CheckStart(candidates, key));
            var completed := Moved(checked, Whole(CompleteTask(key)));
            IsClosed(completed.queue, key) && !IsClosed(Moved(completed, WriteStart(key)).queue, key)
  {
  }

  // ---- the tables in place ----------------------------------------------------------------------

  class QueueTables {
    var tasks: map<string, Task>
    var units: map<string, UnitStatus>

    function State(): Queue
      reads this
    {
      Queue(tasks, units)
    }

    constructor ()
      ensures State() == Queue(map[], map[])
    {
      tasks, units := map[], map[];
    }

    /** Upserts every candidate and completes the open managed tasks that are nobody's candidate. */
    method SyncTasks(candidates: seq<Candidate>)
      modifies this`tasks
      ensures tasks == Synced(old(tasks), candidates)
      ensures forall key :: Lookup(tasks, key) == Reconciled(Lookup(old(tasks), key), candidates, key)
    {
      for i := 0 to |candidates|
        invariant tasks == Upserted(old(tasks), candidates[..i])
      {
        assert candidates[..i + 1][..i] == candidates[..i];
        var c := candidates[i];
        if c.key !in tasks {
          tasks := tasks[c.key := Task(Pending, c.source, c.session, c.details, None)];
        } else if tasks[c.key].Open() {
          tasks := tasks[c.key := tasks[c.key].(details := c.details)];
        }
      }
      assert candidates[..|candidates|] == candidates;
      tasks := Closed(tasks, Stale(tasks, KeysOf(candidates)));
      forall key: string
        ensures Lookup(tasks, key) == Reconciled(Lookup(old(tasks), key), candidates, key)
      {
        SyncedIsReconciled(old(tasks), candidates, key);
      }
    }

    method CreateUnit(unit: string, status: UnitStatus)
      modifies this`units
      ensures State() == WithUnit(old(State()), unit, status)
    {
      if unit !in units {
        units := units[unit := status];
      }
    }

    method StartTask(candidates: seq<Candidate>, key: string) returns (error: Option<QueueError>)
      modifies this
      ensures State() == Started(old(State()), candidates, key)
      ensures error == MayStart(old(State()).(tasks := Synced(old(tasks), candidates)), key)
    {
      SyncTasks(candidates);
      error := MayStart(State(), key);
      if error.None? {
        CreateUnit(ReviewUnit(key), Active);
        tasks := tasks[key := tasks[key].(status := InProgress, unit := Some(ReviewUnit(key)))];
      }
    }

    method CompleteReviewTask(key: string) returns (error: Option<QueueError>)
      modifies this
      ensures State() == TaskCompleted(old(State()), key)
      ensures error == if key in old(tasks) then None else Some(UnknownTask)
      ensures forall unit :: key in old(tasks) && unit in old(units) && old(tasks)[key].unit == Some(unit) ==>
                IsClosed(State(), key) && unit in units && units[unit] == Done
    {
      forall unit | key in tasks && unit in units
        ensures tasks[key].unit == Some(unit) ==>
                  IsClosed(TaskCompleted(State(), key), key) && TaskCompleted(State(), key).units[unit] == Done
      {
        UnitsAndTasksCloseTogether(State(), unit, key);
      }
      if key !in tasks {
        return Some(UnknownTask);
      }
      var unit := tasks[key].unit;
      tasks := tasks[key := tasks[key].(status := Completed)];
      if unit.Some? && unit.value in units {
        units := units[unit.value := Done];
      }
      return None;
    }

    /** Completes a unit and every open task it was practised for; nothing when there is no such unit. */
    method CompletePracticeUnit(unit: string) returns (found: bool)
      modifies this
      ensures State() == UnitCompleted(old(State()), unit) && (found <==> unit in old(units))
      ensures found ==> units == old(units)[unit := Done]
      ensures forall key :: found && key in old(tasks) ==>
                key in tasks && if old(tasks)[key].unit == Some(unit) then IsClosed(State(), key) else tasks[key] == old(tasks)[key]
    {
      found := unit in units;
      if found {
        forall key | key in tasks
          ensures var closed := UnitCompleted(State(), unit);
                  key in closed.tasks && if tasks[key].unit == Some(unit) then IsClosed(closed, key) else closed.tasks[key] == tasks[key]
        {
          UnitsAndTasksCloseTogether(State(), unit, key);
        }
        units := units[unit := Done];
        tasks := map key | key in tasks ::
          if tasks[key].unit == Some(unit) && tasks[key].Open() then tasks[key].(status := Completed) else tasks[key];
      }
    }
  }
}
