/**
 * Local background jobs: a durable row for each job, an in-memory queue and a set of scheduled jobs, worker threads
 * that claim rows and watch child processes, and submissions, cancellations, recoveries and shutdowns beside them.
 */
module BackgroundJobs {
  import opened Wrappers
  import opened Collections

  datatype Status = Queued | Running | Completed | Failed | Cancelled

  datatype Job = Job(status: Status, priority: int, key: string, attempts: nat)
  {
    predicate Active()
    {
      status == Queued || status == Running
    }
  }

  datatype Entry = Entry(priority: int, sequence: nat, job: nat)

  /** How far a worker thread has come with the job it took from the queue. */
  datatype Stage = Took | Looked | Claimed | Watching | Leaving

  datatype Hold = Hold(job: nat, stage: Stage)

  /** How far a child process has come. */
  datatype Child = Launched | Read(queued: bool) | Executing

  /** A submission holds the lock from its look at the dedupe key until its job is in the queue. */
  datatype Submission =
    | Checked(key: string, priority: int)
    | Inserted(job: nat, priority: int)

  datatype Recovery = NotYet | Enqueuing(left: set<nat>) | Done

  datatype System = System(
    jobs: map<nat, Job>,
    scheduled: set<nat>,
    queue: seq<Entry>,
    sequence: nat,
    workers: map<nat, Hold>,
    children: map<nat, Child>,
    lock: Option<Submission>,
    recovery: Recovery,
    cancels: map<nat, nat>,
    stopped: bool)

  datatype Event =
    | Submit(key: string, priority: int)
    | Insert(id: nat)
    | EnqueueSubmitted
    | StartRecovery
    | RecoverOne(id: nat)
    | Take(worker: nat, index: nat)
    | Look(worker: nat)
    | Claim(worker: nat)
    | Launch(worker: nat, ok: bool)
    | Conclude(worker: nat, failed: bool)
    | Discard(worker: nat)
    | ChildReads(id: nat)
    | ChildMarks(id: nat)
    | ChildEnds(id: nat, ok: bool)
    | ChildDies(id: nat)
    | ReadCancel(client: nat, id: nat)
    | WriteCancel(client: nat)
    | Stop
    | StopJob(id: nat)
    | Restart

  // ---- the steps --------------------------------------------------------------------------------

  function WithStatus(s: System, id: nat, status: Status): System
    requires id in s.jobs
  {
    s.(jobs := s.jobs[id := s.jobs[id].(status := status)])
  }

  function FailedIfActive(s: System, id: nat): System
  {
    if id in s.jobs && s.jobs[id].Active() then WithStatus(s, id, Failed) else s
  }

  /** Puts a job into the queue unless it is scheduled already or the manager has stopped. */
  function Enqueued(s: System, id: nat, priority: int): System
  {
    if id in s.scheduled || s.stopped then s
    else s.(scheduled := s.scheduled + {id}, sequence := s.sequence + 1,
            queue := s.queue + [Entry(priority, s.sequence + 1, id)])
  }

  predicate ActiveKey(s: System, key: string)
  {
    exists id :: id in s.jobs && s.jobs[id].key == key && s.jobs[id].Active()
  }

  /** An entry no other precedes by priority and then by age. */
  predicate First(queue: seq<Entry>, index: nat)
  {
    && index < |queue|
    && forall k :: 0 <= k < |queue| ==>
         queue[index].priority < queue[k].priority
         || (queue[index].priority == queue[k].priority && queue[index].sequence <= queue[k].sequence)
  }

  function QueuedIds(jobs: map<nat, Job>): set<nat>
  {
    set id | id in jobs && jobs[id].status == Queued
  }

  function Interrupted(jobs: map<nat, Job>): map<nat, Job>
  {
    map id | id in jobs :: if jobs[id].status == Running then jobs[id].(status := Failed) else jobs[id]
  }

  function Clamped(priority: int): int
  {
    if priority < 0 then 0 else if priority > 1000 then 1000 else priority
  }

  function Left(left: set<nat>): Recovery
  {
    if left == {} then Done else Enqueuing(left)
  }

  function At(s: System, worker: nat, stage: Stage): System
    requires worker in s.workers
  {
    s.(workers := s.workers[worker := s.workers[worker].(stage := stage)])
  }

  predicate AtStage(s: System, worker: nat, stage: Stage)
  {
    worker in s.workers && s.workers[worker].stage == stage
  }

  /** Submission and recovery. */
  function QueueStep(s: System, e: Event): System
  {
    match e
    case Submit(key, priority) =>
      if s.lock.Some? || (key != "" && ActiveKey(s, key)) then s
      else s.(lock := Some(Checked(key, Clamped(priority))))
    case Insert(id) =>
      if s.lock.Some? && s.lock.value.Checked? && id !in s.jobs
      then s.(jobs := s.jobs[id := Job(Queued, s.lock.value.priority, s.lock.value.key, 0)],
              lock := Some(Inserted(id, s.lock.value.priority)))
      else s
    case EnqueueSubmitted =>
      if s.lock.Some? && s.lock.value.Inserted?
      then Enqueued(s, s.lock.value.job, s.lock.value.priority).(lock := None) else s
    case StartRecovery =>
      if s.recovery.Enqueuing? then s
      else s.(jobs := Interrupted(s.jobs), recovery := Left(QueuedIds(s.jobs)))
    case RecoverOne(id) =>
      if s.lock.None? && s.recovery.Enqueuing? && id in s.recovery.left && id in s.jobs
      then Enqueued(s, id, s.jobs[id].priority).(recovery := Left(s.recovery.left - {id})) else s
    case _ => s
  }

  /** The worker threads. */
  function WorkerStep(s: System, e: Event): System
  {
    match e
    case Take(w, index) =>
      if w !in s.workers && First(s.queue, index)
      then s.(queue := s.queue[..index] + s.queue[index + 1..], workers := s.workers[w := Hold(s.queue[index].job, Took)])
      else s
    case Look(w) =>
      if !AtStage(s, w, Took) then s
      else
        var id := s.workers[w].job;
        At(s, w, if id in s.jobs && s.jobs[id].status == Queued && !s.stopped then Looked else Leaving)
    case Claim(w) =>
      if !AtStage(s, w, Looked) then s
      else
        var id := s.workers[w].job;
        if id in s.jobs && s.jobs[id].status == Queued
        then At(s, w, Stage.Claimed)
             .(jobs := s.jobs[id := s.jobs[id].(status := Running, attempts := s.jobs[id].attempts + 1)])
        else At(s, w, Leaving)
    case Launch(w, ok) =>
      if !AtStage(s, w, Stage.Claimed) then s
      else if ok then At(s, w, Watching).(children := s.children[s.workers[w].job := Launched])
      else FailedIfActive(At(s, w, Leaving), s.workers[w].job)
    case Conclude(w, failed) =>
      if !AtStage(s, w, Watching) then s
      else if failed then FailedIfActive(At(s, w, Leaving), s.workers[w].job)
      else At(s, w, Leaving)
    case Discard(w) =>
      if AtStage(s, w, Leaving) && s.lock.None?
      then s.(workers := s.workers - {w}, scheduled := s.scheduled - {s.workers[w].job}) else s
    case _ => s
  }

  /** The child processes, which share nothing with the manager but the rows. */
  function ChildStep(s: System, e: Event): System
  {
    match e
    case ChildReads(id) =>
      if id in s.children && s.children[id].Launched?
      then
        if id in s.jobs && s.jobs[id].Active()
        then s.(children := s.children[id := Read(s.jobs[id].status == Queued)])
        else s.(children := s.children - {id})
      else s
    case ChildMarks(id) =>
      if id in s.children && s.children[id].Read?
      then
        var marked := s.(children := s.children[id := Executing]);
        if s.children[id].queued && id in s.jobs && s.jobs[id].status == Queued then WithStatus(marked, id, Running) else marked
      else s
    case ChildEnds(id, ok) =>
      if id in s.children && s.children[id].Executing?
      then
        var ended := s.(children := s.children - {id});
        if !ok then FailedIfActive(ended, id)
        else if id in s.jobs && s.jobs[id].status == Running then WithStatus(ended, id, Completed)
        else ended
      else s
    case ChildDies(id) => s.(children := s.children - {id})
    case _ => s
  }

  /** Cancellation reads and writes separately; the write looks at nothing. */
  function EndStep(s: System, e: Event): System
  {
    match e
    case ReadCancel(client, id) =>
      if id in s.jobs && s.jobs[id].Active() then s.(cancels := s.cancels[client := id]) else s
    case WriteCancel(client) =>
      if client in s.cancels && s.cancels[client] in s.jobs
      then WithStatus(s, s.cancels[client], Cancelled).(cancels := s.cancels - {client}) else s
    case Stop => s.(stopped := true)
    case StopJob(id) => if s.stopped then FailedIfActive(s, id) else s
    case Restart => System(s.jobs, {}, [], 0, map[], s.children, None, NotYet, map[], false)
    case _ => s
  }

  function Step(s: System, e: Event): System
  {
    match e
    case Submit(_, _) => QueueStep(s, e)
    case Insert(_) => QueueStep(s, e)
    case EnqueueSubmitted => QueueStep(s, e)
    case StartRecovery => QueueStep(s, e)
    case RecoverOne(_) => QueueStep(s, e)
    case Take(_, _) => WorkerStep(s, e)
    case Look(_) => WorkerStep(s, e)
    case Claim(_) => WorkerStep(s, e)
    case Launch(_, _) => WorkerStep(s, e)
    case Conclude(_, _) => WorkerStep(s, e)
    case Discard(_) => WorkerStep(s, e)
    case ChildReads(_) => ChildStep(s, e)
    case ChildMarks(_) => ChildStep(s, e)
    case ChildEnds(_, _) => ChildStep(s, e)
    case ChildDies(_) => ChildStep(s, e)
    case _ => EndStep(s, e)
  }

  function Trace(s: System, events: seq<Event>): System
  {
    if events == [] then s else Step(Trace(s, events[..|events| - 1]), events[|events| - 1])
  }

  const BLANK: System := System(map[], {}, [], 0, map[], map[], None, NotYet, map[], false)

  // ---- the life of one job ----------------------------------------------------------------------

  /** What a step may do to a row: nothing, the one claim, or an end from which there is no way back. */
  ghost predicate Ages(before: Job, after: Job)
  {
    && after.key == before.key && after.priority == before.priority
    && (!before.Active() ==> !after.Active())
    && (before.status == Running ==> after.status != Queued)
    && (after.attempts == before.attempts || (before.status == Queued && after.status == Running && after.attempts == before.attempts + 1))
  }

  lemma QueueStepAges(s: System, e: Event, id: nat)
    requires id in s.jobs
    ensures id in QueueStep(s, e).jobs && Ages(s.jobs[id], QueueStep(s, e).jobs[id])
  {
  }

  lemma FailingAges(s: System, failed: nat, id: nat)
    requires id in s.jobs
    ensures id in FailedIfActive(s, failed).jobs && Ages(s.jobs[id], FailedIfActive(s, failed).jobs[id])
  {
  }

  lemma ClaimAges(s: System, w: nat, id: nat)
    requires id in s.jobs
    ensures id in WorkerStep(s, Claim(w)).jobs && Ages(s.jobs[id], WorkerStep(s, Claim(w)).jobs[id])
  {
  }

  lemma WorkerStepAges(s: System, e: Event, id: nat)
    requires id in s.jobs
    ensures id in WorkerStep(s, e).jobs && Ages(s.jobs[id], WorkerStep(s, e).jobs[id])
  {
    match e
    case Claim(w) => ClaimAges(s, w, id);
    case Launch(w, ok) => if w in s.workers { FailingAges(At(s, w, Leaving), s.workers[w].job, id); }
    case Conclude(w, failed) => if w in s.workers { FailingAges(At(s, w, Leaving), s.workers[w].job, id); }
    case _ =>
  }

  lemma ChildStepAges(s: System, e: Event, id: nat)
    requires id in s.jobs
    ensures id in ChildStep(s, e).jobs && Ages(s.jobs[id], ChildStep(s, e).jobs[id])
  {
    if e.ChildEnds? {
      FailingAges(s.(children := s.children - {e.id}), e.id, id);
    }
  }

  lemma EndStepAges(s: System, e: Event, id: nat)
    requires id in s.jobs
    ensures id in EndStep(s, e).jobs && Ages(s.jobs[id], EndStep(s, e).jobs[id])
  {
  }

  lemma StepAges(s: System, e: Event, id: nat)
    requires id in s.jobs
    ensures id in Step(s, e).jobs && Ages(s.jobs[id], Step(s, e).jobs[id])
  {
    QueueStepAges(s, e, id);
    WorkerStepAges(s, e, id);
    ChildStepAges(s, e, id);
    EndStepAges(s, e, id);
  }

  /** Once a job has ended no later event, recovery or restart makes it active again. */
  lemma {:induction false} EndedStaysEnded(s: System, events: seq<Event>, id: nat)
    requires id in s.jobs && !s.jobs[id].Active()
    ensures id in Trace(s, events).jobs && !Trace(s, events).jobs[id].Active()
    ensures Trace(s, events).jobs[id].attempts == s.jobs[id].attempts
  {
    if events != [] {
      EndedStaysEnded(s, events[..|events| - 1], id);
      StepAges(Trace(s, events[..|events| - 1]), events[|events| - 1], id);
    }
  }

  // ---- what brings a job from one status to another ---------------------------------------------

  /** A worker that has looked at the queued job takes it, or its child process marks it. */
  ghost predicate Begins(s: System, e: Event, id: nat)
  {
    || (e.Claim? && AtStage(s, e.worker, Looked) && s.workers[e.worker].job == id)
    || (e == ChildMarks(id) && id in s.children && s.children[id] == Read(true))
  }

  /** Its launch or its child fails, the manager is started again over it, or stops. */
  ghost predicate Breaks(s: System, e: Event, id: nat)
    requires id in s.jobs
  {
    || (e.Launch? && !e.ok && AtStage(s, e.worker, Stage.Claimed) && s.workers[e.worker].job == id)
    || (e.Conclude? && e.failed && AtStage(s, e.worker, Watching) && s.workers[e.worker].job == id)
    || (e == ChildEnds(id, false) && id in s.children && s.children[id].Executing?)
    || (e == StopJob(id) && s.stopped)
    || (e == StartRecovery && !s.recovery.Enqueuing? && s.jobs[id].status == Running)
  }

  /** What a step leaves of a job, by the status it had. */
  ghost function NextStatus(s: System, e: Event, id: nat): Status
    requires id in s.jobs
  {
    var status := s.jobs[id].status;
    if e.WriteCancel? && e.client in s.cancels && s.cancels[e.client] == id then Cancelled
    else if status == Queued then (if Begins(s, e, id) then Running else if Breaks(s, e, id) then Failed else Queued)
    else if status == Running then
      if e == ChildEnds(id, true) && id in s.children && s.children[id].Executing? then Completed
      else if Breaks(s, e, id) then Failed
      else Running
    else status
  }

  /** The job is as its next status says, and has been claimed once more if this was a claim. */
  ghost predicate StatusFollowed(s: System, e: Event, id: nat, after: System)
    requires id in s.jobs
  {
    && id in after.jobs
    && after.jobs[id] == s.jobs[id].(status := NextStatus(s, e, id), attempts := after.jobs[id].attempts)
    && after.jobs[id].attempts == s.jobs[id].attempts + if e.Claim? && s.jobs[id].status == Queued && Begins(s, e, id) then 1 else 0
  }

  lemma QueueStepStatus(s: System, e: Event, id: nat)
    requires id in s.jobs && (e.Submit? || e.Insert? || e.EnqueueSubmitted? || e.StartRecovery? || e.RecoverOne?)
    ensures StatusFollowed(s, e, id, QueueStep(s, e))
  {
  }

  lemma ClaimStatus(s: System, w: nat, id: nat)
    requires id in s.jobs
    ensures StatusFollowed(s, Claim(w), id, WorkerStep(s, Claim(w)))
  {
  }

  lemma FailingStatus(s: System, failed: nat, id: nat)
    requires id in s.jobs
    ensures id in FailedIfActive(s, failed).jobs
    ensures FailedIfActive(s, failed).jobs[id]
            == if failed == id && (s.jobs[id].status == Queued || s.jobs[id].status == Running) then s.jobs[id].(status := Failed)
               else s.jobs[id]
  {
  }

  lemma LaunchStatus(s: System, w: nat, ok: bool, id: nat)
    requires id in s.jobs
    ensures StatusFollowed(s, Launch(w, ok), id, WorkerStep(s, Launch(w, ok)))
  {
    if AtStage(s, w, Stage.Claimed) {
      FailingStatus(At(s, w, Leaving), s.workers[w].job, id);
    }
  }

  lemma ConcludeStatus(s: System, w: nat, failed: bool, id: nat)
    requires id in s.jobs
    ensures StatusFollowed(s, Conclude(w, failed), id, WorkerStep(s, Conclude(w, failed)))
  {
    if AtStage(s, w, Watching) {
      FailingStatus(At(s, w, Leaving), s.workers[w].job, id);
    }
  }

  lemma IdleStatus(s: System, e: Event, id: nat)
    requires id in s.jobs && (e.Take? || e.Look? || e.Discard?)
    ensures StatusFollowed(s, e, id, WorkerStep(s, e))
  {
  }

  lemma ReadingStatus(s: System, e: Event, id: nat)
    requires id in s.jobs && (e.ChildReads? || e.ChildDies?)
    ensures StatusFollowed(s, e, id, ChildStep(s, e))
  {
  }

  lemma MarkingStatus(s: System, child: nat, id: nat)
    requires id in s.jobs
    ensures StatusFollowed(s, ChildMarks(child), id, ChildStep(s, ChildMarks(child)))
  {
  }

  lemma EndingStatus(s: System, child: nat, ok: bool, id: nat)
    requires id in s.jobs
    ensures StatusFollowed(s, ChildEnds(child, ok), id, ChildStep(s, ChildEnds(child, ok)))
  {
    FailingStatus(s.(children := s.children - {child}), child, id);
  }

  lemma EndStepStatus(s: System, e: Event, id: nat)
    requires id in s.jobs && (e.ReadCancel? || e.WriteCancel? || e.Stop? || e.Restart?)
    ensures StatusFollowed(s, e, id, EndStep(s, e))
  {
  }

  lemma StoppingStatus(s: System, job: nat, id: nat)
    requires id in s.jobs
    ensures StatusFollowed(s, StopJob(job), id, EndStep(s, StopJob(job)))
  {
    FailingStatus(s, job, id);
  }

  lemma WorkerStepStatus(s: System, e: Event, id: nat)
    requires id in s.jobs && (e.Take? || e.Look? || e.Claim? || e.Launch? || e.Conclude? || e.Discard?)
    ensures StatusFollowed(s, e, id, WorkerStep(s, e))
  {
    match e
    case Claim(w) => ClaimStatus(s, w, id);
    case Launch(w, ok) => LaunchStatus(s, w, ok, id);
    case Conclude(w, failed) => ConcludeStatus(s, w, failed, id);
    case _ => IdleStatus(s, e, id);
  }

  lemma ChildStepStatus(s: System, e: Event, id: nat)
    requires id in s.jobs && (e.ChildReads? || e.ChildMarks? || e.ChildEnds? || e.ChildDies?)
    ensures StatusFollowed(s, e, id, ChildStep(s, e))
  {
    match e
    case ChildMarks(child) => MarkingStatus(s, child, id);
    case ChildEnds(child, ok) => EndingStatus(s, child, ok, id);
    case _ => ReadingStatus(s, e, id);
  }

  /**
   * A job becomes running when it is claimed or marked, completed when its child ends well while it is running, failed
   * when something breaks while it is active, and cancelled whenever a cancellation is written; nothing else about it
   * changes but the count of its claims.
   */
  lemma StatusFollows(s: System, e: Event, id: nat)
    requires id in s.jobs
    ensures StatusFollowed(s, e, id, Step(s, e))
  {
    if e.Submit? || e.Insert? || e.EnqueueSubmitted? || e.StartRecovery? || e.RecoverOne? {
      assert Step(s, e) == QueueStep(s, e);
      QueueStepStatus(s, e, id);
    } else if e.Take? || e.Look? || e.Claim? || e.Launch? || e.Conclude? || e.Discard? {
      assert Step(s, e) == WorkerStep(s, e);
      WorkerStepStatus(s, e, id);
    } else if e.ChildReads? || e.ChildMarks? || e.ChildEnds? || e.ChildDies? {
      assert Step(s, e) == ChildStep(s, e);
      ChildStepStatus(s, e, id);
    } else if e.StopJob? {
      StoppingStatus(s, e.id, id);
    } else {
      EndStepStatus(s, e, id);
    }
  }

  /** How far a worker is after a step, by how far it was. */
  ghost function NextHold(s: System, e: Event, w: nat): Option<Hold>
  {
    if e.Restart? then None
    else if w !in s.workers then
      if e.Take? && e.worker == w && First(s.queue, e.index) then Some(Hold(s.queue[e.index].job, Took)) else None
    else
      var hold := s.workers[w];
      var queued := hold.job in s.jobs && s.jobs[hold.job].status == Queued;
      match hold.stage
      case Took => if e == Look(w) then Some(Hold(hold.job, if queued && !s.stopped then Looked else Leaving)) else Some(hold)
      case Looked => if e == Claim(w) then Some(Hold(hold.job, if queued then Stage.Claimed else Leaving)) else Some(hold)
      case Claimed =>
        if e.Launch? && e.worker == w then Some(Hold(hold.job, if e.ok then Watching else Leaving)) else Some(hold)
      case Watching => if e.Conclude? && e.worker == w then Some(Hold(hold.job, Leaving)) else Some(hold)
      case Leaving => if e == Discard(w) && s.lock.None? then None else Some(hold)
  }

  lemma OthersLeaveWorkers(s: System, e: Event)
    ensures QueueStep(s, e).workers == s.workers && ChildStep(s, e).workers == s.workers
    ensures !e.Restart? ==> EndStep(s, e).workers == s.workers
  {
  }

  lemma TakeFollows(s: System, v: nat, index: nat, w: nat)
    ensures Lookup(WorkerStep(s, Take(v, index)).workers, w) == NextHold(s, Take(v, index), w)
  {
  }

  lemma LookFollows(s: System, v: nat, w: nat)
    ensures Lookup(WorkerStep(s, Look(v)).workers, w) == NextHold(s, Look(v), w)
  {
  }

  lemma ClaimFollows(s: System, v: nat, w: nat)
    ensures Lookup(WorkerStep(s, Claim(v)).workers, w) == NextHold(s, Claim(v), w)
  {
  }

  lemma LaunchingFollows(s: System, v: nat, ok: bool, w: nat)
    ensures Lookup(WorkerStep(s, Launch(v, ok)).workers, w) == NextHold(s, Launch(v, ok), w)
  {
  }

  lemma ConcludeFollows(s: System, v: nat, failed: bool, w: nat)
    ensures Lookup(WorkerStep(s, Conclude(v, failed)).workers, w) == NextHold(s, Conclude(v, failed), w)
  {
  }

  lemma DiscardFollows(s: System, v: nat, w: nat)
    ensures Lookup(WorkerStep(s, Discard(v)).workers, w) == NextHold(s, Discard(v), w)
  {
  }

  lemma WorkerFollows(s: System, e: Event, w: nat)
    requires !e.Restart?
    ensures Lookup(WorkerStep(s, e).workers, w) == NextHold(s, e, w)
  {
    match e
    case Take(v, index) => TakeFollows(s, v, index, w);
    case Look(v) => LookFollows(s, v, w);
    case Claim(v) => ClaimFollows(s, v, w);
    case Launch(v, ok) => LaunchingFollows(s, v, ok, w);
    case Conclude(v, failed) => ConcludeFollows(s, v, failed, w);
    case Discard(v) => DiscardFollows(s, v, w);
    case _ =>
  }

  /** A worker takes, looks, claims, launches, watches and leaves, each once and in that order, or leaves before. */
  lemma StagesFollow(s: System, e: Event, w: nat)
    ensures Lookup(Step(s, e).workers, w) == NextHold(s, e, w)
  {
    OthersLeaveWorkers(s, e);
    if !e.Restart? {
      WorkerFollows(s, e, w);
    }
  }

  /** How far a child process is after a step, by how far it was. */
  ghost function NextChild(s: System, e: Event, id: nat): Option<Child>
  {
    if e.Launch? && e.ok && AtStage(s, e.worker, Stage.Claimed) && s.workers[e.worker].job == id then Some(Launched)
    else if id !in s.children || e == ChildDies(id) then None
    else
      match s.children[id]
      case Launched =>
        if e != ChildReads(id) then Some(Launched)
        else if id in s.jobs && s.jobs[id].status == Queued then Some(Read(true))
        else if id in s.jobs && s.jobs[id].status == Running then Some(Read(false))
        else None
      case Read(queued) => if e == ChildMarks(id) then Some(Executing) else Some(Read(queued))
      case Executing => if e.ChildEnds? && e.id == id then None else Some(Executing)
  }

  lemma ReadsFollow(s: System, child: nat, id: nat)
    ensures Lookup(ChildStep(s, ChildReads(child)).children, id) == NextChild(s, ChildReads(child), id)
  {
  }

  lemma MarksFollow(s: System, child: nat, id: nat)
    ensures Lookup(ChildStep(s, ChildMarks(child)).children, id) == NextChild(s, ChildMarks(child), id)
  {
  }

  lemma EndsFollow(s: System, child: nat, ok: bool, id: nat)
    ensures Lookup(ChildStep(s, ChildEnds(child, ok)).children, id) == NextChild(s, ChildEnds(child, ok), id)
  {
  }

  lemma ChildFollows(s: System, e: Event, id: nat)
    requires !e.Launch?
    ensures Lookup(ChildStep(s, e).children, id) == NextChild(s, e, id)
  {
    match e
    case ChildReads(child) => ReadsFollow(s, child, id);
    case ChildMarks(child) => MarksFollow(s, child, id);
    case ChildEnds(child, ok) => EndsFollow(s, child, ok, id);
    case _ =>
  }

  lemma LaunchFollows(s: System, w: nat, ok: bool, id: nat)
    ensures Lookup(WorkerStep(s, Launch(w, ok)).children, id) == NextChild(s, Launch(w, ok), id)
  {
  }

  lemma OthersLeaveChildren(s: System, e: Event)
    ensures !e.Launch? ==> WorkerStep(s, e).children == s.children
    ensures QueueStep(s, e).children == s.children
  {
  }

  lemma EndsLeaveChildren(s: System, e: Event)
    ensures EndStep(s, e).children == s.children
  {
  }

  /** A child is launched, reads its job, marks it and executes, in that order; it ends before when its job is not active. */
  lemma ChildrenFollow(s: System, e: Event, id: nat)
    ensures Lookup(Step(s, e).children, id) == NextChild(s, e, id)
  {
    OthersLeaveChildren(s, e);
    EndsLeaveChildren(s, e);
    if e.Launch? {
      LaunchFollows(s, e.worker, e.ok, id);
    } else {
      ChildFollows(s, e, id);
    }
  }

  /** A cancellation is asked for only while its job is active; it is written once. A stopped manager stays stopped. */
  lemma CancellationsFollow(s: System, e: Event, client: nat)
    ensures var after := Step(s, e);
            && (after.stopped <==> e.Stop? || (s.stopped && !e.Restart?))
            && Lookup(after.cancels, client)
               == if e.Restart? || (e == WriteCancel(client) && client in s.cancels && s.cancels[client] in s.jobs) then None
                  else if e.ReadCancel? && e.client == client && e.id in s.jobs && s.jobs[e.id].status in {Queued, Running}
                  then Some(e.id) else Lookup(s.cancels, client)
  {
    OthersLeaveCancels(s, e);
    WorkersLeaveCancels(s, e);
  }

  lemma OthersLeaveCancels(s: System, e: Event)
    ensures QueueStep(s, e).cancels == s.cancels && QueueStep(s, e).stopped == s.stopped
    ensures ChildStep(s, e).cancels == s.cancels && ChildStep(s, e).stopped == s.stopped
  {
  }

  lemma WorkersLeaveCancels(s: System, e: Event)
    ensures WorkerStep(s, e).cancels == s.cancels && WorkerStep(s, e).stopped == s.stopped
  {
  }

  // ---- what every trace keeps -------------------------------------------------------------------

  ghost predicate ClaimCounted(jobs: map<nat, Job>)
  {
    forall id :: id in jobs ==> jobs[id].attempts <= 1 && (jobs[id].status == Queued ==> jobs[id].attempts == 0)
  }

  predicate NotQueued(s: System, id: nat)
  {
    id in s.jobs && s.jobs[id].status != Queued
  }

  /** Children and the workers that launch and watch them belong to jobs that have left the queue. */
  ghost predicate BeyondQueue(s: System)
  {
    && (forall id :: id in s.children ==> NotQueued(s, id))
    && (forall w :: w in s.workers && (s.workers[w].stage == Stage.Claimed || s.workers[w].stage == Watching) ==>
          NotQueued(s, s.workers[w].job))
  }

  /** Every old row has aged, and the only new one is queued and unclaimed. */
  ghost predicate RowsAge(before: System, after: System)
  {
    forall id :: id in after.jobs ==>
      if id in before.jobs then Ages(before.jobs[id], after.jobs[id])
      else after.jobs[id].status == Queued && after.jobs[id].attempts == 0
  }

  lemma StepRowsAge(s: System, e: Event)
    ensures s.jobs.Keys <= Step(s, e).jobs.Keys && RowsAge(s, Step(s, e))
    ensures !e.Insert? ==> Step(s, e).jobs.Keys == s.jobs.Keys
  {
    forall id | id in s.jobs
      ensures id in Step(s, e).jobs && Ages(s.jobs[id], Step(s, e).jobs[id])
    {
      StepAges(s, e, id);
    }
    QueueStepRows(s, e);
    WorkerStepRows(s, e);
    ChildStepRows(s, e);
    EndStepRows(s, e);
  }

  lemma QueueStepRows(s: System, e: Event)
    ensures forall id :: id in QueueStep(s, e).jobs && id !in s.jobs ==>
              e.Insert? && QueueStep(s, e).jobs[id].status == Queued && QueueStep(s, e).jobs[id].attempts == 0
  {
  }

  lemma WorkerStepRows(s: System, e: Event)
    ensures WorkerStep(s, e).jobs.Keys == s.jobs.Keys
  {
  }

  lemma ChildStepRows(s: System, e: Event)
    ensures ChildStep(s, e).jobs.Keys == s.jobs.Keys
  {
  }

  lemma EndStepRows(s: System, e: Event)
    ensures EndStep(s, e).jobs.Keys == s.jobs.Keys
  {
  }

  lemma StepKeepsClaimCounted(s: System, e: Event)
    requires ClaimCounted(s.jobs)
    ensures ClaimCounted(Step(s, e).jobs)
  {
    StepRowsAge(s, e);
  }

  lemma StepKeepsNotQueued(s: System, e: Event, id: nat)
    requires NotQueued(s, id)
    ensures NotQueued(Step(s, e), id)
  {
    StepAges(s, e, id);
  }

  /** A worker keeps its job, claims what is no longer queued afterwards, and only then watches it. */
  ghost predicate Serves(before: System, after: System, w: nat)
  {
    w in after.workers ==>
      if w !in before.workers then after.workers[w].stage == Took
      else
        && after.workers[w].job == before.workers[w].job
        && (after.workers[w].stage == Stage.Claimed ==>
              before.workers[w].stage == Stage.Claimed || NotQueued(after, after.workers[w].job))
        && (after.workers[w].stage == Watching ==>
              before.workers[w].stage == Stage.Claimed || before.workers[w].stage == Watching)
  }

  lemma WorkerStepServes(s: System, e: Event, w: nat)
    ensures Serves(s, WorkerStep(s, e), w)
  {
  }

  lemma StepServes(s: System, e: Event, w: nat)
    ensures Serves(s, Step(s, e), w)
  {
    WorkerStepServes(s, e, w);
  }

  lemma WorkerStepChildren(s: System, e: Event, id: nat)
    requires id in WorkerStep(s, e).children && id !in s.children
    ensures e.Launch? && AtStage(s, e.worker, Stage.Claimed) && s.workers[e.worker].job == id
  {
  }

  lemma OtherStepChildren(s: System, e: Event)
    ensures QueueStep(s, e).children == s.children && EndStep(s, e).children == s.children
    ensures ChildStep(s, e).children.Keys <= s.children.Keys
  {
  }

  /** A step brings in a child only for a worker that has claimed its job. */
  lemma NewChild(s: System, e: Event, id: nat)
    requires id in Step(s, e).children && id !in s.children
    ensures exists w :: AtStage(s, w, Stage.Claimed) && s.workers[w].job == id
  {
    OtherStepChildren(s, e);
    WorkerStepChildren(s, e, id);
  }

  lemma StepKeepsBeyondQueue(s: System, e: Event)
    requires BeyondQueue(s)
    ensures BeyondQueue(Step(s, e))
  {
    var after := Step(s, e);
    forall id | id in after.children
      ensures NotQueued(after, id)
    {
      if id !in s.children {
        NewChild(s, e, id);
      }
      assert NotQueued(s, id);
      StepKeepsNotQueued(s, e, id);
    }
    forall w | w in after.workers && (after.workers[w].stage == Stage.Claimed || after.workers[w].stage == Watching)
      ensures NotQueued(after, after.workers[w].job)
    {
      StepServes(s, e, w);
      if AtStage(s, w, Stage.Claimed) || AtStage(s, w, Watching) {
        StepKeepsNotQueued(s, e, s.workers[w].job);
      }
    }
  }

  predicate SameWork(a: Job, b: Job)
  {
    a.Active() && b.Active() && a.key == b.key && a.key != ""
  }

  /** No two active jobs share a key, and no active job has the key of the submission that just looked for one. */
  ghost predicate KeysApart(s: System)
  {
    && (forall a, b :: a in s.jobs && b in s.jobs && SameWork(s.jobs[a], s.jobs[b]) ==> a == b)
    && (s.lock.Some? && s.lock.value.Checked? && s.lock.value.key != "" ==> !ActiveKey(s, s.lock.value.key))
  }

  /** Steps that add no job, reactivate none and leave the lock alone or free it. */
  lemma FewerActive(before: System, after: System)
    requires KeysApart(before) && after.jobs.Keys == before.jobs.Keys && RowsAge(before, after)
    requires after.lock == before.lock || after.lock.None?
    ensures KeysApart(after)
  {
    if after.lock.Some? && after.lock.value.Checked? && ActiveKey(after, after.lock.value.key) {
      var id :| id in after.jobs && after.jobs[id].key == after.lock.value.key && after.jobs[id].Active();
      assert before.jobs[id].Active();
    }
  }

  lemma LockMoves(s: System, e: Event)
    ensures !e.Submit? && !e.Insert? ==> Step(s, e).lock == s.lock || Step(s, e).lock.None?
  {
  }

  lemma StepKeepsKeysApart(s: System, e: Event)
    requires KeysApart(s)
    ensures KeysApart(Step(s, e))
  {
    if !e.Submit? && !e.Insert? {
      StepRowsAge(s, e);
      LockMoves(s, e);
      FewerActive(s, Step(s, e));
    }
  }

  // ---- nothing queued is forgotten --------------------------------------------------------------

  predicate InQueue(s: System, id: nat)
  {
    exists k :: 0 <= k < |s.queue| && s.queue[k].job == id
  }

  predicate Held(s: System, id: nat)
  {
    exists w :: w in s.workers && s.workers[w].job == id
  }

  /** A scheduled job has one place: one entry of the queue or one worker. */
  ghost predicate OnePlace(s: System)
  {
    && (forall id :: id in s.scheduled <==> InQueue(s, id) || Held(s, id))
    && (forall i, j :: 0 <= i < j < |s.queue| ==> s.queue[i].job != s.queue[j].job)
    && (forall v, w :: v in s.workers && w in s.workers && v != w ==> s.workers[v].job != s.workers[w].job)
    && (forall id :: !(InQueue(s, id) && Held(s, id)))
  }

  predicate Awaits(s: System, id: nat)
  {
    || s.recovery.NotYet?
    || (s.recovery.Enqueuing? && id in s.recovery.left)
    || (s.lock.Some? && s.lock.value.Inserted? && s.lock.value.job == id)
  }

  /** Until shutdown a queued job is scheduled or about to be, and a worker past its claim leaves no queued job behind. */
  ghost predicate Covered(s: System)
  {
    !s.stopped ==>
      && (forall id :: id in s.jobs && s.jobs[id].status == Queued ==> id in s.scheduled || Awaits(s, id))
      && (forall w :: w in s.workers && s.workers[w].stage != Took && s.workers[w].stage != Looked ==>
            !(s.workers[w].job in s.jobs && s.jobs[s.workers[w].job].status == Queued))
  }

  ghost predicate SamePlaces(before: System, after: System)
  {
    && after.scheduled == before.scheduled && after.queue == before.queue
    && after.workers.Keys == before.workers.Keys
    && (forall w :: w in after.workers ==> after.workers[w].job == before.workers[w].job)
  }

  lemma SamePlacesKeep(before: System, after: System)
    requires OnePlace(before) && SamePlaces(before, after)
    ensures OnePlace(after)
  {
    forall id
      ensures InQueue(after, id) <==> InQueue(before, id)
      ensures Held(after, id) <==> Held(before, id)
    {
      if Held(before, id) {
        var w :| w in before.workers && before.workers[w].job == id;
        assert w in after.workers && after.workers[w].job == id;
      }
      if Held(after, id) {
        var w :| w in after.workers && after.workers[w].job == id;
        assert w in before.workers && before.workers[w].job == id;
      }
    }
  }

  lemma EnqueuedKeepsOnePlace(s: System, id: nat, priority: int)
    requires OnePlace(s)
    ensures OnePlace(Enqueued(s, id, priority))
    ensures !s.stopped ==> id in Enqueued(s, id, priority).scheduled
  {
    var after := Enqueued(s, id, priority);
    if after != s {
      var n := |s.queue|;
      assert after.queue[n].job == id;
      assert !InQueue(s, id) && !Held(s, id);
      forall other
        ensures InQueue(after, other) <==> InQueue(s, other) || other == id
        ensures Held(after, other) <==> Held(s, other)
      {
        if InQueue(s, other) {
          var k :| 0 <= k < n && s.queue[k].job == other;
          assert after.queue[k].job == other;
        }
      }
      forall i | 0 <= i < n
        ensures after.queue[i].job != id
      {
        assert after.queue[i] == s.queue[i] && InQueue(s, s.queue[i].job);
      }
    }
  }

  lemma TakeKeepsOnePlace(s: System, w: nat, index: nat)
    requires OnePlace(s)
    ensures OnePlace(WorkerStep(s, Take(w, index)))
  {
    var after := WorkerStep(s, Take(w, index));
    if w !in s.workers && First(s.queue, index) {
      var id := s.queue[index].job;
      assert InQueue(s, id) && !Held(s, id);
      assert after.workers[w].job == id;
      forall other
        ensures InQueue(after, other) <==> InQueue(s, other) && other != id
        ensures Held(after, other) <==> Held(s, other) || other == id
      {
        TakenFrom(s.queue, index, other);
        if Held(s, other) {
          var v :| v in s.workers && s.workers[v].job == other;
          assert v in after.workers && after.workers[v].job == other;
        }
      }
      forall v | v in s.workers
        ensures s.workers[v].job != id
      {
        assert Held(s, s.workers[v].job);
      }
    }
  }

  lemma TakenFrom(queue: seq<Entry>, index: nat, id: nat)
    requires index < |queue| && forall i, j :: 0 <= i < j < |queue| ==> queue[i].job != queue[j].job
    ensures var rest := queue[..index] + queue[index + 1..];
            && (forall i, j :: 0 <= i < j < |rest| ==> rest[i].job != rest[j].job)
            && ((exists k :: 0 <= k < |rest| && rest[k].job == id)
                <==> (exists k :: 0 <= k < |queue| && queue[k].job == id) && id != queue[index].job)
  {
    var rest := queue[..index] + queue[index + 1..];
    forall k | 0 <= k < |rest|
      ensures rest[k] == queue[if k < index then k else k + 1]
    {
    }
    if k :| 0 <= k < |queue| && queue[k].job == id && k != index {
      assert rest[if k < index then k else k - 1].job == id;
    }
  }

  lemma DiscardKeepsOnePlace(s: System, w: nat)
    requires OnePlace(s)
    ensures OnePlace(WorkerStep(s, Discard(w)))
  {
    var after := WorkerStep(s, Discard(w));
    if AtStage(s, w, Leaving) && s.lock.None? {
      var id := s.workers[w].job;
      assert Held(s, id);
      forall other
        ensures Held(after, other) <==> Held(s, other) && other != id
        ensures InQueue(after, other) <==> InQueue(s, other)
      {
        if Held(s, other) && other != id {
          var v :| v in s.workers && s.workers[v].job == other;
          assert v in after.workers && after.workers[v].job == other;
        }
      }
    }
  }

  lemma SchedulingKeepsOnePlace(s: System, e: Event)
    requires OnePlace(s) && (e.EnqueueSubmitted? || e.RecoverOne?)
    ensures OnePlace(QueueStep(s, e))
  {
    if QueueStep(s, e) != s {
      var id := if e.RecoverOne? then e.id else s.lock.value.job;
      var priority := if e.RecoverOne? then s.jobs[id].priority else s.lock.value.priority;
      EnqueuedKeepsOnePlace(s, id, priority);
      SamePlacesKeep(Enqueued(s, id, priority), QueueStep(s, e));
    }
  }

  lemma StepKeepsOnePlace(s: System, e: Event)
    requires OnePlace(s)
    ensures OnePlace(Step(s, e))
  {
    match e
    case EnqueueSubmitted => SchedulingKeepsOnePlace(s, e);
    case RecoverOne(_) => SchedulingKeepsOnePlace(s, e);
    case Take(w, index) => TakeKeepsOnePlace(s, w, index);
    case Discard(w) => DiscardKeepsOnePlace(s, w);
    case Restart =>
    case _ =>
      OtherStepPlaces(s, e);
      SamePlacesKeep(s, Step(s, e));
  }

  lemma OtherStepPlaces(s: System, e: Event)
    requires !e.EnqueueSubmitted? && !e.RecoverOne? && !e.Take? && !e.Discard? && !e.Restart?
    ensures SamePlaces(s, Step(s, e))
  {
    QueueStepPlaces(s, e);
    WorkerStepPlaces(s, e);
    ChildStepPlaces(s, e);
    EndStepPlaces(s, e);
  }

  lemma QueueStepPlaces(s: System, e: Event)
    requires !e.EnqueueSubmitted? && !e.RecoverOne?
    ensures SamePlaces(s, QueueStep(s, e))
  {
  }

  lemma ChildStepPlaces(s: System, e: Event)
    ensures SamePlaces(s, ChildStep(s, e))
  {
  }

  lemma EndStepPlaces(s: System, e: Event)
    requires !e.Restart?
    ensures SamePlaces(s, EndStep(s, e))
  {
  }

  lemma StagePlaces(s: System, w: nat, stage: Stage)
    requires w in s.workers
    ensures SamePlaces(s, At(s, w, stage))
  {
  }

  lemma WorkerStepPlaces(s: System, e: Event)
    requires !e.Take? && !e.Discard?
    ensures SamePlaces(s, WorkerStep(s, e))
  {
    match e
    case Look(w) => if w in s.workers { StagePlaces(s, w, Looked); StagePlaces(s, w, Leaving); }
    case Claim(w) => if w in s.workers { StagePlaces(s, w, Stage.Claimed); StagePlaces(s, w, Leaving); }
    case Launch(w, _) => if w in s.workers { StagePlaces(s, w, Watching); StagePlaces(s, w, Leaving); }
    case Conclude(w, _) => if w in s.workers { StagePlaces(s, w, Leaving); }
    case _ =>
  }

  /** Whatever is scheduled, or inserted and about to be, has a row. */
  ghost predicate Known(s: System)
  {
    && s.scheduled <= s.jobs.Keys
    && (s.lock.Some? && s.lock.value.Inserted? ==> s.lock.value.job in s.jobs)
  }

  lemma StepKeepsKnown(s: System, e: Event)
    requires Known(s)
    ensures Known(Step(s, e))
  {
    StepRowsAge(s, e);
    QueueStepKeepsKnown(s, e);
    WorkerStepSchedule(s, e);
    OtherStepsSchedule(s, e);
    LockMoves(s, e);
  }

  lemma QueueStepKeepsKnown(s: System, e: Event)
    requires Known(s)
    ensures Known(QueueStep(s, e))
  {
  }

  lemma WorkerStepSchedule(s: System, e: Event)
    ensures WorkerStep(s, e).scheduled <= s.scheduled
  {
  }

  lemma OtherStepsSchedule(s: System, e: Event)
    ensures ChildStep(s, e).scheduled == s.scheduled
    ensures EndStep(s, e).scheduled <= s.scheduled
  {
  }

  // Coverage, step by step.

  lemma LeftHas(left: set<nat>, id: nat)
    requires id in left
    ensures Left(left).Enqueuing? && id in Left(left).left
  {
  }

  lemma StartRecoveryKeepsCovered(s: System)
    requires Covered(s)
    ensures Covered(QueueStep(s, StartRecovery))
  {
    var after := QueueStep(s, StartRecovery);
    forall id | id in after.jobs && after.jobs[id].status == Queued && !s.recovery.Enqueuing?
      ensures Awaits(after, id)
    {
      LeftHas(QueuedIds(s.jobs), id);
    }
  }

  lemma RecoverOneKeepsCovered(s: System, one: nat)
    requires Covered(s)
    ensures Covered(QueueStep(s, RecoverOne(one)))
  {
    var after := QueueStep(s, RecoverOne(one));
    if after != s && !s.stopped {
      forall id | id in s.jobs && s.jobs[id].status == Queued
        ensures id in after.scheduled || Awaits(after, id)
      {
        if id in s.recovery.left && id != one {
          LeftHas(s.recovery.left - {one}, id);
        }
      }
    }
  }

  lemma HeldIsKnown(s: System, w: nat)
    requires Known(s) && OnePlace(s) && w in s.workers
    ensures s.workers[w].job in s.jobs
  {
    assert Held(s, s.workers[w].job);
  }

  lemma InsertKeepsCovered(s: System, e: Event)
    requires Covered(s) && Known(s) && OnePlace(s) && e.Insert?
    ensures Covered(QueueStep(s, e))
  {
    forall w | w in s.workers
      ensures s.workers[w].job in s.jobs
    {
      HeldIsKnown(s, w);
    }
  }

  lemma SubmissionKeepsCovered(s: System, e: Event)
    requires Covered(s) && (e.Submit? || e.EnqueueSubmitted?)
    ensures Covered(QueueStep(s, e))
  {
  }

  lemma QueueStepKeepsCovered(s: System, e: Event)
    requires Covered(s) && Known(s) && OnePlace(s)
    ensures Covered(QueueStep(s, e))
  {
    match e
    case StartRecovery => StartRecoveryKeepsCovered(s);
    case RecoverOne(id) => RecoverOneKeepsCovered(s, id);
    case Submit(_, _) => SubmissionKeepsCovered(s, e);
    case EnqueueSubmitted => SubmissionKeepsCovered(s, e);
    case Insert(_) => InsertKeepsCovered(s, e);
    case _ =>
  }

  lemma ClaimKeepsCovered(s: System, w: nat)
    requires Covered(s)
    ensures Covered(WorkerStep(s, Claim(w)))
  {
  }

  lemma LookKeepsCovered(s: System, w: nat)
    requires Covered(s)
    ensures Covered(WorkerStep(s, Look(w)))
  {
  }

  lemma FailingKeepsCovered(s: System, id: nat)
    requires Covered(s)
    ensures Covered(FailedIfActive(s, id))
  {
  }

  /** A worker past its claim moves on: its job is not queued, at whatever later stage. */
  lemma LaterStageKeepsCovered(s: System, w: nat, stage: Stage)
    requires Covered(s) && w in s.workers && s.workers[w].stage != Took && s.workers[w].stage != Looked
    ensures Covered(At(s, w, stage))
  {
  }

  lemma LeaveKeepsCovered(s: System, e: Event)
    requires Covered(s) && (e.Launch? || e.Conclude?)
    ensures Covered(WorkerStep(s, e))
  {
    var w := e.worker;
    if w in s.workers && (s.workers[w].stage == Stage.Claimed || s.workers[w].stage == Watching) {
      LaterStageKeepsCovered(s, w, Watching);
      LaterStageKeepsCovered(s, w, Leaving);
      FailingKeepsCovered(At(s, w, Leaving), s.workers[w].job);
    }
  }

  lemma DiscardKeepsCovered(s: System, w: nat)
    requires Covered(s)
    ensures Covered(WorkerStep(s, Discard(w)))
  {
  }

  lemma TakeKeepsCovered(s: System, w: nat, index: nat)
    requires Covered(s)
    ensures Covered(WorkerStep(s, Take(w, index)))
  {
  }

  lemma WorkerStepKeepsCovered(s: System, e: Event)
    requires Covered(s)
    ensures Covered(WorkerStep(s, e))
  {
    match e
    case Take(w, index) => TakeKeepsCovered(s, w, index);
    case Look(w) => LookKeepsCovered(s, w);
    case Claim(w) => ClaimKeepsCovered(s, w);
    case Launch(_, _) => LeaveKeepsCovered(s, e);
    case Conclude(_, _) => LeaveKeepsCovered(s, e);
    case Discard(w) => DiscardKeepsCovered(s, w);
    case _ =>
  }

  lemma ChildStepKeepsCovered(s: System, e: Event)
    requires Covered(s)
    ensures Covered(ChildStep(s, e))
  {
    if e.ChildEnds? {
      FailingKeepsCovered(s.(children := s.children - {e.id}), e.id);
    }
  }

  lemma EndStepKeepsCovered(s: System, e: Event)
    requires Covered(s)
    ensures Covered(EndStep(s, e))
  {
  }

  // ---- any trace --------------------------------------------------------------------------------

  ghost predicate Sound(s: System)
  {
    ClaimCounted(s.jobs) && BeyondQueue(s) && KeysApart(s) && OnePlace(s) && Known(s) && Covered(s)
  }

  lemma StepKeepsCovered(s: System, e: Event)
    requires Covered(s) && Known(s) && OnePlace(s)
    ensures Covered(Step(s, e))
  {
    QueueStepKeepsCovered(s, e);
    WorkerStepKeepsCovered(s, e);
    ChildStepKeepsCovered(s, e);
    EndStepKeepsCovered(s, e);
  }

  lemma StepIsSound(s: System, e: Event)
    requires Sound(s)
    ensures Sound(Step(s, e))
  {
    StepKeepsClaimCounted(s, e);
    StepKeepsBeyondQueue(s, e);
    StepKeepsKeysApart(s, e);
    StepKeepsOnePlace(s, e);
    StepKeepsKnown(s, e);
    StepKeepsCovered(s, e);
  }

  lemma {:induction false} TraceIsSound(events: seq<Event>)
    ensures Sound(Trace(BLANK, events))
  {
    if events != [] {
      TraceIsSound(events[..|events| - 1]);
      StepIsSound(Trace(BLANK, events[..|events| - 1]), events[|events| - 1]);
    }
  }

  /** Every job is claimed at most once in its life, across restarts too, and a child process never claims one. */
  lemma ClaimedAtMostOnce(events: seq<Event>, id: nat)
    requires id in Trace(BLANK, events).jobs
    ensures Trace(BLANK, events).jobs[id].attempts <= 1
    ensures Trace(BLANK, events).jobs[id].status == Queued ==> Trace(BLANK, events).jobs[id].attempts == 0
    ensures Step(Trace(BLANK, events), ChildMarks(id)).jobs == Trace(BLANK, events).jobs
  {
    TraceIsSound(events);
  }

  /** At most one active job has a given key, unless the key is empty. */
  lemma OneActiveJobPerKey(events: seq<Event>, a: nat, b: nat)
    requires a in Trace(BLANK, events).jobs && b in Trace(BLANK, events).jobs
    requires SameWork(Trace(BLANK, events).jobs[a], Trace(BLANK, events).jobs[b])
    ensures a == b
  {
    TraceIsSound(events);
  }

  /** One queue entry or one worker that has not yet claimed, and only one. */
  ghost predicate HasOnePlace(s: System, id: nat)
  {
    && (InQueue(s, id) <==> !Held(s, id))
    && (forall i, j :: 0 <= i < |s.queue| && 0 <= j < |s.queue| && s.queue[i].job == id && s.queue[j].job == id ==> i == j)
    && (forall v, w :: v in s.workers && w in s.workers && s.workers[v].job == id && s.workers[w].job == id ==> v == w)
    && (forall w :: w in s.workers && s.workers[w].job == id ==> s.workers[w].stage == Took || s.workers[w].stage == Looked)
  }

  lemma ScheduledHasOnePlace(s: System, id: nat)
    requires OnePlace(s) && Covered(s) && !s.stopped
    requires id in s.scheduled && id in s.jobs && s.jobs[id].status == Queued
    ensures HasOnePlace(s, id)
  {
  }

  /** Once a recovery is complete, until shutdown every queued job has one place, except the one being submitted. */
  lemma QueuedHasOnePlace(events: seq<Event>, id: nat)
    requires var s := Trace(BLANK, events);
             && !s.stopped && s.recovery.Done? && id in s.jobs && s.jobs[id].status == Queued
             && !(s.lock.Some? && s.lock.value.Inserted? && s.lock.value.job == id)
    ensures HasOnePlace(Trace(BLANK, events), id)
  {
    TraceIsSound(events);
    ScheduledHasOnePlace(Trace(BLANK, events), id);
  }

  // ---- the order of the queue -------------------------------------------------------------------

  /** Entries stand in the order in which they were put in, numbered upwards. */
  ghost predicate Numbered(s: System)
  {
    && (forall i, j :: 0 <= i < j < |s.queue| ==> s.queue[i].sequence < s.queue[j].sequence)
    && (forall i :: 0 <= i < |s.queue| ==> s.queue[i].sequence <= s.sequence)
  }

  lemma EnqueuedKeepsNumbered(s: System, id: nat, priority: int)
    requires Numbered(s)
    ensures Numbered(Enqueued(s, id, priority))
  {
  }

  lemma TakingKeepsNumbered(queue: seq<Entry>, index: nat, bound: nat)
    requires forall i :: 0 <= i < |queue| ==> queue[i].sequence <= bound
    requires index < |queue| && forall i, j :: 0 <= i < j < |queue| ==> queue[i].sequence < queue[j].sequence
    ensures var rest := queue[..index] + queue[index + 1..];
            && (forall i, j :: 0 <= i < j < |rest| ==> rest[i].sequence < rest[j].sequence)
            && (forall i :: 0 <= i < |rest| ==> rest[i].sequence <= bound)
  {
    var rest := queue[..index] + queue[index + 1..];
    forall i | 0 <= i < |rest|
      ensures rest[i] == queue[if i < index then i else i + 1]
    {
    }
  }

  lemma WorkerStepQueue(s: System, e: Event)
    requires !e.Take?
    ensures WorkerStep(s, e).queue == s.queue && WorkerStep(s, e).sequence == s.sequence
  {
  }

  lemma WorkerStepKeepsNumbered(s: System, e: Event)
    requires Numbered(s)
    ensures Numbered(WorkerStep(s, e))
  {
    if !e.Take? {
      WorkerStepQueue(s, e);
    } else if e.worker !in s.workers && First(s.queue, e.index) {
      TakingKeepsNumbered(s.queue, e.index, s.sequence);
    }
  }

  lemma OtherStepQueue(s: System, e: Event)
    ensures !e.EnqueueSubmitted? && !e.RecoverOne? ==>
              QueueStep(s, e).queue == s.queue && QueueStep(s, e).sequence == s.sequence
    ensures ChildStep(s, e).queue == s.queue && ChildStep(s, e).sequence == s.sequence
    ensures !e.Restart? ==> EndStep(s, e).queue == s.queue && EndStep(s, e).sequence == s.sequence
  {
  }

  lemma QueueStepKeepsNumbered(s: System, e: Event)
    requires Numbered(s)
    ensures Numbered(QueueStep(s, e))
  {
    OtherStepQueue(s, e);
    if e.EnqueueSubmitted? && s.lock.Some? && s.lock.value.Inserted? {
      EnqueuedKeepsNumbered(s, s.lock.value.job, s.lock.value.priority);
    }
    if e.RecoverOne? && e.id in s.jobs {
      EnqueuedKeepsNumbered(s, e.id, s.jobs[e.id].priority);
    }
  }

  lemma StepKeepsNumbered(s: System, e: Event)
    requires Numbered(s)
    ensures Numbered(Step(s, e))
  {
    QueueStepKeepsNumbered(s, e);
    WorkerStepKeepsNumbered(s, e);
    OtherStepQueue(s, e);
  }

  lemma {:induction false} TraceIsNumbered(events: seq<Event>)
    ensures Numbered(Trace(BLANK, events))
  {
    if events != [] {
      TraceIsNumbered(events[..|events| - 1]);
      StepKeepsNumbered(Trace(BLANK, events[..|events| - 1]), events[|events| - 1]);
    }
  }

  /** Something can always be taken from a queue that is not empty. */
  lemma {:induction false} SomeEntryIsFirst(queue: seq<Entry>) returns (first: nat)
    requires queue != []
    ensures First(queue, first)
  {
    var n := |queue| - 1;
    if n == 0 {
      first := 0;
    } else {
      var shorter := queue[..n];
      var best := SomeEntryIsFirst(shorter);
      assert forall k :: 0 <= k < n ==> shorter[k] == queue[k];
      first := if queue[n].priority < queue[best].priority
                  || (queue[n].priority == queue[best].priority && queue[n].sequence < queue[best].sequence)
               then n else best;
    }
  }

  lemma InTurn(queue: seq<Entry>, first: nat, k: nat)
    requires forall i, j :: 0 <= i < j < |queue| ==> queue[i].sequence < queue[j].sequence
    requires First(queue, first) && k < |queue| && k != first
    ensures !First(queue, k)
    ensures queue[k].priority == queue[first].priority ==> first < k
  {
    if k < first {
      assert queue[k].sequence < queue[first].sequence;
    } else {
      assert queue[first].sequence < queue[k].sequence;
    }
  }

  /** In any trace one entry comes first: the oldest of the most urgent, so equal priorities are served in turn. */
  lemma ServedInTurn(events: seq<Event>, first: nat, k: nat)
    requires First(Trace(BLANK, events).queue, first) && k < |Trace(BLANK, events).queue| && k != first
    ensures var queue := Trace(BLANK, events).queue;
            && !First(queue, k)
            && (queue[k].priority == queue[first].priority ==> first < k)
  {
    TraceIsNumbered(events);
    InTurn(Trace(BLANK, events).queue, first, k);
  }

  // ---- the manager's own methods ----------------------------------------------------------------

  lemma TraceOneMore(s: System, events: seq<Event>, e: Event)
    ensures Trace(s, events + [e]) == Step(Trace(s, events), e)
  {
    assert (events + [e])[..|events|] == events;
  }

  lemma ThreeEvents(s: System, a: Event, b: Event, c: Event)
    ensures Trace(s, [a, b, c]) == Step(Step(Step(s, a), b), c)
  {
    assert [a, b, c][..2] == [a, b] && [a, b][..1] == [a] && [a][..0] == [];
    assert Trace(s, [a]) == Step(s, a);
    assert Trace(s, [a, b]) == Step(Trace(s, [a]), b);
  }

  lemma InsertedIs(s: System, key: string, priority: int, id: nat)
    requires s.lock.None? && id !in s.jobs && !(key != "" && ActiveKey(s, key))
    ensures Step(Step(s, Submit(key, priority)), Insert(id))
            == s.(jobs := s.jobs[id := Job(Queued, Clamped(priority), key, 0)], lock := Some(Inserted(id, Clamped(priority))))
  {
    var checked := s.(lock := Some(Checked(key, Clamped(priority))));
    assert Step(s, Submit(key, priority)) == checked;
  }

  lemma EnqueuedIs(s: System, id: nat, priority: int)
    ensures QueueStep(s.(lock := Some(Inserted(id, priority))), EnqueueSubmitted) == Enqueued(s.(lock := None), id, priority)
  {
  }

  lemma SubmittedIs(s: System, key: string, priority: int, id: nat)
    requires s.lock.None? && id !in s.jobs && !(key != "" && ActiveKey(s, key))
    ensures Trace(s, [Submit(key, priority), Insert(id), EnqueueSubmitted])
            == Enqueued(s.(jobs := s.jobs[id := Job(Queued, Clamped(priority), key, 0)]), id, Clamped(priority))
  {
    var grown := s.(jobs := s.jobs[id := Job(Queued, Clamped(priority), key, 0)]);
    ThreeEvents(s, Submit(key, priority), Insert(id), EnqueueSubmitted);
    InsertedIs(s, key, priority, id);
    EnqueuedIs(grown, id, Clamped(priority));
    assert grown == grown.(lock := None);
  }

  lemma RecoveryStarts(s: System)
    requires !s.recovery.Enqueuing?
    ensures Trace(s, [StartRecovery]) == s.(jobs := Interrupted(s.jobs), recovery := Left(QueuedIds(s.jobs)))
    ensures QueuedIds(Interrupted(s.jobs)) == QueuedIds(s.jobs)
  {
    TraceOneMore(s, [], StartRecovery);
    assert [] + [StartRecovery] == [StartRecovery];
  }

  lemma RecoveredOneMore(s: System, events: seq<Event>, waiting: set<nat>, id: nat)
    requires var t := Trace(s, events); t.lock.None? && t.recovery == Left(waiting) && id in waiting && id in t.jobs
    ensures var t := Trace(s, events);
            Trace(s, events + [RecoverOne(id)]) == Enqueued(t, id, t.jobs[id].priority).(recovery := Left(waiting - {id}))
  {
    TraceOneMore(s, events, RecoverOne(id));
    LeftHas(waiting, id);
  }

  /** The manager while nobody else holds its lock; its methods leave workers, children and cancellations as they are. */
  class JobManager {
    var jobs: map<nat, Job>
    var scheduled: set<nat>
    var queue: seq<Entry>
    var sequence: nat
    var recovery: Recovery
    var stopped: bool
    ghost var workers: map<nat, Hold>
    ghost var children: map<nat, Child>
    ghost var cancels: map<nat, nat>

    ghost function State(): System
      reads this
    {
      System(jobs, scheduled, queue, sequence, workers, children, None, recovery, cancels, stopped)
    }

    /** A manager started over the rows, and perhaps the child processes, an earlier one left. */
    constructor (jobs: map<nat, Job>, ghost children: map<nat, Child>)
      ensures State() == BLANK.(jobs := jobs, children := children)
    {
      this.jobs := jobs;
      scheduled, queue, sequence, recovery, stopped := {}, [], 0, NotYet, false;
      workers, this.children, cancels := map[], children, map[];
    }

    method Enqueue(id: nat, priority: int)
      modifies this`scheduled, this`queue, this`sequence
      ensures State() == Enqueued(old(State()), id, priority)
    {
      if id in scheduled || stopped {
        return;
      }
      scheduled := scheduled + {id};
      sequence := sequence + 1;
      queue := queue + [Entry(priority, sequence, id)];
    }

    /** Returns the active job with the same key, or the new one, which is then queued. */
    method SubmitJob(key: string, priority: int, id: nat) returns (job: nat)
      requires id !in jobs
      modifies this`jobs, this`scheduled, this`queue, this`sequence
      ensures job in jobs && jobs[job].key == key && jobs[job].Active()
      ensures job !in old(jobs) ==>
                jobs[job].status == Queued && jobs[job].attempts == 0 && 0 <= jobs[job].priority <= 1000
                && (0 <= priority <= 1000 ==> jobs[job].priority == priority)
                && (priority < 0 ==> jobs[job].priority == 0) && (priority > 1000 ==> jobs[job].priority == 1000)
      ensures key != "" && ActiveKey(old(State()), key) ==> State() == old(State())
      ensures !(key != "" && ActiveKey(old(State()), key)) ==>
                job == id && State() == Trace(old(State()), [Submit(key, priority), Insert(id), EnqueueSubmitted])
    {
      if key != "" && exists known :: known in jobs && jobs[known].key == key && jobs[known].Active() {
        job :| job in jobs && jobs[job].key == key && jobs[job].Active();
        return;
      }
      var clean := Clamped(priority);
      SubmittedIs(State(), key, priority, id);
      jobs := jobs[id := Job(Queued, clean, key, 0)];
      Enqueue(id, clean);
      job := id;
    }

    /** Schedules one of the jobs a recovery is still to schedule. */
    method RecoverJob(waiting: set<nat>, id: nat)
      requires id in waiting && id in jobs
      modifies this`scheduled, this`queue, this`sequence, this`recovery
      ensures State() == Enqueued(old(State()), id, jobs[id].priority).(recovery := Left(waiting - {id}))
      ensures stopped || scheduled == old(scheduled) + {id}
    {
      Enqueue(id, jobs[id].priority);
      recovery := Left(waiting - {id});
    }

    /** Marks interrupted jobs as failed and schedules every queued one, in some order. */
    method Recover() returns (ghost events: seq<Event>)
      requires !recovery.Enqueuing?
      modifies this`jobs, this`scheduled, this`queue, this`sequence, this`recovery
      ensures State() == Trace(old(State()), events)
      ensures recovery == Done && jobs == Interrupted(old(jobs))
      ensures !stopped ==> QueuedIds(jobs) <= scheduled
    {
      var waiting := QueuedIds(jobs);
      RecoveryStarts(State());
      events := [StartRecovery];
      jobs := Interrupted(jobs);
      recovery := Left(waiting);
      while waiting != {}
        invariant waiting <= QueuedIds(jobs) && recovery == Left(waiting)
        invariant jobs == Interrupted(old(jobs))
        invariant stopped || QueuedIds(jobs) <= scheduled + waiting
        invariant State() == Trace(old(State()), events)
      {
        var id := Pick(waiting);
        RecoveredOneMore(old(State()), events, waiting, id);
        RecoverJob(waiting, id);
        waiting := waiting - {id};
        events := events + [RecoverOne(id)];
      }
    }
  }
}
