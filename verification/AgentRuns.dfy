/**
 * The life of one durable agent run. Managers claim it under a lease, invoke a model at most once for each attempt,
 * store checkpoints, crash, sweep up after each other and are asked to retry; every step is one transaction.
 */
module AgentRuns {
  import opened Wrappers
  import opened Collections
  import opened Answers

  datatype Status = Queued | Running | Validating | Persisting | Persisted | TestPassed | AwaitingImport | Failed
  datatype Checkpoint =
    | AtQueue
    | AtInvocation
    | CandidateReceived
    | Validated
    | AtPersistence
    | AtEnd
  datatype Backend = Mock | Manual | Model

  /** What the result column holds: nothing, an answer, or the description of a failure. */
  datatype Stored = Empty | Answer(value: Value) | Failure

  datatype Row = Row(
    status: Status,
    checkpoint: Checkpoint,
    result: Stored,
    attempt: int,
    resumes: nat,
    owner: Option<nat>,
    expired: bool)
  {
    predicate Unfinished()
    {
      status == Queued || status == Running || status == Validating || status == Persisting
    }

    /** A saved answer from which the run can go on without a new invocation. */
    predicate Resumable()
    {
      result.Answer? && (checkpoint == CandidateReceived || checkpoint == Validated || checkpoint == AtPersistence)
    }

    predicate Free()
    {
      owner.None? || expired
    }
  }

  /**
   * What the run is for, and what its checks accept: the schema and the rules of its contract, which see an answer in
   * its normal form, and the policy of its turn. Each of them accepts or refuses; none of them changes an answer.
   */
  datatype Job = Job(backend: Backend, schema: Value -> bool, rules: Value -> bool, policy: Value -> bool)

  /** What one manager is doing with the run. */
  datatype Activity =
    | Claimed(saved: Option<Value>)
    | Invoking
    | Answered(answer: Value, vouched: bool)
    | Received(answer: Value, vouched: bool)
    | Accepted(output: Value)
    | Saving(output: Value)
    | Settled
    | Finishing
    | Recovering(seen: Row)

  /** An answer as a model gave it, and whether its provider route vouched for it. */
  datatype Response = Response(answer: Value, vouched: bool)

  /**
   * The row, the managers that are busy with it, the retries that have read the row and not yet written it, the
   * attempts for which a model was invoked, and the answers that came back.
   */
  datatype System = System(
    row: Row,
    managers: map<nat, Activity>,
    retries: map<nat, int>,
    invoked: seq<int>,
    responses: set<Response>)

  datatype Event =
    | Claim(manager: nat)
    | Proceed(manager: nat)
    | Reply(manager: nat, answer: Value, vouched: bool)
    | Store(manager: nat)
    | Judge(manager: nat)
    | Save(manager: nat)
    | Finish(manager: nat)
    | Fail(manager: nat)
    | Release(manager: nat)
    | Crash(manager: nat)
    | Expire
    | Sweep(manager: nat)
    | Recover(manager: nat)
    | ReadRetry(request: nat)
    | WriteRetry(request: nat)

  // ---- the steps --------------------------------------------------------------------------------

  /** An answer in its normal form, if the schema and the rules accept it. */
  function Checked(job: Job, answer: Value): Option<Value>
  {
    var structured := Normalised(answer);
    if !job.schema(structured) then None
    else
      var normal := Normalised(structured);
      if job.rules(normal) then Some(normal) else None
  }

  function Judged(job: Job, answer: Value, vouched: bool): Option<Value>
  {
    var checked := if vouched then Some(answer) else Checked(job, answer);
    if checked.Some? && job.policy(checked.value) then checked else None
  }

  function With(s: System, manager: nat, activity: Activity, row: Row): System
  {
    s.(managers := s.managers[manager := activity], row := row)
  }

  function FailedRow(row: Row): Row
  {
    row.(status := Failed, result := Failure, checkpoint := AtEnd)
  }

  /** A queued run is claimed when its lease is free or already the claimer's own. */
  function Claiming(s: System, manager: nat): System
  {
    if manager !in s.managers && s.row.status == Queued && (s.row.Free() || s.row.owner == Some(manager))
    then With(s, manager, Claimed(if s.row.Resumable() then Some(s.row.result.value) else None),
              s.row.(owner := Some(manager), expired := false))
    else s
  }

  function Proceeding(s: System, manager: nat, saved: Option<Value>): System
  {
    if saved.Some? then With(s, manager, Answered(saved.value, false), s.row.(status := Validating))
    else With(s, manager, Invoking, s.row.(status := Running, checkpoint := AtInvocation))
         .(invoked := s.invoked + [s.row.attempt])
  }

  function Storing(job: Job, s: System, manager: nat, answer: Value, vouched: bool): System
  {
    if job.backend == Manual
    then With(s, manager, Settled, s.row.(status := AwaitingImport, result := Answer(answer), checkpoint := AtEnd))
    else With(s, manager, Received(answer, vouched),
              s.row.(status := Validating, result := Answer(answer), checkpoint := CandidateReceived))
  }

  function Judging(job: Job, s: System, manager: nat, answer: Value, vouched: bool): System
  {
    var output := Judged(job, answer, vouched);
    if output.None? then With(s, manager, Finishing, FailedRow(s.row))
    else With(s, manager, Accepted(output.value), s.row.(result := Answer(output.value), checkpoint := Validated))
  }

  function SavingStep(job: Job, s: System, manager: nat, output: Value): System
  {
    if job.backend == Mock
    then With(s, manager, Settled, s.row.(status := TestPassed, result := Answer(output), checkpoint := AtEnd))
    else With(s, manager, Saving(output), s.row.(status := Persisting, checkpoint := AtPersistence))
  }

  function Sweeping(s: System, manager: nat): System
  {
    if manager !in s.managers && s.row.Unfinished() && s.row.Free()
    then With(s, manager, Recovering(s.row), s.row.(owner := Some(manager), expired := false))
    else s
  }

  function RecoveredRow(row: Row, seen: Row): Row
  {
    if seen.status == Queued then row
    else if seen.Resumable() then row.(status := Queued, resumes := row.resumes + 1)
    else row.(status := Failed, checkpoint := AtEnd, owner := None, expired := false)
  }

  /** The write of a retry does not look at the row again: it uses the attempt number it has read. */
  function RetriedRow(row: Row, read: int): Row
  {
    row.(status := Queued, checkpoint := AtQueue, result := Empty, attempt := read + 1, owner := None, expired := false)
  }

  function Releasing(s: System, manager: nat): System
  {
    var owned := s.row.owner == Some(manager);
    s.(managers := s.managers - {manager}, row := if owned then s.row.(owner := None, expired := false) else s.row)
  }

  /** The lease of a busy manager is renewed; a settled run, like one that failed, renews no lease. */
  predicate Busy(activity: Activity)
  {
    Working(activity) || activity.Recovering?
  }

  predicate Working(activity: Activity)
  {
    !activity.Settled? && !activity.Finishing? && !activity.Recovering?
  }

  /** One step; an event that is not possible changes nothing. */
  function Step(job: Job, s: System, e: Event): System
  {
    match e
    case Claim(m) => Claiming(s, m)
    case Sweep(m) => Sweeping(s, m)
    case Expire =>
      if s.row.owner.Some? && !(s.row.owner.value in s.managers && Busy(s.managers[s.row.owner.value]))
      then s.(row := s.row.(expired := true)) else s
    case ReadRetry(t) =>
      if t !in s.retries && s.row.status == Failed then s.(retries := s.retries[t := s.row.attempt]) else s
    case WriteRetry(t) =>
      if t in s.retries then s.(row := RetriedRow(s.row, s.retries[t]), retries := s.retries - {t}) else s
    case Crash(m) => s.(managers := s.managers - {m})
    case _ => if e.manager in s.managers then Worked(job, s, e, s.managers[e.manager]) else s
  }

  /** A step of a manager that is busy with the run. */
  function Worked(job: Job, s: System, e: Event, activity: Activity): System
    requires !e.Expire? && !e.ReadRetry? && !e.WriteRetry?
  {
    match (e, activity)
    case (Proceed(m), Claimed(saved)) => Proceeding(s, m, saved)
    case (Reply(m, answer, vouched), Invoking) =>
      With(s, m, Answered(answer, vouched), s.row).(responses := s.responses + {Response(answer, vouched)})
    case (Store(m), Answered(answer, vouched)) => Storing(job, s, m, answer, vouched)
    case (Judge(m), Received(answer, vouched)) => Judging(job, s, m, answer, vouched)
    case (Save(m), Accepted(output)) => SavingStep(job, s, m, output)
    case (Finish(m), Saving(output)) =>
      With(s, m, Settled, s.row.(status := Persisted, result := Answer(output), checkpoint := AtEnd))
    case (Fail(m), Recovering(_)) => s
    case (Fail(m), Finishing) => s
    case (Fail(m), _) => With(s, m, Finishing, FailedRow(s.row))
    case (Release(m), Settled) => Releasing(s, m)
    case (Release(m), Finishing) => Releasing(s, m)
    case (Recover(m), Recovering(seen)) => s.(managers := s.managers - {m}, row := RecoveredRow(s.row, seen))
    case _ => s
  }

  function Trace(job: Job, s: System, events: seq<Event>): System
  {
    if events == [] then s else Step(job, Trace(job, s, events[..|events| - 1]), events[|events| - 1])
  }

  /** A run just created: queued, first attempt, nobody busy with it. */
  const NEW: System := System(Row(Queued, AtQueue, Empty, 1, 0, None, false), map[], map[], [], {})

  ghost predicate OncePerAttempt(s: System)
  {
    forall i, j :: 0 <= i < j < |s.invoked| ==> s.invoked[i] != s.invoked[j]
  }

  // ---- what careful runs keep -------------------------------------------------------------------

  /** The lease protects whoever works on the run, and the row is as that manager left it. */
  predicate Holds(s: System, manager: nat, activity: Activity)
  {
    && (Working(activity) ==> s.row.owner == Some(manager) && !s.row.expired)
    && (activity.Claimed? ==> s.row.status == Queued && (activity.saved.Some? <==> s.row.Resumable()))
    && (Working(activity) && !activity.Claimed? ==> s.row.Unfinished() && s.row.status != Queued)
    && (activity.Settled? ==> !s.row.Unfinished() && s.row.status != Failed)
    && (activity.Recovering? && activity.seen.status != Queued ==>
          && s.row.owner == Some(manager) && !s.row.expired
          && s.row.status == activity.seen.status && s.row.status != Queued && s.row.Unfinished()
          && (s.row.Resumable() <==> activity.seen.Resumable()))
  }

  ghost predicate Sound(s: System)
  {
    && (forall m :: m in s.managers ==> Holds(s, m, s.managers[m]))
    && (forall m, n :: m in s.managers && n in s.managers && s.managers[m].Settled? && s.managers[n].Settled? ==> m == n)
    && OncePerAttempt(s)
    && (forall i :: 0 <= i < |s.invoked| ==> s.invoked[i] <= s.row.attempt)
    && (s.row.attempt in s.invoked && s.row.status == Queued ==> s.row.Resumable())
    && (s.row.Resumable() ==> s.row.attempt in s.invoked)
    && (s.row.status != Queued && s.row.status != Failed ==> s.row.attempt in s.invoked)
    && (s.row.expired ==> s.row.owner.Some?)
  }

  /** A retry writes with care when the row it has read is still the row it overwrites. */
  predicate Careful(s: System, e: Event)
  {
    e.WriteRetry? && e.request in s.retries ==> s.row.status == Failed && s.row.attempt == s.retries[e.request]
  }

  lemma ClaimIsSound(s: System, m: nat)
    requires Sound(s)
    ensures Sound(Claiming(s, m))
  {
  }

  lemma ProceedIsSound(s: System, m: nat)
    requires Sound(s) && m in s.managers && s.managers[m].Claimed?
    ensures Sound(Proceeding(s, m, s.managers[m].saved))
  {
    assert Holds(s, m, s.managers[m]);
    var after := Proceeding(s, m, s.managers[m].saved);
    if s.managers[m].saved.None? {
      assert s.row.attempt !in s.invoked;
      assert after.invoked == s.invoked + [s.row.attempt];
    }
    forall n | n in after.managers
      ensures Holds(after, n, after.managers[n])
    {
      assert n in s.managers && Holds(s, n, s.managers[n]);
    }
  }

  lemma AnswerIsSound(job: Job, s: System, e: Event)
    requires Sound(s) && (e.Reply? || e.Store? || e.Judge?) && e.manager in s.managers
    ensures Sound(Worked(job, s, e, s.managers[e.manager]))
  {
    assert Holds(s, e.manager, s.managers[e.manager]);
    var after := Worked(job, s, e, s.managers[e.manager]);
    forall n | n in after.managers
      ensures Holds(after, n, after.managers[n])
    {
      assert n in s.managers && Holds(s, n, s.managers[n]);
    }
  }

  lemma OutcomeIsSound(job: Job, s: System, e: Event)
    requires Sound(s) && (e.Save? || e.Finish? || e.Fail?) && e.manager in s.managers
    ensures Sound(Worked(job, s, e, s.managers[e.manager]))
  {
    assert Holds(s, e.manager, s.managers[e.manager]);
    var after := Worked(job, s, e, s.managers[e.manager]);
    forall n | n in after.managers
      ensures Holds(after, n, after.managers[n])
    {
      assert n in s.managers && Holds(s, n, s.managers[n]);
    }
  }

  lemma EndIsSound(job: Job, s: System, e: Event)
    requires Sound(s) && (e.Release? || e.Recover?) && e.manager in s.managers
    ensures Sound(Worked(job, s, e, s.managers[e.manager]))
  {
    assert Holds(s, e.manager, s.managers[e.manager]);
    var after := Worked(job, s, e, s.managers[e.manager]);
    forall n | n in after.managers
      ensures Holds(after, n, after.managers[n])
    {
      assert n in s.managers && Holds(s, n, s.managers[n]);
    }
  }

  lemma SweepIsSound(s: System, m: nat)
    requires Sound(s)
    ensures Sound(Sweeping(s, m))
  {
    var after := Sweeping(s, m);
    forall n | n in after.managers
      ensures Holds(after, n, after.managers[n])
    {
      assert n != m && n in s.managers ==> Holds(s, n, s.managers[n]);
    }
  }

  lemma OtherIsSound(job: Job, s: System, e: Event)
    requires Sound(s) && Careful(s, e) && (e.Expire? || e.ReadRetry? || e.WriteRetry? || e.Crash?)
    ensures Sound(Step(job, s, e))
  {
    var after := Step(job, s, e);
    forall n | n in after.managers
      ensures Holds(after, n, after.managers[n])
    {
      assert n in s.managers && Holds(s, n, s.managers[n]);
    }
  }

  lemma StepIsSound(job: Job, s: System, e: Event)
    requires Sound(s) && Careful(s, e)
    ensures Sound(Step(job, s, e))
  {
    match e
    case Claim(m) => ClaimIsSound(s, m);
    case Sweep(m) => SweepIsSound(s, m);
    case Expire => OtherIsSound(job, s, e);
    case ReadRetry(_) => OtherIsSound(job, s, e);
    case WriteRetry(_) => OtherIsSound(job, s, e);
    case Crash(_) => OtherIsSound(job, s, e);
    case Proceed(m) => if m in s.managers && s.managers[m].Claimed? { ProceedIsSound(s, m); }
    case Release(m) => if m in s.managers { EndIsSound(job, s, e); }
    case Recover(m) => if m in s.managers { EndIsSound(job, s, e); }
    case Reply(m, _, _) => if m in s.managers { AnswerIsSound(job, s, e); }
    case Store(m) => if m in s.managers { AnswerIsSound(job, s, e); }
    case Judge(m) => if m in s.managers { AnswerIsSound(job, s, e); }
    case _ => if e.manager in s.managers { OutcomeIsSound(job, s, e); }
  }

  // ---- whole runs -------------------------------------------------------------------------------

  /** Every retry write of the trace is careful when it happens. */
  ghost predicate CarefulTrace(job: Job, s: System, events: seq<Event>)
  {
    events != [] ==>
      && CarefulTrace(job, s, events[..|events| - 1])
      && Careful(Trace(job, s, events[..|events| - 1]), events[|events| - 1])
  }

  lemma {:induction false} CarefulTraceIsSound(job: Job, s: System, events: seq<Event>)
    requires Sound(s) && CarefulTrace(job, s, events)
    ensures Sound(Trace(job, s, events))
  {
    if events != [] {
      CarefulTraceIsSound(job, s, events[..|events| - 1]);
      StepIsSound(job, Trace(job, s, events[..|events| - 1]), events[|events| - 1]);
    }
  }

  /** With careful retries no attempt invokes a model twice, whatever crashes, sweeps and claims come in between. */
  lemma InvokedOncePerAttempt(job: Job, events: seq<Event>)
    requires CarefulTrace(job, NEW, events)
    ensures OncePerAttempt(Trace(job, NEW, events))
  {
    CarefulTraceIsSound(job, NEW, events);
  }

  lemma InvokedAttemptStays(job: Job, s: System, e: Event)
    requires Sound(s) && s.row.attempt in s.invoked && !e.WriteRetry?
    ensures Step(job, s, e).invoked == s.invoked && Step(job, s, e).row.attempt == s.row.attempt
  {
    if e.Proceed? && e.manager in s.managers && s.managers[e.manager].Claimed? {
      assert Holds(s, e.manager, s.managers[e.manager]);
    }
  }

  lemma {:induction false} InvokedAttemptStaysOver(job: Job, s: System, events: seq<Event>)
    requires Sound(s) && s.row.attempt in s.invoked
    requires forall i :: 0 <= i < |events| ==> !events[i].WriteRetry?
    ensures Sound(Trace(job, s, events)) && Trace(job, s, events).invoked == s.invoked
    ensures Trace(job, s, events).row.attempt == s.row.attempt
  {
    if events != [] {
      InvokedAttemptStaysOver(job, s, events[..|events| - 1]);
      StepIsSound(job, Trace(job, s, events[..|events| - 1]), events[|events| - 1]);
      InvokedAttemptStays(job, Trace(job, s, events[..|events| - 1]), events[|events| - 1]);
    }
  }

  /** A run with a saved answer goes on, through any crashes and sweeps, without a new invocation until it is retried. */
  lemma SavedAnswerIsEnough(job: Job, s: System, events: seq<Event>)
    requires Sound(s) && s.row.result.Answer? && s.row.checkpoint in {CandidateReceived, Validated, AtPersistence}
    requires forall i :: 0 <= i < |events| ==> !events[i].WriteRetry?
    ensures Trace(job, s, events).invoked == s.invoked
  {
    InvokedAttemptStaysOver(job, s, events);
  }

  // ---- how far a run has come -------------------------------------------------------------------

  /** The row holds an answer, or an output of the checks, from before it was persisted. */
  ghost predicate KeepsAnswer(row: Row)
  {
    row.result.Answer? && row.checkpoint in {CandidateReceived, Validated, AtPersistence}
  }

  /** What the row of a run shows while a manager is busy with it. */
  ghost predicate Shows(row: Row, activity: Activity)
  {
    match activity
    case Claimed(saved) => row.status == Queued && saved == if KeepsAnswer(row) then Some(row.result.value) else None
    case Invoking => row.status == Running && row.checkpoint == AtInvocation
    case Answered(answer, _) =>
      || (row.status == Running && row.checkpoint == AtInvocation)
      || (row.status == Validating && KeepsAnswer(row) && row.result == Answer(answer))
    case Received(answer, _) => row.status == Validating && row.checkpoint == CandidateReceived && row.result == Answer(answer)
    case Accepted(output) => row.status == Validating && row.checkpoint == Validated && row.result == Answer(output)
    case Saving(output) => row.status == Persisting && row.checkpoint == AtPersistence && row.result == Answer(output)
    case _ => true
  }

  ghost predicate AllShow(s: System)
  {
    forall m :: m in s.managers ==> Shows(s.row, s.managers[m])
  }

  /** Nobody else is at work when a manager that is at work writes the row. */
  lemma OthersRest(s: System, m: nat, n: nat)
    requires Sound(s) && m in s.managers && n in s.managers && m != n && Working(s.managers[m])
    ensures !Working(s.managers[n])
  {
    assert Holds(s, m, s.managers[m]) && Holds(s, n, s.managers[n]);
  }

  lemma WorkShows(job: Job, s: System, e: Event)
    requires Sound(s) && AllShow(s) && !e.Expire? && !e.ReadRetry? && !e.WriteRetry? && e.manager in s.managers
    requires Working(s.managers[e.manager])
    ensures AllShow(Worked(job, s, e, s.managers[e.manager]))
  {
    var after := Worked(job, s, e, s.managers[e.manager]);
    forall n | n in after.managers
      ensures Shows(after.row, after.managers[n])
    {
      if n != e.manager {
        OthersRest(s, e.manager, n);
      }
    }
  }

  lemma RestShows(job: Job, s: System, e: Event)
    requires Sound(s) && AllShow(s) && !e.Expire? && !e.ReadRetry? && !e.WriteRetry? && e.manager in s.managers
    requires !Working(s.managers[e.manager])
    ensures AllShow(Worked(job, s, e, s.managers[e.manager]))
  {
    var after := Worked(job, s, e, s.managers[e.manager]);
    assert Holds(s, e.manager, s.managers[e.manager]);
    forall n | n in after.managers
      ensures Shows(after.row, after.managers[n])
    {
      assert n in s.managers && Holds(s, n, s.managers[n]);
    }
  }

  lemma OtherShows(job: Job, s: System, e: Event)
    requires Sound(s) && AllShow(s) && Careful(s, e)
    requires e.Claim? || e.Sweep? || e.Expire? || e.ReadRetry? || e.WriteRetry? || e.Crash?
    ensures AllShow(Step(job, s, e))
  {
    var after := Step(job, s, e);
    forall n | n in after.managers
      ensures Shows(after.row, after.managers[n])
    {
      assert n in s.managers ==> Holds(s, n, s.managers[n]);
    }
  }

  /** With careful retries the row always tells how far the manager at work has come, and what it goes on from. */
  lemma {:induction false} RowTellsProgress(job: Job, events: seq<Event>)
    requires CarefulTrace(job, NEW, events)
    ensures AllShow(Trace(job, NEW, events))
  {
    if events != [] {
      var s, e := Trace(job, NEW, events[..|events| - 1]), events[|events| - 1];
      RowTellsProgress(job, events[..|events| - 1]);
      CarefulTraceIsSound(job, NEW, events[..|events| - 1]);
      if e.Claim? || e.Sweep? || e.Expire? || e.ReadRetry? || e.WriteRetry? || e.Crash? {
        OtherShows(job, s, e);
      } else if e.manager in s.managers {
        if Working(s.managers[e.manager]) {
          WorkShows(job, s, e);
        } else {
          RestShows(job, s, e);
        }
      }
    }
  }

  /**
   * Recovering a run whose lease had run out queues it again when it keeps an answer, and fails it otherwise; one that
   * was queued is left as it is.
   */
  lemma RecoveryResumes(job: Job, s: System, m: nat)
    requires m in s.managers && s.managers[m].Recovering?
    ensures var seen, after := s.managers[m].seen, Step(job, s, Recover(m)).row;
            && (seen.status == Queued ==> after == s.row)
            && (seen.status != Queued && KeepsAnswer(seen) ==>
                  after == s.row.(status := Queued, resumes := s.row.resumes + 1))
            && (seen.status != Queued && !KeepsAnswer(seen) ==>
                  after.status == Failed && after.checkpoint == AtEnd && after.owner.None? && !after.expired
                  && after.attempt == s.row.attempt && after.result == s.row.result)
  {
  }

  /** A retry starts the run over: the next attempt, with nothing saved and nobody's lease. */
  lemma RetryStartsOver(job: Job, s: System, t: nat)
    requires t in s.retries
    ensures var after := Step(job, s, WriteRetry(t)).row;
            && after.status == Queued && after.attempt == s.retries[t] + 1 && !KeepsAnswer(after) && after.result == Empty
            && after.owner.None? && !after.expired && after.resumes == s.row.resumes
  {
  }

  // ---- what is persisted ------------------------------------------------------------------------

  /**
   * A value the policy accepts: the very answer, if its provider route vouched for it, or else its normal form, which
   * the schema and the rules of the contract accept.
   */
  predicate Judges(job: Job, response: Response, vouched: bool, output: Value)
  {
    && job.policy(output)
    && if vouched then response.vouched && output == response.answer
       else output == Normalised(response.answer) && job.schema(output) && job.rules(output)
  }

  /** The output of the checks on one of the answers that came back. */
  ghost predicate Endorsed(job: Job, responses: set<Response>, output: Value)
  {
    exists response: Response, vouched: bool :: response in responses && Judges(job, response, vouched, output)
  }

  /** A value the run may hold: an answer as it came back, or an endorsed output. */
  ghost predicate Known(job: Job, responses: set<Response>, value: Value)
  {
    Response(value, false) in responses || Response(value, true) in responses || Endorsed(job, responses, value)
  }

  ghost predicate GenuineActivity(job: Job, responses: set<Response>, activity: Activity)
  {
    match activity
    case Claimed(saved) => saved.Some? ==> Known(job, responses, saved.value)
    case Answered(answer, vouched) => Known(job, responses, answer) && (vouched ==> Response(answer, true) in responses)
    case Received(answer, vouched) =>
      Known(job, responses, answer) && (vouched ==> Response(answer, true) in responses) && job.backend != Manual
    case Accepted(output) => Endorsed(job, responses, output) && job.backend != Manual
    case Saving(output) => Endorsed(job, responses, output) && job.backend == Model
    case _ => true
  }

  ghost predicate Genuine(job: Job, s: System)
  {
    && (forall m :: m in s.managers ==> GenuineActivity(job, s.responses, s.managers[m]))
    && (s.row.result.Answer? ==> Known(job, s.responses, s.row.result.value))
    && (s.row.status == Persisted ==>
          job.backend == Model && s.row.result.Answer? && Endorsed(job, s.responses, s.row.result.value))
    && (s.row.status == TestPassed ==> job.backend == Mock)
  }

  /** What the checks let through is the normal form of the answer, or the answer itself when they are skipped. */
  lemma JudgedIs(job: Job, answer: Value, vouched: bool)
    ensures var value := if vouched then answer else Normalised(answer);
            var accepted := job.policy(value) && (vouched || (job.schema(value) && job.rules(value)));
            Judged(job, answer, vouched) == if accepted then Some(value) else None
  {
    NormalisedTwice(answer);
  }

  /** Checking an output again, as a run does that resumes from it, gives the plain check of the same answer, if anything. */
  lemma JudgedAgain(job: Job, response: Response, vouched: bool, output: Value, again: Value)
    requires Judges(job, response, vouched, output) && Judged(job, output, false) == Some(again)
    ensures Judges(job, response, false, again)
  {
    JudgedIs(job, output, false);
    NormalisedTwice(response.answer);
  }

  lemma JudgedIsEndorsed(job: Job, responses: set<Response>, answer: Value, vouched: bool, output: Value)
    requires Known(job, responses, answer) && (vouched ==> Response(answer, true) in responses)
    requires Judged(job, answer, vouched) == Some(output)
    ensures Endorsed(job, responses, output)
  {
    JudgedIs(job, answer, vouched);
    if Response(answer, true) in responses {
      assert Judges(job, Response(answer, true), vouched, output);
    } else if Response(answer, false) in responses {
      assert Judges(job, Response(answer, false), vouched, output);
    } else {
      var response: Response, first: bool :| response in responses && Judges(job, response, first, answer);
      JudgedAgain(job, response, first, answer, output);
    }
  }

  lemma MoreResponses(job: Job, responses: set<Response>, more: set<Response>, value: Value)
    requires responses <= more
    ensures Endorsed(job, responses, value) ==> Endorsed(job, more, value)
    ensures Known(job, responses, value) ==> Known(job, more, value)
  {
    if Endorsed(job, responses, value) {
      var response: Response, vouched: bool :| response in responses && Judges(job, response, vouched, value);
      assert response in more;
    }
  }

  lemma MoreGenuine(job: Job, responses: set<Response>, more: set<Response>, activity: Activity)
    requires responses <= more && GenuineActivity(job, responses, activity)
    ensures GenuineActivity(job, more, activity)
  {
    match activity
    case Claimed(saved) => if saved.Some? { MoreResponses(job, responses, more, saved.value); }
    case Answered(answer, _) => MoreResponses(job, responses, more, answer);
    case Received(answer, _) => MoreResponses(job, responses, more, answer);
    case Accepted(output) => MoreResponses(job, responses, more, output);
    case Saving(output) => MoreResponses(job, responses, more, output);
    case _ =>
  }

  lemma ReplyIsGenuine(job: Job, s: System, e: Event)
    requires Genuine(job, s) && e.Reply? && e.manager in s.managers
    ensures Genuine(job, Worked(job, s, e, s.managers[e.manager]))
  {
    var after := Worked(job, s, e, s.managers[e.manager]);
    forall m | m in s.managers
      ensures GenuineActivity(job, after.responses, s.managers[m])
    {
      MoreGenuine(job, s.responses, after.responses, s.managers[m]);
    }
    if s.row.result.Answer? {
      MoreResponses(job, s.responses, after.responses, s.row.result.value);
    }
  }

  lemma WorkIsGenuine(job: Job, s: System, e: Event)
    requires Genuine(job, s) && !e.Expire? && !e.ReadRetry? && !e.WriteRetry? && !e.Reply? && e.manager in s.managers
    ensures Genuine(job, Worked(job, s, e, s.managers[e.manager]))
  {
    var activity := s.managers[e.manager];
    assert GenuineActivity(job, s.responses, activity);
    if e.Judge? && activity.Received? && Judged(job, activity.answer, activity.vouched).Some? {
      JudgedIsEndorsed(job, s.responses, activity.answer, activity.vouched, Judged(job, activity.answer, activity.vouched).value);
    }
  }

  lemma StepIsGenuine(job: Job, s: System, e: Event)
    requires Genuine(job, s)
    ensures Genuine(job, Step(job, s, e))
  {
    if e.Reply? && e.manager in s.managers {
      ReplyIsGenuine(job, s, e);
    } else if (e.Proceed? || e.Store? || e.Judge? || e.Save? || e.Finish? || e.Fail? || e.Release? || e.Recover?)
              && e.manager in s.managers {
      WorkIsGenuine(job, s, e);
    }
  }

  lemma {:induction false} TraceIsGenuine(job: Job, events: seq<Event>)
    ensures Genuine(job, Trace(job, NEW, events))
  {
    if events != [] {
      TraceIsGenuine(job, events[..|events| - 1]);
      StepIsGenuine(job, Trace(job, NEW, events[..|events| - 1]), events[|events| - 1]);
    }
  }

  /**
   * In any trace, with or without overlapping retries and however often the run was resumed, a persisted result is a
   * value the policy accepts: the answer of a response that was vouched for, or the normal form of one, accepted by the
   * schema and the rules. No mock or manual run persists.
   */
  lemma PersistedIsEndorsed(job: Job, events: seq<Event>)
    requires Trace(job, NEW, events).row.status == Persisted
    ensures var s := Trace(job, NEW, events);
            && job.backend == Model && s.row.result.Answer?
            && var value := s.row.result.value;
               && job.policy(value)
               && exists response: Response :: response in s.responses
                    && ((response.vouched && value == response.answer)
                        || (value == Normalised(response.answer) && job.schema(value) && job.rules(value)))
  {
    TraceIsGenuine(job, events);
    var s := Trace(job, NEW, events);
    var response: Response, vouched: bool :| response in s.responses && Judges(job, response, vouched, s.row.result.value);
  }

  // ---- overlapping retries ----------------------------------------------------------------------

  /** A retry that has read the row saw it failed, at an attempt that no longer is current once the row is queued again. */
  ghost predicate RetriesRead(s: System)
  {
    forall t :: t in s.retries ==>
      s.retries[t] <= s.row.attempt && (s.retries[t] == s.row.attempt ==> s.row.status == Failed)
  }

  lemma WorkKeepsRetriesRead(job: Job, s: System, e: Event)
    requires Sound(s) && RetriesRead(s) && !e.Expire? && !e.ReadRetry? && !e.WriteRetry? && e.manager in s.managers
    ensures RetriesRead(Worked(job, s, e, s.managers[e.manager]))
  {
    assert Holds(s, e.manager, s.managers[e.manager]);
  }

  lemma StepKeepsRetriesRead(job: Job, s: System, e: Event)
    requires Sound(s) && RetriesRead(s) && Careful(s, e)
    ensures RetriesRead(Step(job, s, e))
  {
    if !e.Expire? && !e.ReadRetry? && !e.WriteRetry? && e.manager in s.managers {
      WorkKeepsRetriesRead(job, s, e);
    }
  }

  lemma {:induction false} TraceKeepsRetriesRead(job: Job, events: seq<Event>)
    requires CarefulTrace(job, NEW, events)
    ensures Sound(Trace(job, NEW, events)) && RetriesRead(Trace(job, NEW, events))
  {
    CarefulTraceIsSound(job, NEW, events);
    if events != [] {
      TraceKeepsRetriesRead(job, events[..|events| - 1]);
      StepKeepsRetriesRead(job, Trace(job, NEW, events[..|events| - 1]), events[|events| - 1]);
    }
  }

  /** A retry that has read attempt `read` may still write: no later attempt was invoked and nobody has just claimed the run. */
  ghost predicate Harmless(s: System, read: int)
  {
    && (forall i :: 0 <= i < |s.invoked| ==> s.invoked[i] <= read)
    && (forall m :: m in s.managers ==> !s.managers[m].Claimed?)
  }

  lemma CarefulIsHarmless(s: System, t: nat)
    requires Sound(s) && t in s.retries && Careful(s, WriteRetry(t))
    ensures Harmless(s, s.retries[t])
  {
    forall m | m in s.managers
      ensures !s.managers[m].Claimed?
    {
      assert Holds(s, m, s.managers[m]);
    }
  }

  lemma HarmlessWriteIsSound(job: Job, s: System, t: nat)
    requires Sound(s) && RetriesRead(s) && t in s.retries && Harmless(s, s.retries[t])
    ensures Sound(Step(job, s, WriteRetry(t)))
  {
    var after := Step(job, s, WriteRetry(t));
    forall m | m in after.managers
      ensures Holds(after, m, after.managers[m])
      ensures !after.managers[m].Settled?
    {
      assert m in s.managers && Holds(s, m, s.managers[m]);
    }
  }

  /** From a state, some careful continuation invokes a model twice for one attempt. */
  ghost predicate CanInvokeTwice(job: Job, s: System)
  {
    exists events :: CarefulTrace(job, s, events) && !OncePerAttempt(Trace(job, s, events))
  }

  lemma {:induction false} TraceJoins(job: Job, s: System, first: seq<Event>, second: seq<Event>)
    ensures Trace(job, s, first + second) == Trace(job, Trace(job, s, first), second)
    decreases |second|
  {
    if second == [] {
      assert first + second == first;
    } else {
      var n := |second| - 1;
      assert (first + second)[..|first| + n] == first + second[..n];
      TraceJoins(job, s, first, second[..n]);
    }
  }

  lemma {:induction false} CarefulTraceJoins(job: Job, s: System, first: seq<Event>, second: seq<Event>)
    requires CarefulTrace(job, s, first) && CarefulTrace(job, Trace(job, s, first), second)
    ensures CarefulTrace(job, s, first + second)
    decreases |second|
  {
    if second == [] {
      assert first + second == first;
    } else {
      var n := |second| - 1;
      assert (first + second)[..|first| + n] == first + second[..n];
      TraceJoins(job, s, first, second[..n]);
      CarefulTraceJoins(job, s, first, second[..n]);
    }
  }

  lemma OneMore(job: Job, s: System, e: Event)
    requires Careful(s, e) && CanInvokeTwice(job, Step(job, s, e))
    ensures CanInvokeTwice(job, s)
  {
    var events :| CarefulTrace(job, Step(job, s, e), events) && !OncePerAttempt(Trace(job, Step(job, s, e), events));
    assert Trace(job, s, []) == s && [e][..0] == [];
    assert Trace(job, s, [e]) == Step(job, s, e) && CarefulTrace(job, s, [e]);
    TraceJoins(job, s, [e], events);
    CarefulTraceJoins(job, s, [e], events);
    assert CarefulTrace(job, s, [e] + events) && !OncePerAttempt(Trace(job, s, [e] + events));
  }

  lemma TwiceAlready(job: Job, s: System)
    requires !OncePerAttempt(s)
    ensures CanInvokeTwice(job, s)
  {
    assert CarefulTrace(job, s, []) && Trace(job, s, []) == s;
  }

  lemma Unused(used: set<nat>) returns (n: nat)
    ensures n !in used
    ensures forall u :: u in used ==> u < n
    decreases |used|
  {
    if used == {} {
      n := 0;
    } else {
      var u := MemberOf(used);
      n := Unused(used - {u});
      forall v | v in used && v != u
        ensures v < n
      {
        assert v in used - {u};
      }
      n := if u < n then n else u + 1;
    }
  }

  /** A queued row that nobody leases and that has nothing saved, with some attempt already invoked that is not yet past. */
  ghost predicate Doomed(s: System, invoked: int)
  {
    s.row.status == Queued && s.row.owner.None? && !s.row.Resumable() && s.row.attempt <= invoked && invoked in s.invoked
  }

  lemma InvokingAgain(s: System, again: System)
    requires s.row.attempt in s.invoked && again.invoked == s.invoked + [s.row.attempt]
    ensures !OncePerAttempt(again)
  {
    var i :| 0 <= i < |s.invoked| && s.invoked[i] == s.row.attempt;
    assert again.invoked[i] == again.invoked[|s.invoked|];
  }

  /** A free manager claims the run and invokes the model. */
  lemma InvokesNext(job: Job, s: System, m: nat)
    requires m !in s.managers && s.row.status == Queued && s.row.owner.None? && !s.row.Resumable()
    ensures var running := Step(job, Step(job, s, Claim(m)), Proceed(m));
            && running == s.(row := s.row.(status := Running, checkpoint := AtInvocation, owner := Some(m), expired := false),
                             managers := s.managers[m := Invoking], invoked := s.invoked + [s.row.attempt])
            && (CanInvokeTwice(job, running) ==> CanInvokeTwice(job, s))
  {
    var claimed := Step(job, s, Claim(m));
    assert claimed.managers == s.managers[m := Claimed(None)];
    if CanInvokeTwice(job, Step(job, claimed, Proceed(m))) {
      OneMore(job, claimed, Proceed(m));
      OneMore(job, s, Claim(m));
    }
  }

  lemma FailsAndReleases(job: Job, s: System, m: nat)
    requires m in s.managers && s.managers[m] == Invoking && s.row.owner == Some(m)
    ensures var released := s.(row := FailedRow(s.row).(owner := None, expired := false), managers := s.managers - {m});
            CanInvokeTwice(job, released) ==> CanInvokeTwice(job, s)
  {
    var failed := With(s, m, Finishing, FailedRow(s.row));
    assert Step(job, s, Fail(m)) == failed;
    var released := Step(job, failed, Release(m));
    assert released.managers == s.managers - {m};
    if CanInvokeTwice(job, released) {
      OneMore(job, failed, Release(m));
      OneMore(job, s, Fail(m));
    }
  }

  /** One retry, undisturbed, queues a failed run for its next attempt. */
  lemma Retries(job: Job, s: System, t: nat)
    requires s.row.status == Failed && t !in s.retries
    ensures CanInvokeTwice(job, s.(row := RetriedRow(s.row, s.row.attempt))) ==> CanInvokeTwice(job, s)
  {
    var read := s.(retries := s.retries[t := s.row.attempt]);
    assert Step(job, s, ReadRetry(t)) == read;
    var queued := Step(job, read, WriteRetry(t));
    assert queued.retries == s.retries;
    if CanInvokeTwice(job, queued) {
      OneMore(job, read, WriteRetry(t));
      OneMore(job, s, ReadRetry(t));
    }
  }

  lemma {:induction false} DoomedInvokesTwice(job: Job, s: System, invoked: int)
    requires Doomed(s, invoked)
    ensures CanInvokeTwice(job, s)
    decreases invoked - s.row.attempt
  {
    var m := Unused(s.managers.Keys);
    var running := Step(job, Step(job, s, Claim(m)), Proceed(m));
    InvokesNext(job, s, m);
    if s.row.attempt == invoked {
      InvokingAgain(s, running);
      TwiceAlready(job, running);
    } else {
      var t := Unused(s.retries.Keys);
      var released := running.(row := FailedRow(running.row).(owner := None, expired := false), managers := running.managers - {m});
      FailsAndReleases(job, running, m);
      Retries(job, released, t);
      DoomedInvokesTwice(job, released.(row := RetriedRow(released.row, released.row.attempt)), invoked);
    }
  }

  /** A second claim beside a manager that is about to invoke. */
  lemma TwoClaimsInvokeTwice(job: Job, s: System, m: nat)
    requires m in s.managers && s.managers[m] == Claimed(None)
    requires s.row.status == Queued && s.row.owner.None? && !s.row.Resumable()
    ensures CanInvokeTwice(job, s)
  {
    var n := Unused(s.managers.Keys);
    var claimed := Step(job, s, Claim(n));
    var one := Step(job, claimed, Proceed(m));
    var two := Step(job, one, Proceed(n));
    assert one.invoked == s.invoked + [s.row.attempt] && one.row.attempt == s.row.attempt;
    assert one.invoked[|s.invoked|] == s.row.attempt;
    InvokingAgain(one, two);
    TwiceAlready(job, two);
    OneMore(job, one, Proceed(n));
    OneMore(job, claimed, Proceed(m));
    OneMore(job, s, Claim(n));
  }

  lemma HarmfulWriteInvokesTwice(job: Job, s: System, t: nat)
    requires Sound(s) && RetriesRead(s) && t in s.retries && !Harmless(s, s.retries[t])
    ensures CanInvokeTwice(job, Step(job, s, WriteRetry(t)))
  {
    var after := Step(job, s, WriteRetry(t));
    if i :| 0 <= i < |s.invoked| && s.invoked[i] > s.retries[t] {
      assert s.invoked[i] in after.invoked;
      DoomedInvokesTwice(job, after, s.invoked[i]);
    } else {
      var m :| m in s.managers && s.managers[m].Claimed?;
      assert Holds(s, m, s.managers[m]);
      if s.managers[m].saved.Some? {
        assert false;
      }
      TwoClaimsInvokeTwice(job, after, m);
    }
  }

  /**
   * The retry as it is, reading and writing in two transactions: after any careful trace its write can lead to a
   * second invocation for one attempt exactly when a later attempt was invoked since it read the row, or a manager
   * has just claimed the run.
   */
  lemma RetryWriteExactly(job: Job, events: seq<Event>, t: nat)
    requires CarefulTrace(job, NEW, events) && t in Trace(job, NEW, events).retries
    ensures var s := Trace(job, NEW, events);
            CanInvokeTwice(job, Step(job, s, WriteRetry(t))) <==> !Harmless(s, s.retries[t])
  {
    TraceKeepsRetriesRead(job, events);
    var s := Trace(job, NEW, events);
    if Harmless(s, s.retries[t]) {
      HarmlessWriteIsSound(job, s, t);
      var after := Step(job, s, WriteRetry(t));
      forall more | CarefulTrace(job, after, more)
        ensures OncePerAttempt(Trace(job, after, more))
      {
        CarefulTraceIsSound(job, after, more);
      }
    } else {
      HarmfulWriteInvokesTwice(job, s, t);
    }
  }

  lemma Longer(job: Job, events: seq<Event>, e: Event, after: System) returns (longer: seq<Event>)
    requires CarefulTrace(job, NEW, events) && Careful(Trace(job, NEW, events), e)
    requires Step(job, Trace(job, NEW, events), e) == after
    ensures CarefulTrace(job, NEW, longer) && Trace(job, NEW, longer) == after
  {
    longer := events + [e];
    assert longer[..|events|] == events;
  }

  /** Two retries of one failure that both read before either writes. */
  lemma OverlappingRetries(job: Job) returns (events: seq<Event>)
    ensures CarefulTrace(job, NEW, events) && 1 in Trace(job, NEW, events).retries
    ensures CanInvokeTwice(job, Step(job, Trace(job, NEW, events), WriteRetry(1)))
  {
    events := RetriedOnce(job);
    var running := After(Running, AtInvocation, Empty, 2, Some(0), map[0 := Invoking], map[1 := 1], [2]);
    events := Longer(job, events, Proceed(0), running);
    assert running.invoked[0] > running.retries[1];
    RetryWriteExactly(job, events, 1);
  }

  lemma FailedOnce(job: Job) returns (events: seq<Event>)
    ensures CarefulTrace(job, NEW, events)
    ensures Trace(job, NEW, events) == After(Status.Failed, AtEnd, Failure, 1, None, map[], map[], [])
  {
    var claimed := After(Queued, AtQueue, Empty, 1, Some(0), map[0 := Claimed(None)], map[], []);
    var failed := After(Status.Failed, AtEnd, Failure, 1, Some(0), map[0 := Finishing], map[], []);
    events := Longer(job, [], Claim(0), claimed);
    events := Longer(job, events, Fail(0), failed);
    events := Longer(job, events, Release(0), After(Status.Failed, AtEnd, Failure, 1, None, map[], map[], []));
  }

  lemma FailedTwiceRead(job: Job) returns (events: seq<Event>)
    ensures CarefulTrace(job, NEW, events)
    ensures Trace(job, NEW, events) == After(Status.Failed, AtEnd, Failure, 1, None, map[], map[0 := 1, 1 := 1], [])
  {
    events := FailedOnce(job);
    events := Longer(job, events, ReadRetry(0), After(Status.Failed, AtEnd, Failure, 1, None, map[], map[0 := 1], []));
    events := Longer(job, events, ReadRetry(1), After(Status.Failed, AtEnd, Failure, 1, None, map[], map[0 := 1, 1 := 1], []));
  }

  lemma RetriedOnce(job: Job) returns (events: seq<Event>)
    ensures CarefulTrace(job, NEW, events)
    ensures Trace(job, NEW, events) == After(Queued, AtQueue, Empty, 2, Some(0), map[0 := Claimed(None)], map[1 := 1], [])
  {
    events := FailedTwiceRead(job);
    events := Longer(job, events, WriteRetry(0), After(Queued, AtQueue, Empty, 2, None, map[], map[1 := 1], []));
    events := Longer(job, events, Claim(0), After(Queued, AtQueue, Empty, 2, Some(0), map[0 := Claimed(None)], map[1 := 1], []));
  }

  function After(status: Status, checkpoint: Checkpoint, result: Stored, attempt: int, owner: Option<nat>,
                 managers: map<nat, Activity>, retries: map<nat, int>, invoked: seq<int>): System
  {
    System(Row(status, checkpoint, result, attempt, 0, owner, false), managers, retries, invoked, {})
  }

  // ---- one execution, undisturbed ---------------------------------------------------------------

  lemma TraceOneMore(job: Job, s: System, events: seq<Event>, e: Event)
    ensures Trace(job, s, events + [e]) == Step(job, Trace(job, s, events), e)
  {
    assert (events + [e])[..|events|] == events;
  }

  function ReleasedRow(row: Row, m: nat): Row
  {
    if row.owner == Some(m) then row.(owner := None, expired := false) else row
  }

  /** Where an answer takes the row of its run. */
  function DeliveredRow(job: Job, row: Row, answer: Value, vouched: bool): Row
  {
    var output := Judged(job, answer, vouched);
    if job.backend == Manual then row.(status := AwaitingImport, result := Answer(answer), checkpoint := AtEnd)
    else if output.None? then FailedRow(row)
    else row.(status := if job.backend == Mock then TestPassed else Persisted, result := Answer(output.value), checkpoint := AtEnd)
  }

  /**
   * How an answer ends: handed over for import by a manual run; otherwise accepted in the form in which it was checked,
   * or failed and gone.
   */
  ghost predicate Decided(job: Job, answer: Value, vouched: bool, row: Row)
  {
    var value := if vouched then answer else Normalised(answer);
    if job.backend == Manual then row.status == AwaitingImport && row.result == Answer(answer)
    else if job.policy(value) && (vouched || (job.schema(value) && job.rules(value)))
    then row.status == (if job.backend == Model then Persisted else TestPassed) && row.result == Answer(value)
    else row.status == Failed && row.result == Failure
  }

  lemma DeliveredIsDecided(job: Job, row: Row, answer: Value, vouched: bool)
    ensures Decided(job, answer, vouched, DeliveredRow(job, row, answer, vouched))
  {
    JudgedIs(job, answer, vouched);
  }

  /** The events of delivering an answer; those a failed check rules out have no effect. */
  function Delivery(m: nat): seq<Event>
  {
    [Event.Store(m), Judge(m), Save(m), Finish(m), Event.Release(m)]
  }

  lemma Alone(job: Job, s: System, m: nat, activity: Activity, e: Event)
    requires s.managers == map[m := activity]
    requires e == Event.Store(m) || e == Judge(m) || e == Save(m) || e == Finish(m) || e == Event.Release(m)
    ensures Step(job, s, e) == Worked(job, s, e, activity)
  {
  }

  lemma StoreAlone(job: Job, s: System, m: nat, answer: Value, vouched: bool)
    requires s.managers == map[m := Answered(answer, vouched)]
    ensures Step(job, s, Event.Store(m)) == Storing(job, s, m, answer, vouched)
  {
    Alone(job, s, m, Answered(answer, vouched), Event.Store(m));
  }

  lemma JudgeAlone(job: Job, s: System, m: nat, activity: Activity)
    requires s.managers == map[m := activity] && (activity.Received? || activity.Settled?)
    ensures Step(job, s, Judge(m))
            == if activity.Received? then Judging(job, s, m, activity.answer, activity.vouched) else s
  {
    Alone(job, s, m, activity, Judge(m));
  }

  lemma SaveAlone(job: Job, s: System, m: nat, activity: Activity)
    requires s.managers == map[m := activity] && (activity.Accepted? || activity.Settled? || activity.Finishing?)
    ensures Step(job, s, Save(m)) == if activity.Accepted? then SavingStep(job, s, m, activity.output) else s
  {
    Alone(job, s, m, activity, Save(m));
  }

  lemma FinishAlone(job: Job, s: System, m: nat, activity: Activity)
    requires s.managers == map[m := activity] && (activity.Saving? || activity.Settled? || activity.Finishing?)
    ensures Step(job, s, Finish(m))
            == if !activity.Saving? then s
               else With(s, m, Settled, s.row.(status := Persisted, result := Answer(activity.output), checkpoint := AtEnd))
  {
    Alone(job, s, m, activity, Finish(m));
  }

  lemma ReleaseAlone(job: Job, s: System, m: nat, activity: Activity)
    requires s.managers == map[m := activity] && (activity.Settled? || activity.Finishing?)
    ensures Step(job, s, Event.Release(m)) == s.(managers := map[], row := ReleasedRow(s.row, m))
  {
    Alone(job, s, m, activity, Event.Release(m));
    assert s.managers - {m} == map[];
  }

  /** Delivering an answer by those events ends with nobody busy and the row where `DeliveredRow` says. */
  lemma DeliveryIs(job: Job, s: System, m: nat, answer: Value, vouched: bool)
    requires s.managers == map[m := Answered(answer, vouched)]
    ensures Trace(job, s, Delivery(m))
            == s.(managers := map[], row := ReleasedRow(DeliveredRow(job, s.row, answer, vouched), m))
  {
    StoreAlone(job, s, m, answer, vouched);
    var stored := Storing(job, s, m, answer, vouched);
    JudgeAlone(job, stored, m, stored.managers[m]);
    var judged := Step(job, stored, Judge(m));
    SaveAlone(job, judged, m, judged.managers[m]);
    var saved := Step(job, judged, Save(m));
    FinishAlone(job, saved, m, saved.managers[m]);
    var finished := Step(job, saved, Finish(m));
    ReleaseAlone(job, finished, m, finished.managers[m]);
    FiveEvents(job, s, Event.Store(m), Judge(m), Save(m), Finish(m), Event.Release(m));
  }

  lemma TwoEvents(job: Job, s: System, a: Event, b: Event)
    ensures Trace(job, s, [a, b]) == Step(job, Step(job, s, a), b)
  {
    TraceOneMore(job, s, [], a);
    TraceOneMore(job, s, [a], b);
    assert [] + [a] == [a] && [a] + [b] == [a, b];
  }

  lemma FiveEvents(job: Job, s: System, a: Event, b: Event, c: Event, d: Event, e: Event)
    ensures Trace(job, s, [a, b, c, d, e]) == Step(job, Step(job, Step(job, Step(job, Step(job, s, a), b), c), d), e)
  {
    var two := Step(job, Step(job, s, a), b);
    var four := Step(job, Step(job, two, c), d);
    TwoEvents(job, s, a, b);
    TwoEvents(job, two, c, d);
    TraceJoins(job, s, [a, b], [c, d]);
    TraceOneMore(job, s, [a, b] + [c, d], e);
    assert [a, b] + [c, d] + [e] == [a, b, c, d, e];
  }

  /** The events of an execution by one manager; a reply of nothing is an adapter that failed. */
  function Script(m: nat, invokes: bool, reply: Option<(Value, bool)>): seq<Event>
  {
    if !invokes then [Claim(m), Proceed(m)] + Delivery(m)
    else if reply.None? then [Claim(m), Proceed(m), Fail(m), Event.Release(m)]
    else [Claim(m), Proceed(m), Reply(m, reply.value.0, reply.value.1)] + Delivery(m)
  }

  /** The row once its run is claimed, or its saved answer taken up, or its model invoked. */
  function UnderWay(row: Row, m: nat): Row
  {
    var claimed := row.(owner := Some(m), expired := false);
    if row.Resumable() then claimed.(status := Validating) else claimed.(status := Running, checkpoint := AtInvocation)
  }

  /** What an undisturbed execution comes to. */
  function Executed(job: Job, s: System, m: nat, reply: Option<(Value, bool)>): System
  {
    var row := UnderWay(s.row, m);
    if s.row.Resumable() then s.(row := ReleasedRow(DeliveredRow(job, row, s.row.result.value, false), m))
    else
      var asked := s.(invoked := s.invoked + [s.row.attempt]);
      if reply.None? then asked.(row := ReleasedRow(FailedRow(row), m))
      else asked.(row := ReleasedRow(DeliveredRow(job, row, reply.value.0, reply.value.1), m),
                  responses := s.responses + {Response(reply.value.0, reply.value.1)})
  }

  lemma StartedIs(job: Job, s: System, m: nat)
    requires s.managers == map[] && s.row.status == Queued && (s.row.Free() || s.row.owner == Some(m))
    ensures Trace(job, s, [Claim(m), Proceed(m)])
            == System(UnderWay(s.row, m),
                      map[m := if s.row.Resumable() then Answered(s.row.result.value, false) else Invoking],
                      s.retries, if s.row.Resumable() then s.invoked else s.invoked + [s.row.attempt], s.responses)
  {
    TraceOneMore(job, s, [], Claim(m));
    TraceOneMore(job, s, [Claim(m)], Proceed(m));
    assert [] + [Claim(m)] == [Claim(m)] && [Claim(m)] + [Proceed(m)] == [Claim(m), Proceed(m)];
  }

  lemma EndedIs(job: Job, s: System, m: nat, reply: Option<(Value, bool)>)
    requires s.managers == map[m := Invoking]
    ensures reply.None? ==> Trace(job, s, [Fail(m), Event.Release(m)])
                            == s.(managers := map[], row := ReleasedRow(FailedRow(s.row), m))
    ensures reply.Some? ==> Trace(job, s, [Reply(m, reply.value.0, reply.value.1)])
                            == s.(managers := map[m := Answered(reply.value.0, reply.value.1)],
                                  responses := s.responses + {Response(reply.value.0, reply.value.1)})
  {
    if reply.None? {
      var failed := With(s, m, Finishing, FailedRow(s.row));
      assert Step(job, s, Fail(m)) == failed;
      ReleaseAlone(job, failed, m, Finishing);
      TraceOneMore(job, s, [], Fail(m));
      TraceOneMore(job, s, [Fail(m)], Event.Release(m));
      assert [] + [Fail(m)] == [Fail(m)] && [Fail(m)] + [Event.Release(m)] == [Fail(m), Event.Release(m)];
    } else {
      var answered := Reply(m, reply.value.0, reply.value.1);
      TraceOneMore(job, s, [], answered);
      assert [] + [answered] == [answered];
    }
  }

  /** An undisturbed execution is exactly the trace of its script. */
  lemma ExecutedIsTrace(job: Job, s: System, m: nat, reply: Option<(Value, bool)>)
    requires s.managers == map[] && s.row.status == Queued && (s.row.Free() || s.row.owner == Some(m))
    ensures Trace(job, s, Script(m, !s.row.Resumable(), reply)) == Executed(job, s, m, reply)
  {
    var start := [Claim(m), Proceed(m)];
    var started := Trace(job, s, start);
    StartedIs(job, s, m);
    if s.row.Resumable() {
      TraceJoins(job, s, start, Delivery(m));
      DeliveryIs(job, started, m, s.row.result.value, false);
    } else if reply.None? {
      EndedIs(job, started, m, reply);
      TraceJoins(job, s, start, [Fail(m), Event.Release(m)]);
      assert start + [Fail(m), Event.Release(m)] == Script(m, true, reply);
    } else {
      EndedIs(job, started, m, reply);
      var answered := [Reply(m, reply.value.0, reply.value.1)];
      TraceJoins(job, s, start, answered);
      TraceJoins(job, s, start + answered, Delivery(m));
      assert start + answered + Delivery(m) == Script(m, true, reply);
      DeliveryIs(job, Trace(job, started, answered), m, reply.value.0, reply.value.1);
    }
  }

  /**
   * An undisturbed execution decides the saved answer, or asks for one and decides that; only an adapter that fails
   * leaves nothing to decide.
   */
  lemma ExecutionDecides(job: Job, s: System, m: nat, reply: Option<(Value, bool)>)
    ensures var after := Executed(job, s, m, reply);
            if KeepsAnswer(s.row) then Decided(job, s.row.result.value, false, after.row) && after.invoked == s.invoked
            else
              && after.invoked == s.invoked + [s.row.attempt]
              && if reply.Some? then Decided(job, reply.value.0, reply.value.1, after.row)
                 else after.row.status == Failed && after.row.result == Failure
  {
    if s.row.Resumable() {
      DeliveredIsDecided(job, UnderWay(s.row, m), s.row.result.value, false);
    } else if reply.Some? {
      DeliveredIsDecided(job, UnderWay(s.row, m), reply.value.0, reply.value.1);
    }
  }

  class AgentRun {
    const job: Job
    var row: Row
    var invoked: seq<int>
    var responses: set<Response>

    /** The run while no manager is busy with it. */
    function State(): System
      reads this
    {
      System(row, map[], map[], invoked, responses)
    }

    constructor (job: Job)
      ensures this.job == job && State() == NEW
    {
      this.job := job;
      row, invoked, responses := NEW.row, [], {};
    }

    method Release(m: nat)
      modifies this`row
      ensures row == ReleasedRow(old(row), m)
    {
      if row.owner == Some(m) {
        row := row.(owner := None, expired := false);
      }
    }

    /** Claims the run, takes up its saved answer or asks the adapter, and carries the answer as far as it will go. */
    method Execute(m: nat, reply: Option<(Value, bool)>) returns (ran: bool)
      modifies this
      ensures ran <==> old(row).status == Queued && (old(row).Free() || old(row).owner == Some(m))
      ensures State() == if ran then Executed(job, old(State()), m, reply) else old(State())
      ensures ran && KeepsAnswer(old(row)) ==> Decided(job, old(row).result.value, false, row)
      ensures ran && !KeepsAnswer(old(row)) && reply.Some? ==> Decided(job, reply.value.0, reply.value.1, row)
      ensures ran && !KeepsAnswer(old(row)) && reply.None? ==> row.status == Failed && row.result == Failure
    {
      ExecutionDecides(job, State(), m, reply);
      if row.status != Queued || !(row.Free() || row.owner == Some(m)) {
        return false;
      }
      ran := true;
      row := row.(owner := Some(m), expired := false);
      if row.Resumable() {
        row := row.(status := Validating);
        Deliver(row.result.value, false);
      } else {
        row := row.(status := Running, checkpoint := AtInvocation);
        invoked := invoked + [row.attempt];
        if reply.None? {
          row := FailedRow(row);
        } else {
          responses := responses + {Response(reply.value.0, reply.value.1)};
          Deliver(reply.value.0, reply.value.1);
        }
      }
      Release(m);
    }

    /** Stores an answer, has it judged, and persists what the judges made of it. */
    method Deliver(answer: Value, vouched: bool)
      modifies this`row
      ensures row == DeliveredRow(job, old(row), answer, vouched)
      ensures Decided(job, answer, vouched, row)
    {
      DeliveredIsDecided(job, row, answer, vouched);
      if job.backend == Manual {
        row := row.(status := AwaitingImport, result := Answer(answer), checkpoint := AtEnd);
        return;
      }
      row := row.(status := Validating, result := Answer(answer), checkpoint := CandidateReceived);
      var output := Judged(job, answer, vouched);
      if output.None? {
        row := FailedRow(row);
        return;
      }
      row := row.(result := Answer(output.value), checkpoint := Validated);
      if job.backend == Mock {
        row := row.(status := TestPassed, result := Answer(output.value), checkpoint := AtEnd);
        return;
      }
      row := row.(status := Persisting, checkpoint := AtPersistence);
      row := row.(status := Persisted, result := Answer(output.value), checkpoint := AtEnd);
    }
  }
}
