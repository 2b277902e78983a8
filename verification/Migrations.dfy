/**
 * Versioned migrations under a journal: each is marked as started, applied and marked as completed in one commit, or
 * marked as failed; a run may raise or die anywhere and be started again from the same recorded version.
 */
module Migrations {
  import opened Wrappers

  datatype Migration = Migration(version: nat, id: string, checksum: string)

  datatype Status = Started | Completed | Failed

  datatype Entry = Entry(status: Status, checksum: string, from: nat, to: nat)

  /** The journal, and the migrations whose changes were committed, in order. */
  datatype Database = Database(journal: map<string, Entry>, applied: seq<string>)

  /** How one migration fares: it may raise, or the process may die at any of three points. */
  datatype Fate = Succeeds | Raises | DiesUnstarted | DiesStarted | DiesCompleted

  datatype Outcome = Returned | Raised | Died

  /** A run in progress: the version it goes on from, and whether and how it has stopped. */
  datatype Progress = Progress(db: Database, previous: nat, stopped: Option<Outcome>)

  predicate Ascending(migrations: seq<Migration>)
  {
    && (forall i, j :: 0 <= i < j < |migrations| ==> migrations[i].version < migrations[j].version)
    && (forall i, j :: 0 <= i < j < |migrations| ==> migrations[i].id != migrations[j].id)
  }

  predicate IsCompleted(db: Database, id: string)
  {
    id in db.journal && db.journal[id].status == Completed
  }

  function Marked(db: Database, m: Migration, from: nat, status: Status): Database
  {
    db.(journal := db.journal[m.id := Entry(status, m.checksum, from, m.version)])
  }

  /** One migration that is not completed yet, from its start mark to its end. */
  function Attempted(p: Progress, m: Migration, fate: Fate): Progress
  {
    var completed := Marked(p.db, m, p.previous, Completed).(applied := p.db.applied + [m.id]);
    match fate
    case Succeeds => Progress(completed, m.version, None)
    case Raises => Progress(Marked(p.db, m, p.previous, Failed), p.previous, Some(Raised))
    case DiesUnstarted => p.(stopped := Some(Died))
    case DiesStarted => Progress(Marked(p.db, m, p.previous, Started), p.previous, Some(Died))
    case DiesCompleted => Progress(completed, p.previous, Some(Died))
  }

  function Advanced(p: Progress, m: Migration, target: nat, fate: Fate): Progress
  {
    if p.stopped.Some? || m.version <= p.previous || m.version > target then p
    else if !IsCompleted(p.db, m.id) then Attempted(p, m, fate)
    else if p.db.journal[m.id].checksum != m.checksum then p.(stopped := Some(Raised))
    else p
  }

  function Ran(migrations: seq<Migration>, db: Database, recorded: nat, target: nat, fates: string -> Fate): Progress
  {
    if migrations == [] then Progress(db, recorded, None)
    else
      var m := migrations[|migrations| - 1];
      Advanced(Ran(migrations[..|migrations| - 1], db, recorded, target, fates), m, target, fates(m.id))
  }

  function OutcomeOf(p: Progress): Outcome
  {
    if p.stopped.None? then Returned else p.stopped.value
  }

  // ---- the completed migrations are a prefix ----------------------------------------------------

  predicate Due(m: Migration, recorded: nat, target: nat)
  {
    recorded < m.version <= target
  }

  function DueIds(migrations: seq<Migration>, recorded: nat, target: nat): seq<string>
  {
    if migrations == [] then []
    else
      var m := migrations[|migrations| - 1];
      DueIds(migrations[..|migrations| - 1], recorded, target) + if Due(m, recorded, target) then [m.id] else []
  }

  /** Of the due migrations just those before the cut are completed, and they were applied once each, in order. */
  ghost predicate CompletedUpTo(migrations: seq<Migration>, db: Database, base: seq<string>, recorded: nat, target: nat, cut: nat)
  {
    && cut <= |migrations|
    && (forall i :: 0 <= i < |migrations| && Due(migrations[i], recorded, target) ==>
          (IsCompleted(db, migrations[i].id) <==> i < cut))
    && (forall i :: 0 <= i < cut && Due(migrations[i], recorded, target) ==>
          db.journal[migrations[i].id].checksum == migrations[i].checksum)
    && db.applied == base + DueIds(migrations[..cut], recorded, target)
  }

  lemma CutPast(migrations: seq<Migration>, db: Database, base: seq<string>, recorded: nat, target: nat, cut: nat)
    requires CompletedUpTo(migrations, db, base, recorded, target, cut)
    requires cut < |migrations| && !Due(migrations[cut], recorded, target)
    ensures CompletedUpTo(migrations, db, base, recorded, target, cut + 1)
  {
    assert migrations[..cut + 1][..cut] == migrations[..cut];
  }

  lemma CutCompleted(migrations: seq<Migration>, db: Database, base: seq<string>, recorded: nat, target: nat, cut: nat,
                     from: nat)
    requires Ascending(migrations) && CompletedUpTo(migrations, db, base, recorded, target, cut)
    requires cut < |migrations| && Due(migrations[cut], recorded, target)
    ensures var m := migrations[cut];
            CompletedUpTo(migrations, Marked(db, m, from, Completed).(applied := db.applied + [m.id]), base, recorded, target, cut + 1)
  {
    assert migrations[..cut + 1][..cut] == migrations[..cut];
  }

  lemma CutMarked(migrations: seq<Migration>, db: Database, base: seq<string>, recorded: nat, target: nat, cut: nat,
                  from: nat, status: Status)
    requires Ascending(migrations) && CompletedUpTo(migrations, db, base, recorded, target, cut)
    requires cut < |migrations| && Due(migrations[cut], recorded, target) && status != Completed
    ensures CompletedUpTo(migrations, Marked(db, migrations[cut], from, status), base, recorded, target, cut)
  {
  }

  /** A run has gone on from the recorded version or from a migration it has passed. */
  ghost predicate GoesOnFrom(migrations: seq<Migration>, previous: nat, recorded: nat, n: nat)
  {
    previous == recorded || exists j :: 0 <= j < n <= |migrations| && migrations[j].version == previous && recorded < previous
  }

  function Later(a: nat, b: nat): nat
  {
    if a < b then b else a
  }

  /**
   * After the first `n` migrations of a run that started with the cut at `cut`: if it has not stopped, the cut is
   * past them all; if it has, the cut is somewhere between.
   */
  ghost predicate RunSoFar(migrations: seq<Migration>, p: Progress, base: seq<string>, recorded: nat, target: nat, cut: nat, n: nat)
  {
    if p.stopped.None?
    then CompletedUpTo(migrations, p.db, base, recorded, target, Later(cut, n))
         && GoesOnFrom(migrations, p.previous, recorded, n)
    else exists reached :: cut <= reached && CompletedUpTo(migrations, p.db, base, recorded, target, reached)
  }

  lemma AttemptKeepsPrefix(migrations: seq<Migration>, p: Progress, base: seq<string>, recorded: nat, target: nat, cut: nat,
                           n: nat, fate: Fate)
    requires Ascending(migrations) && n < |migrations| && Due(migrations[n], recorded, target)
    requires p.stopped.None? && cut <= n && CompletedUpTo(migrations, p.db, base, recorded, target, n)
    ensures RunSoFar(migrations, Attempted(p, migrations[n], fate), base, recorded, target, cut, n + 1)
    ensures Attempted(p, migrations[n], fate).stopped.None? <==> fate == Succeeds
  {
    CutCompleted(migrations, p.db, base, recorded, target, n, p.previous);
    CutMarked(migrations, p.db, base, recorded, target, n, p.previous, Started);
    CutMarked(migrations, p.db, base, recorded, target, n, p.previous, Failed);
    match fate
    case Succeeds =>
      assert migrations[n].version > recorded;
    case DiesCompleted =>
      assert cut <= n + 1;
    case _ =>
      assert cut <= n;
  }

  lemma AdvanceKeepsPrefix(migrations: seq<Migration>, p: Progress, base: seq<string>, recorded: nat, target: nat, cut: nat,
                           n: nat, fate: Fate)
    requires Ascending(migrations) && n < |migrations| && cut <= |migrations|
    requires RunSoFar(migrations, p, base, recorded, target, cut, n)
    ensures RunSoFar(migrations, Advanced(p, migrations[n], target, fate), base, recorded, target, cut, n + 1)
    ensures p.stopped.None? ==>
              (Advanced(p, migrations[n], target, fate).stopped.None?
               <==> n < cut || !Due(migrations[n], recorded, target) || fate == Succeeds)
  {
    var m := migrations[n];
    if p.stopped.None? {
      assert m.version <= p.previous <==> m.version <= recorded;
      if !Due(m, recorded, target) {
        if cut <= n {
          CutPast(migrations, p.db, base, recorded, target, n);
        }
      } else if cut <= n {
        AttemptKeepsPrefix(migrations, p, base, recorded, target, cut, n, fate);
      }
    }
  }

  lemma {:induction false} RanKeepsPrefix(migrations: seq<Migration>, db: Database, base: seq<string>, recorded: nat, target: nat,
                                          cut: nat, fates: string -> Fate, n: nat)
    requires Ascending(migrations) && n <= |migrations|
    requires CompletedUpTo(migrations, db, base, recorded, target, cut)
    ensures RunSoFar(migrations, Ran(migrations[..n], db, recorded, target, fates), base, recorded, target, cut, n)
    ensures Ran(migrations[..n], db, recorded, target, fates).stopped.None?
            <==> forall i :: cut <= i < n && Due(migrations[i], recorded, target) ==> fates(migrations[i].id) == Succeeds
  {
    if n > 0 {
      RanKeepsPrefix(migrations, db, base, recorded, target, cut, fates, n - 1);
      assert migrations[..n][..n - 1] == migrations[..n - 1];
      AdvanceKeepsPrefix(migrations, Ran(migrations[..n - 1], db, recorded, target, fates), base, recorded, target, cut, n - 1,
                         fates(migrations[n - 1].id));
    }
  }

  // ---- runs -------------------------------------------------------------------------------------

  /** A run, however it ends, leaves a longer or equal prefix completed, and returns exactly when nothing left to do fails. */
  lemma RunKeepsPrefix(migrations: seq<Migration>, db: Database, base: seq<string>, recorded: nat, target: nat, cut: nat,
                       fates: string -> Fate) returns (reached: nat)
    requires Ascending(migrations) && CompletedUpTo(migrations, db, base, recorded, target, cut)
    ensures cut <= reached
    ensures CompletedUpTo(migrations, Ran(migrations, db, recorded, target, fates).db, base, recorded, target, reached)
    ensures var returned := OutcomeOf(Ran(migrations, db, recorded, target, fates)) == Returned;
            && (returned ==> reached == |migrations|)
            && (returned <==> forall i :: cut <= i < |migrations| && Due(migrations[i], recorded, target)
                                          ==> fates(migrations[i].id) == Succeeds)
  {
    RanKeepsPrefix(migrations, db, base, recorded, target, cut, fates, |migrations|);
    assert migrations[..|migrations|] == migrations;
    var p := Ran(migrations, db, recorded, target, fates);
    StoppedIsNotReturned(migrations, db, recorded, target, fates);
    if p.stopped.None? {
      reached := |migrations|;
    } else {
      reached :| cut <= reached && CompletedUpTo(migrations, p.db, base, recorded, target, reached);
    }
  }

  lemma {:induction false} StoppedIsNotReturned(migrations: seq<Migration>, db: Database, recorded: nat, target: nat,
                                                fates: string -> Fate)
    ensures Ran(migrations, db, recorded, target, fates).stopped != Some(Returned)
  {
    if migrations != [] {
      StoppedIsNotReturned(migrations[..|migrations| - 1], db, recorded, target, fates);
    }
  }

  /** Runs one after another from the same recorded version, each with its own fates. */
  function RanAll(migrations: seq<Migration>, db: Database, recorded: nat, target: nat, runs: seq<string -> Fate>): Database
  {
    if runs == [] then db
    else Ran(migrations, RanAll(migrations, db, recorded, target, runs[..|runs| - 1]), recorded, target, runs[|runs| - 1]).db
  }

  /** Over any number of failing runs the completed migrations stay a prefix that never shrinks. */
  lemma {:induction false} AnyRunsKeepPrefix(migrations: seq<Migration>, db: Database, base: seq<string>, recorded: nat, target: nat,
                                             cut: nat, runs: seq<string -> Fate>) returns (reached: nat)
    requires Ascending(migrations) && CompletedUpTo(migrations, db, base, recorded, target, cut)
    ensures cut <= reached
    ensures CompletedUpTo(migrations, RanAll(migrations, db, recorded, target, runs), base, recorded, target, reached)
  {
    if runs == [] {
      reached := cut;
    } else {
      var between := AnyRunsKeepPrefix(migrations, db, base, recorded, target, cut, runs[..|runs| - 1]);
      reached := RunKeepsPrefix(migrations, RanAll(migrations, db, recorded, target, runs[..|runs| - 1]), base, recorded, target,
                                between, runs[|runs| - 1]);
    }
  }

  lemma {:induction false} DueIdsAreOnce(migrations: seq<Migration>, recorded: nat, target: nat)
    requires Ascending(migrations)
    ensures forall id :: id in DueIds(migrations, recorded, target) ==> exists i :: 0 <= i < |migrations| && migrations[i].id == id
    ensures forall i, j :: 0 <= i < j < |DueIds(migrations, recorded, target)| ==>
              DueIds(migrations, recorded, target)[i] != DueIds(migrations, recorded, target)[j]
  {
    if migrations != [] {
      var rest := migrations[..|migrations| - 1];
      DueIdsAreOnce(rest, recorded, target);
      forall id | id in DueIds(rest, recorded, target)
        ensures exists i :: 0 <= i < |rest| && migrations[i].id == id
      {
        var i :| 0 <= i < |rest| && rest[i].id == id;
        assert migrations[i] == rest[i];
      }
      assert migrations[|migrations| - 1].id !in DueIds(rest, recorded, target);
    }
  }

  /** No migration is applied twice: beyond what was there, the applied ones are different from each other. */
  lemma NothingIsAppliedTwice(migrations: seq<Migration>, db: Database, recorded: nat, target: nat, cut: nat,
                              runs: seq<string -> Fate>)
    requires Ascending(migrations) && CompletedUpTo(migrations, db, db.applied, recorded, target, cut)
    ensures var applied := RanAll(migrations, db, recorded, target, runs).applied;
            && db.applied <= applied
            && forall i, j :: |db.applied| <= i < j < |applied| ==> applied[i] != applied[j]
  {
    var reached := AnyRunsKeepPrefix(migrations, db, db.applied, recorded, target, cut, runs);
    DueIdsAreOnce(migrations[..reached], recorded, target);
    var applied := RanAll(migrations, db, recorded, target, runs).applied;
    var due := DueIds(migrations[..reached], recorded, target);
    assert applied == db.applied + due;
    forall i, j | |db.applied| <= i < j < |applied|
      ensures applied[i] != applied[j]
    {
      assert applied[i] == due[i - |db.applied|] && applied[j] == due[j - |db.applied|];
    }
  }

  lemma {:induction false} NothingLeftToDo(migrations: seq<Migration>, db: Database, base: seq<string>, recorded: nat, target: nat,
                                           fates: string -> Fate, n: nat)
    requires Ascending(migrations) && CompletedUpTo(migrations, db, base, recorded, target, |migrations|) && n <= |migrations|
    ensures Ran(migrations[..n], db, recorded, target, fates) == Progress(db, recorded, None)
  {
    if n > 0 {
      NothingLeftToDo(migrations, db, base, recorded, target, fates, n - 1);
      assert migrations[..n][..n - 1] == migrations[..n - 1];
    }
  }

  /** After a run that returned, every due migration is completed and any further run changes nothing and returns. */
  lemma RunAfterReturnIsNoOp(migrations: seq<Migration>, db: Database, base: seq<string>, recorded: nat, target: nat, cut: nat,
                             fates: string -> Fate, later: string -> Fate)
    requires Ascending(migrations) && CompletedUpTo(migrations, db, base, recorded, target, cut)
    requires OutcomeOf(Ran(migrations, db, recorded, target, fates)) == Returned
    ensures var after := Ran(migrations, db, recorded, target, fates).db;
            && (forall i :: 0 <= i < |migrations| && Due(migrations[i], recorded, target) ==> IsCompleted(after, migrations[i].id))
            && Ran(migrations, after, recorded, target, later) == Progress(after, recorded, None)
  {
    var reached := RunKeepsPrefix(migrations, db, base, recorded, target, cut, fates);
    NothingLeftToDo(migrations, Ran(migrations, db, recorded, target, fates).db, base, recorded, target, later, |migrations|);
    assert migrations[..|migrations|] == migrations;
  }

  /** A completed entry is never rewritten, and one with another checksum makes the run raise before anything after it. */
  lemma {:induction false} CompletedEntriesStay(migrations: seq<Migration>, db: Database, recorded: nat, target: nat, fates: string -> Fate, id: string)
    requires IsCompleted(db, id)
    ensures id in Ran(migrations, db, recorded, target, fates).db.journal
    ensures Ran(migrations, db, recorded, target, fates).db.journal[id] == db.journal[id]
  {
    if migrations != [] {
      CompletedEntriesStay(migrations[..|migrations| - 1], db, recorded, target, fates, id);
    }
  }

  // ---- the loop over the journal ----------------------------------------------------------------

  class MigrationJournal {
    var journal: map<string, Entry>
    var applied: seq<string>

    function State(): Database
      reads this
    {
      Database(journal, applied)
    }

    constructor (db: Database)
      ensures State() == db
    {
      journal, applied := db.journal, db.applied;
    }

    method Mark(m: Migration, from: nat, status: Status)
      modifies this`journal
      ensures State() == Marked(old(State()), m, from, status)
    {
      journal := journal[m.id := Entry(status, m.checksum, from, m.version)];
    }

    method Apply(migrations: seq<Migration>, recorded: nat, target: nat, fates: string -> Fate) returns (outcome: Outcome)
      modifies this
      ensures State() == Ran(migrations, old(State()), recorded, target, fates).db
      ensures outcome == OutcomeOf(Ran(migrations, old(State()), recorded, target, fates))
    {
      var previous: nat := recorded;
      for i := 0 to |migrations|
        invariant Progress(State(), previous, None) == Ran(migrations[..i], old(State()), recorded, target, fates)
      {
        var m := migrations[i];
        assert migrations[..i + 1][..i] == migrations[..i];
        if previous < m.version <= target {
          if m.id in journal && journal[m.id].status == Completed {
            if journal[m.id].checksum != m.checksum {
              StoppedRunStays(migrations, old(State()), recorded, target, fates, i + 1);
              return Raised;
            }
          } else {
            var fate := fates(m.id);
            if fate != Succeeds {
              StoppedRunStays(migrations, old(State()), recorded, target, fates, i + 1);
            }
            if fate == DiesUnstarted {
              return Died;
            }
            Mark(m, previous, Started);
            if fate == DiesStarted {
              return Died;
            }
            if fate == Raises {
              Mark(m, previous, Failed);
              return Raised;
            }
            applied := applied + [m.id];
            Mark(m, previous, Completed);
            if fate == DiesCompleted {
              return Died;
            }
            previous := m.version;
          }
        }
      }
      assert migrations[..|migrations|] == migrations;
      outcome := Returned;
    }
  }

  lemma {:induction false} StoppedRunStays(migrations: seq<Migration>, db: Database, recorded: nat, target: nat,
                                           fates: string -> Fate, n: nat)
    requires n <= |migrations| && Ran(migrations[..n], db, recorded, target, fates).stopped.Some?
    ensures Ran(migrations, db, recorded, target, fates) == Ran(migrations[..n], db, recorded, target, fates)
    decreases |migrations|
  {
    if n < |migrations| {
      var rest := migrations[..|migrations| - 1];
      assert rest[..n] == migrations[..n];
      StoppedRunStays(rest, db, recorded, target, fates, n);
    } else {
      assert migrations[..n] == migrations;
    }
  }
}
