/**
 * Restoring a backup: managed roots are swapped one by one, the database is installed, rebased, migrated and checked,
 * and a failure anywhere undoes the swaps in reverse and puts the safety snapshot of the database back.
 */
module Backups {
  import opened Wrappers
  import opened Collections

  datatype Root = Config | Corpus | Sessions | StudyThreads | StoryBank | Reports | Calibration | Media

  const MANAGED_ROOTS: seq<Root> := [Config, Corpus, Sessions, StudyThreads, StoryBank, Reports, Calibration, Media]

  /** The files below a root, by path, and the contents of a database file. */
  type Tree = map<string, string>
  type Database = string

  datatype Home = Home(roots: map<Root, Tree>, databases: map<string, Database>)

  datatype Archive = Archive(roots: map<Root, Tree>, database: Option<(string, Database)>)

  /** The places at which a restore can fail, before or after the step has had its effect. */
  datatype Fault =
    | QuarantineFails(root: Root)
    | InstallFails(root: Root)
    | CopyFails
    | CheckFails
    | RebaseFailsEarly
    | RebaseFailsLate
    | StartFails
    | Unhealthy

  /**
   * What the steps outside this model do: the name of the database file, what a copy that fails its check holds, the
   * changes of rebasing and migrating, and what these leave of a tree or a file when they fail half way.
   */
  datatype World = World(
    name: Option<Tree> -> string,
    damaged: Database -> Database,
    rebasedTables: Database -> Database,
    rebasedTree: Tree -> Tree,
    halfRebased: Tree -> Tree,
    migrated: Option<Database> -> Database,
    halfMigrated: Option<Database> -> Option<Database>,
    faults: set<Fault>)
  {
    /** A step that would change nothing changes nothing half way either. */
    ghost predicate Orderly()
    {
      && (forall tree: Tree :: rebasedTree(tree) == tree ==> halfRebased(tree) == tree)
      && (forall database: Database :: migrated(Some(database)) == database ==> halfMigrated(Some(database)) == Some(database))
    }
  }

  /** The database file in use, which the settings in the config root name. */
  function ActiveName(w: World, home: Home): string
  {
    w.name(Lookup(home.roots, Config))
  }

  // ---- swapping the roots -----------------------------------------------------------------------

  datatype Swap = Swap(roots: map<Root, Tree>, quarantine: map<Root, Tree>, moved: seq<Root>, installed: seq<Root>, failed: bool)

  function SwapOne(w: World, archive: Archive, s: Swap, root: Root): Swap
  {
    if s.failed || root !in archive.roots then s
    else if root in s.roots && QuarantineFails(root) in w.faults then s.(failed := true)
    else
      var aside := if root in s.roots
                   then s.(roots := s.roots - {root}, quarantine := s.quarantine[root := s.roots[root]], moved := s.moved + [root])
                   else s;
      if InstallFails(root) in w.faults then aside.(failed := true)
      else aside.(roots := aside.roots[root := archive.roots[root]], installed := aside.installed + [root])
  }

  function Swapped(w: World, archive: Archive, roots: map<Root, Tree>, names: seq<Root>): Swap
  {
    if names == [] then Swap(roots, map[], [], [], false)
    else SwapOne(w, archive, Swapped(w, archive, roots, names[..|names| - 1]), names[|names| - 1])
  }

  /** Installed roots removed, last one first. */
  function Removed(roots: map<Root, Tree>, installed: seq<Root>): map<Root, Tree>
    decreases |installed|
  {
    if installed == [] then roots else Removed(roots - {installed[|installed| - 1]}, installed[..|installed| - 1])
  }

  /** Quarantined roots moved back, last one first. */
  function PutBack(roots: map<Root, Tree>, quarantine: map<Root, Tree>, moved: seq<Root>): map<Root, Tree>
    decreases |moved|
  {
    if moved == [] then roots
    else
      var root := moved[|moved| - 1];
      PutBack(if root in quarantine then roots[root := quarantine[root]] else roots, quarantine, moved[..|moved| - 1])
  }

  // ---- the whole restore ------------------------------------------------------------------------

  datatype Outcome = Restored(home: Home) | RolledBack(home: Home)
  datatype Attempt = Attempt(home: Home, failed: bool, attempted: bool)

  /** Everything between the swap and the health check. */
  function Install(w: World, archive: Archive, home: Home): Attempt
  {
    if archive.database.None? then Attempt(home, true, false)
    else
      var (name, database) := archive.database.value;
      if CopyFails in w.faults then Attempt(home, true, true)
      else if CheckFails in w.faults
      then Attempt(home.(databases := home.databases[name := w.damaged(database)]), true, true)
      else Migrate(w, home.(databases := home.databases[name := database]))
  }

  function Rebase(w: World, home: Home, change: Tree -> Tree): Home
  {
    var name := ActiveName(w, home);
    if name !in home.databases then home
    else home.(databases := home.databases[name := w.rebasedTables(home.databases[name])],
               roots := if Corpus in home.roots then home.roots[Corpus := change(home.roots[Corpus])] else home.roots)
  }

  function Start(w: World, home: Home): Attempt
  {
    var name := ActiveName(w, home);
    var found := Lookup(home.databases, name);
    if StartFails in w.faults
    then Attempt(if w.halfMigrated(found).Some?
                 then home.(databases := home.databases[name := w.halfMigrated(found).value]) else home, true, true)
    else Attempt(home.(databases := home.databases[name := w.migrated(found)]), Unhealthy in w.faults, true)
  }

  function Migrate(w: World, home: Home): Attempt
  {
    if RebaseFailsEarly in w.faults then Attempt(home, true, true)
    else if RebaseFailsLate in w.faults then Attempt(Rebase(w, home, w.halfRebased), true, true)
    else Start(w, Rebase(w, home, w.rebasedTree))
  }

  /** The safety snapshot installed again, under the name the database had when the snapshot was taken. */
  function SnapshotBack(w: World, before: Home, databases: map<string, Database>): map<string, Database>
  {
    var name := ActiveName(w, before);
    if name in before.databases then databases[name := before.databases[name]] else databases
  }

  function Restoring(w: World, archive: Archive, before: Home): Outcome
  {
    var s := Swapped(w, archive, before.roots, MANAGED_ROOTS);
    var attempt := if s.failed then Attempt(Home(s.roots, before.databases), true, false)
                   else Install(w, archive, Home(s.roots, before.databases));
    if !attempt.failed then Restored(attempt.home)
    else RolledBack(Home(PutBack(Removed(attempt.home.roots, s.installed), s.quarantine, s.moved),
                         if attempt.attempted then SnapshotBack(w, before, attempt.home.databases) else attempt.home.databases))
  }

  // ---- the swap and its reversal ----------------------------------------------------------------

  predicate Touched(s: Swap, root: Root)
  {
    root in s.moved || root in s.installed
  }

  /** How one root stands in a swap in progress: untouched, set aside, or replaced, and recoverable in each case. */
  ghost predicate Recoverable(s: Swap, archive: Archive, before: map<Root, Tree>, root: Root)
  {
    && (Touched(s, root) ==> root in archive.roots)
    && (root in s.moved ==> root in before && root in s.quarantine && s.quarantine[root] == before[root])
    && (root in s.installed ==> Lookup(s.roots, root) == Some(archive.roots[root]) && (root in before ==> root in s.moved))
    && (root !in s.installed && root in s.moved ==> root !in s.roots)
    && (!Touched(s, root) ==> Lookup(s.roots, root) == Lookup(before, root))
  }

  ghost predicate Distinct(names: seq<Root>)
  {
    forall i, j :: 0 <= i < j < |names| ==> names[i] != names[j]
  }

  lemma SwapOneLeavesOthers(w: World, archive: Archive, s: Swap, root: Root, other: Root)
    requires other != root
    ensures var after := SwapOne(w, archive, s, root);
            && (other in after.moved <==> other in s.moved) && (other in after.installed <==> other in s.installed)
            && Lookup(after.roots, other) == Lookup(s.roots, other)
            && Lookup(after.quarantine, other) == Lookup(s.quarantine, other)
  {
  }

  lemma SwapOneReplaces(w: World, archive: Archive, before: map<Root, Tree>, s: Swap, root: Root)
    requires !Touched(s, root) && Lookup(s.roots, root) == Lookup(before, root)
    ensures Recoverable(SwapOne(w, archive, s, root), archive, before, root)
    ensures !SwapOne(w, archive, s, root).failed && root in archive.roots ==> root in SwapOne(w, archive, s, root).installed
  {
  }

  lemma SwapOneIsRecoverable(w: World, archive: Archive, before: map<Root, Tree>, s: Swap, root: Root, other: Root)
    requires Recoverable(s, archive, before, other) && !Touched(s, root)
    ensures Recoverable(SwapOne(w, archive, s, root), archive, before, other)
    ensures other != root && !Touched(s, other) ==> !Touched(SwapOne(w, archive, s, root), other)
    ensures other in s.installed ==> other in SwapOne(w, archive, s, root).installed
    ensures !SwapOne(w, archive, s, root).failed && other == root && root in archive.roots ==>
              root in SwapOne(w, archive, s, root).installed
  {
    if other == root {
      SwapOneReplaces(w, archive, before, s, root);
    } else {
      SwapOneLeavesOthers(w, archive, s, root, other);
      var after := SwapOne(w, archive, s, root);
      assert Lookup(after.quarantine, other) == Lookup(s.quarantine, other);
      assert other in after.roots <==> Lookup(after.roots, other).Some?;
    }
  }

  lemma {:induction false} SwappedSoFar(w: World, archive: Archive, before: map<Root, Tree>, names: seq<Root>, root: Root)
    requires Distinct(names)
    ensures Recoverable(Swapped(w, archive, before, names), archive, before, root)
    ensures root !in names ==> !Touched(Swapped(w, archive, before, names), root)
    ensures !Swapped(w, archive, before, names).failed && root in names && root in archive.roots ==>
              root in Swapped(w, archive, before, names).installed
  {
    if names != [] {
      var rest, last := names[..|names| - 1], names[|names| - 1];
      SwappedSoFar(w, archive, before, rest, root);
      SwappedSoFar(w, archive, before, rest, last);
      SwapOneIsRecoverable(w, archive, before, Swapped(w, archive, before, rest), last, root);
      assert names == rest + [last];
    }
  }

  lemma {:induction false} RemovedIs(roots: map<Root, Tree>, installed: seq<Root>)
    ensures forall root :: Lookup(Removed(roots, installed), root) == if root in installed then None else Lookup(roots, root)
    decreases |installed|
  {
    if installed != [] {
      var last := installed[|installed| - 1];
      RemovedIs(roots - {last}, installed[..|installed| - 1]);
      assert installed == installed[..|installed| - 1] + [last];
    }
  }

  lemma {:induction false} PutBackIs(roots: map<Root, Tree>, quarantine: map<Root, Tree>, moved: seq<Root>)
    requires forall root :: root in moved ==> root in quarantine
    ensures forall root :: Lookup(PutBack(roots, quarantine, moved), root)
                           == if root in moved then Some(quarantine[root]) else Lookup(roots, root)
    decreases |moved|
  {
    if moved != [] {
      var last := moved[|moved| - 1];
      PutBackIs(roots[last := quarantine[last]], quarantine, moved[..|moved| - 1]);
      assert moved == moved[..|moved| - 1] + [last];
    }
  }

  /** Undoing a swap, wherever it stopped, gives back every root it touched and leaves the others as they are now. */
  lemma UndoneRoot(s: Swap, archive: Archive, before: map<Root, Tree>, now: map<Root, Tree>, root: Root)
    requires forall other: Root :: Recoverable(s, archive, before, other)
    ensures Lookup(PutBack(Removed(now, s.installed), s.quarantine, s.moved), root)
            == Lookup(if Touched(s, root) then before else now, root)
  {
    forall other | other in s.moved
      ensures other in s.quarantine
    {
      assert Recoverable(s, archive, before, other);
    }
    RemovedIs(now, s.installed);
    PutBackIs(Removed(now, s.installed), s.quarantine, s.moved);
    assert Recoverable(s, archive, before, root);
  }

  // ---- what a restore promises ------------------------------------------------------------------

  lemma ManagedRootsAreAll(root: Root)
    ensures Distinct(MANAGED_ROOTS) && root in MANAGED_ROOTS
  {
    assert MANAGED_ROOTS[0] == Config && MANAGED_ROOTS[1] == Corpus && MANAGED_ROOTS[2] == Sessions
           && MANAGED_ROOTS[3] == StudyThreads && MANAGED_ROOTS[4] == StoryBank && MANAGED_ROOTS[5] == Reports
           && MANAGED_ROOTS[6] == Calibration && MANAGED_ROOTS[7] == Media;
  }

  lemma SwapIsRecoverable(w: World, archive: Archive, before: map<Root, Tree>)
    ensures forall root: Root :: Recoverable(Swapped(w, archive, before, MANAGED_ROOTS), archive, before, root)
    ensures !Swapped(w, archive, before, MANAGED_ROOTS).failed ==>
              forall root: Root :: root in archive.roots ==> root in Swapped(w, archive, before, MANAGED_ROOTS).installed
  {
    forall root: Root
      ensures Recoverable(Swapped(w, archive, before, MANAGED_ROOTS), archive, before, root)
      ensures !Swapped(w, archive, before, MANAGED_ROOTS).failed && root in archive.roots ==>
                root in Swapped(w, archive, before, MANAGED_ROOTS).installed
    {
      ManagedRootsAreAll(root);
      SwappedSoFar(w, archive, before, MANAGED_ROOTS, root);
    }
  }

  /** A root as rebasing leaves it, to the end or half way. */
  ghost predicate IsRebased(w: World, tree: Tree, after: Option<Tree>)
  {
    after == Some(w.rebasedTree(tree)) || after == Some(w.halfRebased(tree))
  }

  /** Rebasing, migrating and checking change no root but the corpus, and that only by rebasing. */
  lemma InstallRoots(w: World, archive: Archive, home: Home, root: Root)
    ensures var attempt := Install(w, archive, home);
            || Lookup(attempt.home.roots, root) == Lookup(home.roots, root)
            || (root == Corpus && Corpus in home.roots && IsRebased(w, home.roots[Corpus], Lookup(attempt.home.roots, root))
                && (!attempt.failed ==> Lookup(attempt.home.roots, root) == Some(w.rebasedTree(home.roots[Corpus]))))
  {
  }

  /**
   * A restore that fails, at whatever step, leaves every managed root as it was; only a corpus the archive did not
   * contain may have been rebased, wholly or in part, which nothing undoes.
   */
  lemma FailedRestoreKeepsRoots(w: World, archive: Archive, before: Home, root: Root)
    requires Restoring(w, archive, before).RolledBack?
    ensures var after := Restoring(w, archive, before).home;
            || Lookup(after.roots, root) == Lookup(before.roots, root)
            || (root == Corpus && Corpus !in archive.roots && Corpus in before.roots
                && IsRebased(w, before.roots[Corpus], Lookup(after.roots, root)))
  {
    var s := Swapped(w, archive, before.roots, MANAGED_ROOTS);
    SwapIsRecoverable(w, archive, before.roots);
    assert Recoverable(s, archive, before.roots, root) && Recoverable(s, archive, before.roots, Corpus);
    var now := if s.failed then s.roots else Install(w, archive, Home(s.roots, before.databases)).home.roots;
    UndoneRoot(s, archive, before.roots, now, root);
    InstallRoots(w, archive, Home(s.roots, before.databases), root);
  }

  /** The database files as they stand when a restore fails. */
  function AtFailure(w: World, archive: Archive, before: Home): Attempt
  {
    var s := Swapped(w, archive, before.roots, MANAGED_ROOTS);
    if s.failed then Attempt(Home(s.roots, before.databases), true, false)
    else Install(w, archive, Home(s.roots, before.databases))
  }

  /** A failed restore never loses the database it started with. */
  lemma FailedRestoreKeepsDatabase(w: World, archive: Archive, before: Home)
    requires Restoring(w, archive, before).RolledBack?
    ensures var name := ActiveName(w, before);
            name in before.databases ==> Lookup(Restoring(w, archive, before).home.databases, name) == Some(before.databases[name])
  {
  }

  /** In one world: the rollback writes the active file only, so all files are back exactly when no other was changed. */
  lemma OnlyActiveIsPutBack(w: World, archive: Archive, before: Home)
    requires Restoring(w, archive, before).RolledBack?
    ensures Restoring(w, archive, before).home.databases == before.databases
            <==> forall name :: (name in before.databases && name == ActiveName(w, before))
                                || Lookup(AtFailure(w, archive, before).home.databases, name) == Lookup(before.databases, name)
  {
    var active := ActiveName(w, before);
    var after, failure := Restoring(w, archive, before).home.databases, AtFailure(w, archive, before).home.databases;
    forall name | !(name in before.databases && name == active)
      ensures Lookup(after, name) == Lookup(failure, name)
    {
    }
    if forall name :: (name in before.databases && name == active) || Lookup(failure, name) == Lookup(before.databases, name) {
      FailedRestoreKeepsDatabase(w, archive, before);
      forall name: string
        ensures Lookup(after, name) == Lookup(before.databases, name)
      {
      }
      SameLookups(after, before.databases);
    }
  }

  /** The name of the database file in use once the roots of the archive are installed. */
  function RestoredName(name: Option<Tree> -> string, archive: Archive, before: Home): string
  {
    name(Lookup(if Config in archive.roots then archive.roots else before.roots, Config))
  }

  lemma SwappedName(w: World, archive: Archive, before: Home)
    ensures var s := Swapped(w, archive, before.roots, MANAGED_ROOTS);
            !s.failed ==> ActiveName(w, Home(s.roots, before.databases)) == RestoredName(w.name, archive, before)
  {
    SwapIsRecoverable(w, archive, before.roots);
    assert Recoverable(Swapped(w, archive, before.roots, MANAGED_ROOTS), archive, before.roots, Config);
  }

  ghost predicate SwapsFreely(w: World)
  {
    forall root: Root :: QuarantineFails(root) !in w.faults && InstallFails(root) !in w.faults
  }

  lemma {:induction false} NothingFailsToSwap(w: World, archive: Archive, roots: map<Root, Tree>, names: seq<Root>)
    requires SwapsFreely(w)
    ensures !Swapped(w, archive, roots, names).failed
  {
    if names != [] {
      NothingFailsToSwap(w, archive, roots, names[..|names| - 1]);
    }
  }

  // ---- databases --------------------------------------------------------------------------------

  /** The same settings, rebasing and migration; faults and damage may differ. */
  ghost predicate SameSteps(w: World, v: World)
  {
    v.name == w.name && v.rebasedTables == w.rebasedTables && v.rebasedTree == w.rebasedTree && v.migrated == w.migrated
  }

  /** A database that rebasing and migrating find as they would leave it. */
  predicate LeftAlone(w: World, databases: map<string, Database>, name: string)
  {
    && name in databases
    && w.rebasedTables(databases[name]) == databases[name] && w.migrated(Some(databases[name])) == databases[name]
  }

  /**
   * The archive's database goes by the name of the one in use, and so do the settings it restores, unless they name a
   * file that needs neither rebasing nor migrating.
   */
  predicate OneName(w: World, archive: Archive, before: Home)
  {
    var active, restored := ActiveName(w, before), RestoredName(w.name, archive, before);
    || archive.database.None?
    || (active in before.databases && archive.database.value.0 == active
        && (restored == active || LeftAlone(w, before.databases, restored)))
  }

  /** Whatever goes wrong in a restore, all database files are as before once it is rolled back. */
  ghost predicate AlwaysGivesDatabasesBack(w: World, archive: Archive, before: Home)
  {
    forall v: World :: SameSteps(w, v) && v.Orderly() && Restoring(v, archive, before).RolledBack? ==>
      Restoring(v, archive, before).home.databases == before.databases
  }

  lemma RebasedName(w: World, home: Home, change: Tree -> Tree)
    ensures ActiveName(w, Rebase(w, home, change)) == ActiveName(w, home)
  {
    assert Lookup(Rebase(w, home, change).roots, Config) == Lookup(home.roots, Config);
  }

  /** Only the archive's name and the name in use after the swap are ever written, and the latter not if it is left alone. */
  lemma InstallNames(w: World, archive: Archive, home: Home, name: string)
    requires archive.database.Some? ==> archive.database.value.0 != name
    requires ActiveName(w, home) != name || (LeftAlone(w, home.databases, name) && w.Orderly())
    ensures Lookup(Install(w, archive, home).home.databases, name) == Lookup(home.databases, name)
  {
    if archive.database.Some? {
      var copied := home.(databases := home.databases[archive.database.value.0 := archive.database.value.1]);
      assert ActiveName(w, copied) == ActiveName(w, home) && Lookup(copied.databases, name) == Lookup(home.databases, name);
      MigrateNames(w, copied, name);
    }
  }

  lemma MigrateNames(w: World, home: Home, name: string)
    requires ActiveName(w, home) != name || (LeftAlone(w, home.databases, name) && w.Orderly())
    ensures Lookup(Migrate(w, home).home.databases, name) == Lookup(home.databases, name)
  {
    RebasedName(w, home, w.rebasedTree);
    RebasedName(w, home, w.halfRebased);
    var rebased := Rebase(w, home, w.rebasedTree);
    assert Lookup(rebased.databases, name) == Lookup(home.databases, name);
    if ActiveName(w, home) == name {
      assert w.halfMigrated(Some(home.databases[name])) == Some(home.databases[name]);
    }
  }

  lemma OneNameIsEnough(w: World, archive: Archive, before: Home)
    requires Restoring(w, archive, before).RolledBack? && OneName(w, archive, before) && w.Orderly()
    ensures Restoring(w, archive, before).home.databases == before.databases
  {
    var s := Swapped(w, archive, before.roots, MANAGED_ROOTS);
    SwappedName(w, archive, before);
    if !s.failed && archive.database.Some? {
      forall name | name != ActiveName(w, before)
        ensures Lookup(Install(w, archive, Home(s.roots, before.databases)).home.databases, name) == Lookup(before.databases, name)
      {
        InstallNames(w, archive, Home(s.roots, before.databases), name);
      }
    }
    OnlyActiveIsPutBack(w, archive, before);
  }

  /** A copy under a name of its own stays behind, damaged, when its integrity check fails. */
  lemma OtherNameStaysBehind(w: World, archive: Archive, before: Home)
    requires w.faults == {CheckFails} && archive.database.Some?
    requires archive.database.value.0 != ActiveName(w, before) || ActiveName(w, before) !in before.databases
    ensures var (name, database) := archive.database.value;
            && Restoring(w, archive, before).RolledBack?
            && Lookup(Restoring(w, archive, before).home.databases, name) == Some(w.damaged(database))
  {
    NothingFailsToSwap(w, archive, before.roots, MANAGED_ROOTS);
  }

  /** The swapped home with the archive's database copied in. */
  function Copied(w: World, archive: Archive, before: Home): Home
    requires archive.database.Some?
  {
    var (name, database) := archive.database.value;
    Home(Swapped(w, archive, before.roots, MANAGED_ROOTS).roots, before.databases[name := database])
  }

  /** A failure after the copy, under a world in which the copy itself does not fail. */
  lemma FailsAfterCopy(w: World, archive: Archive, before: Home)
    requires archive.database.Some? && (w.faults == {Unhealthy} || w.faults == {RebaseFailsLate})
    requires archive.database.value.0 == ActiveName(w, before) && RestoredName(w.name, archive, before) != ActiveName(w, before)
    ensures var restored := RestoredName(w.name, archive, before);
            && Restoring(w, archive, before).RolledBack?
            && ActiveName(w, Copied(w, archive, before)) == restored
            && Lookup(Restoring(w, archive, before).home.databases, restored)
               == Lookup(Migrate(w, Copied(w, archive, before)).home.databases, restored)
  {
    NothingFailsToSwap(w, archive, before.roots, MANAGED_ROOTS);
    SwappedName(w, archive, before);
    assert ActiveName(w, Copied(w, archive, before)) == RestoredName(w.name, archive, before);
  }

  /** A file that only the restored settings name stays migrated when the health check fails. */
  lemma OtherSettingsStayMigrated(w: World, archive: Archive, before: Home)
    requires archive.database.Some? && w.faults == {Unhealthy}
    requires archive.database.value.0 == ActiveName(w, before) && RestoredName(w.name, archive, before) != ActiveName(w, before)
    ensures var restored := RestoredName(w.name, archive, before);
            var found := Lookup(before.databases, restored);
            && Restoring(w, archive, before).RolledBack?
            && Lookup(Restoring(w, archive, before).home.databases, restored)
               == Some(w.migrated(if found.Some? then Some(w.rebasedTables(found.value)) else None))
  {
    FailsAfterCopy(w, archive, before);
    RebasedName(w, Copied(w, archive, before), w.rebasedTree);
  }

  /** It stays rebased when rebasing fails after its tables are committed. */
  lemma OtherSettingsStayRebased(w: World, archive: Archive, before: Home)
    requires archive.database.Some? && w.faults == {RebaseFailsLate}
    requires archive.database.value.0 == ActiveName(w, before) && RestoredName(w.name, archive, before) != ActiveName(w, before)
    requires RestoredName(w.name, archive, before) in before.databases
    ensures var restored := RestoredName(w.name, archive, before);
            && Restoring(w, archive, before).RolledBack?
            && Lookup(Restoring(w, archive, before).home.databases, restored)
               == Some(w.rebasedTables(before.databases[restored]))
  {
    FailsAfterCopy(w, archive, before);
  }

  /** The world with one fault, in which a failed check and a half done step leave what we choose or nothing. */
  function Strikes(w: World, content: Database, fault: Fault): World
  {
    World(w.name, (database: Database) => content, w.rebasedTables, w.rebasedTree, (tree: Tree) => tree, w.migrated,
          (database: Option<Database>) => database, {fault})
  }

  lemma DatabasesStayBehind(w: World, archive: Archive, before: Home)
    requires !OneName(w, archive, before)
    ensures !AlwaysGivesDatabasesBack(w, archive, before)
  {
    var active, copied, restored := ActiveName(w, before), archive.database.value.0, RestoredName(w.name, archive, before);
    if copied != active || active !in before.databases {
      var v := Strikes(w, if copied in before.databases then before.databases[copied] + "x" else "", CheckFails);
      OtherNameStaysBehind(v, archive, before);
      assert SameSteps(w, v) && v.Orderly();
      assert Lookup(Restoring(v, archive, before).home.databases, copied) != Lookup(before.databases, copied);
    } else if restored in before.databases && w.rebasedTables(before.databases[restored]) != before.databases[restored] {
      var v := Strikes(w, "", RebaseFailsLate);
      OtherSettingsStayRebased(v, archive, before);
      assert SameSteps(w, v) && v.Orderly();
      assert Lookup(Restoring(v, archive, before).home.databases, restored) != Lookup(before.databases, restored);
    } else {
      var v := Strikes(w, "", Unhealthy);
      OtherSettingsStayMigrated(v, archive, before);
      assert SameSteps(w, v) && v.Orderly();
      assert Lookup(Restoring(v, archive, before).home.databases, restored) != Lookup(before.databases, restored);
    }
  }

  /**
   * Whatever goes wrong, a failed restore gives all database files back exactly when the archive has no database, or
   * goes by the name of the one in use and leaves the settings naming it, or a file that needs no change.
   */
  lemma DatabasesAreBackExactly(w: World, archive: Archive, before: Home)
    ensures AlwaysGivesDatabasesBack(w, archive, before) <==> OneName(w, archive, before)
  {
    if OneName(w, archive, before) {
      forall v: World | SameSteps(w, v) && v.Orderly() && Restoring(v, archive, before).RolledBack?
        ensures Restoring(v, archive, before).home.databases == before.databases
      {
        OneNameIsEnough(v, archive, before);
      }
    } else {
      DatabasesStayBehind(w, archive, before);
    }
  }

  // ---- the corpus -------------------------------------------------------------------------------

  /** Rebasing changes no corpus outside the archive: there is none, it finds no database and stops, or it has nothing to do. */
  predicate CorpusOutOfReach(w: World, archive: Archive, before: Home)
  {
    var restored := RestoredName(w.name, archive, before);
    || archive.database.None? || Corpus in archive.roots || Corpus !in before.roots
    || (archive.database.value.0 != restored && restored !in before.databases)
    || w.rebasedTree(before.roots[Corpus]) == before.roots[Corpus]
  }

  /** Whatever goes wrong in a restore, all managed roots are as before once it is rolled back. */
  ghost predicate AlwaysGivesRootsBack(w: World, archive: Archive, before: Home)
  {
    forall v: World :: SameSteps(w, v) && v.Orderly() && Restoring(v, archive, before).RolledBack? ==>
      Restoring(v, archive, before).home.roots == before.roots
  }

  lemma NothingToRebase(w: World, archive: Archive, home: Home)
    requires archive.database.Some? ==> archive.database.value.0 != ActiveName(w, home) && ActiveName(w, home) !in home.databases
    ensures Install(w, archive, home).home.roots == home.roots
  {
  }

  lemma OutOfReachIsKept(w: World, archive: Archive, before: Home, root: Root)
    requires Restoring(w, archive, before).RolledBack? && CorpusOutOfReach(w, archive, before) && w.Orderly()
    ensures Lookup(Restoring(w, archive, before).home.roots, root) == Lookup(before.roots, root)
  {
    FailedRestoreKeepsRoots(w, archive, before, root);
    if Corpus !in archive.roots && Corpus in before.roots && w.rebasedTree(before.roots[Corpus]) != before.roots[Corpus] {
      var s := Swapped(w, archive, before.roots, MANAGED_ROOTS);
      SwappedName(w, archive, before);
      if !s.failed {
        NothingToRebase(w, archive, Home(s.roots, before.databases));
      }
      SwapIsRecoverable(w, archive, before.roots);
      UndoneRoot(s, archive, before.roots, s.roots, root);
      assert Recoverable(s, archive, before.roots, root);
    }
  }

  /** A corpus in reach of rebasing is left rebased when the service then fails to start. */
  lemma KeptCorpusStaysRebased(w: World, archive: Archive, before: Home)
    requires w.faults == {StartFails} && !CorpusOutOfReach(w, archive, before)
    ensures Restoring(w, archive, before).RolledBack?
    ensures Lookup(Restoring(w, archive, before).home.roots, Corpus) == Some(w.rebasedTree(before.roots[Corpus]))
  {
    var s := Swapped(w, archive, before.roots, MANAGED_ROOTS);
    NothingFailsToSwap(w, archive, before.roots, MANAGED_ROOTS);
    SwappedName(w, archive, before);
    SwapIsRecoverable(w, archive, before.roots);
    assert Recoverable(s, archive, before.roots, Corpus);
    UndoneRoot(s, archive, before.roots, Install(w, archive, Home(s.roots, before.databases)).home.roots, Corpus);
  }

  /**
   * Whatever goes wrong, a failed restore gives all managed roots back exactly when the archive has no database,
   * brings a corpus or finds none, leaves the settings naming a file that does not exist, or needs no rebasing.
   */
  lemma RootsAreBackExactly(w: World, archive: Archive, before: Home)
    ensures AlwaysGivesRootsBack(w, archive, before) <==> CorpusOutOfReach(w, archive, before)
  {
    if CorpusOutOfReach(w, archive, before) {
      forall v: World | SameSteps(w, v) && v.Orderly() && Restoring(v, archive, before).RolledBack?
        ensures Restoring(v, archive, before).home.roots == before.roots
      {
        forall root: Root
          ensures Lookup(Restoring(v, archive, before).home.roots, root) == Lookup(before.roots, root)
        {
          OutOfReachIsKept(v, archive, before, root);
        }
        SameLookups(Restoring(v, archive, before).home.roots, before.roots);
      }
    } else {
      var v := Strikes(w, "", StartFails);
      KeptCorpusStaysRebased(v, archive, before);
      assert SameSteps(w, v) && v.Orderly();
      assert Lookup(Restoring(v, archive, before).home.roots, Corpus) != Lookup(before.roots, Corpus);
    }
  }

  /** A restore that succeeds installs every root of the archive, the corpus rebased, and keeps every other root. */
  lemma RestoredRoots(w: World, archive: Archive, before: Home, root: Root)
    requires Restoring(w, archive, before).Restored?
    ensures var after := Restoring(w, archive, before).home;
            var source := if root in archive.roots then archive.roots else before.roots;
            || Lookup(after.roots, root) == Lookup(source, root)
            || (root == Corpus && Corpus in source && Lookup(after.roots, root) == Some(w.rebasedTree(source[Corpus])))
  {
    var s := Swapped(w, archive, before.roots, MANAGED_ROOTS);
    SwapIsRecoverable(w, archive, before.roots);
    assert Recoverable(s, archive, before.roots, root);
    InstallRoots(w, archive, Home(s.roots, before.databases), root);
  }

  // ---- the restore in place ---------------------------------------------------------------------

  class DataHome {
    const w: World
    var roots: map<Root, Tree>
    var databases: map<string, Database>

    function State(): Home
      reads this
    {
      Home(roots, databases)
    }

    constructor (w: World, home: Home)
      ensures this.w == w && State() == home
    {
      this.w := w;
      roots, databases := home.roots, home.databases;
    }

    /** Swaps the roots of the archive in, noting what was moved aside and what was installed. */
    method SwapRoots(archive: Archive) returns (s: Swap)
      modifies this`roots
      ensures s == Swapped(w, archive, old(roots), MANAGED_ROOTS) && roots == s.roots
    {
      var quarantine: map<Root, Tree>, moved: seq<Root>, installed: seq<Root> := map[], [], [];
      for i := 0 to |MANAGED_ROOTS|
        invariant Swap(roots, quarantine, moved, installed, false) == Swapped(w, archive, old(roots), MANAGED_ROOTS[..i])
      {
        var root := MANAGED_ROOTS[i];
        assert MANAGED_ROOTS[..i + 1] == MANAGED_ROOTS[..i] + [root];
        var failed := false;
        if root in archive.roots {
          if root in roots {
            failed := QuarantineFails(root) in w.faults;
            if !failed {
              quarantine := quarantine[root := roots[root]];
              roots := roots - {root};
              moved := moved + [root];
            }
          }
          if !failed {
            failed := InstallFails(root) in w.faults;
            if !failed {
              roots := roots[root := archive.roots[root]];
              installed := installed + [root];
            }
          }
        }
        if failed {
          FailedSwapStays(w, archive, old(roots), MANAGED_ROOTS, i + 1);
          return Swap(roots, quarantine, moved, installed, true);
        }
      }
      assert MANAGED_ROOTS[..|MANAGED_ROOTS|] == MANAGED_ROOTS;
      s := Swap(roots, quarantine, moved, installed, false);
    }

    /** Removes what was installed and moves back what was set aside, both in reverse. */
    method UndoSwap(s: Swap)
      modifies this`roots
      ensures roots == PutBack(Removed(old(roots), s.installed), s.quarantine, s.moved)
    {
      var i := |s.installed|;
      assert s.installed[..i] == s.installed;
      while i > 0
        invariant 0 <= i <= |s.installed|
        invariant Removed(roots, s.installed[..i]) == Removed(old(roots), s.installed)
      {
        i := i - 1;
        assert s.installed[..i + 1][..i] == s.installed[..i];
        roots := roots - {s.installed[i]};
      }
      i := |s.moved|;
      assert s.moved[..i] == s.moved;
      ghost var removed := roots;
      while i > 0
        invariant 0 <= i <= |s.moved|
        invariant PutBack(roots, s.quarantine, s.moved[..i]) == PutBack(removed, s.quarantine, s.moved)
      {
        i := i - 1;
        assert s.moved[..i + 1][..i] == s.moved[..i];
        if s.moved[i] in s.quarantine {
          roots := roots[s.moved[i] := s.quarantine[s.moved[i]]];
        }
      }
    }

    method Restore(archive: Archive) returns (restored: bool)
      modifies this
      ensures Restoring(w, archive, old(State())) == if restored then Restored(State()) else RolledBack(State())
    {
      var active := ActiveName(w, State());
      var snapshot := Lookup(databases, active);
      var s := SwapRoots(archive);
      var failed, attempted := s.failed, false;
      if !failed {
        var attempt := Install(w, archive, State());
        roots, databases := attempt.home.roots, attempt.home.databases;
        failed, attempted := attempt.failed, attempt.attempted;
      }
      if failed {
        UndoSwap(s);
        if attempted && snapshot.Some? {
          databases := databases[active := snapshot.value];
        }
      }
      restored := !failed;
    }
  }

  lemma {:induction false} FailedSwapStays(w: World, archive: Archive, roots: map<Root, Tree>, names: seq<Root>, n: nat)
    requires n <= |names| && Swapped(w, archive, roots, names[..n]).failed
    ensures Swapped(w, archive, roots, names) == Swapped(w, archive, roots, names[..n])
    decreases |names|
  {
    if n < |names| {
      var rest := names[..|names| - 1];
      assert rest[..n] == names[..n];
      FailedSwapStays(w, archive, roots, rest, n);
    } else {
      assert names[..n] == names;
    }
  }
}
