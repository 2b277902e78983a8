/** Collecting media nobody refers to any more: registry rows first, and their files once no row names them. */
module DataLifecycle {
  import opened Wrappers
  import opened Collections

  /**
   * What a collection reads but does not change. Unlinking a stuck file raises, and so does resolving or querying a
   * broken row; the commit at the end may fail as well.
   */
  datatype Surroundings = Surroundings(
    bound: set<string>,
    attached: set<string>,
    leased: set<string>,
    resolve: string -> string,
    underMedia: string -> bool,
    stuck: set<string>,
    broken: set<string>,
    commits: bool)
  {
    predicate Referenced(id: string)
    {
      id in bound || id in attached || id in leased
    }

    /** Resolving a path twice is resolving it once. */
    ghost predicate Idempotent()
    {
      forall path :: resolve(resolve(path)) == resolve(path)
    }
  }

  /** The rows a request covers: all of them when it names none. */
  function Scope(assets: map<string, string>, requested: set<string>): set<string>
  {
    if requested - {""} == {} then assets.Keys else assets.Keys * requested
  }

  function Unreferenced(s: Surroundings, ids: set<string>): set<string>
  {
    set id | id in ids && !s.Referenced(id)
  }

  /** Some of the collected rows resolves to the file. */
  predicate Names(s: Surroundings, assets: map<string, string>, collected: set<string>, file: string)
  {
    exists id :: id in collected && id in assets && s.resolve(assets[id]) == file
  }

  /** A file goes when a collected row resolves to it below the media root and no remaining row stores exactly its path. */
  predicate Goes(s: Surroundings, assets: map<string, string>, collected: set<string>, file: string)
  {
    Names(s, assets, collected, file) && s.underMedia(file) && file !in (assets - collected).Values
  }

  function Unlinked(s: Surroundings, assets: map<string, string>, collected: set<string>, files: set<string>): set<string>
  {
    set file | file in files && Goes(s, assets, collected, file)
  }

  // ---- one more row -----------------------------------------------------------------------------

  lemma RemainingAfter(assets: map<string, string>, collected: set<string>, id: string, file: string)
    requires id in assets && id !in collected
    ensures file in (assets - (collected + {id})).Values ==> file in (assets - collected).Values
    ensures file in (assets - collected).Values && assets[id] != file ==> file in (assets - (collected + {id})).Values
  {
    if file in (assets - (collected + {id})).Values {
      var key := KeyWithValue(assets - (collected + {id}), file);
      assert key in assets - collected && (assets - collected)[key] == file;
    }
    if file in (assets - collected).Values {
      var key := KeyWithValue(assets - collected, file);
      if assets[id] != file {
        assert key in assets - (collected + {id}) && (assets - (collected + {id}))[key] == file;
      }
    }
  }

  /** Collecting one more row unlinks its own file, unless another row still stores that path, and no other file. */
  lemma UnlinkedOneMore(s: Surroundings, assets: map<string, string>, collected: set<string>, id: string, files: set<string>)
    requires s.Idempotent() && id in assets && id !in collected
    ensures var file := s.resolve(assets[id]);
            var more := collected + {id};
            Unlinked(s, assets, more, files)
            == if s.underMedia(file) && file in files && file !in (assets - more).Values
               then Unlinked(s, assets, collected, files) + {file} else Unlinked(s, assets, collected, files)
  {
    var own, more := s.resolve(assets[id]), collected + {id};
    forall file
      ensures Goes(s, assets, more, file)
              <==> Goes(s, assets, collected, file) || (file == own && s.underMedia(own) && own !in (assets - more).Values)
    {
      RemainingAfter(assets, collected, id, file);
      if Names(s, assets, collected, file) && assets[id] == file {
        assert s.resolve(file) == file;
      }
      assert Names(s, assets, more, file) <==> Names(s, assets, collected, file) || file == own;
    }
  }

  // ---- the collection, row by row ---------------------------------------------------------------

  /** A collection in progress; `ok` until unlinking raises. */
  datatype Progress = Progress(assets: map<string, string>, files: set<string>, ok: bool)

  /** Deletes one row, and its file unless another row stores the same path. */
  function CollectOne(s: Surroundings, p: Progress, id: string): Progress
  {
    if !p.ok || id !in p.assets then p
    else if id in s.broken then p.(ok := false)
    else if s.Referenced(id) then p
    else
      var file := s.resolve(p.assets[id]);
      var rest := p.assets - {id};
      if !(file !in rest.Values && s.underMedia(file) && file in p.files) then p.(assets := rest)
      else if file in s.stuck then p.(assets := rest, ok := false)
      else Progress(rest, p.files - {file}, true)
  }

  function Collecting(s: Surroundings, assets: map<string, string>, files: set<string>, order: seq<string>): Progress
  {
    if order == [] then Progress(assets, files, true)
    else CollectOne(s, Collecting(s, assets, files, order[..|order| - 1]), order[|order| - 1])
  }

  /** The whole collection: a failure at any point rolls the rows back, but files that are gone by then stay gone. */
  function Purged(s: Surroundings, assets: map<string, string>, files: set<string>, order: seq<string>): Progress
  {
    var p := Collecting(s, assets, files, order);
    if p.ok && s.commits then p else p.(assets := assets, ok := false)
  }

  function Members(order: seq<string>): set<string>
  {
    set id | id in order
  }

  ghost predicate Distinct(order: seq<string>)
  {
    forall i, j :: 0 <= i < j < |order| ==> order[i] != order[j]
  }

  /** An order in which the database may return the rows of a request. */
  ghost predicate Enumerates(order: seq<string>, ids: set<string>)
  {
    Distinct(order) && Members(order) == ids
  }

  /** A file that went before is not named by any remaining row. */
  lemma AlreadyUnlinked(s: Surroundings, assets: map<string, string>, collected: set<string>, id: string)
    requires id in assets && id !in collected
    ensures forall file :: Goes(s, assets, collected, file) ==> file !in (assets - (collected + {id})).Values
  {
    forall file | Goes(s, assets, collected, file)
      ensures file !in (assets - (collected + {id})).Values
    {
      RemainingAfter(assets, collected, id, file);
    }
  }

  lemma RemainingShrinks(assets: map<string, string>, fewer: set<string>, more: set<string>)
    requires fewer <= more
    ensures (assets - more).Values <= (assets - fewer).Values
  {
    forall file | file in (assets - more).Values
      ensures file in (assets - fewer).Values
    {
      var key := KeyWithValue(assets - more, file);
      assert key in assets - fewer && (assets - fewer)[key] == file;
    }
  }

  lemma UnlinkedGrows(s: Surroundings, assets: map<string, string>, fewer: set<string>, more: set<string>, files: set<string>)
    requires fewer <= more
    ensures Unlinked(s, assets, fewer, files) <= Unlinked(s, assets, more, files)
  {
    RemainingShrinks(assets, fewer, more);
  }

  /** While nothing has failed the rows are those not collected and the files those not unlinked, none of them stuck. */
  ghost predicate Going(s: Surroundings, assets: map<string, string>, files: set<string>, p: Progress, collected: set<string>)
  {
    && p.assets == assets - collected
    && p.files == files - Unlinked(s, assets, collected, files)
    && Unlinked(s, assets, collected, files) !! s.stuck
  }

  /** The files gone are those of some rows that raise nothing, none of them stuck. */
  ghost predicate GoneWith(s: Surroundings, assets: map<string, string>, files: set<string>, left: set<string>, ids: set<string>)
  {
    exists earlier: set<string> ::
      && earlier <= Unreferenced(s, ids - s.broken)
      && left == files - Unlinked(s, assets, earlier, files)
      && Unlinked(s, assets, earlier, files) !! s.stuck
  }

  /** No row of a list raises, and no file that goes with its unreferenced rows is stuck. */
  predicate Passes(s: Surroundings, assets: map<string, string>, files: set<string>, ids: set<string>)
  {
    ids !! s.broken && Unlinked(s, assets, Unreferenced(s, ids), files) !! s.stuck
  }

  lemma PassesFewer(s: Surroundings, assets: map<string, string>, files: set<string>, fewer: set<string>, more: set<string>)
    requires fewer <= more && Passes(s, assets, files, more)
    ensures Passes(s, assets, files, fewer)
  {
    UnlinkedGrows(s, assets, Unreferenced(s, fewer), Unreferenced(s, more), files);
  }

  lemma UnreferencedLonger(s: Surroundings, ids: set<string>, id: string)
    ensures Unreferenced(s, ids + {id}) == Unreferenced(s, ids) + if s.Referenced(id) then {} else {id}
  {
  }

  /** Its file goes with the row, if those of other rows have gone before. */
  predicate UnlinksNext(s: Surroundings, assets: map<string, string>, files: set<string>, collected: set<string>, id: string)
    requires id in assets
  {
    var file := s.resolve(assets[id]);
    s.underMedia(file) && file in files && file !in (assets - (collected + {id})).Values
  }

  lemma PassesOneMore(s: Surroundings, assets: map<string, string>, files: set<string>, ids: set<string>, id: string)
    requires s.Idempotent() && Passes(s, assets, files, ids) && id in assets && id !in ids
    ensures Passes(s, assets, files, ids + {id})
            <==> id !in s.broken
                 && (s.Referenced(id)
                     || !(UnlinksNext(s, assets, files, Unreferenced(s, ids), id) && s.resolve(assets[id]) in s.stuck))
  {
    var collected := Unreferenced(s, ids);
    UnreferencedLonger(s, ids, id);
    if !s.Referenced(id) {
      UnlinkedOneMore(s, assets, collected, id, files);
    }
    assert Unreferenced(s, ids + {id}) == if s.Referenced(id) then collected else collected + {id};
    assert ids + {id} !! s.broken <==> id !in s.broken;
  }

  lemma CollectOneMore(s: Surroundings, assets: map<string, string>, files: set<string>, p: Progress, ids: set<string>, id: string)
    requires s.Idempotent() && p.ok && ids !! s.broken && Going(s, assets, files, p, Unreferenced(s, ids))
    requires id in assets && id !in ids
    ensures var next := CollectOne(s, p, id);
            && (next.ok <==> Passes(s, assets, files, ids + {id}))
            && (next.ok ==> Going(s, assets, files, next, Unreferenced(s, ids + {id})))
            && (!next.ok ==> next.files == p.files)
  {
    var collected := Unreferenced(s, ids);
    UnreferencedLonger(s, ids, id);
    PassesOneMore(s, assets, files, ids, id);
    if id !in s.broken && !s.Referenced(id) {
      UnlinkedOneMore(s, assets, collected, id, files);
      AlreadyUnlinked(s, assets, collected, id);
      assert assets - collected - {id} == assets - (collected + {id});
    } else {
      assert s.Referenced(id) ==> Unreferenced(s, ids + {id}) == collected;
    }
  }

  lemma {:induction false} CollectingSoFar(s: Surroundings, assets: map<string, string>, files: set<string>, order: seq<string>)
    requires s.Idempotent() && Distinct(order) && Members(order) <= assets.Keys
    ensures var p, ids := Collecting(s, assets, files, order), Members(order);
            && (p.ok <==> Passes(s, assets, files, ids))
            && (p.ok ==> Going(s, assets, files, p, Unreferenced(s, ids)))
            && GoneWith(s, assets, files, p.files, ids)
  {
    if order == [] {
      assert Unlinked(s, assets, {}, files) == {};
    } else {
      var rest, id := order[..|order| - 1], order[|order| - 1];
      CollectingSoFar(s, assets, files, rest);
      assert order == rest + [id] && id !in rest;
      assert Members(order) == Members(rest) + {id};
      var before := Collecting(s, assets, files, rest);
      if before.ok {
        CollectOneMore(s, assets, files, before, Members(rest), id);
      } else if Passes(s, assets, files, Members(order)) {
        PassesFewer(s, assets, files, Members(rest), Members(order));
      }
      GoneLonger(s, assets, files, before.files, Members(rest), id);
      if Collecting(s, assets, files, order).ok {
        assert Members(order) - s.broken == Members(order);
      }
    }
  }

  lemma GoneLonger(s: Surroundings, assets: map<string, string>, files: set<string>, left: set<string>, ids: set<string>, id: string)
    requires GoneWith(s, assets, files, left, ids)
    ensures GoneWith(s, assets, files, left, ids + {id})
  {
    var earlier: set<string> :|
      && earlier <= Unreferenced(s, ids - s.broken)
      && left == files - Unlinked(s, assets, earlier, files)
      && Unlinked(s, assets, earlier, files) !! s.stuck;
    assert earlier <= Unreferenced(s, ids + {id} - s.broken);
  }

  /** The files of the request that would go if nothing raised. */
  function Due(s: Surroundings, assets: map<string, string>, requested: set<string>, files: set<string>): set<string>
  {
    Unlinked(s, assets, Unreferenced(s, Scope(assets, requested)), files)
  }

  /** Those that can go before something raises: named by rows that raise nothing, and not stuck. */
  function Reachable(s: Surroundings, assets: map<string, string>, requested: set<string>, files: set<string>): set<string>
  {
    Unlinked(s, assets, Unreferenced(s, Scope(assets, requested) - s.broken), files) - s.stuck
  }

  predicate Completes(s: Surroundings, assets: map<string, string>, requested: set<string>, files: set<string>)
  {
    Passes(s, assets, files, Scope(assets, requested)) && s.commits
  }

  /**
   * Whatever the order, a collection fails exactly when a row of the request raises, a file due to go is stuck or the
   * commit fails; otherwise exactly the unreferenced rows and the files due are gone, and if it fails no row is gone,
   * and the files gone are those of some rows that raise nothing.
   */
  lemma PurgedExactly(s: Surroundings, assets: map<string, string>, requested: set<string>, files: set<string>, order: seq<string>)
    requires s.Idempotent() && Enumerates(order, Scope(assets, requested))
    ensures var p, scope := Purged(s, assets, files, order), Scope(assets, requested);
            && (p.ok <==> Completes(s, assets, requested, files))
            && (p.ok ==> p.assets == assets - Unreferenced(s, scope) && p.files == files - Due(s, assets, requested, files))
            && (!p.ok ==> p.assets == assets && GoneWith(s, assets, files, p.files, scope))
            && (!p.ok ==> files - Reachable(s, assets, requested, files) <= p.files <= files)
  {
    CollectingSoFar(s, assets, files, order);
    var p, scope := Collecting(s, assets, files, order), Scope(assets, requested);
    var earlier: set<string> :|
      && earlier <= Unreferenced(s, scope - s.broken)
      && p.files == files - Unlinked(s, assets, earlier, files)
      && Unlinked(s, assets, earlier, files) !! s.stuck;
    UnlinkedGrows(s, assets, earlier, Unreferenced(s, scope - s.broken), files);
  }

  // ---- the collection in place ------------------------------------------------------------------

  class MediaRegistry {
    const s: Surroundings
    var assets: map<string, string>
    var files: set<string>

    constructor (s: Surroundings, assets: map<string, string>, files: set<string>)
      ensures this.s == s && this.assets == assets && this.files == files
    {
      this.s := s;
      this.assets, this.files := assets, files;
    }

    /** Deletes one unreferenced row, and its file unless another row stores the same path; false when unlinking raises. */
    method Collect(id: string) returns (ok: bool)
      requires id in assets && !s.Referenced(id) && id !in s.broken
      modifies this
      ensures Progress(assets, files, ok) == CollectOne(s, Progress(old(assets), old(files), true), id)
    {
      var file := s.resolve(assets[id]);
      assets := assets - {id};
      if file !in assets.Values && s.underMedia(file) && file in files {
        if file in s.stuck {
          return false;
        }
        files := files - {file};
      }
      return true;
    }

    /** Collects the rows of a request one by one, in the order the database returns them, until unlinking raises. */
    method CollectAll(scope: set<string>) returns (ok: bool, removed: seq<string>, ghost order: seq<string>)
      requires scope <= assets.Keys
      modifies this
      ensures Enumerates(order, scope)
      ensures Progress(assets, files, ok) == Collecting(s, old(assets), old(files), order)
      ensures ok ==> Distinct(removed) && Members(removed) == Unreferenced(s, scope)
    {
      var todo := scope;
      ok, removed, order := true, [], [];
      while todo != {} && ok
        invariant todo <= scope && Enumerates(order, scope - todo)
        invariant Progress(assets, files, ok) == Collecting(s, old(assets), old(files), order)
        invariant ok ==> todo <= assets.Keys
        invariant Distinct(removed) && Members(removed) <= Unreferenced(s, scope - todo)
        invariant ok ==> Members(removed) == Unreferenced(s, scope - todo)
      {
        var id :| id in todo;
        OrderedLonger(order, id);
        MoreToDo(scope, todo, id);
        UnreferencedLonger(s, scope - todo, id);
        todo := todo - {id};
        order := order + [id];
        if id in s.broken {
          ok := false;
        } else if !s.Referenced(id) {
          OrderedLonger(removed, id);
          removed := removed + [id];
          ok := Collect(id);
        }
      }
      if !ok {
        order := FailsOnwards(s, old(assets), old(files), order, todo);
      }
      assert scope - todo + todo == scope;
    }

    /** Collects the requested rows that nobody refers to; a failure rolls the rows back, but not the files gone by then. */
    method Purge(requested: set<string>) returns (ok: bool, removed: seq<string>, ghost order: seq<string>)
      requires s.Idempotent()
      modifies this
      ensures Enumerates(order, Scope(old(assets), requested))
      ensures Progress(assets, files, ok) == Purged(s, old(assets), old(files), order)
      ensures ok <==> Completes(s, old(assets), requested, old(files))
      ensures var collected := Unreferenced(s, Scope(old(assets), requested));
              && (ok ==> assets == old(assets) - collected && files == old(files) - Due(s, old(assets), requested, old(files)))
              && (ok ==> |removed| == |collected| && Members(removed) == collected)
      ensures !ok ==> assets == old(assets) && GoneWith(s, old(assets), old(files), files, Scope(old(assets), requested))
      ensures !ok ==> old(files) - Reachable(s, old(assets), requested, old(files)) <= files <= old(files)
      ensures forall id :: id in old(assets) && s.Referenced(id) ==> id in assets
    {
      var saved := assets;
      ok, removed, order := CollectAll(Scope(assets, requested));
      PurgedExactly(s, saved, requested, old(files), order);
      DistinctCount(removed);
      forall id | id in saved
        ensures s.Referenced(id) ==> id in saved - Unreferenced(s, Scope(saved, requested))
      {
        ReferencedStays(s, saved, requested, id);
      }
      if !(ok && s.commits) {
        ok, assets := false, saved;
      }
    }
  }

  lemma MoreToDo<X>(all: set<X>, todo: set<X>, x: X)
    requires todo <= all && x in todo
    ensures all - (todo - {x}) == all - todo + {x} && x !in all - todo
  {
  }

  lemma OrderedLonger(order: seq<string>, id: string)
    requires Distinct(order) && id !in Members(order)
    ensures Distinct(order + [id]) && Members(order + [id]) == Members(order) + {id}
    ensures (order + [id])[..|order|] == order
  {
  }

  lemma OrderedJoined(order: seq<string>, rest: seq<string>)
    requires Distinct(order) && Distinct(rest) && Members(order) !! Members(rest)
    ensures Distinct(order + rest) && Members(order + rest) == Members(order) + Members(rest)
  {
    forall i, j | 0 <= i < j < |order + rest|
      ensures (order + rest)[i] != (order + rest)[j]
    {
      if i < |order| <= j {
        assert (order + rest)[i] in Members(order) && (order + rest)[j] in Members(rest);
      }
    }
  }

  lemma Enumerated(ids: set<string>) returns (order: seq<string>)
    ensures Enumerates(order, ids)
    decreases |ids|
  {
    if ids == {} {
      order := [];
    } else {
      var id :| id in ids;
      order := Enumerated(ids - {id});
      OrderedLonger(order, id);
      order := order + [id];
    }
  }

  /** Whatever rows follow, no file comes back and a failed collection stays as it is. */
  lemma {:induction false} CollectingMore(s: Surroundings, assets: map<string, string>, files: set<string>, order: seq<string>,
                                          rest: seq<string>)
    ensures Collecting(s, assets, files, order + rest).files <= Collecting(s, assets, files, order).files
    ensures !Collecting(s, assets, files, order).ok ==>
              Collecting(s, assets, files, order + rest) == Collecting(s, assets, files, order)
    decreases |rest|
  {
    if rest == [] {
      assert order + rest == order;
    } else {
      var n := |rest| - 1;
      assert (order + rest)[..|order| + n] == order + rest[..n];
      CollectingMore(s, assets, files, order, rest[..n]);
    }
  }

  /** The rows not reached by a failed collection follow in some order and change nothing. */
  lemma FailsOnwards(s: Surroundings, assets: map<string, string>, files: set<string>, order: seq<string>, todo: set<string>)
    returns (longer: seq<string>)
    requires Distinct(order) && todo !! Members(order) && !Collecting(s, assets, files, order).ok
    ensures Enumerates(longer, Members(order) + todo)
    ensures Collecting(s, assets, files, longer) == Collecting(s, assets, files, order)
  {
    var rest := Enumerated(todo);
    OrderedJoined(order, rest);
    CollectingMore(s, assets, files, order, rest);
    longer := order + rest;
  }

  lemma {:induction false} DistinctCount(order: seq<string>)
    ensures Distinct(order) ==> |Members(order)| == |order|
  {
    if order != [] && Distinct(order) {
      var rest, id := order[..|order| - 1], order[|order| - 1];
      DistinctCount(rest);
      assert order == rest + [id] && id !in Members(rest);
      assert Members(order) == Members(rest) + {id};
    }
  }

  // ---- what is safe -----------------------------------------------------------------------------

  /** No bound, attached or leased asset is ever collected. */
  lemma ReferencedStays(s: Surroundings, assets: map<string, string>, requested: set<string>, id: string)
    requires id in assets
    ensures id in assets - Unreferenced(s, Scope(assets, requested))
            <==> s.Referenced(id) || (requested - {""} != {} && id !in requested)
  {
  }

  /** The file of a row that stays is not due to go when the row stores its resolved path. */
  lemma ResolvedSurvivorsKeepFiles(s: Surroundings, assets: map<string, string>, requested: set<string>, files: set<string>,
                                   survivor: string)
    requires survivor in assets && survivor !in Unreferenced(s, Scope(assets, requested))
    requires s.resolve(assets[survivor]) == assets[survivor] && assets[survivor] in files
    ensures assets[survivor] in files - Unlinked(s, assets, Unreferenced(s, Scope(assets, requested)), files)
  {
    var remaining := assets - Unreferenced(s, Scope(assets, requested));
    assert survivor in remaining && remaining[survivor] == assets[survivor];
  }

  /** A file shared by collected rows only goes, whatever the order in which they are collected. */
  lemma SharedFileGoes(s: Surroundings, assets: map<string, string>, requested: set<string>, files: set<string>, id: string)
    requires s.Idempotent() && id in Unreferenced(s, Scope(assets, requested))
    requires forall other :: other in assets && s.resolve(assets[other]) == s.resolve(assets[id]) ==>
               other in Unreferenced(s, Scope(assets, requested))
    requires s.underMedia(s.resolve(assets[id]))
    ensures s.resolve(assets[id]) !in files - Unlinked(s, assets, Unreferenced(s, Scope(assets, requested)), files)
  {
    var collected, file := Unreferenced(s, Scope(assets, requested)), s.resolve(assets[id]);
    if file in (assets - collected).Values {
      var other := KeyWithValue(assets - collected, file);
      assert false;
    }
  }

  /** A stored path that is not resolved can cost a referenced row its file. */
  lemma UnresolvedSurvivorLosesFile(s: Surroundings)
    requires s.resolve("/m/link") == "/m/file" && s.resolve("/m/file") == "/m/file" && s.underMedia("/m/file")
    requires s.Referenced("kept") && !s.Referenced("old")
    ensures var assets := map["kept" := "/m/link", "old" := "/m/file"];
            var files := {"/m/file"};
            && "kept" !in Unreferenced(s, Scope(assets, {"old"}))
            && s.resolve(assets["kept"]) in Unlinked(s, assets, Unreferenced(s, Scope(assets, {"old"})), files)
  {
    var assets := map["kept" := "/m/link", "old" := "/m/file"];
    var collected := Unreferenced(s, Scope(assets, {"old"}));
    assert collected == {"old"};
    assert (assets - collected) == map["kept" := "/m/link"];
  }

  // ---- rows and their files ---------------------------------------------------------------------

  /** Some order of collection fails and takes the file of a row that stays registered. */
  ghost predicate FailureCanTakeFile(s: Surroundings, assets: map<string, string>, requested: set<string>, files: set<string>)
  {
    exists order: seq<string>, id: string ::
      && Enumerates(order, Scope(assets, requested)) && !Purged(s, assets, files, order).ok
      && id in Purged(s, assets, files, order).assets
      && s.resolve(assets[id]) in files && s.resolve(assets[id]) !in Purged(s, assets, files, order).files
  }

  /** The rows of a request that name one file. */
  function Naming(s: Surroundings, assets: map<string, string>, ids: set<string>, file: string): set<string>
  {
    set id | id in ids && id in assets && s.resolve(assets[id]) == file
  }

  /** A row that stores the resolved path of a file names it, and stays unless it is collected with the others that do. */
  lemma StoringIsNaming(s: Surroundings, assets: map<string, string>, scope: set<string>, file: string, key: string)
    requires s.resolve(file) == file && key in assets
    ensures assets[key] == file && key !in Unreferenced(s, Naming(s, assets, scope, file)) ==>
              file in (assets - Unreferenced(s, scope)).Values
  {
    if assets[key] == file && key !in Unreferenced(s, Naming(s, assets, scope, file)) {
      assert key in assets - Unreferenced(s, scope) && (assets - Unreferenced(s, scope))[key] == file;
    }
  }

  lemma OneFileGoes(s: Surroundings, assets: map<string, string>, scope: set<string>, files: set<string>, file: string)
    requires s.Idempotent() && file in Unlinked(s, assets, Unreferenced(s, scope), files)
    ensures var rows := Unreferenced(s, Naming(s, assets, scope, file));
            Unlinked(s, assets, rows, files) == {file}
  {
    var rows := Unreferenced(s, Naming(s, assets, scope, file));
    var named: string :| named in Unreferenced(s, scope) && named in assets && s.resolve(assets[named]) == file;
    assert named in rows && s.resolve(file) == file;
    forall key | key in assets - rows
      ensures assets[key] != file
    {
      StoringIsNaming(s, assets, scope, file, key);
    }
    assert Goes(s, assets, rows, file);
  }

  /** Collecting the rows of one file first unlinks it before anything can raise, if it can be reached at all. */
  lemma TakenFirst(s: Surroundings, assets: map<string, string>, requested: set<string>, files: set<string>, file: string)
    returns (order: seq<string>)
    requires s.Idempotent() && file in Reachable(s, assets, requested, files)
    ensures Enumerates(order, Scope(assets, requested)) && file !in Collecting(s, assets, files, order).files
  {
    var scope := Scope(assets, requested);
    var first := Naming(s, assets, scope - s.broken, file);
    var start := Enumerated(first);
    OneFileGoes(s, assets, scope - s.broken, files, file);
    CollectingSoFar(s, assets, files, start);
    assert file !in Collecting(s, assets, files, start).files;
    var rest := Enumerated(scope - first);
    OrderedJoined(start, rest);
    CollectingMore(s, assets, files, start, rest);
    order := start + rest;
    assert first + (scope - first) == scope;
  }

  lemma ReachableIsTaken(s: Surroundings, assets: map<string, string>, requested: set<string>, files: set<string>, file: string)
    requires s.Idempotent() && !Completes(s, assets, requested, files) && file in Reachable(s, assets, requested, files)
    ensures FailureCanTakeFile(s, assets, requested, files)
  {
    var order := TakenFirst(s, assets, requested, files, file);
    PurgedExactly(s, assets, requested, files, order);
    var id: string :| id in Unreferenced(s, Scope(assets, requested) - s.broken) && id in assets && s.resolve(assets[id]) == file;
    assert id in Purged(s, assets, files, order).assets;
  }

  /**
   * A failed collection can take the file of a row that stays registered exactly when it is bound to fail and some
   * file can be reached before it does.
   */
  lemma FailureTakesFileExactly(s: Surroundings, assets: map<string, string>, requested: set<string>, files: set<string>)
    requires s.Idempotent()
    ensures FailureCanTakeFile(s, assets, requested, files)
            <==> !Completes(s, assets, requested, files) && Reachable(s, assets, requested, files) != {}
  {
    if !Completes(s, assets, requested, files) && Reachable(s, assets, requested, files) != {} {
      var file: string :| file in Reachable(s, assets, requested, files);
      ReachableIsTaken(s, assets, requested, files, file);
    }
    if FailureCanTakeFile(s, assets, requested, files) {
      var order: seq<string>, id: string :|
        && Enumerates(order, Scope(assets, requested)) && !Purged(s, assets, files, order).ok
        && id in Purged(s, assets, files, order).assets
        && s.resolve(assets[id]) in files && s.resolve(assets[id]) !in Purged(s, assets, files, order).files;
      PurgedExactly(s, assets, requested, files, order);
    }
  }

  /** Whatever the order, the row has the file it had, if it is still registered after the collection. */
  ghost predicate KeepsFile(s: Surroundings, assets: map<string, string>, requested: set<string>, files: set<string>, id: string)
    requires id in assets
  {
    forall order: seq<string> :: Enumerates(order, Scope(assets, requested)) ==>
      var p := Purged(s, assets, files, order);
      id in p.assets && s.resolve(assets[id]) in files ==> s.resolve(assets[id]) in p.files
  }

  /** The row goes with its file or its file stays; if the collection fails, its file is out of reach. */
  predicate IsSafe(s: Surroundings, assets: map<string, string>, requested: set<string>, files: set<string>, id: string)
    requires id in assets
  {
    var file := s.resolve(assets[id]);
    if Completes(s, assets, requested, files)
    then id in Unreferenced(s, Scope(assets, requested)) || file !in Due(s, assets, requested, files)
    else file !in Reachable(s, assets, requested, files)
  }

  lemma SafeIsKept(s: Surroundings, assets: map<string, string>, requested: set<string>, files: set<string>, id: string)
    requires s.Idempotent() && id in assets && IsSafe(s, assets, requested, files, id)
    ensures KeepsFile(s, assets, requested, files, id)
  {
    forall order: seq<string> | Enumerates(order, Scope(assets, requested))
      ensures var p := Purged(s, assets, files, order);
              id in p.assets && s.resolve(assets[id]) in files ==> s.resolve(assets[id]) in p.files
    {
      PurgedExactly(s, assets, requested, files, order);
    }
  }

  /**
   * A row keeps its file as long as it is registered, whatever the order, exactly when its file is not due to go, or
   * the row goes with it; and, where the collection fails and all rows stay, when its file cannot be reached before.
   */
  lemma SurvivorKeepsFileExactly(s: Surroundings, assets: map<string, string>, requested: set<string>, files: set<string>, id: string)
    requires s.Idempotent() && id in assets
    ensures KeepsFile(s, assets, requested, files, id) <==> IsSafe(s, assets, requested, files, id)
  {
    if IsSafe(s, assets, requested, files, id) {
      SafeIsKept(s, assets, requested, files, id);
    } else if Completes(s, assets, requested, files) {
      var order := Enumerated(Scope(assets, requested));
      PurgedExactly(s, assets, requested, files, order);
    } else {
      var order := TakenFirst(s, assets, requested, files, s.resolve(assets[id]));
      PurgedExactly(s, assets, requested, files, order);
    }
  }

  ghost predicate RegisteredKeepFiles(s: Surroundings, assets: map<string, string>, requested: set<string>, files: set<string>)
  {
    forall id :: id in assets ==> KeepsFile(s, assets, requested, files, id)
  }

  /** A file due to go is also resolved to by a row that stays, which stores another path. */
  ghost predicate StrandsSurvivor(s: Surroundings, assets: map<string, string>, requested: set<string>, files: set<string>)
  {
    exists id :: id in assets && id !in Unreferenced(s, Scope(assets, requested))
                 && s.resolve(assets[id]) in Due(s, assets, requested, files)
  }

  /**
   * All registered rows always keep their files exactly when the collection completes and no row that stays resolves
   * to a file due to go, or when it fails before any file can be reached.
   */
  lemma RegisteredKeepFilesExactly(s: Surroundings, assets: map<string, string>, requested: set<string>, files: set<string>)
    requires s.Idempotent()
    ensures RegisteredKeepFiles(s, assets, requested, files)
            <==> if Completes(s, assets, requested, files) then !StrandsSurvivor(s, assets, requested, files)
                 else Reachable(s, assets, requested, files) == {}
  {
    forall id | id in assets
      ensures KeepsFile(s, assets, requested, files, id) <==> IsSafe(s, assets, requested, files, id)
    {
      SurvivorKeepsFileExactly(s, assets, requested, files, id);
    }
    if Reachable(s, assets, requested, files) != {} {
      var file: string :| file in Reachable(s, assets, requested, files);
      var id: string :| id in Unreferenced(s, Scope(assets, requested) - s.broken) && id in assets && s.resolve(assets[id]) == file;
    }
  }

  /** With resolved stored paths that leaves only the failures: the collection completes, or reaches no file. */
  lemma ResolvedRowsKeepFilesExactly(s: Surroundings, assets: map<string, string>, requested: set<string>, files: set<string>)
    requires forall id :: id in assets ==> s.resolve(assets[id]) == assets[id]
    requires s.Idempotent()
    ensures RegisteredKeepFiles(s, assets, requested, files)
            <==> Completes(s, assets, requested, files) || Reachable(s, assets, requested, files) == {}
  {
    RegisteredKeepFilesExactly(s, assets, requested, files);
    forall id | id in assets && id !in Unreferenced(s, Scope(assets, requested))
      ensures s.resolve(assets[id]) !in Due(s, assets, requested, files)
    {
      if assets[id] in files {
        ResolvedSurvivorsKeepFiles(s, assets, requested, files, id);
      }
    }
  }

  /** Two resolved rows, the second with a file that cannot be unlinked: the first is kept without its own. */
  lemma StuckFileCostsAnother(s: Surroundings)
    requires !s.Referenced("a") && !s.Referenced("b") && {"a", "b"} !! s.broken && s.stuck == {"/m/b"}
    requires s.resolve("/m/a") == "/m/a" && s.resolve("/m/b") == "/m/b" && s.underMedia("/m/a") && s.underMedia("/m/b")
    ensures var assets := map["a" := "/m/a", "b" := "/m/b"];
            Purged(s, assets, {"/m/a", "/m/b"}, ["a", "b"]) == Progress(assets, {"/m/b"}, false)
  {
    var assets := map["a" := "/m/a", "b" := "/m/b"];
    var files := {"/m/a", "/m/b"};
    assert ["a", "b"][..1] == ["a"] && ["a"][..0] == [];
    assert assets - {"a"} == map["b" := "/m/b"];
    assert Collecting(s, assets, files, ["a"]) == Progress(map["b" := "/m/b"], {"/m/b"}, true);
    assert (map["b" := "/m/b"] - {"b"}).Values == {};
  }
}
