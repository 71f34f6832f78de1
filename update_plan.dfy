/** The incremental update that the comment in `update_index` describes:
    the function's body is empty, so this module formalises the stated
    plan, not executable code. Records are matched on their absolute path
    only: an item whose path is already indexed is dropped from the items
    (2.1), an item whose path is not indexed is kept for insertion (2.2),
    and an indexed record whose path no longer appears among the items is
    deleted from the database (2.3); the kept items are then added (3). */
module UpdatePlan {
  import opened Items

  datatype Plan = Plan(toInsert: seq<ItemFS>, toDelete: seq<ItemFS>)

  function PathsOf(s: seq<ItemFS>): set<string>
  {
    set x | x in s :: x.absPath
  }

  /** The records of `s`, in order, whose path is outside `paths`. */
  function Outside(s: seq<ItemFS>, paths: set<string>): (r: seq<ItemFS>)
    ensures forall x :: x in r <==> x in s && x.absPath !in paths
    ensures |r| <= |s|
  {
    if s == [] then []
    else
      var rest := Outside(s[1..], paths);
      assert s == [s[0]] + s[1..];
      if s[0].absPath in paths then rest else [s[0]] + rest
  }

  /** Steps 1 and 2: compare the scanned items with the database records. */
  function PlanUpdate(items: seq<ItemFS>, database: seq<ItemFS>): (p: Plan)
    ensures forall x :: x in items ==> (x in p.toInsert <==> x.absPath !in PathsOf(database))
    ensures forall x :: x in p.toInsert ==> x in items
    ensures forall d :: d in database ==> (d in p.toDelete <==> d.absPath !in PathsOf(items))
    ensures forall d :: d in p.toDelete ==> d in database
    ensures PathsOf(p.toInsert) !! PathsOf(database)
    ensures PathsOf(p.toDelete) !! PathsOf(items)
  {
    Plan(Outside(items, PathsOf(database)), Outside(database, PathsOf(items)))
  }

  /** Steps 2.3 and 3: the database after the deletions and the insertions. */
  function ApplyPlan(database: seq<ItemFS>, p: Plan): (r: seq<ItemFS>)
    ensures forall x :: x in r <==> (x in database && x.absPath !in PathsOf(p.toDelete)) || x in p.toInsert
  {
    Outside(database, PathsOf(p.toDelete)) + p.toInsert
  }

  lemma PathsOfConcat(a: seq<ItemFS>, b: seq<ItemFS>)
    ensures PathsOf(a + b) == PathsOf(a) + PathsOf(b)
  {
  }

  lemma OutsidePaths(s: seq<ItemFS>, paths: set<string>)
    ensures PathsOf(Outside(s, paths)) == PathsOf(s) - paths
  {
    forall q | q in PathsOf(s) - paths ensures q in PathsOf(Outside(s, paths)) {
      var x :| x in s && x.absPath == q;
    }
  }

  /** After the plan is applied, the database holds exactly the paths of
      the scanned items. */
  lemma ApplyPlanPaths(items: seq<ItemFS>, database: seq<ItemFS>)
    ensures PathsOf(ApplyPlan(database, PlanUpdate(items, database))) == PathsOf(items)
  {
    var p := PlanUpdate(items, database);
    PathsOfConcat(Outside(database, PathsOf(p.toDelete)), p.toInsert);
    OutsidePaths(database, PathsOf(p.toDelete));
    OutsidePaths(items, PathsOf(database));
    OutsidePaths(database, PathsOf(items));
  }

  lemma EmptyOutside(s: seq<ItemFS>, paths: set<string>)
    requires PathsOf(s) <= paths
    ensures Outside(s, paths) == []
  {
  }

  /** Planning again against the updated database yields nothing to do. */
  lemma PlanIdempotent(items: seq<ItemFS>, database: seq<ItemFS>)
    ensures PlanUpdate(items, ApplyPlan(database, PlanUpdate(items, database))) == Plan([], [])
  {
    var after := ApplyPlan(database, PlanUpdate(items, database));
    ApplyPlanPaths(items, database);
    EmptyOutside(items, PathsOf(after));
    EmptyOutside(after, PathsOf(items));
  }

  /** A database that already holds exactly the scanned items needs no change. */
  lemma PlanUnchanged(items: seq<ItemFS>)
    ensures PlanUpdate(items, items) == Plan([], [])
  {
    EmptyOutside(items, PathsOf(items));
  }

  /** Matching is on the path alone: a file whose size or date changed
      since it was indexed produces no insertion and no deletion. */
  lemma ChangedFileNotUpdated(indexed: ItemFS, scanned: ItemFS)
    requires indexed.absPath == scanned.absPath
    ensures PlanUpdate([scanned], [indexed]) == Plan([], [])
  {
    EmptyOutside([scanned], PathsOf([indexed]));
    EmptyOutside([indexed], PathsOf([scanned]));
  }

  /** A path that vanished from the file system yields exactly one deletion
      and nothing else. */
  lemma RemovedFileDeleted(items: seq<ItemFS>, gone: ItemFS)
    requires gone.absPath !in PathsOf(items)
    ensures PlanUpdate(items, items + [gone]) == Plan([], [gone])
  {
    PathsOfConcat(items, [gone]);
    EmptyOutside(items, PathsOf(items + [gone]));
    OutsideSuffix(items, [gone], PathsOf(items));
    EmptyOutside(items, PathsOf(items));
  }

  lemma {:induction false} OutsideSuffix(a: seq<ItemFS>, b: seq<ItemFS>, paths: set<string>)
    ensures Outside(a + b, paths) == Outside(a, paths) + Outside(b, paths)
  {
    if a != [] {
      assert (a + b)[1..] == a[1..] + b;
      OutsideSuffix(a[1..], b, paths);
    } else {
      assert a + b == b;
    }
  }
}
