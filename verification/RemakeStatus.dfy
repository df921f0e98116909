/** What the memoised status lookup of the server computes when dependencies are acyclic. */
module RemakeStatus {
  import opened RemakeRules
  import opened RemakeState

  /** The dependency database together with the file system it is checked against. */
  datatype Db = Db(deps: map<Target, nat>, recs: seq<Record>, files: map<Target, int>, obsolete: bool)

  ghost predicate Shared(db: Db) {
    && (forall t :: t in db.deps ==> db.deps[t] < |db.recs| && t in db.recs[db.deps[t]].targets)
    && (forall t, u :: t in db.deps && u in db.recs[db.deps[t]].targets ==> u in db.deps && db.deps[u] == db.deps[t])
  }

  /** `rank` decreases along dependencies and is the same for siblings, so there is no cycle. */
  ghost predicate Ranked(db: Db, rank: map<Target, nat>) {
    && Shared(db)
    && (forall t :: t in db.deps ==> t in rank)
    && (forall t, u :: t in db.deps && u in db.recs[db.deps[t]].targets ==> u in rank && rank[u] == rank[t])
    && (forall t, d :: t in db.deps && d in db.recs[db.deps[t]].deps && d in db.deps ==> rank[d] < rank[t])
  }

  function Height(db: Db, rank: map<Target, nat>, t: Target): nat {
    if t in db.deps && t in rank then rank[t] + 1 else 0
  }

  function LastOf(files: map<Target, int>, t: Target): int { if t in files then files[t] else 0 }

  /** The latest modification time among `targets`, and at least 0. */
  ghost function Latest(files: map<Target, int>, targets: seq<Target>): int {
    if targets == [] then 0
    else
      var rest := Latest(files, targets[..|targets| - 1]);
      var last := LastOf(files, targets[|targets| - 1]);
      if last > rest then last else rest
  }

  lemma {:induction false} LatestIsLast(files: map<Target, int>, targets: seq<Target>)
    ensures forall t :: t in targets ==> LastOf(files, t) <= Latest(files, targets)
    ensures Latest(files, targets) == 0 || exists t :: t in targets && Latest(files, targets) == LastOf(files, t)
    ensures Latest(files, targets) >= 0
  {
    if targets != [] {
      var front, t := targets[..|targets| - 1], targets[|targets| - 1];
      LatestIsLast(files, front);
      assert targets == front + [t];
      assert forall u :: u in targets <==> u in front || u == t;
    }
  }

  /** The verdict on `t`, given the verdicts `base` already reached: no memory, no order of visit. */
  ghost function Verdict(db: Db, rank: map<Target, nat>, base: StatusMap, t: Target): Entry
    requires Ranked(db, rank)
    decreases Height(db, rank, t)
  {
    if t in base then base[t]
    else if t !in db.deps then (if t in db.files then Entry(Uptodate, db.files[t]) else Entry(Todo, 0))
    else if db.obsolete then Entry(Todo, 0)
    else
      var rec := db.recs[db.deps[t]];
      Entry(if exists u :: u in rec.targets && u !in db.files then Todo
            else if exists d :: d in rec.deps && Latest(db.files, rec.targets) < Verdict(db, rank, base, d).last then Todo
            else if exists d :: d in rec.deps && !Verdict(db, rank, base, d).st.Uptodate? then Recheck
            else Uptodate,
            LastOf(db.files, t))
  }

  /** Nothing depends on itself. */
  ghost predicate Acyclic(db: Db) { exists rank :: Ranked(db, rank) }

  /** However the targets are ranked, the verdict is the same. */
  lemma {:induction false} SameVerdict(db: Db, rank: map<Target, nat>, rank': map<Target, nat>, base: StatusMap, t: Target)
    requires Ranked(db, rank) && Ranked(db, rank')
    ensures Verdict(db, rank, base, t) == Verdict(db, rank', base, t)
    decreases Height(db, rank, t)
  {
    if t !in base && t in db.deps && !db.obsolete {
      var rec := db.recs[db.deps[t]];
      forall d | d in rec.deps ensures Verdict(db, rank, base, d) == Verdict(db, rank', base, d) {
        SameVerdict(db, rank, rank', base, d);
      }
    }
  }

  /** A chain of dependencies, each taken from the record of the previous target. */
  ghost predicate Chain(db: Db, path: seq<Target>)
    requires Shared(db)
  {
    && path != []
    && forall i {:trigger path[i]} :: 0 <= i < |path| - 1 ==> path[i] in db.deps && path[i + 1] in db.recs[db.deps[path[i]]].deps
  }

  /** The file is there and, if recorded, so are its siblings, and none of their dependencies is younger than the latest of them. */
  ghost predicate Fresh(db: Db, t: Target)
    requires Shared(db)
  {
    if t !in db.deps then t in db.files
    else
      var rec := db.recs[db.deps[t]];
      && (forall u :: u in rec.targets ==> u in db.files)
      && (forall d :: d in rec.deps ==> LastOf(db.files, d) <= Latest(db.files, rec.targets))
  }

  ghost predicate AllFresh(db: Db, t: Target)
    requires Shared(db)
  {
    forall path :: Chain(db, path) && path[0] == t ==> Fresh(db, path[|path| - 1])
  }

  lemma VerdictLast(db: Db, rank: map<Target, nat>, t: Target)
    requires Ranked(db, rank) && !db.obsolete
    ensures Verdict(db, rank, map[], t).last == LastOf(db.files, t)
  {
  }

  lemma ChainExtended(db: Db, t: Target, d: Target, path: seq<Target>)
    requires Shared(db) && t in db.deps && d in db.recs[db.deps[t]].deps && Chain(db, path) && path[0] == d
    ensures Chain(db, [t] + path)
  {
    var longer := [t] + path;
    forall i | 0 <= i < |longer| - 1
      ensures longer[i] in db.deps && longer[i + 1] in db.recs[db.deps[longer[i]]].deps
    {
      if i > 0 { assert path[i - 1] in db.deps && path[i - 1 + 1] == longer[i + 1]; }
    }
  }

  lemma ChainTail(db: Db, path: seq<Target>)
    requires Shared(db) && Chain(db, path) && |path| > 1
    ensures Chain(db, path[1..]) && path[0] in db.deps && path[1] in db.recs[db.deps[path[0]]].deps
  {
    assert path[0] in db.deps;
    forall i | 0 <= i < |path[1..]| - 1
      ensures path[1..][i] in db.deps && path[1..][i + 1] in db.recs[db.deps[path[1..][i]]].deps
    {
      assert path[1..][i] == path[i + 1] && path[1..][i + 1] == path[i + 1 + 1];
    }
  }

  /** Being fresh all the way down is being fresh, with dependencies that are fresh all the way down. */
  lemma AllFreshStep(db: Db, t: Target)
    requires Shared(db)
    ensures AllFresh(db, t) <==>
            Fresh(db, t) && (t in db.deps ==> forall d :: d in db.recs[db.deps[t]].deps ==> AllFresh(db, d))
  {
    if AllFresh(db, t) {
      assert Chain(db, [t]) && [t][|[t]| - 1] == t;
      assert Fresh(db, t);
      if t in db.deps {
        forall d, path | d in db.recs[db.deps[t]].deps && Chain(db, path) && path[0] == d
          ensures Fresh(db, path[|path| - 1])
        {
          ChainExtended(db, t, d, path);
          assert ([t] + path)[|[t] + path| - 1] == path[|path| - 1];
        }
      }
    } else {
      var path :| Chain(db, path) && path[0] == t && !Fresh(db, path[|path| - 1]);
      if |path| > 1 {
        ChainTail(db, path);
        assert path[1..][0] == path[1] && path[1..][|path[1..]| - 1] == path[|path| - 1];
        assert !AllFresh(db, path[1]);
      }
    }
  }

  /** A target is up-to-date exactly when every file reachable through dependencies exists and none
      of them is younger than the latest file of the group that depends on it. It has to be built exactly when this fails
      for its own group, and only to be rechecked when it fails further down. */
  lemma {:induction false} UptodateMeansFresh(db: Db, rank: map<Target, nat>, t: Target)
    requires Ranked(db, rank) && !db.obsolete
    ensures Verdict(db, rank, map[], t).st.Uptodate? <==> AllFresh(db, t)
    ensures Verdict(db, rank, map[], t).st.Todo? <==> !Fresh(db, t)
    ensures Verdict(db, rank, map[], t).st.Recheck? <==> Fresh(db, t) && !AllFresh(db, t)
    decreases Height(db, rank, t)
  {
    AllFreshStep(db, t);
    hide AllFresh;
    if t in db.deps {
      var rec := db.recs[db.deps[t]];
      forall d | d in rec.deps
        ensures Verdict(db, rank, map[], d).st.Uptodate? <==> AllFresh(db, d)
        ensures Verdict(db, rank, map[], d).last == LastOf(db.files, d)
      {
        UptodateMeansFresh(db, rank, d);
        VerdictLast(db, rank, d);
      }
    }
  }
}
