/** Why the memoised, group-wise status lookup is consistent and, without cycles, order-independent. */
module RemakeLookup {
  import opened RemakeRules
  import opened RemakeState
  import opened RemakeStatus

  /** Groups of the database have a status together, except when every target is forcefully obsolete. */
  ghost predicate RecordsTogether(c: Config, status: StatusMap, deps: map<Target, nat>, recs: seq<Record>) {
    !c.obsolete ==> forall t, u :: t in deps && t in status && deps[t] < |recs| && u in recs[deps[t]].targets ==> u in status
  }

  /** Every verdict of `status` outside `base` that a lookup of `target` can meet is the recursive one. */
  ghost predicate Agrees(db: Db, rank: map<Target, nat>, base: StatusMap, status: StatusMap, height: nat)
    requires Ranked(db, rank)
  {
    && (forall t :: t in base ==> t in status && status[t] == base[t])
    && (forall t :: t in status && t !in base && Height(db, rank, t) <= height ==> status[t] == Verdict(db, rank, base, t))
  }

  /** Entries of `targets` refreshed from the file system; new ones are inserted as up-to-date. */
  ghost function Stated(status: StatusMap, files: map<Target, int>, targets: seq<Target>): StatusMap {
    map t | t in status.Keys + Elems(targets) ::
      if t in targets then Entry(if t in status then status[t].st else Uptodate, LastOf(files, t)) else status[t]
  }

  lemma LookedTwice(c: Config, s: State, b: StatusMap, d: StatusMap)
    requires Looked(c, s, b) && Looked(c, s.(status := b), d)
    ensures Looked(c, s, d)
  {
    forall t | t in d && t !in s.status ensures (d[t].st.Uptodate? || Startable(d[t].st)) && Found(c, s, d, t) {
      if t in b { assert Found(c, s, b, t); } else { assert Found(c, s.(status := b), d, t); }
    }
  }

  /** The verdict that a pass over `deps` yields, whatever the order of the pass. */
  ghost predicate Decided(db: Db, rank: map<Target, nat>, base: StatusMap, deps: set<Target>, latest: int, st: BuildStatus)
    requires Ranked(db, rank)
  {
    st == if exists d :: d in deps && latest < Verdict(db, rank, base, d).last then Todo
          else if exists d :: d in deps && !Verdict(db, rank, base, d).st.Uptodate? then Recheck
          else Uptodate
  }

  lemma NothingSeen(db: Db, rank: map<Target, nat>, base: StatusMap, status: StatusMap, names: set<Target>, height: nat, latest: int)
    ensures Comparable(db, rank, base, status, names, height) ==>
              Ranked(db, rank) && AddsVerdicts(db, rank, base, status, status)
              && Decided(db, rank, base, names - names, latest, Uptodate)
  {
  }

  lemma DecidedNext(db: Db, rank: map<Target, nat>, base: StatusMap, names: set<Target>, todo: set<Target>, d: Target,
                    latest: int, st: BuildStatus, e: Entry)
    requires Ranked(db, rank) && d in todo && todo <= names && !st.Todo?
    requires Decided(db, rank, base, names - todo, latest, st) && e == Verdict(db, rank, base, d)
    ensures latest < e.last ==> Decided(db, rank, base, names, latest, Todo)
    ensures latest >= e.last ==>
              Decided(db, rank, base, names - (todo - {d}), latest, if e.st.Uptodate? then st else Recheck)
  {
    hide Ranked, Verdict;
    var seen, seen' := names - todo, names - (todo - {d});
    assert forall x :: x in seen' <==> x in seen || x == d;
  }

  /** The guard under which a lookup is compared with the recursive definition. */
  ghost predicate Comparable(db: Db, rank: map<Target, nat>, base: StatusMap, status: StatusMap, names: set<Target>, height: nat) {
    Ranked(db, rank) && Agrees(db, rank, base, status, height) && forall d :: d in names ==> Height(db, rank, d) <= height
  }

  ghost predicate AddsVerdicts(db: Db, rank: map<Target, nat>, base: StatusMap, a: StatusMap, b: StatusMap)
    requires Ranked(db, rank)
  {
    forall t :: t in b && t !in a ==> b[t] == Verdict(db, rank, base, t)
  }

  lemma ComparableNext(db: Db, rank: map<Target, nat>, base: StatusMap, a: StatusMap, b: StatusMap, names: set<Target>, height: nat, d: Target)
    requires Comparable(db, rank, base, a, names, height) && d in names
    requires (forall t :: t in a ==> t in b && b[t] == a[t]) && AddsVerdicts(db, rank, base, a, b)
    ensures Comparable(db, rank, base, b, {d}, Height(db, rank, d))
  {
  }

  lemma AddsVerdictsNext(db: Db, rank: map<Target, nat>, base: StatusMap, a: StatusMap, b: StatusMap, e: StatusMap, d: Target)
    requires Comparable(db, rank, base, b, {d}, Height(db, rank, d))
    requires AddsVerdicts(db, rank, base, a, b) && AddsVerdicts(db, rank, base, b, e)
    requires (forall t :: t in b ==> t in e && e[t] == b[t]) && d in e
    ensures AddsVerdicts(db, rank, base, a, e) && e[d] == Verdict(db, rank, base, d)
  {
  }

  lemma StatedNext(status: StatusMap, files: map<Target, int>, targets: seq<Target>, k: nat)
    requires k < |targets|
    ensures var (a, t) := (Stated(status, files, targets[..k]), targets[k]);
            Stated(status, files, targets[..k + 1])
            == a[t := Entry(if t in a then a[t].st else Uptodate, LastOf(files, t))]
    ensures var (rest, last) := (Latest(files, targets[..k]), LastOf(files, targets[k]));
            Latest(files, targets[..k + 1]) == if last > rest then last else rest
    ensures forall u :: u in targets[..k + 1] <==> u in targets[..k] || u == targets[k]
  {
    assert targets[..k + 1] == targets[..k] + [targets[k]];
    assert targets[..k + 1][..k] == targets[..k];
  }

  lemma MarkedNext(status: StatusMap, targets: seq<Target>, st: BuildStatus, k: nat)
    requires k < |targets|
    ensures var (a, t) := (Marked(status, targets[..k], st), targets[k]);
            Marked(status, targets[..k + 1], st) == a[t := Entry(st, if t in a then a[t].last else 0)]
  {
    assert targets[..k + 1] == targets[..k] + [targets[k]];
  }

  /** The statuses of a group that is looked up, before its dependencies are. */
  ghost function Opened(s: State, target: Target, rec: Record): StatusMap {
    Stated(s.status[target := Entry(Uptodate, 0)], s.files, rec.targets)
  }

  ghost predicate Unseen(c: Config, s: State, target: Target) {
    && target in c.rules && target !in s.status && target in s.deps && !c.obsolete && s.status.Keys <= c.rules.Keys
    && DbOK(c, s.deps, s.recs) && RecordsTogether(c, s.status, s.deps, s.recs)
  }

  /** No sibling of a target without status has one. */
  lemma SiblingsUnseen(c: Config, s: State, target: Target)
    requires Unseen(c, s, target)
    ensures target in s.deps && s.deps[target] < |s.recs| && !c.obsolete && target !in s.status
    ensures var rec := s.recs[s.deps[target]];
            && rec.deps <= c.rules.Keys && target in rec.targets
            && forall u :: u in rec.targets ==> u in c.rules && u in s.deps && s.deps[u] == s.deps[target] && u !in s.status
    ensures forall t, u :: t in s.deps && u in s.recs[s.deps[t]].targets && u in s.recs[s.deps[target]].targets ==> s.deps[t] == s.deps[target]
  {
    var rec := s.recs[s.deps[target]];
    assert RecordOK(c, target, rec);
    forall u | u in rec.targets ensures u in c.rules && u !in s.status { assert u in Elems(rec.targets); }
  }

  lemma OpenedLookable(c: Config, s: State, target: Target)
    requires Unseen(c, s, target)
    ensures s.deps[target] < |s.recs|
    ensures var status' := Opened(s, target, s.recs[s.deps[target]]);
            status'.Keys <= c.rules.Keys && RecordsTogether(c, status', s.deps, s.recs)
            && target in status' && s.status.Keys <= status'.Keys
  {
    SiblingsUnseen(c, s, target);
    hide DbOK;
    var rec := s.recs[s.deps[target]];
    var status' := Opened(s, target, rec);
    assert status'.Keys == s.status.Keys + Elems(rec.targets);
  }

  /** Closing the group gives every member the same verdict, on top of what the dependencies added. */
  lemma ClosedLooked(c: Config, s: State, target: Target, b: StatusMap, st: BuildStatus)
    requires Unseen(c, s, target) && s.deps[target] < |s.recs|
    requires var rec := s.recs[s.deps[target]];
             && Looked(c, s.(status := Opened(s, target, rec)), b)
             && (st.Uptodate? || st.Todo? || (st.Recheck? && rec.deps <= b.Keys))
    requires RecordsTogether(c, b, s.deps, s.recs)
    ensures var closed := Marked(b, s.recs[s.deps[target]].targets, st);
            Looked(c, s, closed) && RecordsTogether(c, closed, s.deps, s.recs) && closed.Keys == b.Keys
  {
    hide DbOK, RecordsTogether, Opened, Unseen, Found, Elems;
    SiblingsUnseen(c, s, target);
    var rec := s.recs[s.deps[target]];
    OpenedKeys(s, target, rec);
    var a := Opened(s, target, rec);
    var closed := Marked(b, rec.targets, st);
    MarkedView(b, rec.targets, st);
    hide Marked;
    forall t | t in closed && t !in s.status
      ensures (closed[t].st.Uptodate? || Startable(closed[t].st)) && Found(c, s, closed, t)
    {
      if t in rec.targets {
        ClosedFound(c, s, rec, b, st, t);
      } else {
        assert Found(c, s.(status := a), b, t);
        OutsideFound(c, s, a, rec, b, st, t);
      }
    }
    SameKeysTogether(c, b, closed, s.deps, s.recs);
  }

  lemma MarkedView(b: StatusMap, targets: seq<Target>, st: BuildStatus)
    requires forall u :: u in targets ==> u in b
    ensures var closed := Marked(b, targets, st);
            && closed.Keys == b.Keys
            && forall t :: t in b ==> if t in targets then closed[t].st == st else closed[t] == b[t]
  {
  }

  lemma OpenedKeys(s: State, target: Target, rec: Record)
    requires target in rec.targets && target !in s.status && forall u :: u in rec.targets ==> u !in s.status
    ensures var a := Opened(s, target, rec);
            && a.Keys == s.status.Keys + Elems(rec.targets)
            && forall t :: t in s.status ==> a[t] == s.status[t]
  {
  }

  lemma ClosedFound(c: Config, s: State, rec: Record, b: StatusMap, st: BuildStatus, t: Target)
    requires t in rec.targets && t in s.deps && s.deps[t] < |s.recs| && s.recs[s.deps[t]] == rec && !c.obsolete
    requires forall u :: u in rec.targets ==> u !in s.status
    requires st.Recheck? ==> rec.deps <= b.Keys
    ensures Found(c, s, Marked(b, rec.targets, st), t)
  {
  }

  lemma OutsideFound(c: Config, s: State, a: StatusMap, rec: Record, b: StatusMap, st: BuildStatus, t: Target)
    requires t in b && t !in rec.targets && Found(c, s.(status := a), b, t)
    requires s.status.Keys <= a.Keys && forall u :: u in rec.targets ==> u in a
    ensures Found(c, s, Marked(b, rec.targets, st), t)
  {
  }

  lemma SameKeysTogether(c: Config, a: StatusMap, b: StatusMap, deps: map<Target, nat>, recs: seq<Record>)
    requires RecordsTogether(c, a, deps, recs) && a.Keys == b.Keys
    ensures RecordsTogether(c, b, deps, recs)
  {
    assert forall t :: t in a <==> t in b;
  }

  /** A target without record, or forced to be obsolete, is judged alone. */
  ghost function Leaf(c: Config, s: State, target: Target): Entry {
    if target !in s.deps && target in s.files then Entry(Uptodate, s.files[target]) else Entry(Todo, 0)
  }

  lemma LeafLooked(c: Config, s: State, target: Target)
    requires target in c.rules && target !in s.status && (target !in s.deps || c.obsolete)
    requires s.status.Keys <= c.rules.Keys && DbOK(c, s.deps, s.recs) && RecordsTogether(c, s.status, s.deps, s.recs)
    ensures var status' := s.status[target := Leaf(c, s, target)];
            status'.Keys <= c.rules.Keys && Looked(c, s, status') && RecordsTogether(c, status', s.deps, s.recs)
  {
    var status' := s.status[target := Leaf(c, s, target)];
    assert Found(c, s, status', target);
    if !c.obsolete {
      forall t, u | t in s.deps && t in status' && u in s.recs[s.deps[t]].targets ensures u in status' {
        assert t in s.status;
      }
    }
  }

  ghost function DbOf(c: Config, s: State): Db { Db(s.deps, s.recs, s.files, c.obsolete) }

  lemma LeafVerdict(c: Config, s: State, target: Target, rank: map<Target, nat>, base: StatusMap)
    requires target !in s.status && (target !in s.deps || c.obsolete)
    requires Comparable(DbOf(c, s), rank, base, s.status, {target}, Height(DbOf(c, s), rank, target))
    ensures Ranked(DbOf(c, s), rank) && AddsVerdicts(DbOf(c, s), rank, base, s.status, s.status[target := Leaf(c, s, target)])
  {
  }

  /** Opening a group leaves its dependencies comparable. */
  lemma OpenedComparable(c: Config, s: State, target: Target, rank: map<Target, nat>, base: StatusMap)
    requires Unseen(c, s, target) && s.deps[target] < |s.recs|
    requires Comparable(DbOf(c, s), rank, base, s.status, {target}, Height(DbOf(c, s), rank, target))
    ensures Ranked(DbOf(c, s), rank) && target in rank
    ensures var rec := s.recs[s.deps[target]]; Comparable(DbOf(c, s), rank, base, Opened(s, target, rec), rec.deps, rank[target])
  {
    SiblingsUnseen(c, s, target);
    hide DbOK, RecordsTogether;
    var db, rec := DbOf(c, s), s.recs[s.deps[target]];
    var a := Opened(s, target, rec);
    RankedGroup(db, rank, target);
    hide Verdict, Ranked, Shared, Height;
    OpenedAgrees(db, rank, base, s.status, a, rec.targets, rank[target]);
  }

  lemma RankedGroup(db: Db, rank: map<Target, nat>, target: Target)
    requires Ranked(db, rank) && target in db.deps
    ensures target in rank && Height(db, rank, target) == rank[target] + 1
    ensures var rec := db.recs[db.deps[target]];
            && (forall u :: u in rec.targets ==> Height(db, rank, u) == rank[target] + 1)
            && (forall d :: d in rec.deps ==> Height(db, rank, d) <= rank[target])
  {
    var rec := db.recs[db.deps[target]];
    forall u | u in rec.targets ensures Height(db, rank, u) == rank[target] + 1 { assert u in db.deps && u in rank; }
  }

  lemma OpenedAgrees(db: Db, rank: map<Target, nat>, base: StatusMap, status: StatusMap, a: StatusMap, targets: seq<Target>, height: nat)
    requires Ranked(db, rank) && Agrees(db, rank, base, status, height + 1)
    requires forall u :: u in targets ==> u !in status && Height(db, rank, u) > height
    requires forall t :: t in a && t !in targets ==> t in status && a[t] == status[t]
    requires forall t :: t in status ==> t in a
    ensures Agrees(db, rank, base, a, height)
  {
    hide Ranked, Verdict, Height;
  }

  lemma ClosedVerdict(c: Config, s: State, target: Target, rank: map<Target, nat>, base: StatusMap, b: StatusMap, st: BuildStatus)
    requires Unseen(c, s, target) && s.deps[target] < |s.recs|
    requires Ranked(DbOf(c, s), rank) && forall t :: t in base ==> t in s.status
    requires var (db, rec) := (DbOf(c, s), s.recs[s.deps[target]]);
             var a := Opened(s, target, rec);
             && (forall t :: t in a ==> t in b && b[t] == a[t]) && AddsVerdicts(db, rank, base, a, b)
             && if exists u :: u in rec.targets && u !in s.files then st.Todo?
                else Decided(db, rank, base, rec.deps, Latest(s.files, rec.targets), st)
    ensures var closed := Marked(b, s.recs[s.deps[target]].targets, st);
            AddsVerdicts(DbOf(c, s), rank, base, s.status, closed)
  {
    SiblingsUnseen(c, s, target);
    hide DbOK, RecordsTogether, Latest, Ranked;
    var db, rec := DbOf(c, s), s.recs[s.deps[target]];
    var a := Opened(s, target, rec);
    var closed := Marked(b, rec.targets, st);
    OpenedTimes(s, target, rec);
    hide Opened, Unseen, Decided, Verdict;
    forall t | t in closed && t !in s.status ensures closed[t] == Verdict(db, rank, base, t) {
      if t in rec.targets {
        GroupVerdict(db, rank, base, t, st);
      } else {
        assert t in b && t !in a;
      }
    }
  }

  /** The verdict on a recorded target is the one decided for its group. */
  lemma GroupVerdict(db: Db, rank: map<Target, nat>, base: StatusMap, t: Target, st: BuildStatus)
    requires Ranked(db, rank) && t in db.deps && t !in base && !db.obsolete
    requires var rec := db.recs[db.deps[t]];
             if exists u :: u in rec.targets && u !in db.files then st.Todo?
             else Decided(db, rank, base, rec.deps, Latest(db.files, rec.targets), st)
    ensures Verdict(db, rank, base, t) == Entry(st, LastOf(db.files, t))
  {
    hide Latest;
  }

  lemma OpenedTimes(s: State, target: Target, rec: Record)
    ensures var a := Opened(s, target, rec);
            && (forall t :: t in rec.targets ==> t in a && a[t].last == LastOf(s.files, t))
            && (target in rec.targets ==> forall t :: t in a ==> t in s.status || t in rec.targets)
  {
  }

  lemma LookedNothing(c: Config, s: State)
    requires s.status.Keys <= c.rules.Keys
    ensures Looked(c, s, s.status)
  {
  }

  lemma LookedExtends(c: Config, s: State, b: StatusMap)
    requires Looked(c, s, b)
    ensures b.Keys <= c.rules.Keys && forall t :: t in s.status ==> t in b && b[t] == s.status[t]
  {
  }

  lemma ComparableBase(db: Db, rank: map<Target, nat>, base: StatusMap, status: StatusMap, names: set<Target>, height: nat)
    requires Comparable(db, rank, base, status, names, height)
    ensures Ranked(db, rank) && forall t :: t in base ==> t in status
  {
  }
}
