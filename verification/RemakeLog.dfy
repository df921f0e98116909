/** What the outside world sees the build server do, and how that accounts for what became of every target. */
module RemakeLog {
  import opened RemakeRules
  import opened RemakeState
  import opened RemakeStatus
  import opened RemakeLookup

  /** An action of the server or an event it met, with the statuses at that moment. `idle` says that no script was running
      but those that wait for an answer. */
  datatype Action =
    | LookedUp(db: Db, before: StatusMap, at: StatusMap)
    | ScriptStarted(jobId: int, prerequisites: set<Target>, at: StatusMap)
    | NotSpawned(jobId: int, at: StatusMap)
    | ScriptEnded(jobId: int, success: bool, at: StatusMap)
    | NothingToDo(jobId: int, rule: Rule, at: StatusMap)
    | Spared(jobId: int, rec: Record, at: StatusMap)
    | Abandoned(jobId: int, asked: set<Target>, idle: bool, at: StatusMap)
    | Replied(jobId: int, asked: set<Target>, success: bool, idle: bool, at: StatusMap)

  ghost predicate AllDone(targets: set<Target>, status: StatusMap) {
    forall t :: t in targets ==> t in status && Done(status[t].st)
  }

  /** One of the targets has failed. */
  ghost predicate Broke(targets: set<Target>, status: StatusMap) { exists t :: t in targets && t in status && status[t].st.Failed? }

  /** One of the targets has failed, or one is still being built although nothing runs any more. */
  ghost predicate Unmet(targets: set<Target>, idle: bool, status: StatusMap) {
    Broke(targets, status) || (idle && exists t :: t in targets && t in status && Active(status[t].st))
  }

  /** Text that is not empty can expand to nothing only if it begins with a variable. */
  predicate MayBeBlank(script: string) { script == "" || (script[0] == '$' && |script| > 1) }

  /** A lookup finds targets unchanged or to be started; without cycles it adds the verdicts of the recursive definition. */
  ghost predicate Truthful(db: Db, before: StatusMap, after: StatusMap) {
    && (forall t :: t in after && t !in before ==> after[t].st.Uptodate? || Startable(after[t].st))
    && (forall rank :: Ranked(db, rank) ==> AddsVerdicts(db, rank, before, before, after))
  }

  /** Scripts start, are found empty, and requests succeed, only once everything they asked for is done. A script is spared
      only if all recorded dependencies are unchanged, and a request fails only for a reason. */
  ghost predicate SafeAction(a: Action) {
    match a
    case LookedUp(db, before, at) => Truthful(db, before, at)
    case ScriptStarted(_, prerequisites, at) => AllDone(prerequisites, at)
    case NotSpawned(_, _) => true
    case ScriptEnded(_, _, _) => true
    case NothingToDo(_, rule, at) => AllDone(Prerequisites(rule), at) && MayBeBlank(rule.script)
    case Spared(_, rec, at) => forall d :: d in rec.deps ==> d in at && at[d].st.Uptodate?
    case Abandoned(_, asked, idle, at) => Unmet(asked, idle, at)
    case Replied(_, asked, success, idle, at) => if success then AllDone(asked, at) else Unmet(asked, idle, at)
  }

  /** Every action was safe when it happened, and statuses only advanced since. */
  ghost predicate LogOK(log: seq<Action>, status: StatusMap) {
    forall i :: 0 <= i < |log| ==> SafeAction(log[i]) && Advances(log[i].at, status)
  }

  lemma LogAdvances(log: seq<Action>, a: StatusMap, b: StatusMap)
    requires LogOK(log, a) && Advances(a, b)
    ensures LogOK(log, b)
  {
    hide SafeAction, Advances;
    forall i | 0 <= i < |log| ensures SafeAction(log[i]) && Advances(log[i].at, b) {
      AdvancesTransitive(log[i].at, a, b);
    }
  }

  lemma LogAppended(log: seq<Action>, status: StatusMap, a: Action)
    requires LogOK(log, status) && SafeAction(a) && Advances(a.at, status)
    ensures LogOK(log + [a], status)
  {
    hide SafeAction, Advances;
  }

  /** A request of the server itself was answered with a failure. */
  ghost predicate FailedReply(a: Action) { a.Replied? && a.jobId < 0 && !a.success }

  ghost predicate AnyFailed(log: seq<Action>) { exists k :: 0 <= k < |log| && FailedReply(log[k]) }

  lemma AnyFailedAppended(log: seq<Action>, a: Action)
    ensures AnyFailed(log + [a]) <==> AnyFailed(log) || FailedReply(a)
  {
    hide FailedReply;
    forall k | 0 <= k < |log| ensures (log + [a])[k] == log[k] {}
    assert (log + [a])[|log|] == a;
  }

  // ---------------------------------------------------------------- books

  /** The script of the job was started. */
  ghost predicate Began(log: seq<Action>, id: int) { exists k :: 0 <= k < |log| && log[k].ScriptStarted? && log[k].jobId == id }

  /** What can make a target of a job done: its script succeeded, was empty, or was spared. */
  ghost predicate Earns(a: Action, id: int, t: Target) {
    match a
    case ScriptEnded(j, success, _) => j == id && success
    case NothingToDo(j, rule, _) => j == id && t in rule.targets
    case Spared(j, rec, _) => j == id && t in rec.targets
    case _ => false
  }

  /** What can make the targets of a job fail: its script failed, could not be run, or lacked a prerequisite. */
  ghost predicate Blames(a: Action, id: int) {
    match a
    case ScriptEnded(j, success, _) => j == id && !success
    case NotSpawned(j, _) => j == id
    case Abandoned(j, _, _, _) => j == id
    case _ => false
  }

  ghost predicate Earned(log: seq<Action>, id: int, t: Target) { exists k :: 0 <= k < |log| && Earns(log[k], id, t) }

  ghost predicate Blamed(log: seq<Action>, id: int) { exists k :: 0 <= k < |log| && Blames(log[k], id) }

  /** The entry stems from a lookup of a target that had none. */
  ghost predicate Seen(log: seq<Action>, t: Target, e: Entry) {
    exists k :: 0 <= k < |log| && log[k].LookedUp? && t !in log[k].before && t in log[k].at && log[k].at[t] == e
  }

  /** Why the status of a target is what it is. The last job that was made for it, if any, decides. */
  ghost predicate Explained(c: Config, presets: StatusMap, log: seq<Action>, owner: map<Target, int>, t: Target, e: Entry) {
    if t in owner then
      !Startable(e.st) && (Done(e.st) ==> Earned(log, owner[t], t)) && (e.st.Failed? ==> Blamed(log, owner[t]))
    else
      || (t in presets && e == presets[t]) || Seen(log, t, e)
      || (e.st.Failed? && t in c.rules && c.rules[t].targets == [])
  }

  /** The log is in order: scripts end after they have started, those that run have started, and every status is explained. */
  ghost predicate Accounted(c: Config, presets: StatusMap, status: StatusMap, owner: map<Target, int>, pids: map<int, int>, log: seq<Action>) {
    && (forall k :: 0 <= k < |log| && log[k].ScriptEnded? ==> Began(log[..k], log[k].jobId))
    && (forall p :: p in pids ==> Began(log, pids[p]))
    && (forall t :: t in owner ==> t in status)
    && (forall t :: t in status ==> Explained(c, presets, log, owner, t, status[t]))
  }

  ghost predicate Books(c: Config, presets: StatusMap, status: StatusMap, owner: map<Target, int>, pids: map<int, int>, log: seq<Action>) {
    LogOK(log, status) && Accounted(c, presets, status, owner, pids, log)
  }

  lemma BooksOpen(c: Config, presets: StatusMap)
    ensures Books(c, presets, presets, map[], map[], []) && !AnyFailed([])
  {
  }

  lemma KeptEvidence(log: seq<Action>, a: Action)
    ensures forall id :: Began(log, id) ==> Began(log + [a], id)
    ensures forall id, t :: Earned(log, id, t) ==> Earned(log + [a], id, t)
    ensures forall id :: Blamed(log, id) ==> Blamed(log + [a], id)
    ensures forall t, e :: Seen(log, t, e) ==> Seen(log + [a], t, e)
  {
    hide Earns, Blames;
    assert forall k :: 0 <= k < |log| ==> (log + [a])[k] == log[k];
  }

  lemma AccountedAppended(c: Config, presets: StatusMap, status: StatusMap, owner: map<Target, int>, pids: map<int, int>,
                          log: seq<Action>, a: Action)
    requires Accounted(c, presets, status, owner, pids, log) && (a.ScriptEnded? ==> Began(log, a.jobId))
    ensures Accounted(c, presets, status, owner, pids, log + [a])
  {
    KeptEvidence(log, a);
    hide Began, Earned, Blamed, Seen, Startable, Done;
    forall k | 0 <= k < |log + [a]| && (log + [a])[k].ScriptEnded?
      ensures Began((log + [a])[..k], (log + [a])[k].jobId)
    {
      assert (log + [a])[..k] == log[..k];
      assert log[..|log|] == log;
    }
  }

  /** Statuses change: what is new must be explained by the log. */
  lemma AccountedMoved(c: Config, presets: StatusMap, a: StatusMap, b: StatusMap, owner: map<Target, int>, owner': map<Target, int>,
                       pids: map<int, int>, pids': map<int, int>, log: seq<Action>)
    requires Accounted(c, presets, a, owner, pids, log)
    requires forall p :: p in pids' ==> Began(log, pids'[p])
    requires forall t :: t in owner' ==> t in b
    requires forall t :: t in b ==>
               || Explained(c, presets, log, owner', t, b[t])
               || (t in a && b[t] == a[t] && if t in owner then t in owner' && owner'[t] == owner[t] else t !in owner')
    ensures Accounted(c, presets, b, owner', pids', log)
  {
    hide Began, Earned, Blamed, Seen, Startable, Done;
  }

  // ---------------------------------------------------------------- what each step writes down

  /** An action that changes no status; a script can end only after its start. */
  lemma BooksAppended(c: Config, presets: StatusMap, status: StatusMap, owner: map<Target, int>, pids: map<int, int>, log: seq<Action>, a: Action)
    requires Books(c, presets, status, owner, pids, log) && SafeAction(a) && a.at == status
    requires a.ScriptEnded? ==> Began(log, a.jobId)
    ensures Books(c, presets, status, owner, pids, log + [a])
    ensures AnyFailed(log + [a]) <==> AnyFailed(log) || FailedReply(a)
  {
    hide LogOK, SafeAction, Accounted, Began, AnyFailed, FailedReply;
    LogAppended(log, status, a);
    AnyFailedAppended(log, a);
    AccountedAppended(c, presets, status, owner, pids, log, a);
  }

  /** A lookup, together with what it found. */
  lemma BooksLookedUp(c: Config, presets: StatusMap, a: StatusMap, b: StatusMap, owner: map<Target, int>, pids: map<int, int>,
                      log: seq<Action>, db: Db)
    requires Books(c, presets, a, owner, pids, log) && Truthful(db, a, b) && Advances(a, b)
    requires forall t :: t in a ==> t in b && b[t] == a[t]
    ensures Books(c, presets, b, owner, pids, log + [LookedUp(db, a, b)])
    ensures AnyFailed(log + [LookedUp(db, a, b)]) <==> AnyFailed(log)
  {
    var x := LookedUp(db, a, b);
    hide LogOK, Truthful, Advances, Began, Earned, Blamed, AnyFailed;
    LogAdvances(log, a, b);
    AdvancesSame(b);
    LogAppended(log, b, x);
    AnyFailedAppended(log, x);
    AccountedAppended(c, presets, a, owner, pids, log, x);
    forall t | t in b && t !in a
      ensures Explained(c, presets, log + [x], owner, t, b[t])
    {
      assert (log + [x])[|log|] == x;
    }
    AccountedMoved(c, presets, a, b, owner, owner, pids, pids, log + [x]);
  }

  lemma AdvancesSame(status: StatusMap)
    ensures Advances(status, status)
  {
  }

  /** A new job takes over its targets. */
  lemma BooksMarked(c: Config, presets: StatusMap, status: StatusMap, owner: map<Target, int>, pids: map<int, int>, log: seq<Action>,
                    targets: seq<Target>, st: BuildStatus, id: int)
    requires Books(c, presets, status, owner, pids, log) && Active(st) && Advances(status, Marked(status, targets, st))
    ensures Books(c, presets, Marked(status, targets, st), Owned(owner, targets, id), pids, log)
  {
    hide LogOK, Advances, Began, Earned, Blamed, Seen;
    LogAdvances(log, status, Marked(status, targets, st));
    AccountedMoved(c, presets, status, Marked(status, targets, st), owner, Owned(owner, targets, id), pids, pids, log);
  }

  /** A target without a rule fails. */
  lemma BooksWithoutRule(c: Config, presets: StatusMap, status: StatusMap, owner: map<Target, int>, pids: map<int, int>, log: seq<Action>,
                         t: Target)
    requires Books(c, presets, status, owner, pids, log) && t in status && Startable(status[t].st)
    requires t in c.rules && c.rules[t].targets == []
    requires Advances(status, status[t := status[t].(st := Failed)])
    ensures Books(c, presets, status[t := status[t].(st := Failed)], owner, pids, log)
  {
    hide LogOK, Advances, Began, Earned, Blamed, Seen;
    var status' := status[t := status[t].(st := Failed)];
    LogAdvances(log, status, status');
    assert Explained(c, presets, log, owner, t, status[t]);
    AccountedMoved(c, presets, status, status', owner, owner, pids, pids, log);
  }

  /** A script starts. */
  lemma BooksStarted(c: Config, presets: StatusMap, status: StatusMap, owner: map<Target, int>, pids: map<int, int>, log: seq<Action>,
                     pid: int, id: int, prerequisites: set<Target>)
    requires Books(c, presets, status, owner, pids, log) && AllDone(prerequisites, status)
    ensures Books(c, presets, status, owner, pids[pid := id], log + [ScriptStarted(id, prerequisites, status)])
    ensures AnyFailed(log + [ScriptStarted(id, prerequisites, status)]) <==> AnyFailed(log)
  {
    hide LogOK, Advances, Earned, Blamed, Seen, AllDone, AnyFailed, Explained;
    var a := ScriptStarted(id, prerequisites, status);
    BooksAppended(c, presets, status, owner, pids, log, a);
    assert (log + [a])[|log|] == a;
  }

  /** A job ends, for a reason that is written down. */
  lemma BooksEnded(c: Config, presets: StatusMap, s: State, s': State, id: int, pids': map<int, int>, log: seq<Action>, a: Action)
    requires Books(c, presets, s.status, s.owner, s.pids, log) && SafeAction(a) && a.at == s.status
    requires a.ScriptEnded? ==> Began(log, a.jobId)
    requires TargetsActive(s.jobs, s.owner, s.status) && Ended(s, s', id) && Advances(s.status, s'.status)
    requires forall t :: t in s.jobs[id].targets ==>
               (Done(s'.status[t].st) ==> Earns(a, id, t)) && (s'.status[t].st.Failed? ==> Blames(a, id))
    requires forall p :: p in pids' ==> p in s.pids && pids'[p] == s.pids[p]
    ensures Books(c, presets, s'.status, s.owner, pids', log + [a])
    ensures AnyFailed(log + [a]) <==> AnyFailed(log) || FailedReply(a)
  {
    hide LogOK, SafeAction, Advances, Began, Seen, AnyFailed, FailedReply, Earns, Blames;
    BooksAppended(c, presets, s.status, s.owner, s.pids, log, a);
    LogAdvances(log + [a], s.status, s'.status);
    assert (log + [a])[|log|] == a;
    forall t | t in s.jobs[id].targets
      ensures Explained(c, presets, log + [a], s.owner, t, s'.status[t])
    {
    }
    hide Earned, Blamed;
    AccountedMoved(c, presets, s.status, s'.status, s.owner, s.owner, s.pids, pids', log + [a]);
  }

  /** What launching the script of a job writes down. */
  ghost function LaunchAction(s: State, id: int, outcome: Launch): Action
    requires id in s.jobs
  {
    match outcome
    case ShellStarted => ScriptStarted(id, Prerequisites(s.jobs[id]), s.status)
    case NothingToRun => NothingToDo(id, s.jobs[id], s.status)
    case LaunchFailed => NotSpawned(id, s.status)
  }

  lemma BooksLaunched(c: Config, presets: StatusMap, s: State, s': State, id: int, outcome: Launch, log: seq<Action>)
    requires Books(c, presets, s.status, s.owner, s.pids, log) && TargetsActive(s.jobs, s.owner, s.status)
    requires Launched(c, s, s', id, outcome) && Advances(s.status, s'.status)
    requires AllDone(Prerequisites(s.jobs[id]), s.status) && (outcome.NothingToRun? ==> MayBeBlank(s.jobs[id].script))
    ensures Books(c, presets, s'.status, s'.owner, s'.pids, log + [LaunchAction(s, id, outcome)])
    ensures AnyFailed(log + [LaunchAction(s, id, outcome)]) <==> AnyFailed(log)
  {
    hide Books, TargetsActive, Advances, AllDone, Prerequisites, MayBeBlank, Completed, Sharing, AnyFailed;
    var s1 := Recorded(s, s.jobs[id]);
    match outcome
    case ShellStarted =>
      var pid :| pid !in s.pids && s' == s1.(pids := s.pids[pid := id]);
      BooksStarted(c, presets, s.status, s.owner, s.pids, log, pid, id, Prerequisites(s.jobs[id]));
    case NothingToRun =>
      CompletedEnds(c, s1, s', id, true);
      BooksEnded(c, presets, s1, s', id, s'.pids, log, LaunchAction(s, id, outcome));
    case LaunchFailed =>
      CompletedEnds(c, s1, s', id, false);
      BooksEnded(c, presets, s1, s', id, s'.pids, log, LaunchAction(s, id, outcome));
  }

  // ---------------------------------------------------------------- what the books say

  /** A target that is done was found so by a lookup, which without cycles saw all its dependencies unchanged, or the last job
      made for it did its work: its script ended well after it had started, was empty, or was spared by a recheck. */
  lemma DoneForAReason(c: Config, presets: StatusMap, status: StatusMap, owner: map<Target, int>, pids: map<int, int>, log: seq<Action>, t: Target)
    requires Books(c, presets, status, owner, pids, log) && t in status && t !in presets && Done(status[t].st)
    ensures t in owner ==> exists k :: 0 <= k < |log| && SafeAction(log[k]) && Earns(log[k], owner[t], t)
                                       && (log[k].ScriptEnded? ==> Began(log[..k], owner[t]))
    ensures t !in owner ==> exists k :: 0 <= k < |log| && log[k].LookedUp? && t !in log[k].before
                                        && forall rank :: Ranked(log[k].db, rank) ==> Verdict(log[k].db, rank, log[k].before, t) == status[t]
  {
    hide Advances, Began, Verdict, Ranked, Prerequisites, MayBeBlank, AllDone;
    assert Explained(c, presets, log, owner, t, status[t]);
    if t in owner {
      var k :| 0 <= k < |log| && Earns(log[k], owner[t], t);
      assert SafeAction(log[k]);
    } else {
      var k :| 0 <= k < |log| && log[k].LookedUp? && t !in log[k].before && t in log[k].at && log[k].at[t] == status[t];
      assert SafeAction(log[k]);
    }
  }

  /** A target that has failed has no rule, or the last job made for it failed: its script did, or could not be run, or one of
      its prerequisites failed, or these were waited for in a circle. */
  lemma FailedForAReason(c: Config, presets: StatusMap, status: StatusMap, owner: map<Target, int>, pids: map<int, int>, log: seq<Action>, t: Target)
    requires Books(c, presets, status, owner, pids, log) && t in status && t !in presets && status[t].st.Failed?
    ensures t !in owner ==> t in c.rules && c.rules[t].targets == []
    ensures t in owner ==> exists k :: 0 <= k < |log| && SafeAction(log[k]) && Blames(log[k], owner[t])
  {
    hide Advances, Began, Unmet, Ranked;
    assert Explained(c, presets, log, owner, t, status[t]);
    if t in owner {
      var k :| 0 <= k < |log| && Blames(log[k], owner[t]);
      assert SafeAction(log[k]);
    } else if k :| 0 <= k < |log| && log[k].LookedUp? && t !in log[k].before && t in log[k].at && log[k].at[t] == status[t] {
      assert SafeAction(log[k]);
    }
  }
}
