/** The build server: an event loop over clients, jobs and the statuses of targets. */
module RemakeServer {
  import opened Prelude
  import opened RemakeRules
  import opened RemakeState
  import opened RemakeStatus
  import opened RemakeLookup
  import opened RemakeLog

  /** Targets that are being built still are. */
  ghost predicate StaysActive(a: StatusMap, b: StatusMap) {
    forall t :: t in a && Active(a[t].st) ==> t in b && Active(b[t].st)
  }

  ghost predicate OnlyThese(a: StatusMap, b: StatusMap, targets: seq<Target>) {
    forall t :: t in a && t !in targets ==> t in b && b[t] == a[t]
  }

  ghost predicate NoneActive(status: StatusMap, targets: seq<Target>) {
    forall t :: t in targets && t in status ==> !Active(status[t].st)
  }

  lemma OthersStay(a: StatusMap, b: StatusMap, d: StatusMap, targets: seq<Target>)
    requires OnlyThese(a, b, targets) && (d == b || OnlyThese(b, d, targets))
    requires NoneActive(a, targets)
    ensures StaysActive(a, d)
  {
  }

  lemma StaysActiveTransitive(a: StatusMap, b: StatusMap, d: StatusMap)
    requires StaysActive(a, b) && StaysActive(b, d)
    ensures StaysActive(a, d)
  {
  }

  lemma InvTargets(c: Config, s: State, hole: set<int>)
    requires Inv(c, s, hole)
    ensures TargetsActive(s.jobs, s.owner, s.status)
  {
    hide GroupsOK, DbOK, PhasesOK, DriversOK, ClientsOK, RechecksOK;
  }

  lemma LaunchedOnly(c: Config, s: State, s': State, id: int, outcome: Launch)
    requires Launched(c, s, s', id, outcome)
    ensures OnlyThese(s.status, s'.status, s.jobs[id].targets)
  {
    hide Completed, Sharing;
    var s1 := Recorded(s, s.jobs[id]);
    match outcome
    case ShellStarted =>
    case NothingToRun => CompletedEnds(c, s1, s', id, true);
    case LaunchFailed => CompletedEnds(c, s1, s', id, false);
  }

  /** Siblings of a target that may be started are not being built. */
  lemma StartedOnly(c: Config, s: State, t: Target, st: BuildStatus)
    requires Inv(c, s) && StartOf(c, s, t, st)
    ensures OnlyThese(s.status, Started(c, s, t, st).status, c.rules[t].targets) && NoneActive(s.status, c.rules[t].targets)
  {
    hide GroupsOK, DbOK, JobsOK, DriversOK, ClientsOK, RechecksOK;
    forall u | u in c.rules[t].targets && u in s.status ensures !Active(s.status[u].st) {
      assert SiblingsOK(s.status, s.deps, s.files, t, u);
    }
  }

  // What becomes of the requests of the server itself.

  ghost predicate Own(client: Client) { !client.socket && !client.delayed && client.jobId < 0 }

  ghost predicate Owing(clients: seq<Client>, asked: seq<set<Target>>, t: Target) {
    exists i :: 0 <= i < |clients| && i < |asked| && Own(clients[i]) && t in asked[i]
  }

  /** Whatever is owed is done or still asked for, unless a failure was reported; and clients have failed for a reason. */
  ghost predicate Promised(owed: set<Target>, failure: bool, clients: seq<Client>, asked: seq<set<Target>>, status: StatusMap) {
    && (!failure ==> forall t :: t in owed ==> Owing(clients, asked, t) || (t in status && Done(status[t].st)))
    && forall i :: 0 <= i < |clients| && i < |asked| && clients[i].failed ==> Broke(asked[i], status)
  }

  /** What the server itself asks for. */
  ghost function OwnAsked(clients: seq<Client>, asked: seq<set<Target>>): set<Target> {
    set i, t | 0 <= i < |clients| && i < |asked| && Own(clients[i]) && t in asked[i] :: t
  }

  lemma PromiseBegins(owed: set<Target>, failure: bool, clients: seq<Client>, asked: seq<set<Target>>, status: StatusMap)
    requires Promised(owed, failure, clients, asked, status)
    ensures Promised(OwnAsked(clients, asked), failure, clients, asked, status)
  {
  }

  lemma PromiseAdvances(owed: set<Target>, failure: bool, clients: seq<Client>, asked: seq<set<Target>>, a: StatusMap, b: StatusMap)
    requires Promised(owed, failure, clients, asked, a) && Advances(a, b)
    ensures Promised(owed, failure, clients, asked, b)
  {
    forall targets | Broke(targets, a) ensures Broke(targets, b) {
      var t :| t in targets && t in a && a[t].st.Failed?;
      assert t in b && b[t].st.Failed?;
    }
    hide Owing, Broke;
  }

  lemma PromiseInserted(owed: set<Target>, failure: bool, clients: seq<Client>, asked: seq<set<Target>>, status: StatusMap,
                        i: nat, x: Client, names: set<Target>)
    requires Promised(owed, failure, clients, asked, status) && i <= |clients| == |asked| && !x.failed
    ensures Promised(owed, failure, Inserted(clients, i, x), Inserted(asked, i, names), status)
  {
    forall t | Owing(clients, asked, t)
      ensures Owing(Inserted(clients, i, x), Inserted(asked, i, names), t)
    {
      var k :| 0 <= k < |clients| && Own(clients[k]) && t in asked[k];
      var k' := if k < i then k else k + 1;
      assert Inserted(clients, i, x)[k'] == clients[k] && Inserted(asked, i, names)[k'] == asked[k];
    }
    hide Owing, Broke;
  }

  /** A request that is answered with success is done. */
  lemma PromiseWithout(owed: set<Target>, failure: bool, failure': bool, clients: seq<Client>, asked: seq<set<Target>>,
                       status: StatusMap, i: nat)
    requires Promised(owed, failure, clients, asked, status) && i < |clients| == |asked| && (failure ==> failure')
    requires Own(clients[i]) ==> failure' || AllDone(asked[i], status)
    ensures Promised(owed, failure', Without(clients, i), Without(asked, i), status)
  {
    forall t | Owing(clients, asked, t)
      ensures Owing(Without(clients, i), Without(asked, i), t) || (Own(clients[i]) && t in asked[i])
    {
      var k :| 0 <= k < |clients| && Own(clients[k]) && t in asked[k];
      if k != i {
        var k' := if k < i then k else k - 1;
        assert Without(clients, i)[k'] == clients[k] && Without(asked, i)[k'] == asked[k];
      }
    }
    hide Owing, Broke;
  }

  lemma DoneStays(targets: set<Target>, a: StatusMap, b: StatusMap)
    requires AllDone(targets, a) && Advances(a, b)
    ensures AllDone(targets, b)
  {
  }

  /** A request that is answered is done, or its failure is recorded. */
  lemma PromiseKept(owed: set<Target>, failure: bool, failure': bool, clients: seq<Client>, asked: seq<set<Target>>,
                    a: StatusMap, b: StatusMap, i: nat, success: bool)
    requires Promised(owed, failure, clients, asked, a) && i < |clients| == |asked| && Advances(a, b)
    requires (success ==> AllDone(asked[i], a)) && (failure' <==> failure || (clients[i].jobId < 0 && !success))
    ensures Promised(owed, failure', Without(clients, i), Without(asked, i), b)
  {
    hide Advances, Promised, Without, AllDone;
    PromiseAdvances(owed, failure, clients, asked, a, b);
    if success { DoneStays(asked[i], a, b); }
    PromiseWithout(owed, failure, failure', clients, asked, b, i);
  }

  lemma PromiseChanged(owed: set<Target>, failure: bool, clients: seq<Client>, asked: seq<set<Target>>, status: StatusMap, i: nat, x: Client)
    requires Promised(owed, failure, clients, asked, status) && i < |clients| && Own(x) == Own(clients[i])
    requires x.failed && i < |asked| ==> clients[i].failed || Broke(asked[i], status)
    ensures Promised(owed, failure, clients[i := x], asked, status)
  {
    forall t | Owing(clients, asked, t)
      ensures Owing(clients[i := x], asked, t)
    {
      var k :| 0 <= k < |clients| && k < |asked| && Own(clients[k]) && t in asked[k];
      assert Own(clients[i := x][k]);
    }
    hide Owing, Broke;
  }

  lemma OwnRequest(x: Client, names: set<Target>)
    requires Own(x)
    ensures OwnAsked([x], [names]) == names
  {
    assert [x][0] == x && [names][0] == names;
  }

  /** Once no client is left, what is owed is done or was reported as a failure. */
  lemma PromiseEnds(owed: set<Target>, failure: bool, asked: seq<set<Target>>, status: StatusMap)
    requires Promised(owed, failure, [], asked, status)
    ensures failure || AllDone(owed, status)
  {
  }

  lemma AdvancesSelf(status: StatusMap)
    ensures Advances(status, status) && StaysActive(status, status)
  {
  }

  lemma RuleOf(c: Config, t: Target)
    requires RulesOK(c) && t in c.rules
    ensures c.rules[t] == RuleFor(c.specific, c.generic, t)
  {
  }

  /** No job is lost or changed. */
  ghost predicate OneMoreJob(jobs: map<int, Rule>, jobs': map<int, Rule>) {
    forall j :: j in jobs ==> j in jobs' && jobs'[j] == jobs[j]
  }

  lemma JobMade(jobs: map<int, Rule>, id: int, rule: Rule)
    requires id !in jobs
    ensures OneMoreJob(jobs, jobs[id := rule]) && OneMoreJob(jobs, jobs[id := rule] - {id})
  {
  }

  ghost function DependencyClient(id: int, rule: Rule): Client {
    Client(false, id, false, rule.deps + rule.wdeps, {}, true)
  }

  lemma DependencyClientOK(c: Config, id: int, rule: Rule, status: StatusMap)
    requires Prerequisites(rule) <= c.rules.Keys
    ensures ClientOK(c, DependencyClient(id, rule), Prerequisites(rule), status)
  {
    assert Elems(rule.deps + rule.wdeps) == Prerequisites(rule);
  }

  lemma NothingToWaitFor(status: StatusMap)
    ensures AllDone({}, status)
  {
  }

  lemma FreshJob(c: Config, s: State, t: Target)
    requires Inv(c, s) && t in c.rules
    ensures s.counter !in s.jobs && (c.rules[t].targets != [] ==> t in c.rules[t].targets)
  {
  }

  lemma JobPrerequisites(c: Config, s: State, id: int, hole: set<int>)
    requires Inv(c, s, hole) && id in s.jobs
    ensures Prerequisites(s.jobs[id]) <= c.rules.Keys && |s.asked| == |s.clients|
  {
    assert JobRuleOK(c, s.jobs[id]);
  }

  lemma StartedMarks(c: Config, s: State, t: Target, st: BuildStatus)
    requires t in c.rules
    ensures forall x :: x in c.rules[t].targets ==>
              x in Started(c, s, t, st).status && Started(c, s, t, st).status[x].st == st
  {
  }

  /** A dependency client serves a live job that nothing else drives. */
  lemma DelayedJob(c: Config, s: State, i: nat)
    requires Inv(c, s) && i < |s.clients| && s.clients[i].delayed
    ensures |s.asked| == |s.clients| && !s.clients[i].socket
    ensures var id := s.clients[i].jobId;
            && 0 <= id && id in s.jobs && s.jobs[id].targets != [] && !Delayed(Without(s.clients, i), id)
            && (forall t :: t in s.jobs[id].targets ==>
                  t in s.status && Active(s.status[t].st)
                  && (s.status[t].st.RunningRecheck? ==> Recheckable(s.status, s.deps, s.recs, t)))
  {
    var id := s.clients[i].jobId;
    hide GroupsOK, DbOK, PhasesOK;
    assert ClientOK(c, s.clients[i], s.asked[i], s.status);
    hide ClientOK, ClientsOK;
    DelayedDriver(s.jobs, s.pids, s.clients, s.deps, i);
    hide DriversOK;
    TargetsOf(c, s, id);
    hide TargetsActive, ActiveOwned, JobRuleOK, Recheckable;
  }

  lemma DelayedDriver(jobs: map<int, Rule>, pids: map<int, int>, clients: seq<Client>, deps: map<Target, nat>, i: nat)
    requires DriversOK(jobs, pids, clients, deps, {}) && i < |clients| && clients[i].delayed
    ensures var id := clients[i].jobId;
            id in jobs && jobs[id].targets != [] && !HasShell(pids, id) && !Delayed(Without(clients, i), id)
  {
    var id := clients[i].jobId;
    assert clients[i] in clients;
    assert Delayed(clients, id);
    assert Drivable(jobs, id);
    WithoutKeepsDelayed(jobs, clients, i);
  }

  /** Once the job of a dependency client has ended, the client can go. */
  lemma EndedClient(c: Config, s: State, s': State, i: nat)
    requires Inv(c, s) && i < |s.clients| && |s.asked| == |s.clients| && s.clients[i].delayed && Ended(s, s', s.clients[i].jobId)
    ensures Inv(c, WithoutClient(s', i)) && Advances(s.status, s'.status)
  {
    var id := s.clients[i].jobId;
    hide Inv;
    WithoutClientKeepsInv(c, s, i, {});
    assert {} + Hole(s.clients[i]) == {id} && {id} - {id} == {};
    EndedKeepsInv(c, WithoutClient(s, i), WithoutClient(s', i), id, {id});
  }

  lemma WithoutClientInv(c: Config, s: State, i: nat)
    requires Inv(c, s) && i < |s.clients| && !s.clients[i].delayed
    ensures |s.asked| == |s.clients| && Inv(c, WithoutClient(s, i))
  {
    WithoutClientKeepsInv(c, s, i, {});
    hide Inv;
    assert {} + Hole(s.clients[i]) == {};
  }

  /** The job of a dependency client that is given up ends with a failure. */
  lemma AbandonedWell(c: Config, presets: StatusMap, s: State, s': State, i: nat, idle: bool, log: seq<Action>)
    requires Inv(c, s) && i < |s.clients| == |s.asked| && s.clients[i].delayed && Unmet(s.asked[i], idle, s.status)
    requires Books(c, presets, s.status, s.owner, s.pids, log) && Completed(c, s, s', s.clients[i].jobId, false)
    ensures s' == s.(status := s'.status, files := s'.files, jobs := s.jobs - {s.clients[i].jobId})
    ensures Inv(c, WithoutClient(s', i)) && Advances(s.status, s'.status)
    ensures var a := Abandoned(s.clients[i].jobId, s.asked[i], idle, s.status);
      Books(c, presets, s'.status, s.owner, s.pids, log + [a]) && (AnyFailed(log + [a]) <==> AnyFailed(log))
  {
    hide Inv, Books, TargetsActive, Advances, WithoutClient, Completed, Unmet, Truthful, AllDone, MayBeBlank, Began, AnyFailed, Done;
    var id := s.clients[i].jobId;
    InvTargets(c, s, {});
    CompletedEnds(c, s, s', id, false);
    DoneIsNotFailed();
    EndedClient(c, s, s', i);
    BooksEnded(c, presets, s, s', id, s.pids, log, Abandoned(id, s.asked[i], idle, s.status));
  }

  lemma LaunchedView(c: Config, s: State, s': State, i: nat, outcome: Launch)
    requires i < |s.clients| && |s.asked| == |s.clients| && Launched(c, s, s', s.clients[i].jobId, outcome)
    ensures s'.clients == s.clients && s'.asked == s.asked
    ensures Launched(c, WithoutClient(s, i), WithoutClient(s', i), s.clients[i].jobId, outcome)
  {
    hide Settle, Sharing, Without;
  }

  /** Once the script of the job is launched, its dependency client can go. */
  lemma LaunchedClient(c: Config, s: State, s': State, i: nat, outcome: Launch)
    requires Inv(c, s) && i < |s.clients| && |s.asked| == |s.clients| && s.clients[i].delayed
    requires Launched(c, s, s', s.clients[i].jobId, outcome)
    ensures Inv(c, WithoutClient(s', i)) && Advances(s.status, s'.status)
    ensures s'.jobs == s.jobs || s'.jobs == s.jobs - {s.clients[i].jobId}
  {
    var id := s.clients[i].jobId;
    LaunchedView(c, s, s', i, outcome);
    hide Inv, Launched;
    WithoutClientKeepsInv(c, s, i, {});
    assert {} + Hole(s.clients[i]) == {id} && {id} - {id} == {};
    LaunchedKeepsInv(c, WithoutClient(s, i), WithoutClient(s', i), id, outcome, {id});
  }

  lemma LaunchedShell(c: Config, s: State, s': State, id: int)
    requires Launched(c, s, s', id, ShellStarted)
    ensures s'.jobs == s.jobs && HasShell(s'.pids, id)
  {
    var pid :| pid !in s.pids && s' == Recorded(s, s.jobs[id]).(pids := s.pids[pid := id]);
    assert s'.pids[pid] == id;
  }

  /** A rule without prerequisites has both lists empty. */
  lemma NoPrerequisites(rule: Rule)
    ensures Prerequisites(rule) == {} <==> rule.deps == [] && rule.wdeps == []
  {
    if rule.deps != [] { assert rule.deps[0] in Prerequisites(rule); }
    if rule.wdeps != [] { assert rule.wdeps[0] in Prerequisites(rule); }
  }

  lemma MarkedKeeps(status: StatusMap, targets: seq<Target>, st: BuildStatus)
    ensures forall t :: t in status ==> t in Marked(status, targets, st)
  {
  }

  /** A job whose recheck finds nothing to do ends like a successful one. */
  lemma SparedEnds(c: Config, s: State, i: nat, spared: StatusMap, s': State)
    requires Inv(c, s) && i < |s.clients| && |s.asked| == |s.clients| && s.clients[i].jobId in s.jobs
    requires var id := s.clients[i].jobId;
             var targets := s.jobs[id].targets;
             && targets != [] && targets[0] in s.deps && s.deps[targets[0]] < |s.recs|
             && spared == Marked(s.status, s.recs[s.deps[targets[0]]].targets, Uptodate)
             && Completed(c, s.(status := spared), s', id, true)
    ensures Ended(s, s', s.clients[i].jobId)
  {
    var id := s.clients[i].jobId;
    JobRecord(c, s, id);
    TargetsOf(c, s, id);
    hide Inv, Settle, JobsOK, Marked, Ended, JobRuleOK;
    CompletedEnds(c, s.(status := spared), s', id, true);
    hide Completed;
    MarkedEnds(s, s.recs[s.deps[s.jobs[id].targets[0]]].targets, spared, s', id);
  }

  lemma DoneIsNotFailed()
    ensures forall st :: Done(st) ==> !st.Failed?
  {
  }

  lemma BooksSpared(c: Config, presets: StatusMap, s: State, i: nat, spared: StatusMap, s': State, log: seq<Action>)
    requires Inv(c, s) && i < |s.clients| && |s.asked| == |s.clients| && s.clients[i].jobId in s.jobs
    requires Books(c, presets, s.status, s.owner, s.pids, log) && Advances(s.status, s'.status)
    requires var id := s.clients[i].jobId;
             var targets := s.jobs[id].targets;
             && targets != [] && targets[0] in s.deps && s.deps[targets[0]] < |s.recs|
             && (forall d :: d in s.recs[s.deps[targets[0]]].deps ==> d in s.status && s.status[d].st.Uptodate?)
             && Completed(c, s.(status := spared), s', id, true) && Ended(s, s', id)
    ensures var id := s.clients[i].jobId;
            var a := Spared(id, s.recs[s.deps[s.jobs[id].targets[0]]], s.status);
            Books(c, presets, s'.status, s.owner, s.pids, log + [a]) && (AnyFailed(log + [a]) <==> AnyFailed(log))
  {
    hide Inv, Completed, Ended, JobsOK, TargetsActive, Books, Advances, AnyFailed, Truthful, Unmet, AllDone, Began, Blames, Done;
    var id := s.clients[i].jobId;
    JobRecord(c, s, id);
    InvTargets(c, s, {});
    CompletedEnds(c, s.(status := spared), s', id, true);
    DoneIsNotFailed();
    BooksEnded(c, presets, s, s', id, s.pids, log, Spared(id, s.recs[s.deps[s.jobs[id].targets[0]]], s.status));
  }

  lemma MarkedEnds(s: State, group: seq<Target>, spared: StatusMap, s': State, id: int)
    requires spared == Marked(s.status, group, Uptodate) && Ended(s.(status := spared), s', id)
    requires forall t :: t in s.jobs[id].targets <==> t in group
    requires forall t :: t in s.jobs[id].targets ==> t in s.status
    ensures Ended(s, s', id)
  {
    assert spared.Keys == s.status.Keys;
  }

  /** The record of a live job groups exactly its targets. */
  lemma JobRecord(c: Config, s: State, id: int)
    requires Inv(c, s) && id in s.jobs && s.jobs[id].targets != []
    requires s.jobs[id].targets[0] in s.deps
    ensures JobsOK(c, s.jobs, s.counter, s.owner, s.status)
    ensures var targets := s.jobs[id].targets;
            s.deps[targets[0]] < |s.recs|
            && forall t :: t in targets <==> t in s.recs[s.deps[targets[0]]].targets
  {
    var front := s.jobs[id].targets[0];
    assert JobRuleOK(c, s.jobs[id]);
    assert front in c.rules && Elems(c.rules[front].targets) == Elems(s.jobs[id].targets);
    assert c.rules[front].targets != [] by { assert front in Elems(c.rules[front].targets); }
    assert RecordOK(c, front, s.recs[s.deps[front]]);
    assert Elems(s.recs[s.deps[front]].targets) == Elems(s.jobs[id].targets);
    hide GroupsOK, DbOK, PhasesOK, JobsOK, DriversOK, ClientsOK, RechecksOK;
  }

  /** What a client is known to have requested while `target`, popped from its list, is not filed anywhere. */
  ghost function Limbo(client: Client, full: set<Target>, target: Target): set<Target> {
    if target in client.pending || target in client.running then full else full - {target}
  }

  lemma PoppedOK(c: Config, client: Client, full: set<Target>, status: StatusMap)
    requires ClientOK(c, client, full, status) && client.pending != []
    ensures client.pending[0] in full && client.pending[0] in c.rules
    ensures var x := client.(pending := client.pending[1..]);
            ClientOK(c, x, Limbo(x, full, client.pending[0]), status)
  {
    var target, rest := client.pending[0], client.pending[1..];
    assert client.pending == [target] + rest;
    assert target in Elems(client.pending);
    assert forall t :: t in client.pending <==> t == target || t in rest;
    assert Elems(rest) <= Elems(client.pending);
  }

  /** A popped target is filed again: as running, as a failure, or as done. */
  ghost predicate FiledAs(x: Client, y: Client, target: Target, status: StatusMap) {
    target in status && if Active(status[target].st) then y == x.(running := x.running + {target})
                        else Finished(status[target].st) && y == if status[target].st.Failed? then x.(failed := true) else x
  }

  lemma FiledOK(c: Config, x: Client, y: Client, full: set<Target>, target: Target, status: StatusMap)
    requires ClientOK(c, x, Limbo(x, full, target), status) && target in full && full <= c.rules.Keys
    requires FiledAs(x, y, target, status)
    ensures ClientOK(c, y, full, status)
  {
    forall t | t in full && t !in y.pending && t !in y.running
      ensures t in status && Finished(status[t].st) && (status[t].st.Failed? ==> y.failed)
    {
      if t != target { assert t in Limbo(x, full, target); }
    }
  }

  /** The same dependency clients serve the same jobs and ask for the same targets. */
  lemma AskedMore(jobs: map<int, Rule>, jobs': map<int, Rule>, clients: seq<Client>, clients': seq<Client>, asked: seq<set<Target>>)
    requires AskedOK(jobs, clients, asked) && OneMoreJob(jobs, jobs') && |clients'| == |clients|
    requires forall i :: 0 <= i < |clients| ==> clients'[i].delayed == clients[i].delayed && clients'[i].jobId == clients[i].jobId
    ensures AskedOK(jobs', clients', asked)
  {
    hide Prerequisites;
    forall i | 0 <= i < |clients'| && clients'[i].delayed
      ensures clients'[i].jobId in jobs' && asked[i] == Prerequisites(jobs'[clients'[i].jobId])
    {
      assert clients[i].jobId in jobs;
    }
  }

  /** Removing a finished target from the running ones keeps a client consistent. */
  lemma ReapedOK(c: Config, client: Client, full: set<Target>, status: StatusMap, t: Target)
    requires ClientOK(c, client, full, status) && t in client.running && Finished(status[t].st)
    ensures ClientOK(c, client.(running := client.running - {t}, failed := client.failed || status[t].st.Failed?), full, status)
  {
  }

  /** A client whose running targets outside `todo` were dropped once finished, with their failures remembered. */
  ghost function Reaped(client: Client, status: StatusMap, todo: set<Target>): Client {
    client.(running := (set t | t in client.running && (t in todo || (t in status && Active(status[t].st)))),
            failed := client.failed || exists t :: t in client.running && t !in todo && t in status && status[t].st.Failed?)
  }

  lemma ReapedNext(client: Client, status: StatusMap, todo: set<Target>, t: Target)
    requires t in client.running && t in todo && t in status && (Active(status[t].st) || Finished(status[t].st))
    ensures var x := Reaped(client, status, todo);
      Reaped(client, status, todo - {t})
      == if Active(status[t].st) then x else x.(running := x.running - {t}, failed := x.failed || status[t].st.Failed?)
  {
    var x, y := Reaped(client, status, todo), Reaped(client, status, todo - {t});
    assert y.running == if Active(status[t].st) then x.running else x.running - {t};
    if u :| u in client.running && u !in todo && u in status && status[u].st.Failed? {
      assert u !in todo - {t};
    }
    if u :| u in client.running && u !in todo - {t} && u in status && status[u].st.Failed? {
      assert u == t || u !in todo;
    }
  }

  lemma NothingReaped(client: Client, status: StatusMap)
    ensures Reaped(client, status, client.running) == client
  {
    assert Reaped(client, status, client.running).running == client.running;
  }

  lemma SameLength(c: Config, s: State)
    requires Inv(c, s)
    ensures |s.asked| == |s.clients|
  {
  }

  lemma ClientAt(c: Config, s: State, i: nat)
    requires Inv(c, s) && i < |s.clients|
    ensures |s.asked| == |s.clients| && ClientOK(c, s.clients[i], s.asked[i], s.status)
  {
  }

  /** A target that a client waits for has been started. */
  lemma RunningStatus(c: Config, client: Client, full: set<Target>, status: StatusMap, t: Target)
    requires ClientOK(c, client, full, status) && t in client.running
    ensures t in status && (Active(status[t].st) || Finished(status[t].st))
  {
  }

  lemma RunningAsked(c: Config, client: Client, full: set<Target>, status: StatusMap)
    requires ClientOK(c, client, full, status)
    ensures client.running <= full
  {
  }

  /** A client with nothing pending, nothing running and no failure got all it asked for. */
  lemma NothingLeft(c: Config, client: Client, full: set<Target>, status: StatusMap)
    requires ClientOK(c, client, full, status) && client.pending == [] && client.running == {} && !client.failed
    ensures AllDone(full, status)
  {
  }

  lemma StartedLess(c: Config, a: StatusMap, b: StatusMap, target: Target)
    requires Advances(a, b) && target in c.rules && (target !in a || Startable(a[target].st)) && target in b && !Startable(b[target].st)
    ensures Available(c, b) < Available(c, a)
  {
    AvailableShrinks(c, a, b);
    assert target in Available(c, a) && target !in Available(c, b);
  }

  /** What became of the first pending target of a client. */
  datatype Step = Filed | Shelled | Deferred | Rebuilt | Broken

  /** How far the pending targets of a client got: all handled, cut short by a failure, or by a lack of slots. */
  datatype Pass = Through | Bailed | Full

  lemma InvLookable(c: Config, s: State)
    requires Inv(c, s)
    ensures s.status.Keys <= c.rules.Keys && DbOK(c, s.deps, s.recs) && RecordsTogether(c, s.status, s.deps, s.recs)
  {
  }

  lemma FirstLookup(db: Db, rank: map<Target, nat>, a: StatusMap, b: StatusMap, target: Target)
    requires target in b && (Ranked(db, rank) ==> AddsVerdicts(db, rank, a, a, b)) && (Acyclic(db) ==> Ranked(db, rank))
    ensures a == map[] && Acyclic(db) && !db.obsolete ==>
      && (b[target].st.Uptodate? <==> AllFresh(db, target))
      && (b[target].st.Todo? <==> !Fresh(db, target))
      && (b[target].st.Recheck? <==> Fresh(db, target) && !AllFresh(db, target))
  {
    hide Acyclic;
    if a == map[] && Acyclic(db) && !db.obsolete {
      UptodateMeansFresh(db, rank, target);
      hide Ranked, AllFresh, Fresh, Verdict;
    }
  }

  /** Compared with the recursive definition from what is known, a lookup has nothing to disagree with yet. */
  lemma SelfComparable(db: Db, rank: map<Target, nat>, status: StatusMap, target: Target)
    ensures Ranked(db, rank) ==> Comparable(db, rank, status, status, {target}, Height(db, rank, target))
  {
    hide Ranked, Verdict;
  }

  /** Whatever the rank, a lookup adds the verdicts of the recursive definition. */
  lemma LookedTruthfully(c: Config, s: State, rank: map<Target, nat>, b: StatusMap)
    requires Looked(c, s, b)
    requires var db := DbOf(c, s);
      (Acyclic(db) ==> Ranked(db, rank)) && (Ranked(db, rank) ==> AddsVerdicts(db, rank, s.status, s.status, b))
    ensures Truthful(DbOf(c, s), s.status, b)
  {
    var db := DbOf(c, s);
    hide Found, Ranked, Verdict;
    forall rank' | Ranked(db, rank')
      ensures AddsVerdicts(db, rank', s.status, s.status, b)
    {
      assert Acyclic(db);
      forall t | t in b && t !in s.status ensures b[t] == Verdict(db, rank', s.status, t) {
        SameVerdict(db, rank, rank', s.status, t);
      }
    }
  }

  lemma SomeRank(db: Db) returns (rank: map<Target, nat>)
    ensures Acyclic(db) ==> Ranked(db, rank)
  {
    rank := if r :| Ranked(db, r) then r else map[];
  }

  lemma LookedWell(c: Config, presets: StatusMap, s: State, rank: map<Target, nat>, b: StatusMap, log: seq<Action>)
    requires Inv(c, s) && Books(c, presets, s.status, s.owner, s.pids, log) && Looked(c, s, b)
    requires var db := DbOf(c, s);
      (Acyclic(db) ==> Ranked(db, rank)) && (Ranked(db, rank) ==> AddsVerdicts(db, rank, s.status, s.status, b))
    ensures Inv(c, s.(status := b)) && Advances(s.status, b) && StaysActive(s.status, b)
    ensures forall t :: t in s.status ==> t in b && b[t] == s.status[t]
    ensures var a := LookedUp(DbOf(c, s), s.status, b);
      Books(c, presets, b, s.owner, s.pids, log + [a]) && (AnyFailed(log + [a]) <==> AnyFailed(log))
  {
    hide Inv, Books, Looked, Acyclic, Ranked, AddsVerdicts, Truthful, Advances, StaysActive, AnyFailed;
    LookedTruthfully(c, s, rank, b);
    LookedKeepsInv(c, s, b, {});
    LookedOld(c, s, b);
    BooksLookedUp(c, presets, s.status, b, s.owner, s.pids, log, DbOf(c, s));
  }

  lemma LookedOld(c: Config, s: State, status': StatusMap)
    requires Looked(c, s, status')
    ensures forall t :: t in s.status ==> t in status' && status'[t] == s.status[t]
    ensures StaysActive(s.status, status')
  {
  }

  lemma ClientUniverse(c: Config, client: Client, full: set<Target>, status: StatusMap)
    requires ClientOK(c, client, full, status)
    ensures full <= c.rules.Keys
  {
  }

  /** A dependency client inserted at place `i` moves the client it was made for to place `i + 1`. */
  lemma DeferredAsked(jobs: map<int, Rule>, clients: seq<Client>, clients': seq<Client>, goal: seq<set<Target>>, asked': seq<set<Target>>,
                      i: nat, id: int, target: Target)
    requires AskedOK(jobs, clients, goal) && i < |clients| == |goal| && id in jobs
    requires clients' == Inserted(clients, i, DependencyClient(id, jobs[id]))
    requires asked' == Inserted(goal[i := Limbo(clients[i], goal[i], target)], i, Prerequisites(jobs[id]))
    ensures var goal' := Inserted(goal, i, Prerequisites(jobs[id]));
            && AskedOK(jobs, clients', goal') && |goal'| == |clients'| == |clients| + 1
            && clients'[..i] == clients[..i] && clients'[i + 1] == clients[i] && goal'[i + 1] == goal[i]
            && asked' == goal'[i + 1 := Limbo(clients'[i + 1], goal'[i + 1], target)]
            && RealJobs(clients') == RealJobs(clients)
  {
    hide Prerequisites, Limbo, AskedOK, RealJobs;
    AskedInserted(jobs, clients, goal, i, DependencyClient(id, jobs[id]), Prerequisites(jobs[id]));
    RealJobsInserted(clients, i, DependencyClient(id, jobs[id]));
  }

  /** A client that can neither be served nor answered right now. */
  ghost predicate Waits(client: Client, status: StatusMap) {
    client.pending == [] && !client.failed && client.running != {} && AllActive(client.running, status)
  }

  ghost predicate AllActive(targets: set<Target>, status: StatusMap) {
    forall t :: t in targets ==> t in status && Active(status[t].st)
  }

  lemma WaitsOn(client: Client, a: StatusMap, b: StatusMap)
    requires Waits(client, a) && StaysActive(a, b)
    ensures Waits(client, b)
  {
  }

  ghost predicate Unfailed(clients: seq<Client>) { forall k :: 0 <= k < |clients| ==> !clients[k].failed }

  ghost predicate UnfailedBut(clients: seq<Client>, i: nat) { forall k :: 0 <= k < |clients| && k != i ==> !clients[k].failed }

  lemma UnfailedLess(clients: seq<Client>, i: nat)
    requires Unfailed(clients) && i < |clients|
    ensures Unfailed(Without(clients, i))
  {
  }

  lemma UnfailedWithout(clients: seq<Client>, i: nat)
    requires UnfailedBut(clients, i) && i < |clients|
    ensures Unfailed(Without(clients, i))
  {
  }

  /** What handling a pending target of the client at place `i` does to the clients and their targets: none that is being built
      ends, the client at that place waits for such targets only, and no client has a failure, if none is tolerated and none
      had one, except for the client itself if its request is to be given up. */
  ghost predicate Tended(keepGoing: bool, clients: seq<Client>, status: StatusMap, clients': seq<Client>, status': StatusMap, i: nat, broken: bool) {
    && i < |clients| && i < |clients'| && StaysActive(status, status')
    && (AllActive(clients[i].running, status) ==> AllActive(clients'[i].running, status'))
    && (!keepGoing && Unfailed(clients) ==> UnfailedBut(clients', i) && (!broken ==> Unfailed(clients')))
  }

  lemma TendedNot(keepGoing: bool, clients: seq<Client>, status: StatusMap, i: nat)
    requires i < |clients|
    ensures Tended(keepGoing, clients, status, clients, status, i, false)
  {
  }

  lemma TendedTwice(keepGoing: bool, clients: seq<Client>, a: StatusMap, clients': seq<Client>, b: StatusMap, clients'': seq<Client>, d: StatusMap,
                    i: nat, broken: bool)
    requires Tended(keepGoing, clients, a, clients', b, i, false) && Tended(keepGoing, clients', b, clients'', d, i, broken)
    ensures Tended(keepGoing, clients, a, clients'', d, i, broken)
  {
    StaysActiveTransitive(a, b, d);
    hide StaysActive, AllActive, Unfailed, UnfailedBut;
  }

  lemma TendedMeans(keepGoing: bool, clients: seq<Client>, status: StatusMap, clients': seq<Client>, status': StatusMap, i: nat, broken: bool)
    requires Tended(keepGoing, clients, status, clients', status', i, broken)
    ensures StaysActive(status, status') && i < |clients| && i < |clients'|
    ensures AllActive(clients[i].running, status) ==> AllActive(clients'[i].running, status')
    ensures !keepGoing && Unfailed(clients) ==> UnfailedBut(clients', i) && (!broken ==> Unfailed(clients'))
  {
  }

  /** What dropping the finished targets of the client at place `i` leaves. */
  lemma ReapedActive(clients: seq<Client>, status: StatusMap, i: nat, clients': seq<Client>, keepGoing: bool, bail: bool)
    requires i < |clients| == |clients'| && clients' == clients[i := clients'[i]]
    requires !bail ==> clients'[i] == Reaped(clients[i], status, {})
    requires bail <==> !keepGoing && Broke(clients[i].running, status)
    ensures !bail ==> AllActive(clients'[i].running, status)
    ensures !keepGoing && Unfailed(clients) ==> UnfailedBut(clients', i) && (!bail ==> Unfailed(clients'))
  {
  }

  lemma TendedPopped(keepGoing: bool, clients: seq<Client>, a: StatusMap, b: StatusMap, i: nat, x: Client)
    requires i < |clients| && x.failed == clients[i].failed && x.running == clients[i].running && StaysActive(a, b)
    ensures Tended(keepGoing, clients, a, clients[i := x], b, i, false)
  {
  }

  lemma TendedFiled(keepGoing: bool, clients: seq<Client>, a: StatusMap, b: StatusMap, i: nat, y: Client, target: Target)
    requires i < |clients| && FiledAs(clients[i], y, target, b) && StaysActive(a, b)
    ensures Tended(keepGoing, clients, a, clients[i := y], b, i, b[target].st.Failed? && !keepGoing)
  {
  }

  lemma TendedDeferred(keepGoing: bool, clients: seq<Client>, a: StatusMap, b: StatusMap, i: nat, id: int, rule: Rule, y: Client, target: Target)
    requires i < |clients| && FiledAs(clients[i], y, target, b) && Active(b[target].st) && StaysActive(a, b)
    ensures Tended(keepGoing, clients, a, Inserted(clients, i, DependencyClient(id, rule))[i + 1 := y], b, i, false)
  {
    var clients' := Inserted(clients, i, DependencyClient(id, rule))[i + 1 := y];
    assert forall k :: 0 <= k < |clients'| ==>
      clients'[k] == if k < i then clients[k] else if k == i then DependencyClient(id, rule) else if k == i + 1 then y else clients[k - 1];
  }

  /** A client with nothing left to start, nothing to report and something to wait for. */
  ghost predicate Served(client: Client) { client.pending == [] && !client.failed && client.running != {} }

  lemma NoClients(clients: seq<Client>)
    ensures clients == [] ==> |RealJobs(clients)| == 0
  {
  }

  lemma HonestStays(clients: seq<Client>, pids: map<int, int>, clients': seq<Client>, pids': map<int, int>)
    requires RealJobs(clients') <= RealJobs(clients) && forall p :: p in pids ==> p in pids' && pids'[p] == pids[p]
    ensures Honest(clients, pids) ==> Honest(clients', pids') && |RealJobs(clients')| <= |pids'|
  {
    if Honest(clients, pids) {
      forall j | j in RealJobs(clients') ensures RealJobs(clients')[j] == 1 && HasShell(pids', j) {
        assert j in RealJobs(clients);
        var p :| p in pids && pids[p] == j;
        assert pids'[p] == j;
      }
      HonestCount(RealJobs(clients'), pids');
    }
  }

  /** No client that came from the job is waiting. */
  predicate NoneOf(clients: seq<Client>, jobId: int) {
    forall i | 0 <= i < |clients| :: clients[i].socket ==> clients[i].jobId != jobId
  }

  lemma {:induction false} RealJobsOf(clients: seq<Client>, jobId: int)
    requires NoneOf(clients, jobId)
    ensures jobId !in RealJobs(clients)
  {
    if clients != [] { RealJobsOf(clients[..|clients| - 1], jobId); }
  }

  /** A script that waits for no answer may ask. */
  lemma HonestAsks(clients: seq<Client>, pids: map<int, int>, x: Client)
    requires Honest(clients, pids) && x.socket && HasShell(pids, x.jobId) && NoneOf(clients, x.jobId)
    ensures Honest([x] + clients, pids)
  {
    RealJobsOf(clients, x.jobId);
    RealJobsConcat([x], clients);
    RealJobsOne(x);
    hide HasShell, RealJobs;
  }

  /** A script that waits for no answer may exit. */
  lemma HonestExits(c: Config, s: State, pid: int)
    requires Inv(c, s) && pid in s.pids && Honest(s.clients, s.pids) && NoneOf(s.clients, s.pids[pid])
    ensures Honest(s.clients, s.pids - {pid})
  {
    RealJobsOf(s.clients, s.pids[pid]);
    ShellEndedKeepsDrivers(s.jobs, s.pids, s.clients, s.deps, pid);
    ShellRemoved(s.jobs, s.pids, s.deps, pid);
    hide Inv, HasShell, RealJobs;
  }

  lemma ShellsStay(pids: map<int, int>, pids': map<int, int>)
    requires forall p :: p in pids ==> p in pids'
    ensures |pids| > 0 ==> |pids'| > 0
  {
    if forall p :: p !in pids {
      assert pids == map[];
    } else {
      var p :| p in pids;
      assert p in pids';
    }
  }

  lemma SocketIsReal(c: Config, client: Client, full: set<Target>, status: StatusMap)
    requires ClientOK(c, client, full, status)
    ensures !(client.socket && client.delayed)
  {
  }

  /** One record of a request: a target, a variable, a word of its value, or anything else. */
  datatype Chunk = Asks(name: Target) | Variable(name: string) | Word(value: string) | Unknown

  /** The targets read from a request before it ends or turns out to be ill-formed, and whether it was well-formed. */
  function Names(chunks: seq<Chunk>, variable: bool): (seq<Target>, bool) {
    if chunks == [] then ([], true)
    else
      match chunks[0]
      case Asks(name) =>
        if name == "" then ([], false) else var rest := Names(chunks[1..], variable); ([name] + rest.0, rest.1)
      case Variable(name) => if name == "" then ([], false) else Names(chunks[1..], true)
      case Word(_) => if variable then Names(chunks[1..], variable) else ([], false)
      case Unknown => ([], false)
  }

  /** A record that may stand at place `k` of a request: a word only behind a variable. */
  predicate WellPlaced(chunks: seq<Chunk>, variable: bool, k: nat)
    requires k < |chunks|
  {
    match chunks[k]
    case Asks(name) => name != ""
    case Variable(name) => name != ""
    case Word(_) => variable || exists j :: 0 <= j < k && chunks[j].Variable?
    case Unknown => false
  }

  /** The targets asked for in the first `n` records. */
  ghost function AskedIn(chunks: seq<Chunk>, n: nat): seq<Target>
    requires n <= |chunks|
  {
    if n == 0 then [] else AskedIn(chunks, n - 1) + if chunks[n - 1].Asks? then [chunks[n - 1].name] else []
  }

  /** A request is read up to the first record that is out of place; it is well-formed when there is none. */
  lemma NamesAreAsked(chunks: seq<Chunk>) returns (n: nat)
    ensures n <= |chunks| && Names(chunks, false).0 == AskedIn(chunks, n)
    ensures forall k :: 0 <= k < n ==> WellPlaced(chunks, false, k)
    ensures if Names(chunks, false).1 then n == |chunks| else n < |chunks| && !WellPlaced(chunks, false, n)
  {
    hide Names, WellPlaced, AskedIn;
    var variable := false;
    n := 0;
    AskedFirst(chunks);
    while n < |chunks|
      invariant n <= |chunks| && (variable <==> exists j :: 0 <= j < n && chunks[j].Variable?)
      invariant forall k :: 0 <= k < n ==> WellPlaced(chunks, false, k)
      invariant Names(chunks, false).0 == AskedIn(chunks, n) + Names(chunks[n..], variable).0
      invariant Names(chunks, false).1 == Names(chunks[n..], variable).1
    {
      AskedNext(chunks, n, variable);
      if !WellPlaced(chunks, false, n) { return; }
      variable := variable || chunks[n].Variable?;
      n := n + 1;
    }
    assert chunks[n..] == [];
    NamesEnd(variable);
  }

  lemma AskedFirst(chunks: seq<Chunk>)
    ensures chunks[0..] == chunks && Names(chunks, false).0 == AskedIn(chunks, 0) + Names(chunks, false).0
  {
  }

  /** What a record in place adds to the names read; one out of place ends the reading. */
  lemma AskedNext(chunks: seq<Chunk>, k: nat, variable: bool)
    requires k < |chunks| && (variable <==> exists j :: 0 <= j < k && chunks[j].Variable?)
    ensures WellPlaced(chunks, false, k) ==>
              var next := Names(chunks[k + 1..], variable || chunks[k].Variable?);
              && Names(chunks[k..], variable).1 == next.1
              && AskedIn(chunks, k) + Names(chunks[k..], variable).0 == AskedIn(chunks, k + 1) + next.0
    ensures !WellPlaced(chunks, false, k) ==>
              !Names(chunks[k..], variable).1 && AskedIn(chunks, k) + Names(chunks[k..], variable).0 == AskedIn(chunks, k)
  {
    hide Names;
    NamesNext(chunks, k, variable);
    if WellPlaced(chunks, false, k) && chunks[k].Asks? {
      var rest := Names(chunks[k + 1..], variable).0;
      assert AskedIn(chunks, k) + ([chunks[k].name] + rest) == AskedIn(chunks, k) + [chunks[k].name] + rest;
    }
  }

  lemma NamesNext(chunks: seq<Chunk>, k: nat, variable: bool)
    requires k < |chunks|
    ensures var rest := chunks[k + 1..];
            Names(chunks[k..], variable)
            == match chunks[k]
               case Asks(name) =>
                 (if name == "" then ([], false) else ([name] + Names(rest, variable).0, Names(rest, variable).1))
               case Variable(name) => (if name == "" then ([], false) else Names(rest, true))
               case Word(_) => (if variable then Names(rest, variable) else ([], false))
               case Unknown => ([], false)
  {
    assert chunks[k..][0] == chunks[k] && chunks[k..][1..] == chunks[k + 1..];
  }

  lemma NamesOnto(pending: seq<Target>, rest: seq<Target>)
    ensures [] + rest == rest && pending + [] == pending
    ensures pending != [] ==> pending[..|pending| - 1] + ([pending[|pending| - 1]] + rest) == pending + rest
  {
  }

  lemma NamesEnd(variable: bool)
    ensures Names([], variable) == ([], true)
  {
  }

  lemma ExtendedNothing(s: State, r: nat)
    requires r < |s.recs|
    ensures Extended(s, r, Elems([])) == s
  {
    assert s.recs[r].deps + Elems([]) == s.recs[r].deps;
  }

  lemma ExtendedMore(s: State, r: nat, names: seq<Target>, name: Target)
    requires r < |s.recs|
    ensures Extended(Extended(s, r, Elems(names)), r, {name}) == Extended(s, r, Elems(names + [name]))
  {
    assert s.recs[r].deps + Elems(names) + {name} == s.recs[r].deps + Elems(names + [name]);
  }

  lemma RealClientOK(c: Config, x: Client, status: StatusMap)
    requires !x.delayed && x.running == {} && Elems(x.pending) <= c.rules.Keys
    ensures ClientOK(c, x, Elems(x.pending), status)
  {
  }

  /** A client that serves no job can join anywhere. */
  lemma AddRequestKeeps(c: Config, s: State, i: nat, x: Client)
    requires Inv(c, s) && AskedOK(s.jobs, s.clients, s.asked) && i <= |s.clients| && !x.delayed && ClientOK(c, x, Elems(x.pending), s.status)
    ensures |s.asked| == |s.clients| && Inv(c, WithClient(s, i, x, Elems(x.pending)))
    ensures AskedOK(s.jobs, Inserted(s.clients, i, x), Inserted(s.asked, i, Elems(x.pending)))
    ensures |RealJobs(Inserted(s.clients, i, x))| == |RealJobs(s.clients)| + if x.socket then 1 else 0
  {
    AskedInserted(s.jobs, s.clients, s.asked, i, x, Elems(x.pending));
    hide Inv, ClientOK, RealJobs, AskedOK;
    assert |s.asked| == |s.clients|;
    WithClientKeepsInv(c, s, i, x, Elems(x.pending), {});
    assert {} - Hole(x) == {};
    RealJobsInserted(s.clients, i, x);
  }

  lemma ShellJob(c: Config, s: State, pid: int)
    requires Inv(c, s) && pid in s.pids
    ensures var id := s.pids[pid];
            id in s.jobs && !Delayed(s.clients, id) && forall t :: t in s.jobs[id].targets ==> t in s.status
  {
    assert HasShell(s.pids, s.pids[pid]) && Drivable(s.jobs, s.pids[pid]);
    TargetsOf(c, s, s.pids[pid]);
  }

  lemma ShellJobTargets(c: Config, s: State, id: int)
    requires Inv(c, s) && HasShell(s.pids, id)
    ensures id in s.jobs && s.jobs[id].targets != [] && s.jobs[id].targets[0] in s.deps
  {
    ShellTargetsRecorded(s.jobs, s.pids, s.clients, s.deps, id);
    var p :| p in s.pids && s.pids[p] == id;
    assert Drivable(s.jobs, s.pids[p]);
  }

  lemma ShellJobEnds(c: Config, s: State, s': State, pid: int, written: map<Target, int>, success: bool)
    requires Inv(c, s) && pid in s.pids && WritesApart(c, s.status, s.deps, s.files, written)
    requires Completed(c, s.(pids := s.pids - {pid}, files := written), s', s.pids[pid], success)
    requires AskedOK(s.jobs, s.clients, s.asked)
    ensures Inv(c, s') && Advances(s.status, s'.status) && s'.jobs == s.jobs - {s.pids[pid]} && s.pids[pid] in s.jobs
    ensures AskedOK(s'.jobs, s'.clients, s'.asked)
    ensures s' == s.(status := s'.status, files := s'.files, jobs := s'.jobs, pids := s.pids - {pid})
    ensures forall t :: t in s.jobs[s.pids[pid]].targets ==>
              t in s'.status && if success then Done(s'.status[t].st) else s'.status[t].st.Failed?
  {
    var id := s.pids[pid];
    var s1 := s.(pids := s.pids - {pid});
    CompletedEnds(c, s1.(files := written), s', id, success);
    hide Inv, Completed, WritesApart, AskedOK, Delayed;
    ShellJob(c, s, pid);
    AskedJobs(s.jobs, s'.jobs, s.clients, s.asked, id);
    ShellEndedKeepsInv(c, s, pid);
    WrittenKeepsInv(c, s1, written, {id});
    EndedKeepsInv(c, s1.(files := written), s', id, {id});
    assert {id} - {id} == {};
  }

  lemma BooksShellEnded(c: Config, presets: StatusMap, s: State, s': State, pid: int, written: map<Target, int>, success: bool, log: seq<Action>)
    requires Inv(c, s) && pid in s.pids && Books(c, presets, s.status, s.owner, s.pids, log) && Advances(s.status, s'.status)
    requires Completed(c, s.(pids := s.pids - {pid}, files := written), s', s.pids[pid], success)
    ensures var a := ScriptEnded(s.pids[pid], success, s.status);
            Books(c, presets, s'.status, s'.owner, s'.pids, log + [a]) && (AnyFailed(log + [a]) <==> AnyFailed(log))
  {
    hide Inv, Completed, Books, Advances, TargetsActive, AnyFailed, Truthful, Unmet, AllDone, Began, Done;
    var id := s.pids[pid];
    InvTargets(c, s, {});
    ShellBegan(c, presets, s.status, s.owner, s.pids, log, pid);
    CompletedEnds(c, s.(pids := s.pids - {pid}, files := written), s', id, success);
    DoneIsNotFailed();
    EndedApart(s, s', pid, written, id);
    hide Ended;
    BooksEnded(c, presets, s.(files := written), s'.(pids := s.pids), id, s'.pids, log, ScriptEnded(id, success, s.status));
  }

  lemma EndedApart(s: State, s': State, pid: int, written: map<Target, int>, id: int)
    requires Ended(s.(pids := s.pids - {pid}, files := written), s', id)
    ensures Ended(s.(files := written), s'.(pids := s.pids), id) && s'.pids == s.pids - {pid} && s'.owner == s.owner
  {
  }

  lemma ShellBegan(c: Config, presets: StatusMap, status: StatusMap, owner: map<Target, int>, pids: map<int, int>, log: seq<Action>, pid: int)
    requires Books(c, presets, status, owner, pids, log) && pid in pids
    ensures Began(log, pids[pid])
  {
    hide LogOK, Began, Explained;
  }

  lemma NothingYet(c: Config, presets: StatusMap, jobs: map<int, Rule>, counter: nat, deps: map<Target, nat>, recs: seq<Record>,
                   files: map<Target, int>)
    requires Startup(c, presets, jobs, counter, deps, recs, files)
    ensures RulesOK(c) && Books(c, presets, presets, map[], map[], []) && !AnyFailed([]) && |RealJobs([])| == 0
    ensures forall failure :: Promised({}, failure, [], [], presets)
  {
    hide RulesOK, Books;
    BooksOpen(c, presets);
  }

  class Server {
    const cfg: Config
    ghost const presets: StatusMap
    var keepGoing: bool
    var status: StatusMap
    var jobs: map<int, Rule>
    var pids: map<int, int>
    var clients: seq<Client>
    var deps: map<Target, nat>
    var recs: seq<Record>
    var files: map<Target, int>
    var counter: nat
    var running: int
    var waiting: int
    var buildFailure: bool
    ghost var asked: seq<set<Target>>
    ghost var owner: map<Target, int>
    ghost var log: seq<Action>
    ghost var owed: set<Target>
    ghost var failedBefore: bool

    ghost function Now(): State
      reads this
    {
      State(status, jobs, pids, clients, asked, owner, deps, recs, files, counter)
    }

    ghost function Database(): Db
      reads this
    {
      Db(deps, recs, files, cfg.obsolete)
    }

    ghost predicate Lookable()
      reads this
    {
      status.Keys <= cfg.rules.Keys && DbOK(cfg, deps, recs) && RecordsTogether(cfg, status, deps, recs)
    }

    // ---------------------------------------------------------------- target status

    method StatGroup(targets: seq<Target>) returns (latest: int, missing: bool)
      modifies `status
      ensures status == Stated(old(status), files, targets)
      ensures latest == Latest(files, targets)
      ensures forall t :: t in targets && t in files ==> files[t] <= latest
      ensures latest == 0 || exists t :: t in targets && t in files && latest == files[t]
      ensures missing <==> exists u :: u in targets && u !in files
    {
      latest, missing := 0, false;
      for k := 0 to |targets|
        invariant status == Stated(old(status), files, targets[..k])
        invariant latest == Latest(files, targets[..k])
        invariant missing <==> exists u :: u in targets[..k] && u !in files
      {
        hide Stated, Latest;
        var t := targets[k];
        StatedNext(old(status), files, targets, k);
        var mtime := 0;
        if t in files { mtime := files[t]; } else { missing := true; }
        status := status[t := Entry(if t in status then status[t].st else Uptodate, mtime)];
        if mtime > latest { latest := mtime; }
      }
      assert targets[..|targets|] == targets;
      LatestIsLast(files, targets);
    }

    method SetGroup(targets: seq<Target>, st: BuildStatus)
      modifies `status
      ensures status == Marked(old(status), targets, st)
    {
      for k := 0 to |targets|
        invariant status == Marked(old(status), targets[..k], st)
      {
        hide Marked;
        var t := targets[k];
        MarkedNext(old(status), targets, st, k);
        status := status[t := Entry(st, if t in status then status[t].last else 0)];
      }
      assert targets[..|targets|] == targets;
    }

    /** Looks up the dependencies, in any order, until one is younger than `latest`. */
    method CheckDependencies(names: set<Target>, latest: int, ghost rank: map<Target, nat>, ghost base: StatusMap, ghost height: nat)
      returns (st: BuildStatus)
      requires Lookable() && names <= cfg.rules.Keys
      modifies `status
      ensures Looked(cfg, old(Now()), status) && Lookable()
      ensures st.Uptodate? || st.Todo? || (st.Recheck? && names <= status.Keys)
      ensures Comparable(Database(), rank, base, old(status), names, height) ==>
                AddsVerdicts(Database(), rank, base, old(status), status) && Decided(Database(), rank, base, names, latest, st)
      decreases cfg.rules.Keys - status.Keys, 3
    {
      hide Found, Verdict, Agrees, Ranked, Height, DbOK, RecordsTogether, Comparable, AddsVerdicts, Decided;
      ghost var db := Database();
      ghost var good := Comparable(db, rank, base, status, names, height);
      st := Uptodate;
      var todo := names;
      NothingSeen(db, rank, base, status, names, height, latest);
      while todo != {}
        invariant todo <= names && (st.Uptodate? || st.Recheck?)
        invariant Lookable() && Looked(cfg, old(Now()), status)
        invariant names - todo <= status.Keys
        invariant good ==> Ranked(db, rank) && AddsVerdicts(db, rank, base, old(status), status)
                           && Decided(db, rank, base, names - todo, latest, st)
      {
        var d :| d in todo;
        ghost var before, todo0, st0 := status, todo, st;
        todo := todo - {d};
        if good { ComparableNext(db, rank, base, old(status), status, names, height, d); }
        var e := GetStatus(d, rank, base);
        LookedTwice(cfg, old(Now()), before, status);
        if good {
          AddsVerdictsNext(db, rank, base, old(status), before, status, d);
          DecidedNext(db, rank, base, names, todo0, d, latest, st0, e);
        }
        if latest < e.last {
          return Todo;
        }
        if !e.st.Uptodate? && !st.Recheck? {
          st := Recheck;
        }
      }
      assert names - todo == names;
    }

    /** The memoised status of `target`. With `rank` and `base` describing an acyclic database and
        the verdicts given so far, what it adds are the verdicts of the recursive definition. */
    method GetStatus(target: Target, ghost rank: map<Target, nat> := map[], ghost base: StatusMap := map[]) returns (e: Entry)
      requires target in cfg.rules && Lookable()
      modifies `status
      ensures target in status && e == status[target]
      ensures Looked(cfg, old(Now()), status) && Lookable()
      ensures Comparable(Database(), rank, base, old(status), {target}, Height(Database(), rank, target)) ==>
                AddsVerdicts(Database(), rank, base, old(status), status)
      decreases cfg.rules.Keys - status.Keys, 2
    {
      hide Found, Verdict, Agrees, Ranked, Height, DbOK, RecordsTogether, Comparable, AddsVerdicts, Decided, Stated, Looked;
      LookedNothing(cfg, Now());
      NothingSeen(Database(), rank, base, status, {target}, Height(Database(), rank, target), 0);
      if target in status { return status[target]; }
      ghost var s0, db := Now(), Database();
      ghost var good := Comparable(db, rank, base, status, {target}, Height(db, rank, target));
      if target !in deps || cfg.obsolete {
        LeafLooked(cfg, s0, target);
        if good { LeafVerdict(cfg, s0, target, rank, base); }
      }
      if target !in deps {
        status := status[target := if target in files then Entry(Uptodate, files[target]) else Entry(Todo, 0)];
        return status[target];
      }
      if cfg.obsolete {
        status := status[target := Entry(Todo, 0)];
        return status[target];
      }
      e := GetGroupStatus(target, rank, base);
    }

    /** The lookup of a recorded target that has no status yet: one verdict for the whole group. */
    method GetGroupStatus(target: Target, ghost rank: map<Target, nat>, ghost base: StatusMap) returns (e: Entry)
      requires Lookable() && Unseen(cfg, Now(), target)
      modifies `status
      ensures target in status && e == status[target]
      ensures Looked(cfg, old(Now()), status) && Lookable()
      ensures Comparable(Database(), rank, base, old(status), {target}, Height(Database(), rank, target)) ==>
                AddsVerdicts(Database(), rank, base, old(status), status)
      decreases cfg.rules.Keys - status.Keys, 1
    {
      hide Found, Verdict, Agrees, Ranked, Height, DbOK, RecordsTogether, Comparable, AddsVerdicts, Decided, Stated, Looked, Marked,
           Latest, Startable, Elems;
      ghost var s0, db := Now(), Database();
      ghost var height := if target in rank then rank[target] else 0;
      SiblingsUnseen(cfg, s0, target);
      OpenedLookable(cfg, s0, target);
      if Comparable(db, rank, base, status, {target}, Height(db, rank, target)) {
        ComparableBase(db, rank, base, status, {target}, Height(db, rank, target));
        OpenedComparable(cfg, s0, target, rank, base);
      }
      status := status[target := Entry(Uptodate, 0)];
      var rec := recs[deps[target]];
      var latest, missing := StatGroup(rec.targets);
      assert cfg.rules.Keys - status.Keys < cfg.rules.Keys - s0.status.Keys;
      var st := Todo;
      LookedNothing(cfg, Now());
      NothingSeen(db, rank, base, status, rec.deps, height, latest);
      if !missing {
        st := CheckDependencies(rec.deps, latest, rank, base, height);
      }
      ClosedLooked(cfg, s0, target, status, st);
      LookedExtends(cfg, s0.(status := Opened(s0, target, rec)), status);
      if Comparable(db, rank, base, s0.status, {target}, Height(db, rank, target)) {
        ClosedVerdict(cfg, s0, target, rank, base, status, st);
      }
      SetGroup(rec.targets, st);
      e := status[target];
    }

    // ---------------------------------------------------------------- server invariant

    /** A request names a job whose script is running, or one that is gone, and targets of the universe. */
    predicate Plausible(jobId: int, message: Option<seq<Chunk>>)
      reads this
    {
      && (jobId in jobs ==> HasShell(pids, jobId))
      && (message.Some? ==> Known(message.value))
    }

    /** All the targets asked for are in the universe. */
    predicate Known(chunks: seq<Chunk>) { forall chunk | chunk in chunks :: chunk.Asks? ==> chunk.name in cfg.rules }

    ghost predicate Core()
      reads this
    {
      RulesOK(cfg) && Inv(cfg, Now()) && running == |pids| && Books(cfg, presets, status, owner, pids, log)
    }

    // ---------------------------------------------------------------- jobs

    /** The new status of a target whose job is over: `Uptodate` if its file did not change. */
    method UpdateStatus(target: Target)
      requires target in status
      modifies `status
      ensures status == old(status)[target := Refreshed(old(status)[target], files, cfg.now, target)]
    {
      var e := status[target].(st := Remade);
      if e.last < cfg.now {
        if target !in files {
          e := e.(last := 0);
        } else if files[target] != e.last {
          e := e.(last := files[target]);
        } else {
          e := e.(st := Uptodate);
        }
      }
      status := status[target := e];
    }

    /** Ends a job: its targets are remade or unchanged if it succeeded, failed and removed otherwise. */
    method CompleteJob(id: int, success: bool)
      requires id in jobs && forall t :: t in jobs[id].targets ==> t in status
      modifies `status, `files, `jobs
      ensures Completed(cfg, old(Now()), Now(), id, success)
      ensures AllJudged(cfg.now, old(jobs)[id].targets, old(status), old(files), status, files, success)
    {
      hide AllJudged;
      var targets := jobs[id].targets;
      SettledJudged(status, files, cfg.now, targets, success);
      for k := 0 to |targets|
        invariant forall t :: t in targets ==> t in status
        invariant Settle(status, files, cfg.now, targets[k..], success) == Settle(old(status), old(files), cfg.now, targets, success)
        modifies `status, `files
      {
        hide Settle;
        var t := targets[k];
        ghost var before := status;
        SettleNext(status, files, cfg.now, targets, k, success);
        UpdateStatus(t);
        if !success {
          if !status[t].st.Uptodate? { files := files - {t}; }
          ghost var refreshed := status;
          status := status[t := status[t].(st := Failed)];
          assert status == before[t := refreshed[t].(st := Failed)];
        }
      }
      jobs := jobs - {id};
    }

    /** The script text after substitution. Up to the first variable it is copied; what variables expand to is not modelled. */
    method PrepareScript(rule: Rule) returns (script: string)
      ensures script == "" ==> MayBeBlank(rule.script)
      ensures rule.script == "" ==> script == ""
      ensures '$' !in rule.script ==> script == rule.script
    {
      var p := Find(rule.script, '$');
      if p >= |rule.script| - 1 { return rule.script; }
      var expanded: string := *;
      script := rule.script[..p] + expanded;
    }

    /** Gives the targets of the rule a fresh shared record of its static dependencies. */
    method RecordDependencies(rule: Rule)
      modifies `deps, `recs
      ensures Now() == Recorded(old(Now()), rule)
      ensures recs == old(recs) + [Record(rule.targets, Elems(rule.deps))]
      ensures deps.Keys == old(deps).Keys + Elems(rule.targets)
      ensures forall t :: t in deps ==> deps[t] == if t in rule.targets then |old(recs)| else old(deps)[t]
    {
      hide Sharing;
      SharingMeans(deps, rule.targets, |recs|);
      SharingNone(deps, |recs|);
      var shared := |recs|;
      recs := recs + [Record(rule.targets, Elems(rule.deps))];
      for k := 0 to |rule.targets|
        modifies `deps
        invariant deps == Sharing(old(deps), rule.targets[..k], shared)
      {
        SharingNext(old(deps), rule.targets, shared, k);
        deps := deps[rule.targets[k] := shared];
      }
      assert rule.targets[..|rule.targets|] == rule.targets;
    }

    /** Records the dependencies of a job and launches its script. */
    method RunScript(id: int) returns (outcome: Launch)
      requires id in jobs && forall t :: t in jobs[id].targets ==> t in status
      modifies `status, `files, `jobs, `deps, `recs, `pids, `running, `log
      ensures Launched(cfg, old(Now()), Now(), id, outcome)
      ensures running == old(running) + if outcome.ShellStarted? then 1 else 0
      ensures |pids| == |old(pids)| + if outcome.ShellStarted? then 1 else 0
      ensures forall p :: p in old(pids) ==> p in pids && pids[p] == old(pids)[p]
      ensures old(jobs)[id].script == "" ==> outcome.NothingToRun?
      ensures outcome.NothingToRun? ==> MayBeBlank(old(jobs)[id].script)
      ensures log == old(log) + [LaunchAction(old(Now()), id, outcome)]
    {
      hide Settle, Sharing, Completed, AllJudged, Recorded, Elems, LaunchAction, MayBeBlank;
      var rule := jobs[id];
      ghost var s0 := Now();
      RecordDependencies(rule);
      var script := PrepareScript(rule);
      if script == "" {
        CompleteJob(id, true);
        log := log + [LaunchAction(s0, id, NothingToRun)];
        return NothingToRun;
      }
      var spawned: bool := *;
      if !spawned {
        CompleteJob(id, false);
        log := log + [LaunchAction(s0, id, LaunchFailed)];
        return LaunchFailed;
      }
      var pid := FreshPid(pids.Keys);
      running := running + 1;
      pids := pids[pid := id];
      log := log + [LaunchAction(s0, id, ShellStarted)];
      return ShellStarted;
    }

    /** Whether the script of a job is still needed now that its prerequisites have settled. */
    method StillNeedRebuild(target: Target) returns (needed: bool)
      requires target in status && (status[target].st.RunningRecheck? ==> Recheckable(status, deps, recs, target))
      modifies `status
      ensures needed ==> status == old(status)
      ensures !needed <==> old(status)[target].st.RunningRecheck?
                           && forall d :: d in recs[deps[target]].deps ==> old(status)[d].st.Uptodate?
      ensures !needed ==>
                && target in deps && deps[target] < |recs| && status == Marked(old(status), recs[deps[target]].targets, Uptodate)
    {
      if !status[target].st.RunningRecheck? { return true; }
      var rec := recs[deps[target]];
      var todo := rec.deps;
      while todo != {}
        invariant todo <= rec.deps
        invariant forall d :: d in rec.deps - todo ==> status[d].st.Uptodate?
      {
        var d :| d in todo;
        todo := todo - {d};
        if !status[d].st.Uptodate? { return true; }
      }
      SetGroup(rec.targets, Uptodate);
      return false;
    }

    /** Launches a job that has nothing to wait for. */
    method LaunchNew(id: int) returns (outcome: Launch)
      requires Inv(cfg, Now(), {id}) && running == |pids| && Books(cfg, presets, status, owner, pids, log)
      requires id in jobs && (forall t :: t in jobs[id].targets ==> t in status) && Prerequisites(jobs[id]) == {}
      modifies `status, `files, `jobs, `deps, `recs, `pids, `running, `log
      ensures Inv(cfg, Now()) && running == |pids| && Books(cfg, presets, status, owner, pids, log) && Advances(old(status), status)
      ensures OnlyThese(old(status), status, old(jobs)[id].targets)
      ensures forall t :: t in old(jobs)[id].targets ==>
                t in status && match outcome
                               case ShellStarted => status[t] == old(status)[t]
                               case NothingToRun => Done(status[t].st)
                               case LaunchFailed => status[t].st.Failed?
      ensures jobs == old(jobs) || jobs == old(jobs) - {id}
      ensures outcome.ShellStarted? ==> jobs == old(jobs) && HasShell(pids, id)
      ensures running == old(running) + if outcome.ShellStarted? then 1 else 0
      ensures forall p :: p in old(pids) ==> p in pids && pids[p] == old(pids)[p]
      ensures AnyFailed(log) <==> AnyFailed(old(log))
    {
      hide Inv, Books, Advances, Launched, LaunchAction, TargetsActive, AllDone, MayBeBlank, OnlyThese, AnyFailed;
      ghost var s1, log0 := Now(), log;
      NothingToWaitFor(status);
      InvTargets(cfg, s1, {id});
      outcome := RunScript(id);
      LaunchedKeepsInv(cfg, s1, Now(), id, outcome, {id});
      LaunchedOnly(cfg, s1, Now(), id, outcome);
      if outcome.ShellStarted? { LaunchedShell(cfg, s1, Now(), id); }
      assert {id} - {id} == {};
      BooksLaunched(cfg, presets, s1, Now(), id, outcome, log0);
    }

    /** What starting `target` for the client at place `i` means, by its result. */
    twostate predicate StartOutcome(target: Target, i: nat, res: BuildStatus)
      reads this
    {
      && Advances(old(status), status) && StaysActive(old(status), status)
      && target in status && target in cfg.rules && counter == old(counter) + 1
      && OneMoreJob(old(jobs), jobs)
      && (cfg.rules[target].targets == [] ==> res.Failed? && running == old(running))
      && (cfg.rules[target].targets != [] ==> (res.RunningRecheck? <==> Prerequisites(cfg.rules[target]) != {}))
      && (res.Running? || res.RunningRecheck? ==> old(counter) in jobs && jobs[old(counter)] == cfg.rules[target])
      && running == old(running) + (if res.Running? then 1 else 0)
      && (forall p :: p in old(pids) ==> p in pids && pids[p] == old(pids)[p])
      && (match res
          case Failed => status[target].st.Failed?
          case Remade => Done(status[target].st)
          case Running => Active(status[target].st) && HasShell(pids, old(counter))
          case RunningRecheck =>
            && Active(status[target].st) && i <= |old(clients)| && |old(asked)| == |old(clients)| && old(counter) in jobs
            && clients == Inserted(old(clients), i, DependencyClient(old(counter), jobs[old(counter)]))
            && asked == Inserted(old(asked), i, Prerequisites(jobs[old(counter)]))
          case _ => false)
      && (!res.RunningRecheck? ==> clients == old(clients) && asked == old(asked))
      && (AnyFailed(log) <==> AnyFailed(old(log)))
    }

    /** Creates a job for `target`. When its rule has prerequisites, a dependency client that asks
        for them is inserted at place `i`; otherwise the script is launched at once. */
    method Start(target: Target, i: nat) returns (res: BuildStatus)
      requires Core() && i < |clients|
      requires target in cfg.rules && target in status && Startable(status[target].st)
      modifies `status, `files, `jobs, `deps, `recs, `pids, `running, `log, `counter, `owner, `clients, `asked
      ensures Core() && StartOutcome(target, i, res)
    {
      hide Inv, Books, Advances, RuleFor, RulesOK, AnyFailed, Prerequisites, HasShell, Inserted, DependencyClient;
      hide HasScript, MatchesAny, Matches, MadeFrom;
      ghost var s0 := Now();
      RuleOf(cfg, target);
      FreshJob(cfg, s0, target);
      var rule := FindRule(cfg.specific, cfg.generic, target);
      if rule.targets == [] {
        jobs, counter := jobs[counter := rule], counter + 1;
        status := status[target := status[target].(st := Failed)];
        WithoutRuleKeepsInv(cfg, s0, target);
        BooksWithoutRule(cfg, presets, s0.status, owner, pids, log, target);
        return Failed;
      }
      res := Begin(target, rule, i);
    }

    /** Marks all the targets of the rule as running for a new job, which nothing drives yet. */
    method MarkRunning(target: Target, rule: Rule) returns (id: int)
      requires Core() && counter !in jobs
      requires target in cfg.rules && target in status && Startable(status[target].st)
      requires rule == cfg.rules[target] && target in rule.targets
      modifies `status, `jobs, `counter, `owner
      ensures Inv(cfg, Now(), {id}) && Books(cfg, presets, status, owner, pids, log) && Advances(old(status), status)
      ensures OnlyThese(old(status), status, rule.targets) && NoneActive(old(status), rule.targets)
      ensures id == old(counter) && counter == id + 1 && jobs == old(jobs)[id := rule]
      ensures status == Marked(old(status), rule.targets,
                               if Prerequisites(rule) != {} && old(status)[target].st.Recheck? then RunningRecheck else Running)
      ensures forall t :: t in rule.targets ==>
                t in status && Active(status[t].st) && (status[t].st.RunningRecheck? ==> Recheckable(status, deps, recs, t))
    {
      hide Inv, Books, Advances, RulesOK, Marked, Owned, OnlyThese, NoneActive, AnyFailed;
      NoPrerequisites(rule);
      var hasDeps := rule.deps != [] || rule.wdeps != [];
      var st := if hasDeps && status[target].st.Recheck? then RunningRecheck else Running;
      ghost var s1 := Started(cfg, Now(), target, st);
      StartedKeepsInv(cfg, Now(), target, st);
      StartedMarks(cfg, Now(), target, st);
      StartedOnly(cfg, Now(), target, st);
      BooksMarked(cfg, presets, status, owner, pids, log, rule.targets, st, counter);
      id := counter;
      jobs, counter := jobs[id := rule], counter + 1;
      SetGroup(rule.targets, st);
      owner := Owned(owner, rule.targets, id);
      assert Now() == s1;
    }

    method Begin(target: Target, rule: Rule, i: nat) returns (res: BuildStatus)
      requires Core() && i < |clients| && counter !in jobs
      requires target in cfg.rules && target in status && Startable(status[target].st)
      requires rule == cfg.rules[target] && target in rule.targets
      modifies `status, `files, `jobs, `deps, `recs, `pids, `running, `log, `counter, `owner, `clients, `asked
      ensures Core() && StartOutcome(target, i, res)
    {
      hide Inv, Books, Advances, RulesOK, Recheckable, Inserted, Prerequisites, Marked, HasShell, DependencyClient, Done, Active,
           OnlyThese, NoneActive, StaysActive, AnyFailed, Elems, Startable, OneMoreJob;
      ghost var before, jobs0 := status, jobs;
      NoPrerequisites(rule);
      var id := MarkRunning(target, rule);
      ghost var marked := status;
      OthersStay(before, marked, marked, rule.targets);
      JobMade(jobs0, id, rule);
      if rule.deps != [] || rule.wdeps != [] {
        AttachClient(id, i);
        return RunningRecheck;
      }
      var outcome := LaunchNew(id);
      AdvancesTransitive(before, marked, status);
      OthersStay(before, marked, status, rule.targets);
      match outcome
      case ShellStarted => return Running;
      case NothingToRun => return Remade;
      case LaunchFailed => return Failed;
    }

    /** Inserts the dependency client of a fresh job. */
    method AttachClient(id: int, i: nat)
      requires Inv(cfg, Now(), {id}) && id in jobs && i < |clients|
      requires forall t :: t in jobs[id].targets ==>
                 (t in status && status[t].st.RunningRecheck? ==> Recheckable(status, deps, recs, t))
      modifies `clients, `asked
      ensures Inv(cfg, Now()) && |old(asked)| == |old(clients)|
      ensures clients == Inserted(old(clients), i, DependencyClient(id, jobs[id]))
      ensures asked == Inserted(old(asked), i, Prerequisites(jobs[id]))
    {
      var rule := jobs[id];
      ghost var s1, client, names := Now(), DependencyClient(id, rule), Prerequisites(rule);
      JobPrerequisites(cfg, s1, id, {id});
      hide Inv, Recheckable;
      DependencyClientOK(cfg, id, rule, status);
      WithClientKeepsInv(cfg, s1, i, client, names, {id});
      assert {id} - {id} == {};
      clients := clients[..i] + [Client(false, id, false, rule.deps + rule.wdeps, {}, true)] + clients[i..];
      asked := asked[..i] + [names] + asked[i..];
      assert Now() == WithClient(s1, i, client, names);
    }

    // ---------------------------------------------------------------- requests

    /** Whether the job of a group waits for a recheck that finds nothing to do. */
    ghost predicate MaySpare(front: Target)
      reads this
    {
      front in status && status[front].st.RunningRecheck? && front in deps && deps[front] < |recs|
      && forall d :: d in recs[deps[front]].deps ==> d in status && status[d].st.Uptodate?
    }

    /** The job of a dependency client ended unchanged, or its script was launched. */
    twostate predicate Resumed(id: int)
      reads this
    {
      && id in old(jobs) && old(jobs)[id].targets != []
      && var front := old(jobs)[id].targets[0];
         if old(MaySpare(front))
         then Completed(cfg, old(Now()).(status := Marked(old(status), old(recs)[old(deps)[front]].targets, Uptodate)), Now(), id, true)
         else exists outcome :: Launched(cfg, old(Now()), Now(), id, outcome)
    }

    /** Drives on the job of a dependency client whose prerequisites are all done: runs its script unless nothing changed. */
    method ResumeJob(i: nat)
      requires Core() && AskedOK(jobs, clients, asked) && i < |clients| && clients[i].delayed
      requires AllDone(asked[i], status)
      modifies `status, `files, `jobs, `deps, `recs, `pids, `running, `log
      ensures JobEnded(i) && Resumed(clients[i].jobId)
      ensures old(running) <= running <= old(running) + 1
      ensures AnyFailed(log) <==> AnyFailed(old(log))
    {
      hide Inv, Books, Advances, AllDone, Marked, WithoutClient, Completed, Launched, RulesOK, AskedOK, Active, Delayed, Without, AnyFailed;
      ghost var s0 := Now();
      var id := clients[i].jobId;
      DelayedJob(cfg, s0, i);
      var needed := StillNeedRebuild(jobs[id].targets[0]);
      if needed {
        LaunchResumed(i, id);
      } else {
        SpareJob(i, id, s0);
      }
    }

    /** Ends the job of a dependency client whose recheck has found nothing to do since state `s0`. */
    method SpareJob(i: nat, id: int, ghost s0: State)
      requires Inv(cfg, s0) && Books(cfg, presets, s0.status, owner, pids, log)
      requires i < |clients| == |asked| && clients[i].delayed && id == clients[i].jobId
      requires s0 == Now().(status := s0.status) && id in jobs && jobs[id].targets != [] && forall t :: t in jobs[id].targets ==> t in s0.status
      requires jobs[id].targets[0] in deps && deps[jobs[id].targets[0]] < |recs|
      requires status == Marked(s0.status, recs[deps[jobs[id].targets[0]]].targets, Uptodate)
      requires forall d :: d in recs[deps[jobs[id].targets[0]]].deps ==> d in s0.status && s0.status[d].st.Uptodate?
      modifies `status, `files, `jobs, `log
      ensures Inv(cfg, WithoutClient(Now(), i)) && Books(cfg, presets, status, owner, pids, log) && Advances(s0.status, status)
      ensures log == old(log) + [Spared(id, recs[deps[old(jobs)[id].targets[0]]], s0.status)]
      ensures AnyFailed(log) <==> AnyFailed(old(log))
      ensures Completed(cfg, old(Now()), Now(), id, true)
      ensures jobs == old(jobs) - {id}
    {
      hide Inv, Books, Advances, AllDone, Marked, WithoutClient, Completed, Delayed, Without, AllJudged, AnyFailed;
      ghost var spared, rec := status, recs[deps[jobs[id].targets[0]]];
      MarkedKeeps(s0.status, rec.targets, Uptodate);
      CompleteJob(id, true);
      SparedEnds(cfg, s0, i, spared, Now());
      EndedClient(cfg, s0, Now(), i);
      BooksSpared(cfg, presets, s0, i, spared, Now(), log);
      log := log + [Spared(id, rec, s0.status)];
    }

    method LaunchResumed(i: nat, id: int)
      requires Core() && AskedOK(jobs, clients, asked) && i < |clients| && clients[i].delayed && id == clients[i].jobId
      requires AllDone(asked[i], status)
      modifies `status, `files, `jobs, `deps, `recs, `pids, `running, `log
      ensures JobEnded(i)
      ensures exists outcome :: Launched(cfg, old(Now()), Now(), id, outcome)
      ensures old(running) <= running <= old(running) + 1
      ensures AnyFailed(log) <==> AnyFailed(old(log))
    {
      hide Inv, Books, Advances, Launched, LaunchAction, TargetsActive, AllDone, MayBeBlank, Recheckable, WithoutClient, AnyFailed;
      ghost var s0 := Now();
      DelayedJob(cfg, s0, i);
      InvTargets(cfg, s0, {});
      var outcome := RunScript(id);
      LaunchedClient(cfg, s0, Now(), i, outcome);
      BooksLaunched(cfg, presets, s0, Now(), id, outcome, old(log));
    }

    /** The client at place `i` can go. */
    ghost predicate Over(i: nat)
      reads this
    {
      && i < |clients| == |asked| && RulesOK(cfg) && Inv(cfg, WithoutClient(Now(), i)) && running == |pids|
      && Books(cfg, presets, status, owner, pids, log)
    }

    /** The job of the dependency client at place `i` has ended or has a shell of its own, so that the client can go. */
    twostate predicate JobEnded(i: nat)
      reads this
      requires i < |clients|
    {
      && Over(i) && Advances(old(status), status)
      && (forall j :: j in old(jobs) && j != clients[i].jobId ==> j in jobs && jobs[j] == old(jobs)[j])
      && (forall p :: p in old(pids) ==> p in pids && pids[p] == old(pids)[p])
    }

    /** Gives up the job of a dependency client. */
    method AbandonJob(i: nat)
      requires Core() && i < |clients| == |asked| && clients[i].delayed && Unmet(asked[i], running == waiting, status)
      modifies `status, `files, `jobs, `log
      ensures JobEnded(i) && Completed(cfg, old(Now()), Now(), clients[i].jobId, false)
      ensures log == old(log) + [Abandoned(clients[i].jobId, asked[i], running == waiting, old(status))]
      ensures AnyFailed(log) <==> AnyFailed(old(log))
    {
      hide Inv, Books, Advances, Recheckable, WithoutClient, Completed, Unmet, AllJudged, AnyFailed;
      ghost var s0 := Now();
      var id := clients[i].jobId;
      DelayedJob(cfg, s0, i);
      CompleteJob(id, false);
      AbandonedWell(cfg, presets, s0, Now(), i, running == waiting, log);
      log := log + [Abandoned(id, asked[i], running == waiting, s0.status)];
    }

    /** Answers the client at place `i`, which the caller then removes: replies, or ends the job it serves. */
    method CompleteRequest(i: nat, success: bool)
      requires Core() && AskedOK(jobs, clients, asked) && i < |clients|
      requires if success then AllDone(asked[i], status) else Unmet(asked[i], running == waiting, status)
      modifies `status, `files, `jobs, `deps, `recs, `pids, `running, `waiting, `log, `buildFailure
      ensures JobEnded(i)
      ensures AskedOK(jobs, Without(clients, i), Without(asked, i))
      ensures waiting == old(waiting) - if clients[i].socket then 1 else 0
      ensures old(running) <= running <= old(running) + if clients[i].delayed then 1 else 0
      ensures buildFailure <==> old(buildFailure) || (clients[i].jobId < 0 && !success)
      ensures AnyFailed(log) <==> AnyFailed(old(log)) || (clients[i].jobId < 0 && !success)
      ensures if clients[i].delayed then (if success then Resumed(clients[i].jobId) else Completed(cfg, old(Now()), Now(), clients[i].jobId, false))
              else Now() == old(Now()) && log == old(log) + [Replied(clients[i].jobId, asked[i], success, old(running == waiting), old(status))]
      ensures clients[i].delayed && !success ==>
                log == old(log) + [Abandoned(clients[i].jobId, asked[i], old(running == waiting), old(status))]
    {
      hide Inv, Books, Advances, AllDone, Unmet, WithoutClient, Delayed, AskedOK, Without, RulesOK, Completed, Launched, Marked, MaySpare, AnyFailed;
      ghost var jobs0 := jobs;
      var client := clients[i];
      AskedWithout(jobs, clients, asked, i);
      if client.delayed {
        DelayedJob(cfg, Now(), i);
        if success {
          ResumeJob(i);
        } else {
          AbandonJob(i);
        }
        AskedJobs(jobs0, jobs, Without(clients, i), Without(asked, i), client.jobId);
      } else {
        AdvancesSelf(status);
        WithoutClientInv(cfg, Now(), i);
        ghost var a := Replied(client.jobId, asked[i], success, running == waiting, status);
        if client.socket { waiting := waiting - 1; }
        BooksAppended(cfg, presets, status, owner, pids, log, a);
        log := log + [a];
      }
      if client.jobId < 0 && !success { buildFailure := true; }
    }

    // ---------------------------------------------------------------- scheduling

    predicate FreeSlots()
      reads this
    {
      cfg.maxJobs <= 0 || running - waiting < cfg.maxJobs
    }

    /** The limit on parallel jobs, not counting those that wait for a request. */
    ghost predicate SlotsBounded()
      reads this
    {
      cfg.maxJobs > 0 ==> running - waiting <= cfg.maxJobs
    }

    ghost predicate Valid()
      reads this
    {
      && Core() && AskedOK(jobs, clients, asked) && running == |pids| && waiting == |RealJobs(clients)| && SlotsBounded()
      && Ledger(asked)
    }

    /** Nothing that is owed is forgotten, and a failure is recorded exactly when one was told to the server itself. `owed` is
        what the server itself asked for when the loop began. */
    ghost predicate Ledger(goal: seq<set<Target>>)
      reads this
    {
      Promised(owed, buildFailure, clients, goal, status) && (buildFailure <==> failedBefore || AnyFailed(log))
    }

    /** Replaces the client at place `i` by a consistent one that serves the same purpose. */
    method SetClient(i: nat, x: Client, ghost names: set<Target>)
      requires Core() && waiting == |RealJobs(clients)| && i < |clients| && |asked| == |clients|
      requires x.delayed == clients[i].delayed && x.jobId == clients[i].jobId && x.socket == clients[i].socket
      requires ClientOK(cfg, x, names, status)
      modifies `clients, `asked
      ensures Core() && waiting == |RealJobs(clients)|
      ensures clients == old(clients)[i := x] && asked == old(asked)[i := names]
      ensures RealJobs(clients) == RealJobs(old(clients))
    {
      hide Inv, Books, ClientOK, RulesOK, RealJobs, AnyFailed;
      ChangedClientKeepsInv(cfg, Now(), i, x, names);
      RealJobsChanged(clients, i, x);
      clients := clients[i := x];
      asked := asked[i := names];
    }

    /** Drops the finished targets from the running ones of a client; true when a failure ends its request. */
    method ReapFinished(i: nat) returns (bail: bool)
      requires Valid() && i < |clients|
      modifies `clients, `asked
      ensures Valid() && |clients| == |old(clients)| && clients[i].pending == old(clients)[i].pending
      ensures !bail ==> clients == old(clients)[i := Reaped(old(clients)[i], status, {})]
      ensures bail ==> clients[i].failed && clients == old(clients)[i := clients[i]]
      ensures bail <==> !keepGoing && Broke(old(clients)[i].running, status)
      ensures RealJobs(clients) == RealJobs(old(clients))
      ensures Waits(old(clients)[i], status) ==> !bail && clients == old(clients) && asked == old(asked)
    {
      hide Core, RealJobs, Reaped, AskedOK, SlotsBounded, Ledger;
      var todo := clients[i].running;
      NothingReaped(clients[i], status);
      while todo != {}
        invariant Valid() && i < |clients| && |clients| == |old(clients)| && RealJobs(clients) == RealJobs(old(clients))
        invariant todo <= clients[i].running && todo <= old(clients)[i].running
        invariant keepGoing || forall t :: t in old(clients)[i].running && t !in todo ==> !(t in status && status[t].st.Failed?)
        invariant clients == old(clients)[i := Reaped(old(clients)[i], status, todo)]
        invariant clients[i].pending == old(clients)[i].pending
        invariant Waits(old(clients)[i], status) ==> clients == old(clients) && asked == old(asked)
      {
        var t :| t in todo;
        RunningHere(i, t);
        ReapedNext(old(clients)[i], status, todo, t);
        todo := todo - {t};
        match status[t].st
        case Running => continue;
        case RunningRecheck => continue;
        case Recheck => assert false;
        case Todo => assert false;
        case _ => DropFinished(i, t);
          if status[t].st.Failed? && !keepGoing { return true; }
      }
      return false;
    }

    lemma RunningHere(i: nat, t: Target)
      requires Core() && i < |clients| && t in clients[i].running
      ensures t in status && (Active(status[t].st) || Finished(status[t].st))
    {
      hide Inv, Books, ClientOK, RulesOK, Promised, AnyFailed;
      ClientAt(cfg, Now(), i);
      RunningStatus(cfg, clients[i], asked[i], status, t);
    }

    /** Takes a finished target off the list of a client. */
    method DropFinished(i: nat, t: Target)
      requires Valid() && i < |clients| && t in clients[i].running && t in status && Finished(status[t].st)
      modifies `clients, `asked
      ensures Valid() && asked == old(asked) && RealJobs(clients) == RealJobs(old(clients))
      ensures var client := old(clients)[i];
        clients == old(clients)[i := client.(running := client.running - {t}, failed := client.failed || status[t].st.Failed?)]
    {
      hide Inv, Books, ClientOK, RulesOK, RealJobs, Prerequisites, Promised, AnyFailed;
      var x := clients[i].(running := clients[i].running - {t}, failed := clients[i].failed || status[t].st.Failed?);
      ClientAt(cfg, Now(), i);
      ReapedOK(cfg, clients[i], asked[i], status, t);
      RunningAsked(cfg, clients[i], asked[i], status);
      AskedMore(jobs, jobs, clients, clients[i := x], asked);
      PromiseChanged(owed, buildFailure, clients, asked, status, i, x);
      assert asked[i := asked[i]] == asked;
      SetClient(i, x, asked[i]);
    }

    /** Puts a popped target back among what the client at place `k` waits for, or takes note of how it ended. */
    method FileTarget(k: nat, target: Target, ghost goal: seq<set<Target>>)
      requires Core() && waiting == |RealJobs(clients)| && SlotsBounded() && k < |clients| && |goal| == |clients|
      requires asked == goal[k := Limbo(clients[k], goal[k], target)] && AskedOK(jobs, clients, goal)
      requires target in goal[k] && goal[k] <= cfg.rules.Keys && target in status && !Startable(status[target].st)
      requires Ledger(goal)
      modifies `clients, `asked
      ensures Valid() && asked == goal && |clients| == |old(clients)| && clients[k].pending == old(clients)[k].pending
      ensures clients == old(clients)[k := clients[k]] && FiledAs(old(clients)[k], clients[k], target, status)
      ensures status[target].st.Failed? ==> clients[k].failed
      ensures RealJobs(clients) == RealJobs(old(clients))
    {
      hide Inv, Books, ClientOK, RulesOK, RealJobs, Prerequisites, Limbo, AskedOK, Promised, AnyFailed;
      ghost var clients0 := clients;
      ClientAt(cfg, Now(), k);
      var y := clients[k];
      match status[target].st
      {
        case Running => y := y.(running := y.running + {target});
        case RunningRecheck => y := y.(running := y.running + {target});
        case Failed => y := y.(failed := true);
        case _ =>
      }
      FiledOK(cfg, clients[k], y, goal[k], target, status);
      SetClient(k, y, goal[k]);
      assert asked == goal;
      AskedMore(jobs, jobs, clients0, clients, goal);
      PromiseChanged(owed, buildFailure, clients0, goal, status, k, y);
    }

    lemma CanLook()
      requires Core()
      ensures Lookable()
    {
      hide Inv, Books, RulesOK, DbOK, RecordsTogether;
      InvLookable(cfg, Now());
    }

    /** Looks up a status without disturbing anything else, and writes down what is new. From an empty memory and without
        cycles the target is found up-to-date exactly when it is fresh all the way down, to be built exactly when it is not
        fresh itself, and to be rechecked otherwise. */
    method LookUp(target: Target) returns (e: Entry)
      requires Core() && target in cfg.rules
      modifies `status, `log
      ensures Core() && Advances(old(status), status) && StaysActive(old(status), status)
      ensures target in status && e == status[target] && (target in old(status) ==> old(status)[target] == e)
      ensures log == old(log) + [LookedUp(Database(), old(status), status)]
      ensures AnyFailed(log) <==> AnyFailed(old(log))
      ensures old(status) == map[] && Acyclic(Database()) && !cfg.obsolete ==>
                && (e.st.Uptodate? <==> AllFresh(Database(), target))
                && (e.st.Todo? <==> !Fresh(Database(), target))
                && (e.st.Recheck? <==> Fresh(Database(), target) && !AllFresh(Database(), target))
    {
      hide Inv, Books, Looked, RulesOK, Lookable, Comparable, AddsVerdicts, Ranked, Acyclic, Fresh, AllFresh, Height, Advances, StaysActive,
           AnyFailed;
      ghost var s0, rank := Now(), map[];
      CanLook();
      rank := SomeRank(Database());
      SelfComparable(Database(), rank, s0.status, target);
      e := GetStatus(target, rank, s0.status);
      FirstLookup(Database(), rank, s0.status, status, target);
      LookedWell(cfg, presets, s0, rank, status, log);
      log := log + [LookedUp(Database(), s0.status, status)];
    }

    /** Pops the first pending target of the client at place `i` and looks up its status. It is then missing in `asked`, which
        is to become `goal` again. */
    method PopTarget(i: nat) returns (target: Target, e: Entry, ghost goal: seq<set<Target>>)
      requires Valid() && i < |clients| && clients[i].pending != []
      modifies `status, `log, `clients, `asked
      ensures Core() && waiting == |RealJobs(clients)| && SlotsBounded() && i < |clients| == |goal| && |clients| == |old(clients)|
      ensures asked == goal[i := Limbo(clients[i], goal[i], target)] && AskedOK(jobs, clients, goal) && Ledger(goal)
      ensures target in goal[i] && goal[i] <= cfg.rules.Keys && target in status && e == status[target]
      ensures Advances(old(status), status) && (target in old(status) ==> old(status)[target] == e)
      ensures Tended(keepGoing, old(clients), old(status), clients, status, i, false)
      ensures target == old(clients)[i].pending[0]
      ensures clients == old(clients)[i := old(clients)[i].(pending := old(clients)[i].pending[1..])]
      ensures RealJobs(clients) == RealJobs(old(clients))
    {
      hide Inv, Books, ClientOK, RulesOK, RealJobs, Prerequisites, Limbo, Advances, AskedOK, Promised, AnyFailed, StaysActive, Tended,
           Fresh, AllFresh, Acyclic, HasShell;
      ghost var status0, clients0 := status, clients;
      goal := asked;
      target := clients[i].pending[0];
      var x := clients[i].(pending := clients[i].pending[1..]);
      ClientAt(cfg, Now(), i);
      PoppedOK(cfg, clients[i], asked[i], status);
      ClientUniverse(cfg, clients[i], asked[i], status);
      SetClient(i, x, Limbo(x, asked[i], target));
      AskedMore(jobs, jobs, clients0, clients, goal);
      PromiseChanged(owed, buildFailure, clients0, goal, status, i, x);
      e := LookUp(target);
      PromiseAdvances(owed, buildFailure, clients, goal, status0, status);
      TendedPopped(keepGoing, clients0, status0, status, i, x);
    }

    /** Takes the first pending target of the client at place `i` and starts it if its status says so. */
    method HandleTarget(i: nat) returns (step: Step)
      requires Valid() && FreeSlots() && i < |clients| && clients[i].pending != []
      modifies `status, `files, `jobs, `deps, `recs, `pids, `running, `log, `counter, `owner, `clients, `asked
      ensures Valid() && Advances(old(status), status) && i < |clients| && clients[..i] == old(clients)[..i]
      ensures step.Shelled? || FreeSlots()
      ensures step.Broken? ==> clients[i].failed && !keepGoing
      ensures Tended(keepGoing, old(clients), old(status), clients, status, i, step.Broken?)
      ensures step.Filed? || step.Broken? ==> |clients| == |old(clients)| && |clients[i].pending| < |old(clients)[i].pending|
      ensures step.Shelled? || step.Deferred? || step.Rebuilt? ==> Available(cfg, status) < Available(cfg, old(status))
      ensures running >= old(running) && RealJobs(clients) == RealJobs(old(clients))
      ensures forall p :: p in old(pids) ==> p in pids && pids[p] == old(pids)[p]
    {
      hide Core, ClientOK, RealJobs, Limbo, Advances, AskedOK, Available, Promised, AnyFailed, StaysActive, Tended, FiledAs, Ledger;
      ghost var clients0, status0 := clients, status;
      var target, e;
      ghost var goal;
      target, e, goal := PopTarget(i);
      ghost var clients1, status1 := clients, status;
      if !Startable(e.st) {
        FileTarget(i, target, goal);
        step := if e.st.Failed? && !keepGoing then Broken else Filed;
        AdvancesSelf(status);
        TendedFiled(keepGoing, clients1, status, status, i, clients[i], target);
      } else {
        step := StartTarget(i, target, goal, status0);
      }
      TendedTwice(keepGoing, clients0, status0, clients1, status1, clients, status, i, step.Broken?);
    }

    method StartTarget(i: nat, target: Target, ghost goal: seq<set<Target>>, ghost status0: StatusMap) returns (step: Step)
      requires Core() && waiting == |RealJobs(clients)| && SlotsBounded() && FreeSlots() && i < |clients| && |goal| == |clients|
      requires asked == goal[i := Limbo(clients[i], goal[i], target)] && AskedOK(jobs, clients, goal)
      requires target in goal[i] && goal[i] <= cfg.rules.Keys && target in status && Startable(status[target].st)
      requires Ledger(goal)
      requires Advances(status0, status) && (target in status0 ==> Startable(status0[target].st))
      modifies `status, `files, `jobs, `deps, `recs, `pids, `running, `log, `counter, `owner, `clients, `asked
      ensures Valid() && Advances(status0, status) && i < |clients| && clients[..i] == old(clients)[..i]
      ensures step.Shelled? || FreeSlots()
      ensures step.Broken? ==> clients[i].failed && !keepGoing
      ensures Tended(keepGoing, old(clients), old(status), clients, status, i, step.Broken?)
      ensures step.Filed? || step.Broken? ==> |clients| == |old(clients)| && clients[i].pending == old(clients)[i].pending
      ensures step.Shelled? || step.Deferred? || step.Rebuilt? ==> Available(cfg, status) < Available(cfg, status0)
      ensures running >= old(running) && RealJobs(clients) == RealJobs(old(clients))
      ensures forall p :: p in old(pids) ==> p in pids && pids[p] == old(pids)[p]
    {
      hide Core, ClientOK, HasShell, RealJobs, Prerequisites, Limbo, Advances, AskedOK, Available, Inserted, Promised, AnyFailed,
           StaysActive, Tended, FiledAs;
      ghost var jobs0, clients0, status1, id := jobs, clients, status, counter;
      var res := Start(target, i);
      AdvancesTransitive(status0, status1, status);
      StartedLess(cfg, status0, status, target);
      AskedMore(jobs0, jobs, clients0, clients0, goal);
      PromiseAdvances(owed, buildFailure, clients0, goal, status1, status);
      if res.RunningRecheck? {
        DeferredAsked(jobs, clients0, clients, goal, asked, i, id, target);
        ghost var names := Prerequisites(jobs[id]);
        PromiseInserted(owed, buildFailure, clients0, goal, status, i, DependencyClient(id, jobs[id]), names);
        FileTarget(i + 1, target, Inserted(goal, i, names));
        TendedDeferred(keepGoing, clients0, status1, status, i, id, jobs[id], clients[i + 1], target);
        return Deferred;
      }
      FileTarget(i, target, goal);
      TendedFiled(keepGoing, clients0, status1, status, i, clients[i], target);
      match res
      case Running => return Shelled;
      case Remade => return Rebuilt;
      case _ => return if keepGoing then Filed else Broken;
    }

    /** Starts the pending targets of the client at place `i`, and those of the dependency clients
        inserted in front of it, as long as slots are left. */
    method StartPending(i: nat) returns (pass: Pass, restart: bool)
      requires Valid() && FreeSlots() && i < |clients|
      modifies `status, `files, `jobs, `deps, `recs, `pids, `running, `log, `counter, `owner, `clients, `asked
      ensures Valid() && Advances(old(status), status) && i < |clients| && clients[..i] == old(clients)[..i]
      ensures pass.Full? <==> !FreeSlots()
      ensures pass.Bailed? ==> clients[i].failed
      ensures Tended(keepGoing, old(clients), old(status), clients, status, i, pass.Bailed?)
      ensures pass.Through? ==> clients[i].pending == []
      ensures old(clients)[i].pending == [] ==> pass.Through? && !restart && Now() == old(Now()) && running == old(running) && log == old(log)
      ensures Available(cfg, status) <= Available(cfg, old(status))
      ensures Available(cfg, status) == Available(cfg, old(status)) ==> |clients| == |old(clients)| && !restart
      ensures running >= old(running) && RealJobs(clients) == RealJobs(old(clients))
      ensures forall p :: p in old(pids) ==> p in pids && pids[p] == old(pids)[p]
    {
      hide Core, AskedOK, RealJobs, Advances, Available, Ledger, Tended, StaysActive;
      restart := false;
      AdvancesSelf(status);
      TendedNot(keepGoing, clients, status, i);
      ghost var status0 := status;
      while clients[i].pending != []
        invariant Valid() && FreeSlots() && i < |clients| && Advances(status0, status) && clients[..i] == old(clients)[..i]
        invariant old(clients)[i].pending == [] ==> !restart && Now() == old(Now()) && running == old(running) && log == old(log)
        invariant Tended(keepGoing, old(clients), status0, clients, status, i, false)
        invariant Available(cfg, status) <= Available(cfg, status0)
        invariant Available(cfg, status) == Available(cfg, status0) ==> |clients| == |old(clients)| && !restart
        invariant running >= old(running) && RealJobs(clients) == RealJobs(old(clients))
        invariant forall p :: p in old(pids) ==> p in pids && pids[p] == old(pids)[p]
        decreases Available(cfg, status), |clients[i].pending|
      {
        ghost var clients1, status1 := clients, status;
        var step := HandleTarget(i);
        TendedTwice(keepGoing, old(clients), status0, clients1, status1, clients, status, i, step.Broken?);
        AdvancesTransitive(status0, status1, status);
        AvailableShrinks(cfg, status1, status);
        match step
        case Filed =>
        case Broken => return Bailed, restart;
        case Shelled => if !FreeSlots() { return Full, restart; }
        case Deferred =>
        case Rebuilt => restart := true;
      }
      return Through, restart;
    }

    /** Drops what has finished and starts what is pending; the client is left with a failure, or without pending targets, unless
        the slots are full. */
    method TendClient(i: nat) returns (full: bool, restart: bool, bail: bool)
      requires Valid() && FreeSlots() && i < |clients|
      modifies `status, `files, `jobs, `deps, `recs, `pids, `running, `log, `counter, `owner, `clients, `asked
      ensures Valid() && Advances(old(status), status) && StaysActive(old(status), status)
      ensures i < |clients| && clients[..i] == old(clients)[..i] && (full <==> !FreeSlots()) && !(full && bail)
      ensures bail ==> clients[i].failed
      ensures !full && !bail ==> clients[i].pending == [] && AllActive(clients[i].running, status)
      ensures !keepGoing && Unfailed(old(clients)) ==> UnfailedBut(clients, i) && (!bail ==> Unfailed(clients))
      ensures Available(cfg, status) <= Available(cfg, old(status))
      ensures Available(cfg, status) == Available(cfg, old(status)) ==> |clients| == |old(clients)| && !restart
      ensures running >= old(running) && RealJobs(clients) == RealJobs(old(clients))
      ensures forall p :: p in old(pids) ==> p in pids && pids[p] == old(pids)[p]
      ensures Waits(old(clients)[i], old(status)) ==>
                !full && !restart && !bail && Now() == old(Now()) && running == old(running) && log == old(log)
    {
      hide Core, AskedOK, RealJobs, Advances, Available, Ledger, StaysActive, Tended, Unfailed, UnfailedBut, AllActive, Broke, Reaped;
      ghost var status0, clients0 := status, clients;
      AdvancesSelf(status);
      full, restart := false, false;
      bail := ReapFinished(i);
      ReapedActive(clients0, status0, i, clients, keepGoing, bail);
      if bail { return; }
      var pass;
      ghost var clients1 := clients;
      pass, restart := StartPending(i);
      TendedMeans(keepGoing, clients1, status0, clients, status, i, pass.Bailed?);
      full, bail := pass.Full?, pass.Bailed?;
    }

    /** One visit to the client at place `i`. The result is the place of the client to visit next. */
    method HandleClient(i: nat) returns (full: bool, restart: bool, next: nat)
      requires Valid() && FreeSlots() && i < |clients|
      modifies `status, `files, `jobs, `deps, `recs, `pids, `running, `waiting, `log, `counter, `owner, `clients, `asked, `buildFailure
      ensures Valid() && Advances(old(status), status) && i <= next <= |clients| && clients[..i] == old(clients)[..i]
      ensures if full then !FreeSlots() else next == i || (next == i + 1 && Served(clients[i]))
      ensures Available(cfg, status) <= Available(cfg, old(status))
      ensures Available(cfg, status) == Available(cfg, old(status)) ==>
                |clients| - next < |old(clients)| - i && |clients| <= |old(clients)| && (restart ==> |clients| < |old(clients)|)
      ensures running - waiting >= old(running - waiting) && keepGoing == old(keepGoing)
      ensures !full && !restart ==> next == i + 1 && Waits(clients[i], status) && StaysActive(old(status), status)
      ensures !keepGoing && Unfailed(old(clients)) ==> Unfailed(clients)
      ensures RealJobs(clients) <= RealJobs(old(clients))
      ensures forall p :: p in old(pids) ==> p in pids && pids[p] == old(pids)[p]
      ensures Waits(old(clients)[i], old(status)) ==>
                !full && !restart && next == i + 1 && Now() == old(Now()) && running == old(running) && waiting == old(waiting) && log == old(log)
    {
      hide Core, AskedOK, RealJobs, Advances, Available, Ledger, StaysActive, Unfailed, UnfailedBut, AllActive;
      ghost var status0, clients0 := status, clients;
      next := i + 1;
      var bail;
      full, restart, bail := TendClient(i);
      if full { return; }
      if bail || clients[i].running == {} || clients[i].failed {
        ghost var status1 := status;
        if !keepGoing && Unfailed(clients0) { UnfailedWithout(clients, i); }
        RemoveClient(i, !clients[i].failed);
        AdvancesTransitive(status0, status1, status);
        AvailableShrinks(cfg, status1, status);
        restart, next := true, i;
      }
    }

    /** Answers a client that waits for nothing any more, or has failed, and removes it. */
    method RemoveClient(i: nat, success: bool)
      requires Valid() && i < |clients| && (cfg.maxJobs > 0 ==> running - waiting < cfg.maxJobs)
      requires if success then clients[i].pending == [] && clients[i].running == {} && !clients[i].failed
               else clients[i].failed || (running == waiting && Waits(clients[i], status))
      modifies `status, `files, `jobs, `deps, `recs, `pids, `running, `waiting, `log, `counter, `owner, `clients, `asked, `buildFailure
      ensures Valid() && Advances(old(status), status)
      ensures clients == Without(old(clients), i) && keepGoing == old(keepGoing)
      ensures running - waiting >= old(running - waiting)
      ensures RealJobs(clients) <= RealJobs(old(clients))
      ensures forall p :: p in old(pids) ==> p in pids && pids[p] == old(pids)[p]
    {
      hide Core, AskedOK, RealJobs, Advances, AllDone, Completed, Launched, Marked, MaySpare, Promised, AnyFailed, Inv, Books, Unmet;
      ClientHere(i);
      RealJobsWithout(clients, i);
      ghost var failure, status0 := buildFailure, status;
      CompleteRequest(i, success);
      PromiseKept(owed, failure, buildFailure, clients, asked, status0, status, i, success);
      DropClient(i);
      RunningPids();
    }

    lemma ClientHere(i: nat)
      requires Core() && i < |clients| && Ledger(asked)
      ensures |asked| == |clients| && !(clients[i].socket && clients[i].delayed)
      ensures clients[i].failed || (running == waiting && Waits(clients[i], status)) ==> Unmet(asked[i], running == waiting, status)
      ensures clients[i].pending == [] && clients[i].running == {} && !clients[i].failed ==> AllDone(asked[i], status)
    {
      hide Inv, Books, RulesOK, AllDone, ClientOK, AnyFailed, Broke;
      ClientAt(cfg, Now(), i);
      RunningAsked(cfg, clients[i], asked[i], status);
      if Waits(clients[i], status) {
        var t :| t in clients[i].running;
        assert t in asked[i];
      }
      SocketIsReal(cfg, clients[i], asked[i], status);
      if clients[i].pending == [] && clients[i].running == {} && !clients[i].failed { NothingLeft(cfg, clients[i], asked[i], status); }
    }

    /** Erases a client whose job needs it no longer. */
    method DropClient(i: nat)
      requires Over(i)
      modifies `clients, `asked
      ensures Core() && clients == Without(old(clients), i) && asked == Without(old(asked), i)
    {
      hide Inv, Books, RulesOK;
      clients, asked := clients[..i] + clients[i + 1..], asked[..i] + asked[i + 1..];
    }

    /** What a run of the scheduler keeps: statuses advance, no slot appears, shells stay, real clients only leave, and if no failure
        is tolerated no client that has met one stays. */
    twostate predicate Scheduled()
      reads this
    {
      && Advances(old(status), status) && running - waiting >= old(running - waiting) && keepGoing == old(keepGoing)
      && RealJobs(clients) <= RealJobs(old(clients)) && (!keepGoing && Unfailed(old(clients)) ==> Unfailed(clients))
      && forall p :: p in old(pids) ==> p in pids && pids[p] == old(pids)[p]
    }

    /** Every client waits for a target that is being built, so that only an event can help. */
    ghost predicate Stalled()
      reads this
    {
      running != waiting && forall i :: 0 <= i < |clients| ==> Waits(clients[i], status)
    }

    twostate predicate Unchanged()
      reads this
    {
      Now() == old(Now()) && running == old(running) && waiting == old(waiting) && log == old(log)
    }

    /** One pass over all the clients, as long as there are free slots. */
    method VisitClients() returns (full: bool, restart: bool)
      requires Valid()
      modifies `status, `files, `jobs, `deps, `recs, `pids, `running, `waiting, `log, `counter, `owner, `clients, `asked, `buildFailure
      ensures Valid() && Scheduled()
      ensures full ==> !FreeSlots()
      ensures FreeSlots() ==> forall k :: 0 <= k < |clients| ==> Served(clients[k])
      ensures FreeSlots() && !restart ==> forall k :: 0 <= k < |clients| ==> Waits(clients[k], status)
      ensures Available(cfg, status) <= Available(cfg, old(status))
      ensures Available(cfg, status) == Available(cfg, old(status)) ==>
                |clients| <= |old(clients)| && (restart ==> |clients| < |old(clients)|)
      ensures old(Stalled()) ==> !full && !restart && Unchanged()
    {
      hide Core, AskedOK, Advances, Available, RealJobs, Waits, Ledger, StaysActive, Unfailed;
      AdvancesSelf(status);
      full, restart := false, false;
      var i: nat := 0;
      while i < |clients| && FreeSlots()
        invariant Valid() && Scheduled() && i <= |clients|
        invariant forall k :: 0 <= k < i ==> Served(clients[k])
        invariant !restart ==> forall k :: 0 <= k < i ==> Waits(clients[k], status)
        invariant Available(cfg, status) <= Available(cfg, old(status))
        invariant Available(cfg, status) == Available(cfg, old(status)) ==>
                    |clients| <= |old(clients)| && (restart ==> |clients| < |old(clients)|)
        invariant old(Stalled()) ==> !restart && Unchanged()
        decreases Available(cfg, status), |clients| - i
      {
        ghost var status1, clients1 := status, clients;
        var again, next;
        full, again, next := HandleClient(i);
        assert forall k :: 0 <= k < i ==> clients[k] == clients[..i][k] && clients1[k] == clients1[..i][k];
        AdvancesTransitive(old(status), status1, status);
        if full { return; }
        if !again {
          forall k | 0 <= k < i && Waits(clients1[k], status1) ensures Waits(clients[k], status) { WaitsOn(clients[k], status1, status); }
        }
        restart, i := restart || again, next;
      }
    }

    /** Starts as many pending targets as possible and answers the clients that can be answered.
        True exactly when the server has something left to wait for. Then a process runs, if one did before or if no
        real client was waiting; when every client waits, nothing changes. */
    method HandleClients() returns (more: bool)
      requires Valid()
      modifies `status, `files, `jobs, `deps, `recs, `pids, `running, `waiting, `log, `counter, `owner, `clients, `asked, `buildFailure
      ensures Valid() && Scheduled()
      ensures more <==> running != waiting
      ensures !more ==> clients == [] && running == 0
      ensures more && FreeSlots() ==> forall k :: 0 <= k < |clients| ==> Served(clients[k])
      ensures more && (old(running) > 0 || old(waiting) == 0) ==> running > 0
      ensures old(Stalled()) ==> more && Unchanged() && (running > 0 <==> old(running) > 0)
      ensures old(Honest(clients, pids)) ==> Honest(clients, pids) && (more ==> running > 0)
    {
      hide Core, AskedOK, Advances, Available, RealJobs, Waits, Honest, Ledger, StaysActive, Unfailed;
      AdvancesSelf(status);
      while true
        invariant Valid() && Scheduled()
        invariant old(Stalled()) ==> Unchanged()
        decreases Available(cfg, status), |clients|
      {
        ghost var status1 := status;
        var full, restart := VisitClients();
        AdvancesTransitive(old(status), status1, status);
        HonestStays(old(clients), old(pids), clients, pids);
        ShellsStay(old(pids), pids);
        if full { return true; }
        if running != waiting { return true; }
        if running == 0 && clients == [] { return false; }
        if restart { continue; }
        // There is a circular dependency: break it by failing one of the requests.
        NoClients(clients);
        ghost var status2, clients2 := status, clients;
        RemoveClient(0, false);
        AdvancesTransitive(old(status), status2, status);
        AvailableShrinks(cfg, status2, status);
        if Unfailed(clients2) { UnfailedLess(clients2, 0); }
      }
    }

    // ---------------------------------------------------------------- events

    lemma RunningPids()
      requires Core()
      ensures running == |pids|
    {
      hide Inv, RulesOK, Books;
    }

    /** What is done stays done. */
    twostate lemma LedgerStays()
      requires old(Ledger(asked)) && Advances(old(status), status)
      requires owed == old(owed) && buildFailure == old(buildFailure) && failedBefore == old(failedBefore)
      requires AnyFailed(log) <==> AnyFailed(old(log))
      requires clients == old(clients) && asked == old(asked)
      ensures Ledger(asked)
    {
      hide Advances, AnyFailed, Promised;
      PromiseAdvances(owed, buildFailure, clients, asked, old(status), status);
    }

    /** The end of a shell and of its job. */
    method EndShell(pid: int, success: bool, written: map<Target, int>)
      requires Core() && AskedOK(jobs, clients, asked) && pid in pids && WritesApart(cfg, status, deps, files, written)
      modifies `status, `files, `jobs, `pids, `running, `log
      ensures Core() && AskedOK(jobs, clients, asked) && Advances(old(status), status)
      ensures log == old(log) + [ScriptEnded(old(pids)[pid], success, old(status))] && (AnyFailed(log) <==> AnyFailed(old(log)))
      ensures pids == old(pids) - {pid} && running == old(running) - 1
      ensures jobs == old(jobs) - {old(pids)[pid]}
      ensures Completed(cfg, old(Now()).(pids := old(pids) - {pid}, files := written), Now(), old(pids)[pid], success)
      ensures old(pids)[pid] in old(jobs)
      ensures forall t :: t in old(jobs)[old(pids)[pid]].targets ==>
                t in status && if success then Done(status[t].st) else status[t].st.Failed?
      ensures AllJudged(cfg.now, old(jobs)[old(pids)[pid]].targets, old(status), written, status, files, success)
    {
      hide Inv, Books, AskedOK, RealJobs, Advances, RulesOK, Completed, WritesApart, Elems, HasShell, Delayed, Drivable, Recheckable,
           Prerequisites, AllJudged;
      ghost var s0 := Now();
      var id := pids[pid];
      ShellJob(cfg, s0, pid);
      files, pids, running := written, pids - {pid}, running - 1;
      assert Now() == s0.(pids := s0.pids - {pid}, files := written);
      CompleteJob(id, success);
      ShellJobEnds(cfg, s0, Now(), pid, written, success);
      BooksShellEnded(cfg, presets, s0, Now(), pid, written, success, log);
      log := log + [ScriptEnded(id, success, s0.status)];
    }

    /** A script exits, and may have written any files that do not set siblings apart. */
    method FinalizeJob(pid: int, success: bool, written: map<Target, int>)
      requires Valid() && pid in pids && WritesApart(cfg, status, deps, files, written)
      modifies `status, `files, `jobs, `pids, `running, `log
      ensures Valid() && Advances(old(status), status)
      ensures log == old(log) + [ScriptEnded(old(pids)[pid], success, old(status))]
      ensures pids == old(pids) - {pid} && running == old(running) - 1
      ensures jobs == old(jobs) - {old(pids)[pid]}
      ensures Completed(cfg, old(Now()).(pids := old(pids) - {pid}, files := written), Now(), old(pids)[pid], success)
      ensures old(pids)[pid] in old(jobs)
      ensures forall t :: t in old(jobs)[old(pids)[pid]].targets ==>
                t in status && if success then Done(status[t].st) else status[t].st.Failed?
      ensures AllJudged(cfg.now, old(jobs)[old(pids)[pid]].targets, old(status), written, status, files, success)
    {
      hide Core, AskedOK, RealJobs, Advances, Completed, WritesApart, AllJudged, Ledger;
      RunningPids();
      EndShell(pid, success, written);
      RunningPids();
      LedgerStays();
    }

    /** Reads the targets of a request. They become dependencies of the targets of its job as they are read, even if the
        rest of the message turns out to be ill-formed. */
    method ReadNames(jobId: int, chunks: seq<Chunk>) returns (pending: seq<Target>, ok: bool)
      requires Inv(cfg, Now()) && HasShell(pids, jobId) && Known(chunks)
      requires jobId in jobs && jobs[jobId].targets != [] && jobs[jobId].targets[0] in deps
      modifies `recs
      ensures Inv(cfg, Now()) && (pending, ok) == Names(chunks, false) && Elems(pending) <= cfg.rules.Keys
      ensures deps[jobs[jobId].targets[0]] < |old(recs)|
      ensures recs == Extended(old(Now()), deps[jobs[jobId].targets[0]], Elems(pending)).recs
      ensures var r := deps[jobs[jobId].targets[0]];
        recs == old(recs)[r := Record(old(recs)[r].targets, old(recs)[r].deps + Elems(pending))]
    {
      hide Inv, Names, HasShell;
      ghost var s0 := Now();
      var front := jobs[jobId].targets[0];
      var variable := false;
      pending := [];
      ExtendedKeepsInv(cfg, s0, jobId, front, {});
      ghost var r := deps[front];
      ExtendedNothing(s0, r);
      assert chunks[0..] == chunks;
      NamesOnto([], Names(chunks, false).0);
      var k := 0;
      while k < |chunks|
        modifies `recs
        invariant k <= |chunks| && Elems(pending) <= cfg.rules.Keys
        invariant Inv(cfg, Now()) && r < |recs| && Now() == Extended(s0, r, Elems(pending))
        invariant Names(chunks, false).0 == pending + Names(chunks[k..], variable).0
        invariant Names(chunks, false).1 == Names(chunks[k..], variable).1
      {
        NamesNext(chunks, k, variable);
        NamesOnto(pending, []);
        match chunks[k]
        {
          case Asks(name) =>
            if name == "" { return pending, false; }
            ExtendedKeepsInv(cfg, Now(), jobId, front, {name});
            ExtendedMore(s0, r, pending, name);
            NamesOnto(pending + [name], Names(chunks[k + 1..], variable).0);
            pending := pending + [name];
            recs := recs[deps[front] := recs[deps[front]].(deps := recs[deps[front]].deps + {name})];
          case Variable(name) =>
            if name == "" { return pending, false; }
            variable := true;
          case Word(_) =>
            if !variable { return pending, false; }
          case Unknown =>
            return pending, false;
        }
        k := k + 1;
      }
      NamesEnd(variable);
      NamesOnto(pending, []);
      assert chunks[k..] == [];
      return pending, true;
    }

    /** A script that runs a client of the server asks for targets: the client becomes the first one. */
    method AcceptClient(jobId: int, message: Option<seq<Chunk>>) returns (accepted: bool)
      requires Valid() && Plausible(jobId, message)
      modifies `recs, `clients, `asked, `waiting
      ensures Valid()
      ensures accepted <==> message.Some? && jobId in jobs && Names(message.value, false).1
      ensures accepted ==> clients == [Client(true, jobId, false, Names(message.value, false).0, {}, false)] + old(clients)
      ensures !accepted ==> clients == old(clients)
      ensures waiting == old(waiting) + if accepted then 1 else 0
      ensures if message.Some? && jobId in jobs then
                && jobs[jobId].targets != [] && jobs[jobId].targets[0] in deps && deps[jobs[jobId].targets[0]] < |old(recs)|
                && recs == Extended(old(Now()), deps[jobs[jobId].targets[0]], Elems(Names(message.value, false).0)).recs
              else recs == old(recs)
    {
      hide Core, Inv, RulesOK, Books, AskedOK, RealJobs, Names, HasShell, Promised, AnyFailed, Inserted;
      if message.None? || jobId !in jobs { return false; }
      ShellHere(jobId);
      var pending;
      pending, accepted := ReadNames(jobId, message.value);
      CoreHolds();
      if !accepted { return; }
      PromiseInserted(owed, buildFailure, clients, asked, status, 0, Client(true, jobId, false, pending, {}, false), Elems(pending));
      waiting := waiting + 1;
      CoreHolds();
      Join(jobId, pending);
    }

    lemma CoreHolds()
      requires RulesOK(cfg) && Inv(cfg, Now()) && running == |pids| && Books(cfg, presets, status, owner, pids, log)
      ensures Core()
    {
    }

    lemma ShellHere(id: int)
      requires Core() && HasShell(pids, id)
      ensures id in jobs && jobs[id].targets != [] && jobs[id].targets[0] in deps && |asked| == |clients|
      ensures RulesOK(cfg) && Inv(cfg, Now()) && running == |pids| && Books(cfg, presets, status, owner, pids, log)
    {
      hide Inv, Books, RulesOK;
      ShellJobTargets(cfg, Now(), id);
      SameLength(cfg, Now());
    }

    /** Puts the client of a script in front of all the others. */
    method Join(jobId: int, pending: seq<Target>)
      requires Core() && AskedOK(jobs, clients, asked) && Elems(pending) <= cfg.rules.Keys && |asked| == |clients|
      modifies `clients, `asked
      ensures Core() && AskedOK(jobs, clients, asked)
      ensures clients == [Client(true, jobId, false, pending, {}, false)] + old(clients)
      ensures clients == Inserted(old(clients), 0, Client(true, jobId, false, pending, {}, false))
      ensures asked == Inserted(old(asked), 0, Elems(pending))
      ensures |RealJobs(clients)| == |RealJobs(old(clients))| + 1
    {
      hide Inv, Books, AskedOK, RealJobs, RulesOK, ClientOK;
      ghost var s1, x := Now(), Client(true, jobId, false, pending, {}, false);
      RealClientOK(cfg, x, status);
      AddRequestKeeps(cfg, s1, 0, x);
      clients := [Client(true, jobId, false, pending, {}, false)] + clients;
      asked := [Elems(pending)] + asked;
      assert Now() == WithClient(s1, 0, x, Elems(pending));
    }

    // ---------------------------------------------------------------- whole runs

    /** The server before any request: the dependencies of the last run, phony targets preset, no job. */
    constructor (cfg: Config, keepGoing: bool, presets: StatusMap, deps: map<Target, nat>, recs: seq<Record>, files: map<Target, int>)
      requires Startup(cfg, presets, map[], 0, deps, recs, files)
      ensures Valid() && this.cfg == cfg && this.keepGoing == keepGoing && this.presets == presets
      ensures log == [] && !buildFailure && !failedBefore
      ensures Now() == Initial(presets, map[], 0, deps, recs, files)
    {
      hide Inv, RulesOK, AskedOK, Books, RealJobs, Promised, AnyFailed, Startup;
      InitialInv(cfg, presets, map[], 0, deps, recs, files);
      NothingYet(cfg, presets, map[], 0, deps, recs, files);
      this.cfg, this.keepGoing, this.presets := cfg, keepGoing, presets;
      status, jobs, pids := presets, map[], map[];
      clients, asked, owner := [], [], map[];
      this.deps, this.recs, this.files := deps, recs, files;
      counter, running, waiting, buildFailure := 0, 0, 0, false;
      log, owed, failedBefore := [], {}, false;
      new;
      assert Now() == Initial(presets, map[], 0, deps, recs, files);
    }

    /** The server after the rules were loaded again: everything else is as the first loop left it. */
    constructor Reloaded(previous: Server, cfg: Config)
      requires previous.clients == [] && previous.pids == map[]
      requires Startup(cfg, previous.status, previous.jobs, previous.counter, previous.deps, previous.recs, previous.files)
      ensures Valid() && this.cfg == cfg && keepGoing == previous.keepGoing && presets == previous.status && log == []
      ensures buildFailure == failedBefore == previous.buildFailure
      ensures Now() == Initial(previous.status, previous.jobs, previous.counter, previous.deps, previous.recs, previous.files)
    {
      hide Inv, RulesOK, AskedOK, Books, RealJobs, Promised, AnyFailed, Startup;
      InitialInv(cfg, previous.status, previous.jobs, previous.counter, previous.deps, previous.recs, previous.files);
      NothingYet(cfg, previous.status, previous.jobs, previous.counter, previous.deps, previous.recs, previous.files);
      this.cfg, keepGoing, presets := cfg, previous.keepGoing, previous.status;
      status, jobs, pids := previous.status, previous.jobs, map[];
      clients, asked, owner := [], [], map[];
      deps, recs, files := previous.deps, previous.recs, previous.files;
      counter, running, waiting, buildFailure := previous.counter, 0, 0, previous.buildFailure;
      log, owed, failedBefore := [], {}, previous.buildFailure;
      new;
      assert Now() == Initial(previous.status, previous.jobs, previous.counter, previous.deps, previous.recs, previous.files);
    }

    /** The server itself asks for targets, after all other clients. */
    method AddRequest(targets: seq<Target>)
      requires Valid() && Elems(targets) <= cfg.rules.Keys
      modifies `clients, `asked
      ensures Valid() && clients == old(clients) + [Client(false, -1, false, targets, {}, false)]
      ensures asked == old(asked) + [Elems(targets)]
    {
      hide Inv, Books, AskedOK, RealJobs, RulesOK, ClientOK, Promised, AnyFailed;
      ghost var s0 := Now();
      ghost var x := Client(false, -1, false, targets, {}, false);
      RealClientOK(cfg, x, status);
      AddRequestKeeps(cfg, s0, |clients|, x);
      PromiseInserted(owed, buildFailure, clients, asked, status, |clients|, x, Elems(targets));
      clients := clients + [Client(false, -1, false, targets, {}, false)];
      asked := asked + [Elems(targets)];
      assert clients == Inserted(s0.clients, |s0.clients|, x) && asked == Inserted(s0.asked, |s0.clients|, Elems(targets));
    }

    /** The user interrupts the server: no failure is tolerated any longer. */
    method Interrupt()
      requires Valid()
      modifies `keepGoing
      ensures Valid() && !keepGoing
    {
      hide Inv, Books, RulesOK, AskedOK, Promised, AnyFailed;
      keepGoing := false;
    }

    /** What may happen while the server waits: an interruption, a request, and any number of scripts that exit. When
        scripts are honest, each waits for the answer to its request before it asks again or exits. */
    method HandleEvents(honest: bool)
      requires Valid() && (honest ==> Honest(clients, pids))
      modifies `keepGoing, `status, `files, `jobs, `deps, `recs, `pids, `running, `waiting, `log,
               `counter, `owner, `clients, `asked, `buildFailure
      ensures Valid() && Advances(old(status), status) && (honest ==> Honest(clients, pids))
    {
      hide Inv, Books, RulesOK, AskedOK, RealJobs, Advances, SlotsBounded, Honest, NoneOf, WritesApart, Names, Promised, AnyFailed;
      AdvancesSelf(status);
      if * { Interrupt(); }
      var jobId: int, message: Option<seq<Chunk>> := *, *;
      if Plausible(jobId, message) && (honest ==> NoneOf(clients, jobId)) {
        ghost var clients0 := clients;
        var accepted := AcceptClient(jobId, message);
        if honest && accepted { HonestAsks(clients0, pids, clients[0]); }
      }
      var reaping: bool := *;
      while reaping
        invariant Valid() && Advances(old(status), status) && (honest ==> Honest(clients, pids))
        decreases |pids|, reaping
      {
        reaping := *;
        var success: bool, written: map<Target, int> := *, *;
        if pid :| pid in pids && WritesApart(cfg, status, deps, files, written) && (honest ==> NoneOf(clients, pids[pid])) {
          if honest { HonestExits(cfg, Now(), pid); }
          ghost var status1 := status;
          FinalizeJob(pid, success, written);
          AdvancesTransitive(old(status), status1, status);
        } else {
          break;
        }
      }
    }

    /** From now on the present requests of the server itself are owed. */
    ghost method OpenLedger()
      requires Valid()
      modifies `owed
      ensures Valid() && owed == OwnAsked(clients, asked)
    {
      hide Inv, Books, RulesOK, AskedOK, RealJobs, Promised, AnyFailed, OwnAsked;
      PromiseBegins(owed, buildFailure, clients, asked, status);
      owed := OwnAsked(clients, asked);
    }

    /** Runs the server through any number of events. Whatever happens, scripts start and requests succeed only
        once what they asked for is done, and the limit on parallel jobs holds; the loop ends with nothing left to do.
        With honest scripts a process runs whenever the server waits. */
    method ServerLoop(events: nat, honest: bool) returns (finished: bool, ghost waits: seq<int>)
      requires Valid() && (honest ==> Honest(clients, pids))
      modifies this
      ensures Valid() && Advances(old(status), status)
      ensures forall i :: 0 <= i < |log| ==> SafeAction(log[i]) && Advances(log[i].at, status)
      ensures cfg.maxJobs > 0 ==> |pids| - |RealJobs(clients)| <= cfg.maxJobs
      ensures finished ==> clients == [] && pids == map[]
      ensures !finished ==> |waits| == events
      ensures honest ==> Honest(clients, pids) && forall k :: 0 <= k < |waits| ==> waits[k] > 0
      ensures finished && !buildFailure ==> AllDone(old(OwnAsked(clients, asked)), status)
      ensures failedBefore == old(failedBefore) && (buildFailure <==> failedBefore || AnyFailed(log))
    {
      hide Core, AskedOK, RealJobs, Advances, SlotsBounded, Honest, Served, FreeSlots, Stalled, Waits, Ledger;
      AdvancesSelf(status);
      finished, waits := false, [];
      OpenLedger();
      for event := 0 to events
        invariant Valid() && Advances(old(status), status) && |waits| == event
        invariant owed == old(OwnAsked(clients, asked)) && failedBefore == old(failedBefore)
        invariant honest ==> Honest(clients, pids) && forall k :: 0 <= k < |waits| ==> waits[k] > 0
      {
        ghost var status1 := status;
        var more := HandleClients();
        AdvancesTransitive(old(status), status1, status);
        if !more {
          finished := true;
          break;
        }
        waits := waits + [running];
        ghost var status2 := status;
        HandleEvents(honest);
        AdvancesTransitive(old(status), status2, status);
      }
      Promises();
      if finished { PromiseEnds(owed, buildFailure, asked, status); }
    }

    /** The server asks for targets itself, and loops until there is nothing left to do. Without a reported failure all the
        targets are done then; a failure is recorded exactly when the request was answered with one. */
    method Build(targets: seq<Target>, events: nat) returns (finished: bool)
      requires Valid() && clients == [] && Elems(targets) <= cfg.rules.Keys
      modifies this
      ensures Valid() && Advances(old(status), status) && Books(cfg, presets, status, owner, pids, log)
      ensures finished ==> clients == [] && pids == map[]
      ensures finished && !buildFailure ==> AllDone(Elems(targets), status)
      ensures failedBefore == old(failedBefore) && (buildFailure <==> failedBefore || AnyFailed(log))
    {
      hide Core, Ledger, AskedOK, RealJobs, Advances, SlotsBounded, Honest, OwnAsked, AllDone, AnyFailed, SafeAction, Elems;
      Promises();
      AddRequest(targets);
      OwnRequest(clients[0], Elems(targets));
      assert clients == [clients[0]] && asked == [Elems(targets)];
      ghost var waits;
      finished, waits := ServerLoop(events, false);
      Promises();
    }

    /** The first lookup leaves nothing to be asked for. */
    method FirstLookUp(target: Target) returns (e: Entry)
      requires Valid() && clients == [] && target in cfg.rules
      modifies `status, `log
      ensures Valid() && Advances(old(status), status)
      ensures target in status && e == status[target]
      ensures old(status) == map[] && Acyclic(Database()) && !cfg.obsolete ==> (e.st.Uptodate? <==> AllFresh(Database(), target))
    {
      hide Inv, Books, RulesOK, AskedOK, RealJobs, Promised, AnyFailed, Advances, Acyclic, AllFresh, StaysActive;
      ghost var before := status;
      e := LookUp(target);
      PromiseAdvances(owed, buildFailure, clients, asked, before, status);
    }

    /** What the invariant says about the outside. */
    lemma Promises()
      requires Valid()
      ensures running == |pids| && Books(cfg, presets, status, owner, pids, log) && LogOK(log, status) && |asked| == |clients|
      ensures Promised(owed, buildFailure, clients, asked, status) && (buildFailure <==> failedBefore || AnyFailed(log))
      ensures cfg.maxJobs > 0 ==> |pids| - |RealJobs(clients)| <= cfg.maxJobs
    {
      SameLength(cfg, Now());
      hide Inv, RulesOK, Promised, AnyFailed;
    }
  }

  /** A whole run of the program: if the file with the rules is not up-to-date it is rebuilt first, which may fail, and
      the rules are loaded again; then the targets of the user are built. */
  method ServerMode(cfg: Config, reloaded: Config, keepGoing: bool, presets: StatusMap, deps: map<Target, nat>, recs: seq<Record>,
                    files: map<Target, int>, remakefile: Target, targets: seq<Target>, events: nat)
    returns (first: Server, last: Server, finished: bool)
    requires Startup(cfg, presets, map[], 0, deps, recs, files) && RulesOK(reloaded) && SameGroups(cfg, reloaded)
    requires remakefile in cfg.rules && Elems(targets) <= cfg.rules.Keys
    ensures fresh(first) && fresh(last) && first.Valid() && last.Valid()
    ensures Advances(presets, first.status) && Advances(first.status, last.status)
    ensures LogOK(first.log, last.status) && LogOK(last.log, last.status)
    ensures first.presets == presets && (first == last || last.presets == first.status)
    ensures Books(first.cfg, first.presets, first.status, first.owner, first.pids, first.log)
    ensures Books(last.cfg, last.presets, last.status, last.owner, last.pids, last.log)
    ensures finished ==> last.clients == [] && last.pids == map[]
    ensures finished && first != last ==> first.clients == [] && first.pids == map[] && !first.buildFailure
    ensures finished && !last.buildFailure ==> AllDone(Elems(targets), last.status) && AllDone({remakefile}, first.status)
    ensures finished && last.buildFailure ==> AnyFailed(last.log)
    ensures first.cfg == cfg && (first == last || last.cfg == reloaded)
    ensures finished && !last.buildFailure && presets == map[] && !cfg.obsolete && Acyclic(Db(deps, recs, files, false)) ==>
              (first == last <==> AllFresh(Db(deps, recs, files, false), remakefile))
  {
    hide Startup, SafeAction, LogOK, Advances, AnyFailed, AllDone, Elems, Acyclic, AllFresh, Inv, RulesOK, AskedOK, RealJobs, Promised;
    first := new Server(cfg, keepGoing, presets, deps, recs, files);
    last := first;
    var e := first.FirstLookUp(remakefile);
    OneDone(remakefile, first.status);
    AdvancesSelf(first.status);
    if !e.st.Uptodate? {
      ghost var looked := first.status;
      finished := first.Build([remakefile], events);
      AdvancesTransitive(presets, looked, first.status);
      AdvancesSelf(first.status);
      if !finished || first.buildFailure { return; }
      LoopIsOver(cfg, first.Now(), reloaded);
      last := new Server.Reloaded(first, reloaded);
    }
    ghost var before := last.status;
    finished := last.Build(targets, events);
    DoneStays({remakefile}, before, last.status);
    AdvancesTransitive(presets, before, last.status);
    AdvancesSelf(last.status);
    if first != last { LogAdvances(first.log, before, last.status); }
  }

  lemma OneDone(t: Target, status: StatusMap)
    ensures Elems([t]) == {t} && (t in status && Done(status[t].st) ==> AllDone({t}, status))
  {
  }

  /** The operating system gives a new process an identifier that no live process has. */
  method FreshPid(used: set<int>) returns (pid: int)
    ensures pid !in used
  {
    FreshInt(used);
    pid :| pid !in used;
  }

  lemma FreshInt(used: set<int>)
    ensures exists pid :: pid !in used
  {
    var bound := UpperBound(used);
    assert bound + 1 !in used;
  }

  lemma UpperBound(used: set<int>) returns (bound: int)
    ensures forall x :: x in used ==> x <= bound
  {
    bound := 0;
    if x :| x in used {
      var rest := UpperBound(used - {x});
      bound := if x > rest then x else rest;
      forall y | y in used ensures y <= bound {
        assert y != x ==> y in used - {x};
      }
    }
  }
}