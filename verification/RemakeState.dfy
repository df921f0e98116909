/** The state of the build server as a value: what it must satisfy, and what one step does to it. */
module RemakeState {
  import opened RemakeRules

  datatype BuildStatus = Uptodate | Todo | Recheck | Running | RunningRecheck | Remade | Failed

  predicate Startable(st: BuildStatus) { st.Todo? || st.Recheck? }

  predicate Active(st: BuildStatus) { st.Running? || st.RunningRecheck? }

  predicate Done(st: BuildStatus) { st.Uptodate? || st.Remade? }

  predicate Finished(st: BuildStatus) { Done(st) || st.Failed? }

  /** Status of a target and the modification time it was last seen with. */
  datatype Entry = Entry(st: BuildStatus, last: int)

  type StatusMap = map<Target, Entry>

  /** What the dependency database knows about a group of targets built together. */
  datatype Record = Record(targets: seq<Target>, deps: set<Target>)

  /** A pending request: of a script that called the server, or of the server itself. */
  datatype Client = Client(socket: bool, jobId: int, failed: bool, pending: seq<Target>, running: set<Target>, delayed: bool)

  /** What stays fixed while the server loop runs. `universe` holds every target that can be
      met and `rules` is what rule resolution yields on it. */
  datatype Config = Config(specific: map<Target, Rule>, generic: seq<Rule>, maxJobs: int, obsolete: bool, now: int,
                           universe: set<Target>, rules: map<Target, Rule>)

  /** Everything the server updates. Records are shared, so `deps` maps a target to the place of its record in `recs`.
      `asked` (what each client ever requested) and `owner` (the job that marked a target) are history, not data. */
  datatype State = State(status: StatusMap, jobs: map<int, Rule>, pids: map<int, int>,
                         clients: seq<Client>, asked: seq<set<Target>>, owner: map<Target, int>,
                         deps: map<Target, nat>, recs: seq<Record>, files: map<Target, int>, counter: nat)

  function Elems(s: seq<Target>): (r: set<Target>)
    ensures forall x :: x in r <==> x in s
  {
    set x | x in s
  }

  function Prerequisites(rule: Rule): set<Target> { Elems(rule.deps) + Elems(rule.wdeps) }

  // ---------------------------------------------------------------- well-formed inputs

  /** Rules are the ones that resolution yields, agree on groups, and stay in the universe. */
  ghost predicate RulesOK(c: Config) {
    && c.rules.Keys == c.universe && FiledUnderTargets(c.specific)
    && (forall t :: t in c.rules ==> c.rules[t] == RuleFor(c.specific, c.generic, t))
    && GroupsAgree(c)
  }

  /** All the targets of a rule have rules with the same targets. */
  ghost predicate GroupsAgree(c: Config) {
    && (forall t, u :: t in c.rules && u in c.rules[t].targets ==>
          u in c.rules && Elems(c.rules[u].targets) == Elems(c.rules[t].targets))
    && (forall t :: t in c.rules ==> Prerequisites(c.rules[t]) <= c.rules.Keys)
  }

  ghost predicate GroupsOK(c: Config) {
    (forall t :: t in c.rules && c.rules[t].targets != [] ==> t in c.rules[t].targets) && GroupsAgree(c)
  }

  /** All the targets of a record share that record, and a record groups what the rules group. */
  ghost predicate DbOK(c: Config, deps: map<Target, nat>, recs: seq<Record>) {
    && (forall t :: t in deps ==> deps[t] < |recs| && t in recs[deps[t]].targets)
    && (forall t, u :: t in deps && u in recs[deps[t]].targets ==> u in deps && deps[u] == deps[t])
    && (forall t :: t in deps && t in c.rules ==> RecordOK(c, t, recs[deps[t]]))
  }

  ghost predicate RecordOK(c: Config, t: Target, rec: Record)
    requires t in c.rules
  {
    && Elems(rec.targets) <= c.rules.Keys && rec.deps <= c.rules.Keys
    && (c.rules[t].targets != [] ==> Elems(rec.targets) == Elems(c.rules[t].targets))
  }

  // ---------------------------------------------------------------- invariants

  /** Siblings are never in conflicting phases, so that starting one cannot revoke a verdict on another. */
  ghost predicate PhasesOK(c: Config, status: StatusMap, deps: map<Target, nat>, recs: seq<Record>, files: map<Target, int>) {
    && (forall t, u :: t in c.rules && u in c.rules[t].targets ==> SiblingsOK(status, deps, files, t, u))
    && (!c.obsolete ==> forall t, u :: t in deps && t in status && deps[t] < |recs| && u in recs[deps[t]].targets ==> u in status)
  }

  ghost predicate SiblingsOK(status: StatusMap, deps: map<Target, nat>, files: map<Target, int>, t: Target, u: Target) {
    && (t in status && u in status && Startable(status[t].st) ==> Startable(status[u].st))
    && (t in status && u !in status ==>
          status[t].st == if t in deps || t !in files then Todo else Uptodate)
    && (u !in status && t !in deps ==> (t in files <==> u in files))
  }

  /** Every active target belongs to exactly one live job, and every target of a live job is active. */
  ghost predicate JobsOK(c: Config, jobs: map<int, Rule>, counter: nat, owner: map<Target, int>, status: StatusMap) {
    && (forall j :: j in jobs ==> 0 <= j < counter)
    && JobRulesOK(c, jobs) && TargetsActive(jobs, owner, status) && ActiveOwned(jobs, owner, status)
  }

  ghost predicate JobRulesOK(c: Config, jobs: map<int, Rule>) {
    forall j :: j in jobs ==> JobRuleOK(c, jobs[j])
  }

  ghost predicate JobRuleOK(c: Config, rule: Rule) {
    && Prerequisites(rule) <= c.rules.Keys
    && forall t :: t in rule.targets ==> t in c.rules && Elems(c.rules[t].targets) == Elems(rule.targets)
  }

  ghost predicate TargetsActive(jobs: map<int, Rule>, owner: map<Target, int>, status: StatusMap) {
    forall j, t :: j in jobs && t in jobs[j].targets ==>
      t in status && Active(status[t].st) && t in owner && owner[t] == j
  }

  ghost predicate ActiveOwned(jobs: map<int, Rule>, owner: map<Target, int>, status: StatusMap) {
    forall t :: t in status && Active(status[t].st) ==>
      t in owner && owner[t] in jobs && t in jobs[owner[t]].targets
  }

  ghost predicate Drivable(jobs: map<int, Rule>, j: int) { j in jobs && jobs[j].targets != [] }

  predicate HasShell(pids: map<int, int>, j: int) { exists p :: p in pids && pids[p] == j }

  ghost predicate Delayed(clients: seq<Client>, j: int) {
    exists client :: client in clients && client.delayed && client.jobId == j
  }

  /** Every live job has either one shell or one dependency client, except the jobs in `hole`, which have neither. */
  ghost predicate DriversOK(jobs: map<int, Rule>, pids: map<int, int>, clients: seq<Client>, deps: map<Target, nat>, hole: set<int>) {
    && ShellsOK(jobs, pids, deps) && DelayedOK(jobs, clients)
    && (forall j :: j in hole ==> Drivable(jobs, j) && !HasShell(pids, j) && !Delayed(clients, j))
    && (forall j :: HasShell(pids, j) ==> !Delayed(clients, j))
    && (forall j :: Drivable(jobs, j) ==> j in hole || HasShell(pids, j) || Delayed(clients, j))
  }

  /** Shells run distinct live jobs, whose targets are recorded in the database. */
  ghost predicate ShellsOK(jobs: map<int, Rule>, pids: map<int, int>, deps: map<Target, nat>) {
    && (forall p, q :: p in pids && q in pids && pids[p] == pids[q] ==> p == q)
    && (forall p :: p in pids ==> Drivable(jobs, pids[p]))
    && (forall p, t :: p in pids && pids[p] in jobs && t in jobs[pids[p]].targets ==> t in deps)
  }

  /** Dependency clients serve distinct live jobs. */
  ghost predicate DelayedOK(jobs: map<int, Rule>, clients: seq<Client>) {
    && (forall i, k :: 0 <= i < k < |clients| && clients[i].delayed && clients[k].delayed ==>
          clients[i].jobId != clients[k].jobId)
    && (forall client :: client in clients && client.delayed ==> Drivable(jobs, client.jobId))
  }

  /** A dependency client asks for exactly the prerequisites of its job. */
  ghost predicate AskedOK(jobs: map<int, Rule>, clients: seq<Client>, asked: seq<set<Target>>) {
    && |asked| == |clients|
    && forall i :: 0 <= i < |clients| && clients[i].delayed ==>
         clients[i].jobId in jobs && asked[i] == Prerequisites(jobs[clients[i].jobId])
  }

  /** Pending, running and finished targets partition what a client requested; a failure is never forgotten. */
  ghost predicate ClientOK(c: Config, client: Client, asked: set<Target>, status: StatusMap) {
    && (client.delayed ==> !client.socket)
    && Elems(client.pending) <= asked && client.running <= asked && asked <= c.rules.Keys
    && (forall t :: t in client.running ==> t in status && (Active(status[t].st) || Finished(status[t].st)))
    && (forall t :: t in asked && t !in client.pending && t !in client.running ==>
          t in status && Finished(status[t].st) && (status[t].st.Failed? ==> client.failed))
  }

  ghost predicate ClientsOK(c: Config, clients: seq<Client>, asked: seq<set<Target>>, status: StatusMap) {
    && |asked| == |clients|
    && forall i :: 0 <= i < |clients| ==> ClientOK(c, clients[i], asked[i], status)
  }

  /** A recheck can be decided: the target has a record and all its dependencies have a status. */
  ghost predicate Recheckable(status: StatusMap, deps: map<Target, nat>, recs: seq<Record>, t: Target) {
    t in deps && deps[t] < |recs| && recs[deps[t]].deps <= status.Keys
  }

  ghost predicate RechecksOK(status: StatusMap, jobs: map<int, Rule>, pids: map<int, int>, deps: map<Target, nat>, recs: seq<Record>, hole: set<int>) {
    && (forall t :: t in status && status[t].st.Recheck? ==> Recheckable(status, deps, recs, t))
    && (forall j, t :: j in jobs && !HasShell(pids, j) && j !in hole && t in jobs[j].targets ==>
          (t in status && status[t].st.RunningRecheck? ==> Recheckable(status, deps, recs, t)))
  }

  ghost predicate Inv(c: Config, s: State, hole: set<int> := {}) {
    && GroupsOK(c) && DbOK(c, s.deps, s.recs) && s.status.Keys <= c.rules.Keys
    && PhasesOK(c, s.status, s.deps, s.recs, s.files)
    && JobsOK(c, s.jobs, s.counter, s.owner, s.status)
    && DriversOK(s.jobs, s.pids, s.clients, s.deps, hole)
    && ClientsOK(c, s.clients, s.asked, s.status)
    && RechecksOK(s.status, s.jobs, s.pids, s.deps, s.recs, hole)
  }

  // ---------------------------------------------------------------- lifecycle

  function Rank(st: BuildStatus): nat {
    if Startable(st) then 0 else if Active(st) then 1 else 2
  }

  /** Statuses are never dropped, move only forward, and are final once finished. */
  ghost predicate Advances(old_: StatusMap, new_: StatusMap) {
    forall t :: t in old_ ==>
      t in new_ && (new_[t].st == old_[t].st || Rank(old_[t].st) < Rank(new_[t].st))
  }

  lemma AdvancesTransitive(a: StatusMap, b: StatusMap, d: StatusMap)
    requires Advances(a, b) && Advances(b, d)
    ensures Advances(a, d)
  {
    forall t | t in a ensures t in d && (d[t].st == a[t].st || Rank(a[t].st) < Rank(d[t].st)) {
      assert t in b;
    }
  }

  /** Targets of the universe that may still be started. */
  ghost function Available(c: Config, status: StatusMap): set<Target> {
    set t | t in c.rules && (t !in status || Startable(status[t].st))
  }

  lemma AvailableShrinks(c: Config, a: StatusMap, b: StatusMap)
    requires Advances(a, b)
    ensures Available(c, b) <= Available(c, a)
  {
  }

  // ---------------------------------------------------------------- steps

  /** What looking up the status of targets may add: verdicts on targets that had none, group by group. */
  ghost predicate Looked(c: Config, s: State, status': StatusMap) {
    && status'.Keys <= c.rules.Keys
    && (forall t :: t in s.status ==> t in status' && status'[t] == s.status[t])
    && (forall t :: t in status' && t !in s.status ==>
          (status'[t].st.Uptodate? || Startable(status'[t].st)) && Found(c, s, status', t))
  }

  ghost predicate Found(c: Config, s: State, status': StatusMap, t: Target)
    requires t in status'
  {
    if t !in s.deps then status'[t] == if t in s.files then Entry(Uptodate, s.files[t]) else Entry(Todo, 0)
    else if c.obsolete then status'[t] == Entry(Todo, 0)
    else
      && s.deps[t] < |s.recs|
      && (forall u :: u in s.recs[s.deps[t]].targets ==>
            u in status' && u !in s.status && status'[u].st == status'[t].st)
      && (status'[t].st.Recheck? ==> s.recs[s.deps[t]].deps <= status'.Keys)
  }

  /** Siblings are recorded together, if at all. */
  lemma RecordedTogether(c: Config, deps: map<Target, nat>, recs: seq<Record>, t: Target, u: Target)
    requires GroupsOK(c) && DbOK(c, deps, recs) && t in c.rules && u in c.rules[t].targets
    ensures u in c.rules && t in c.rules[u].targets
    ensures t in deps <==> u in deps
    ensures t in deps ==> deps[u] == deps[t] && u in recs[deps[t]].targets
  {
    SameGroup(c, t, t, u);
    hide GroupsOK;
    if t in deps { RecordHoldsGroup(c, deps, recs, t, u); }
    if u in deps { RecordHoldsGroup(c, deps, recs, u, t); }
  }

  lemma RecordHoldsGroup(c: Config, deps: map<Target, nat>, recs: seq<Record>, t: Target, u: Target)
    requires DbOK(c, deps, recs) && t in c.rules && u in c.rules[t].targets && t in deps
    ensures u in deps && deps[u] == deps[t] && u in recs[deps[t]].targets
  {
    assert RecordOK(c, t, recs[deps[t]]);
    assert u in Elems(c.rules[t].targets);
  }

  lemma LookedKeepsSiblings(c: Config, s: State, status': StatusMap, t: Target, u: Target)
    requires t in s.deps <==> u in s.deps
    requires t in s.deps ==> s.deps[t] < |s.recs| && s.deps[u] == s.deps[t] && t in s.recs[s.deps[t]].targets && u in s.recs[s.deps[t]].targets
    requires Looked(c, s, status')
    requires SiblingsOK(s.status, s.deps, s.files, t, u) && SiblingsOK(s.status, s.deps, s.files, u, t)
    ensures SiblingsOK(status', s.deps, s.files, t, u)
  {
    if t in status' && t !in s.status { assert Found(c, s, status', t); }
    if u in status' && u !in s.status { assert Found(c, s, status', u); }
  }

  lemma LookedKeepsPhases(c: Config, s: State, status': StatusMap)
    requires GroupsOK(c) && DbOK(c, s.deps, s.recs) && PhasesOK(c, s.status, s.deps, s.recs, s.files)
    requires Looked(c, s, status')
    ensures PhasesOK(c, status', s.deps, s.recs, s.files)
  {
    forall t, u | t in c.rules && u in c.rules[t].targets ensures SiblingsOK(status', s.deps, s.files, t, u) {
      RecordedTogether(c, s.deps, s.recs, t, u);
      LookedKeepsSiblings(c, s, status', t, u);
    }
    if !c.obsolete {
      forall t, u | t in s.deps && t in status' && u in s.recs[s.deps[t]].targets ensures u in status' {
        if t !in s.status { assert Found(c, s, status', t); }
      }
    }
  }

  lemma AdvancesKeepsClients(c: Config, clients: seq<Client>, asked: seq<set<Target>>, a: StatusMap, b: StatusMap)
    requires ClientsOK(c, clients, asked, a) && Advances(a, b)
    ensures ClientsOK(c, clients, asked, b)
  {
    forall i | 0 <= i < |clients| ensures ClientOK(c, clients[i], asked[i], b) {
      assert ClientOK(c, clients[i], asked[i], a);
    }
  }

  lemma LookedKeepsRechecks(c: Config, s: State, status': StatusMap, hole: set<int>)
    requires RechecksOK(s.status, s.jobs, s.pids, s.deps, s.recs, hole) && JobsOK(c, s.jobs, s.counter, s.owner, s.status)
    requires Looked(c, s, status')
    ensures RechecksOK(status', s.jobs, s.pids, s.deps, s.recs, hole)
  {
    forall t | t in status' && status'[t].st.Recheck? ensures Recheckable(status', s.deps, s.recs, t) {
      if t in s.status { assert Recheckable(s.status, s.deps, s.recs, t); } else { assert Found(c, s, status', t); }
    }
  }

  lemma LookedKeepsJobs(c: Config, s: State, status': StatusMap)
    requires JobsOK(c, s.jobs, s.counter, s.owner, s.status) && Looked(c, s, status')
    ensures JobsOK(c, s.jobs, s.counter, s.owner, status')
  {
    assert TargetsActive(s.jobs, s.owner, status');
    assert ActiveOwned(s.jobs, s.owner, status');
  }

  lemma LookedKeepsInv(c: Config, s: State, status': StatusMap, hole: set<int>)
    requires Inv(c, s, hole) && Looked(c, s, status')
    ensures Inv(c, s.(status := status'), hole) && Advances(s.status, status')
  {
    LookedKeepsPhases(c, s, status');
    LookedKeepsJobs(c, s, status');
    LookedKeepsRechecks(c, s, status', hole);
    AdvancesKeepsClients(c, s.clients, s.asked, s.status, status');
  }

  // Starting a job.

  /** No rule builds `t`: a job without targets is left behind and the target fails. */
  ghost function WithoutRule(c: Config, s: State, t: Target): State
    requires t in s.status && t in c.rules
  {
    s.(status := s.status[t := s.status[t].(st := Failed)], jobs := s.jobs[s.counter := c.rules[t]], counter := s.counter + 1)
  }

  lemma FailureKeepsPhases(c: Config, s: State, t: Target)
    requires GroupsOK(c) && DbOK(c, s.deps, s.recs) && PhasesOK(c, s.status, s.deps, s.recs, s.files)
    requires t in c.rules && t in s.status && c.rules[t].targets == []
    ensures PhasesOK(c, s.status[t := s.status[t].(st := Failed)], s.deps, s.recs, s.files)
  {
    var status' := s.status[t := s.status[t].(st := Failed)];
    forall x, u | x in c.rules && u in c.rules[x].targets ensures SiblingsOK(status', s.deps, s.files, x, u) {
      assert SiblingsOK(s.status, s.deps, s.files, x, u);
      RecordedTogether(c, s.deps, s.recs, x, u);
    }
  }

  lemma WithoutRuleKeepsInv(c: Config, s: State, t: Target)
    requires Inv(c, s) && t in c.rules && t in s.status && Startable(s.status[t].st) && c.rules[t].targets == []
    ensures Inv(c, WithoutRule(c, s, t)) && Advances(s.status, WithoutRule(c, s, t).status)
  {
    var s' := WithoutRule(c, s, t);
    hide PhasesOK, DriversOK, ClientsOK, RechecksOK, DbOK, JobsOK;
    FailureKeepsPhases(c, s, t);
    AdvancesKeepsClients(c, s.clients, s.asked, s.status, s'.status);
    FailureKeepsJobs(c, s, t);
    hide GroupsOK;
    EmptyJobKeepsDrivers(s.jobs, s.pids, s.clients, s.deps, s.counter, c.rules[t]);
    FailureKeepsRechecks(s, t, s'.jobs);
  }

  lemma FailureKeepsRechecks(s: State, t: Target, jobs': map<int, Rule>)
    requires RechecksOK(s.status, s.jobs, s.pids, s.deps, s.recs, {}) && t in s.status
    requires forall j :: j in jobs' && jobs'[j].targets != [] ==> j in s.jobs && jobs'[j] == s.jobs[j]
    ensures RechecksOK(s.status[t := s.status[t].(st := Failed)], jobs', s.pids, s.deps, s.recs, {})
  {
    KeepsRechecks(s.status, s.status[t := s.status[t].(st := Failed)], s.jobs, jobs', s.pids, s.deps, s.recs, {}, {});
  }

  lemma KeepsRechecks(a: StatusMap, b: StatusMap, jobs: map<int, Rule>, jobs': map<int, Rule>, pids: map<int, int>,
                      deps: map<Target, nat>, recs: seq<Record>, hole: set<int>, hole': set<int>)
    requires RechecksOK(a, jobs, pids, deps, recs, hole) && a.Keys <= b.Keys
    requires forall t :: t in b && b[t].st.Recheck? ==> t in a && a[t].st.Recheck?
    requires forall j :: j in jobs' && jobs'[j].targets != [] && !HasShell(pids, j) && j !in hole' ==>
                           j in jobs && j !in hole && jobs[j] == jobs'[j]
                           && forall t :: t in jobs[j].targets && t in b && b[t].st.RunningRecheck? ==> t in a && a[t].st.RunningRecheck?
    ensures RechecksOK(b, jobs', pids, deps, recs, hole')
  {
    forall t | t in b && b[t].st.Recheck? ensures Recheckable(b, deps, recs, t) {
      assert Recheckable(a, deps, recs, t);
    }
    forall j, t | j in jobs' && !HasShell(pids, j) && j !in hole' && t in jobs'[j].targets && t in b && b[t].st.RunningRecheck?
      ensures Recheckable(b, deps, recs, t)
    {
      assert Recheckable(a, deps, recs, t);
    }
  }

  lemma FailureKeepsJobs(c: Config, s: State, t: Target)
    requires GroupsOK(c) && JobsOK(c, s.jobs, s.counter, s.owner, s.status)
    requires t in c.rules && t in s.status && !Active(s.status[t].st) && c.rules[t].targets == []
    ensures var s' := WithoutRule(c, s, t); JobsOK(c, s'.jobs, s'.counter, s.owner, s'.status)
    ensures s.counter !in s.jobs
  {
    var s' := WithoutRule(c, s, t);
    hide GroupsOK, TargetsActive, ActiveOwned, JobRuleOK;
    RuleIsOK(c, t);
    FailureKeepsActive(s.jobs, s'.jobs, s.owner, s.status, t);
  }

  lemma FailureKeepsActive(jobs: map<int, Rule>, jobs': map<int, Rule>, owner: map<Target, int>, status: StatusMap, t: Target)
    requires TargetsActive(jobs, owner, status) && ActiveOwned(jobs, owner, status) && t in status && !Active(status[t].st)
    requires forall j :: j in jobs ==> j in jobs' && jobs'[j] == jobs[j]
    requires forall j :: j in jobs' && j !in jobs ==> jobs'[j].targets == []
    ensures TargetsActive(jobs', owner, status[t := status[t].(st := Failed)])
    ensures ActiveOwned(jobs', owner, status[t := status[t].(st := Failed)])
  {
    var status' := status[t := status[t].(st := Failed)];
    forall x | x in status' && Active(status'[x].st)
      ensures x in owner && owner[x] in jobs' && x in jobs'[owner[x]].targets
    {
      var j := owner[x];
      assert j in jobs && j in jobs';
    }
  }

  lemma EmptyJobKeepsDrivers(jobs: map<int, Rule>, pids: map<int, int>, clients: seq<Client>, deps: map<Target, nat>, id: int, rule: Rule)
    requires DriversOK(jobs, pids, clients, deps, {}) && id !in jobs && rule.targets == []
    ensures DriversOK(jobs[id := rule], pids, clients, deps, {})
  {
    var jobs' := jobs[id := rule];
    assert forall j :: Drivable(jobs', j) ==> Drivable(jobs, j);
    assert ShellsOK(jobs', pids, deps);
    assert DelayedOK(jobs', clients);
  }

  lemma NewJobKeepsDrivers(jobs: map<int, Rule>, pids: map<int, int>, clients: seq<Client>, deps: map<Target, nat>, id: int, rule: Rule)
    requires DriversOK(jobs, pids, clients, deps, {}) && id !in jobs && rule.targets != []
    ensures DriversOK(jobs[id := rule], pids, clients, deps, {id})
  {
    var jobs' := jobs[id := rule];
    assert forall j :: Drivable(jobs', j) ==> j == id || Drivable(jobs, j);
    assert ShellsOK(jobs', pids, deps);
    assert DelayedOK(jobs', clients);
    assert !HasShell(pids, id);
    assert !Delayed(clients, id);
  }

  /** The statuses once all of `targets` are marked; a target without entry gets one with time 0. */
  ghost function Marked(status: StatusMap, targets: seq<Target>, st: BuildStatus): StatusMap {
    map t | t in status.Keys + Elems(targets) ::
      if t in targets then Entry(st, if t in status then status[t].last else 0) else status[t]
  }

  ghost function Owned(owner: map<Target, int>, targets: seq<Target>, id: int): map<Target, int> {
    map t | t in owner.Keys + Elems(targets) :: if t in targets then id else owner[t]
  }

  ghost function Started(c: Config, s: State, t: Target, st: BuildStatus): State
    requires t in c.rules
  {
    var targets := c.rules[t].targets;
    s.(status := Marked(s.status, targets, st), jobs := s.jobs[s.counter := c.rules[t]], counter := s.counter + 1,
       owner := Owned(s.owner, targets, s.counter))
  }

  ghost predicate StartOf(c: Config, s: State, t: Target, st: BuildStatus) {
    && t in c.rules && c.rules[t].targets != [] && t in s.status && Startable(s.status[t].st)
    && (st.Running? || (st.RunningRecheck? && s.status[t].st.Recheck?))
  }

  lemma StartedAdvances(c: Config, s: State, t: Target, st: BuildStatus)
    requires GroupsOK(c) && PhasesOK(c, s.status, s.deps, s.recs, s.files) && StartOf(c, s, t, st)
    ensures Advances(s.status, Started(c, s, t, st).status)
    ensures forall x :: x in c.rules[t].targets && x in s.status ==> Startable(s.status[x].st)
  {
    forall x | x in c.rules[t].targets && x in s.status ensures Startable(s.status[x].st) {
      assert SiblingsOK(s.status, s.deps, s.files, t, x);
    }
  }

  lemma StartedKeepsSiblings(c: Config, s: State, t: Target, st: BuildStatus, x: Target, u: Target)
    requires GroupsOK(c) && StartOf(c, s, t, st) && x in c.rules && u in c.rules[x].targets
    requires SiblingsOK(s.status, s.deps, s.files, x, u)
    ensures SiblingsOK(Started(c, s, t, st).status, s.deps, s.files, x, u)
  {
    SameGroup(c, t, x, u);
    hide GroupsOK;
  }

  lemma StartedKeepsRecords(c: Config, s: State, t: Target, st: BuildStatus, x: Target, u: Target)
    requires GroupsOK(c) && DbOK(c, s.deps, s.recs) && StartOf(c, s, t, st)
    requires x in s.deps && u in s.recs[s.deps[x]].targets && x in c.rules[t].targets
    ensures u in Started(c, s, t, st).status
  {
    GroupOf(c, t, x);
    hide GroupsOK;
    assert RecordOK(c, x, s.recs[s.deps[x]]);
    assert c.rules[x].targets != [];
    hide DbOK;
    assert u in Elems(s.recs[s.deps[x]].targets);
  }

  lemma StartedKeepsPhases(c: Config, s: State, t: Target, st: BuildStatus)
    requires GroupsOK(c) && DbOK(c, s.deps, s.recs) && PhasesOK(c, s.status, s.deps, s.recs, s.files) && StartOf(c, s, t, st)
    ensures PhasesOK(c, Started(c, s, t, st).status, s.deps, s.recs, s.files)
  {
    var status' := Started(c, s, t, st).status;
    forall x, u | x in c.rules && u in c.rules[x].targets ensures SiblingsOK(status', s.deps, s.files, x, u) {
      StartedKeepsSiblings(c, s, t, st, x, u);
    }
    hide GroupsOK;
    forall x, u | !c.obsolete && x in s.deps && x in status' && s.deps[x] < |s.recs| && u in s.recs[s.deps[x]].targets
      ensures u in status'
    {
      if x !in s.status { StartedKeepsRecords(c, s, t, st, x, u); }
    }
  }

  /** Groups do not overlap. */
  lemma SameGroup(c: Config, t: Target, x: Target, u: Target)
    requires GroupsOK(c) && t in c.rules && x in c.rules && u in c.rules[x].targets
    ensures u in c.rules && x in c.rules[u].targets
    ensures x in c.rules[t].targets <==> u in c.rules[t].targets
  {
    GroupOf(c, x, u);
    if x in c.rules[t].targets { GroupOf(c, t, x); }
    if u in c.rules[t].targets { GroupOf(c, t, u); }
    hide GroupsOK;
  }

  lemma GroupOf(c: Config, x: Target, u: Target)
    requires GroupsOK(c) && x in c.rules && u in c.rules[x].targets
    ensures u in c.rules && forall y :: y in c.rules[u].targets <==> y in c.rules[x].targets
    ensures x in c.rules[x].targets
  {
    assert c.rules[x].targets != [];
    assert Elems(c.rules[u].targets) == Elems(c.rules[x].targets);
    hide GroupsOK, Prerequisites;
    forall y ensures y in c.rules[u].targets <==> y in c.rules[x].targets {
      assert y in Elems(c.rules[u].targets) <==> y in c.rules[u].targets;
    }
  }

  lemma RuleIsOK(c: Config, t: Target)
    requires GroupsOK(c) && t in c.rules
    ensures JobRuleOK(c, c.rules[t])
  {
  }

  lemma StartedKeepsJobs(c: Config, s: State, t: Target, st: BuildStatus)
    requires GroupsOK(c) && JobsOK(c, s.jobs, s.counter, s.owner, s.status) && StartOf(c, s, t, st)
    requires forall x :: x in c.rules[t].targets && x in s.status ==> Startable(s.status[x].st)
    ensures var s' := Started(c, s, t, st); JobsOK(c, s'.jobs, s'.counter, s'.owner, s'.status)
  {
    hide GroupsOK, TargetsActive, ActiveOwned, JobRuleOK;
    RuleIsOK(c, t);
    StartedKeepsActive(s.jobs, s.counter, s.owner, s.status, c.rules[t], st);
  }

  lemma StartedKeepsActive(jobs: map<int, Rule>, counter: nat, owner: map<Target, int>, status: StatusMap,
                           rule: Rule, st: BuildStatus)
    requires Active(st) && TargetsActive(jobs, owner, status) && ActiveOwned(jobs, owner, status) && counter !in jobs
    requires forall x :: x in rule.targets && x in status ==> Startable(status[x].st)
    ensures TargetsActive(jobs[counter := rule], Owned(owner, rule.targets, counter), Marked(status, rule.targets, st))
    ensures ActiveOwned(jobs[counter := rule], Owned(owner, rule.targets, counter), Marked(status, rule.targets, st))
  {
    var owner' := Owned(owner, rule.targets, counter);
    var status', jobs' := Marked(status, rule.targets, st), jobs[counter := rule];
    forall j, x | j in jobs' && x in jobs'[j].targets
      ensures x in status' && Active(status'[x].st) && x in owner' && owner'[x] == j
    {
      if j != counter { assert x in status && x in owner && x !in rule.targets; }
    }
    forall x | x in status' && Active(status'[x].st)
      ensures x in owner' && owner'[x] in jobs' && x in jobs'[owner'[x]].targets
    {
      if x !in rule.targets { assert x in owner && owner[x] != counter; }
    }
  }

  lemma StartedKeepsRechecks(c: Config, s: State, t: Target, st: BuildStatus)
    requires StartOf(c, s, t, st)
    requires RechecksOK(s.status, s.jobs, s.pids, s.deps, s.recs, {}) && JobsOK(c, s.jobs, s.counter, s.owner, s.status)
    requires forall x :: x in c.rules[t].targets && x in s.status ==> Startable(s.status[x].st)
    ensures var s' := Started(c, s, t, st); RechecksOK(s'.status, s'.jobs, s.pids, s.deps, s.recs, {s.counter})
  {
    var s' := Started(c, s, t, st);
    assert TargetsActive(s.jobs, s.owner, s.status);
    KeepsRechecks(s.status, s'.status, s.jobs, s'.jobs, s.pids, s.deps, s.recs, {}, {s.counter});
  }

  lemma StartedRecheckable(c: Config, s: State, t: Target)
    requires GroupsOK(c) && DbOK(c, s.deps, s.recs) && StartOf(c, s, t, RunningRecheck)
    requires Recheckable(s.status, s.deps, s.recs, t)
    ensures forall x :: x in c.rules[t].targets ==>
              Recheckable(Started(c, s, t, RunningRecheck).status, s.deps, s.recs, x)
  {
    forall x | x in c.rules[t].targets ensures Recheckable(Started(c, s, t, RunningRecheck).status, s.deps, s.recs, x) {
      RecordedTogether(c, s.deps, s.recs, t, x);
    }
  }

  lemma StartedKeepsInv(c: Config, s: State, t: Target, st: BuildStatus)
    requires Inv(c, s) && StartOf(c, s, t, st)
    ensures var s' := Started(c, s, t, st); Inv(c, s', {s.counter}) && Advances(s.status, s'.status)
    ensures var s' := Started(c, s, t, st); st.RunningRecheck? ==>
              forall x :: x in c.rules[t].targets ==> Recheckable(s'.status, s.deps, s.recs, x)
  {
    var s' := Started(c, s, t, st);
    StartedAdvances(c, s, t, st);
    StartedKeepsPhases(c, s, t, st);
    StartedKeepsJobs(c, s, t, st);
    StartedKeepsRechecks(c, s, t, st);
    if st.RunningRecheck? { StartedRecheckable(c, s, t); }
    AdvancesKeepsClients(c, s.clients, s.asked, s.status, s'.status);
    NewJobKeepsDrivers(s.jobs, s.pids, s.clients, s.deps, s.counter, c.rules[t]);
  }

  // Running the script of a job, which is in the hole: it has neither a shell nor a client.

  ghost function Sharing(deps: map<Target, nat>, targets: seq<Target>, r: nat): map<Target, nat> {
    map t | t in deps.Keys + Elems(targets) :: if t in targets then r else deps[t]
  }

  lemma SharingNone(deps: map<Target, nat>, r: nat)
    ensures Sharing(deps, [], r) == deps
  {
  }

  lemma SharingMeans(deps: map<Target, nat>, targets: seq<Target>, r: nat)
    ensures var shared := Sharing(deps, targets, r);
      && shared.Keys == deps.Keys + Elems(targets)
      && forall t :: t in shared ==> shared[t] == if t in targets then r else deps[t]
  {
  }

  lemma SharingNext(deps: map<Target, nat>, targets: seq<Target>, r: nat, k: nat)
    requires k < |targets|
    ensures Sharing(deps, targets[..k + 1], r) == Sharing(deps, targets[..k], r)[targets[k] := r]
  {
    assert targets[..k + 1] == targets[..k] + [targets[k]];
  }

  /** The targets of the rule now share a fresh record that holds its static dependencies. */
  ghost function Recorded(s: State, rule: Rule): State {
    s.(deps := Sharing(s.deps, rule.targets, |s.recs|),
       recs := s.recs + [Record(rule.targets, Elems(rule.deps))])
  }

  lemma RecordCovers(c: Config, deps: map<Target, nat>, recs: seq<Record>, rule: Rule, t: Target, u: Target)
    requires DbOK(c, deps, recs) && JobRuleOK(c, rule)
    requires t in deps && u in recs[deps[t]].targets && u in rule.targets
    ensures t in rule.targets
  {
    assert u in deps && t in Elems(recs[deps[u]].targets);
    assert c.rules[u].targets != [] by { assert u in Elems(c.rules[u].targets); }
    assert t in Elems(c.rules[u].targets);
    assert t in Elems(rule.targets);
  }

  lemma RecordedIsOK(c: Config, s: State, rule: Rule, t: Target)
    requires DbOK(c, s.deps, s.recs) && JobRuleOK(c, rule) && t in c.rules && t in Recorded(s, rule).deps
    ensures var s' := Recorded(s, rule); s'.deps[t] < |s'.recs| && RecordOK(c, t, s'.recs[s'.deps[t]])
  {
    if t !in rule.targets { assert RecordOK(c, t, s.recs[s.deps[t]]); }
  }

  lemma RecordedIsShared(c: Config, s: State, rule: Rule, t: Target, u: Target)
    requires DbOK(c, s.deps, s.recs) && JobRuleOK(c, rule) && t in Recorded(s, rule).deps
    requires var s' := Recorded(s, rule); s'.deps[t] < |s'.recs| && u in s'.recs[s'.deps[t]].targets
    ensures var s' := Recorded(s, rule); u in s'.deps && s'.deps[u] == s'.deps[t]
  {
    if t !in rule.targets {
      if u in rule.targets { RecordCovers(c, s.deps, s.recs, rule, t, u); }
    }
  }

  lemma RecordedKeepsDb(c: Config, s: State, rule: Rule)
    requires DbOK(c, s.deps, s.recs) && JobRuleOK(c, rule)
    ensures DbOK(c, Recorded(s, rule).deps, Recorded(s, rule).recs)
  {
    var s' := Recorded(s, rule);
    RecordedHasRecords(s, rule);
    forall t, u | t in s'.deps && u in s'.recs[s'.deps[t]].targets ensures u in s'.deps && s'.deps[u] == s'.deps[t] {
      RecordedIsShared(c, s, rule, t, u);
    }
    forall t | t in s'.deps && t in c.rules ensures RecordOK(c, t, s'.recs[s'.deps[t]]) {
      RecordedIsOK(c, s, rule, t);
    }
    hide RecordOK, JobRuleOK, Recorded;
  }

  lemma RecordedHasRecords(s: State, rule: Rule)
    requires forall t :: t in s.deps ==> s.deps[t] < |s.recs| && t in s.recs[s.deps[t]].targets
    ensures var s' := Recorded(s, rule);
            forall t :: t in s'.deps ==> s'.deps[t] < |s'.recs| && t in s'.recs[s'.deps[t]].targets
  {
  }

  lemma RecordedKeepsPhases(c: Config, s: State, rule: Rule)
    requires GroupsOK(c) && JobRuleOK(c, rule) && PhasesOK(c, s.status, s.deps, s.recs, s.files)
    requires DbOK(c, s.deps, s.recs)
    requires forall t :: t in rule.targets ==> t in s.status
    ensures PhasesOK(c, s.status, Recorded(s, rule).deps, Recorded(s, rule).recs, s.files)
  {
    var deps', recs' := Recorded(s, rule).deps, Recorded(s, rule).recs;
    forall t, u | t in c.rules && u in c.rules[t].targets ensures SiblingsOK(s.status, deps', s.files, t, u) {
      assert SiblingsOK(s.status, s.deps, s.files, t, u);
      if t in rule.targets { assert u in Elems(c.rules[t].targets); assert u in Elems(rule.targets); }
    }
  }

  lemma RecordedKeepsRechecks(s: State, rule: Rule, hole: set<int>)
    requires RechecksOK(s.status, s.jobs, s.pids, s.deps, s.recs, hole)
    requires forall t :: t in rule.targets ==> t in s.status && !s.status[t].st.Recheck?
    requires forall j, t :: j in s.jobs && t in s.jobs[j].targets && t in rule.targets ==> j in hole
    ensures RechecksOK(s.status, s.jobs, s.pids, Recorded(s, rule).deps, Recorded(s, rule).recs, hole)
  {
    var deps', recs' := Recorded(s, rule).deps, Recorded(s, rule).recs;
    forall t | t !in rule.targets && Recheckable(s.status, s.deps, s.recs, t) ensures Recheckable(s.status, deps', recs', t) {
    }
  }

  lemma TargetsOf(c: Config, s: State, id: int)
    requires JobsOK(c, s.jobs, s.counter, s.owner, s.status) && id in s.jobs
    ensures JobRuleOK(c, s.jobs[id])
    ensures forall t :: t in s.jobs[id].targets ==> t in s.status && Active(s.status[t].st)
    ensures forall j, t :: j in s.jobs && t in s.jobs[j].targets && t in s.jobs[id].targets ==> j == id
  {
  }

  lemma RecordedKeepsInv(c: Config, s: State, id: int, hole: set<int>)
    requires Inv(c, s, hole) && id in hole
    ensures id in s.jobs && s.jobs[id].targets != [] && Inv(c, Recorded(s, s.jobs[id]), hole)
    ensures forall t :: t in s.jobs[id].targets ==> t in Recorded(s, s.jobs[id]).deps
  {
    HoleIsLive(s.jobs, s.pids, s.clients, s.deps, hole, id);
    hide DriversOK, PhasesOK, ClientsOK, DbOK, GroupsOK;
    var rule := s.jobs[id];
    TargetsOf(c, s, id);
    hide JobsOK, JobRuleOK;
    RecordedKeepsDb(c, s, rule);
    RecordedKeepsPhases(c, s, rule);
    RecordedKeepsRechecks(s, rule, hole);
    hide RechecksOK;
    RecordedKeepsDrivers(s, rule, hole);
  }

  lemma HoleIsLive(jobs: map<int, Rule>, pids: map<int, int>, clients: seq<Client>, deps: map<Target, nat>, hole: set<int>, id: int)
    requires DriversOK(jobs, pids, clients, deps, hole) && id in hole
    ensures id in jobs && jobs[id].targets != []
  {
  }

  lemma RecordedKeepsDrivers(s: State, rule: Rule, hole: set<int>)
    requires DriversOK(s.jobs, s.pids, s.clients, s.deps, hole)
    ensures DriversOK(s.jobs, s.pids, s.clients, Recorded(s, rule).deps, hole)
  {
    assert ShellsOK(s.jobs, s.pids, Recorded(s, rule).deps);
    hide DelayedOK, Delayed;
  }

  lemma ShellKeepsDrivers(jobs: map<int, Rule>, pids: map<int, int>, clients: seq<Client>, deps: map<Target, nat>,
                          pid: int, id: int, hole: set<int>)
    requires DriversOK(jobs, pids, clients, deps, hole) && id in hole && pid !in pids
    requires id in jobs && forall t :: t in jobs[id].targets ==> t in deps
    ensures DriversOK(jobs, pids[pid := id], clients, deps, hole - {id})
  {
    var pids' := pids[pid := id];
    HasShellAdded(pids, pid, id);
    assert forall p :: p in pids ==> HasShell(pids, pids[p]);
    assert ShellsOK(jobs, pids', deps);
    hide ShellsOK, DelayedOK, HasShell, Delayed, Drivable;
  }

  lemma HasShellAdded(pids: map<int, int>, pid: int, id: int)
    requires pid !in pids
    ensures forall j :: HasShell(pids[pid := id], j) <==> j == id || HasShell(pids, j)
  {
    var pids' := pids[pid := id];
    assert pids'[pid] == id;
    forall j | HasShell(pids, j) ensures HasShell(pids', j) {
      var p :| p in pids && pids[p] == j;
      assert pids'[p] == j;
    }
  }

  lemma ShellKeepsRechecks(s: State, pid: int, id: int, hole: set<int>)
    requires RechecksOK(s.status, s.jobs, s.pids, s.deps, s.recs, hole) && pid !in s.pids
    ensures RechecksOK(s.status, s.jobs, s.pids[pid := id], s.deps, s.recs, hole - {id})
  {
    HasShellAdded(s.pids, pid, id);
    hide HasShell, Recheckable;
    forall j, t | j in s.jobs && !HasShell(s.pids[pid := id], j) && j !in hole - {id} && t in s.jobs[j].targets
      ensures t in s.status && s.status[t].st.RunningRecheck? ==> Recheckable(s.status, s.deps, s.recs, t)
    {
      assert !HasShell(s.pids, j) && j !in hole;
    }
  }

  /** A shell now runs the job. */
  lemma ShellKeepsInv(c: Config, s: State, pid: int, id: int, hole: set<int>)
    requires Inv(c, s, hole) && id in hole && pid !in s.pids
    requires id in s.jobs && forall t :: t in s.jobs[id].targets ==> t in s.deps
    ensures Inv(c, s.(pids := s.pids[pid := id]), hole - {id})
  {
    hide PhasesOK, JobsOK, ClientsOK, DbOK, GroupsOK, DriversOK, RechecksOK;
    ShellKeepsDrivers(s.jobs, s.pids, s.clients, s.deps, pid, id, hole);
    ShellKeepsRechecks(s, pid, id, hole);
  }

  // Completing a job.

  /** How a finished job is seen to have changed a target. */
  function Refreshed(e: Entry, files: map<Target, int>, now: int, t: Target): Entry {
    if e.last >= now then e.(st := Remade)
    else if t !in files then Entry(Remade, 0)
    else if files[t] != e.last then Entry(Remade, files[t])
    else e.(st := Uptodate)
  }

  /** The statuses and files after the targets of a successful job are refreshed, or those of a failed one removed. */
  ghost function Settle(status: StatusMap, files: map<Target, int>, now: int, targets: seq<Target>, success: bool)
    : (StatusMap, map<Target, int>)
    requires forall t :: t in targets ==> t in status
  {
    if targets == [] then (status, files)
    else
      var t := targets[0];
      var e := Refreshed(status[t], files, now, t);
      if success then Settle(status[t := e], files, now, targets[1..], success)
      else Settle(status[t := e.(st := Failed)], if e.st.Uptodate? then files else files - {t}, now, targets[1..], success)
  }

  lemma SettleNext(status: StatusMap, files: map<Target, int>, now: int, targets: seq<Target>, k: nat, success: bool)
    requires k < |targets| && forall t :: t in targets ==> t in status
    ensures var t := targets[k];
            var e := Refreshed(status[t], files, now, t);
            && (forall x :: x in targets[k..] ==> x in status) && (forall x :: x in targets[k + 1..] ==> x in status)
            && Settle(status, files, now, targets[k..], success)
            == if success then Settle(status[t := e], files, now, targets[k + 1..], success)
               else Settle(status[t := e.(st := Failed)], if e.st.Uptodate? then files else files - {t}, now, targets[k + 1..], success)
  {
    assert targets[k..][0] == targets[k] && targets[k..][1..] == targets[k + 1..];
  }

  lemma {:induction false} Settled(status: StatusMap, files: map<Target, int>, now: int, targets: seq<Target>, success: bool)
    requires forall t :: t in targets ==> t in status
    ensures var (status', files') := Settle(status, files, now, targets, success);
            && status'.Keys == status.Keys
            && (forall t :: t in status && t !in targets ==> status'[t] == status[t])
            && (forall t :: t in targets ==> if success then Done(status'[t].st) else status'[t].st.Failed?)
            && (forall t :: t !in targets ==> (t in files' <==> t in files))
            && (forall t :: t in files' ==> t in files && files'[t] == files[t])
            && (success ==> files' == files)
    decreases |targets|
  {
    if targets != [] {
      var t := targets[0];
      var e := Refreshed(status[t], files, now, t);
      var status1 := status[t := if success then e else e.(st := Failed)];
      var files1 := if success || e.st.Uptodate? then files else files - {t};
      Settled(status1, files1, now, targets[1..], success);
      assert forall x :: x in targets <==> x == t || x in targets[1..];
    }
  }

  /** What the end of a job means for one of its targets. It counts as unchanged when its file still has the time it was
      last seen with, before the server started. Only then does the file survive a failure. */
  ghost predicate Judged(now: int, t: Target, before: Entry, files: map<Target, int>, after: Entry, files': map<Target, int>, success: bool) {
    var same := before.last < now && t in files && files[t] == before.last;
    && after.st == (if !success then Failed else if same then Uptodate else Remade)
    && after.last == (if before.last >= now then before.last else if t in files then files[t] else 0)
    && (t in files' <==> t in files && (success || same)) && (t in files' ==> files'[t] == files[t])
  }

  /** Every target that the job lists once is judged. */
  ghost predicate AllJudged(now: int, targets: seq<Target>, status: StatusMap, files: map<Target, int>,
                            status': StatusMap, files': map<Target, int>, success: bool) {
    forall t :: multiset(targets)[t] == 1 ==>
      t in status && t in status' && Judged(now, t, status[t], files, status'[t], files', success)
  }

  lemma {:induction false} SettledOnce(status: StatusMap, files: map<Target, int>, now: int, targets: seq<Target>, success: bool, t: Target)
    requires (forall x :: x in targets ==> x in status) && multiset(targets)[t] == 1
    ensures var (status', files') := Settle(status, files, now, targets, success);
      t in status && t in status' && Judged(now, t, status[t], files, status'[t], files', success)
    decreases |targets|
  {
    var head, rest := targets[0], targets[1..];
    assert targets == [head] + rest && multiset(targets) == multiset{head} + multiset(rest);
    var e := Refreshed(status[head], files, now, head);
    var status1 := status[head := if success then e else e.(st := Failed)];
    var files1 := if success || e.st.Uptodate? then files else files - {head};
    assert forall x :: x in rest ==> x in targets;
    Settled(status1, files1, now, rest, success);
    if head == t {
      assert t !in rest by { assert multiset(rest)[t] == 0; }
    } else {
      SettledOnce(status1, files1, now, rest, success, t);
    }
  }

  lemma SettledJudged(status: StatusMap, files: map<Target, int>, now: int, targets: seq<Target>, success: bool)
    requires forall x :: x in targets ==> x in status
    ensures var (status', files') := Settle(status, files, now, targets, success);
      AllJudged(now, targets, status, files, status', files', success)
  {
    hide Settle, Judged;
    var (after, left) := Settle(status, files, now, targets, success);
    forall t | multiset(targets)[t] == 1
      ensures t in status && t in after && Judged(now, t, status[t], files, after[t], left, success)
    {
      SettledOnce(status, files, now, targets, success, t);
    }
  }

  ghost predicate Completed(c: Config, s: State, s': State, id: int, success: bool) {
    && id in s.jobs && (forall t :: t in s.jobs[id].targets ==> t in s.status)
    && var (status', files') := Settle(s.status, s.files, c.now, s.jobs[id].targets, success);
       s' == s.(status := status', files := files', jobs := s.jobs - {id})
  }

  lemma CompletedJudged(c: Config, s: State, s': State, id: int, success: bool)
    requires Completed(c, s, s', id, success)
    ensures AllJudged(c.now, s.jobs[id].targets, s.status, s.files, s'.status, s'.files, success)
  {
    SettledJudged(s.status, s.files, c.now, s.jobs[id].targets, success);
    hide Settle, AllJudged;
  }

  lemma SettledKeepsPhases(c: Config, s: State, s': State, targets: seq<Target>)
    requires PhasesOK(c, s.status, s.deps, s.recs, s.files)
    requires s'.status.Keys == s.status.Keys
    requires forall t :: t in s.status && t !in targets ==> s'.status[t] == s.status[t]
    requires forall t :: t in targets ==> t in s.status && !Startable(s'.status[t].st)
    requires forall t :: t !in targets ==> (t in s'.files <==> t in s.files)
    requires GroupsOK(c) && forall t :: t in targets ==> t in c.rules && Elems(c.rules[t].targets) == Elems(targets)
    ensures PhasesOK(c, s'.status, s.deps, s.recs, s'.files)
  {
    forall t, u | t in c.rules && u in c.rules[t].targets ensures SiblingsOK(s'.status, s.deps, s'.files, t, u) {
      SameTargets(c, targets, t, u);
      assert SiblingsOK(s.status, s.deps, s.files, t, u);
    }
    hide GroupsOK, SiblingsOK;
  }

  /** Siblings are both among the targets of a job, or none of them is. */
  lemma SameTargets(c: Config, targets: seq<Target>, t: Target, u: Target)
    requires GroupsOK(c) && t in c.rules && u in c.rules[t].targets
    requires forall x :: x in targets ==> x in c.rules && Elems(c.rules[x].targets) == Elems(targets)
    ensures t in targets <==> u in targets
  {
    GroupOf(c, t, u);
    hide GroupsOK;
    if t in targets { assert u in Elems(c.rules[t].targets); assert u in Elems(targets); }
    if u in targets { assert t in Elems(c.rules[u].targets); assert t in Elems(targets); }
  }

  lemma SettledKeepsJobs(c: Config, s: State, s': State, id: int)
    requires JobsOK(c, s.jobs, s.counter, s.owner, s.status) && id in s.jobs
    requires s'.status.Keys == s.status.Keys
    requires forall t :: t in s.status && t !in s.jobs[id].targets ==> s'.status[t] == s.status[t]
    requires forall t :: t in s.jobs[id].targets ==> t in s.status && !Active(s'.status[t].st)
    ensures JobsOK(c, s.jobs - {id}, s.counter, s.owner, s'.status)
  {
    var jobs' := s.jobs - {id};
    TargetsOf(c, s, id);
    forall t | t in s'.status && Active(s'.status[t].st)
      ensures t in s.owner && s.owner[t] in jobs' && t in jobs'[s.owner[t]].targets
    {
      var j := s.owner[t];
      assert j in s.jobs && j != id;
    }
    assert TargetsActive(jobs', s.owner, s'.status);
  }

  lemma EndKeepsDrivers(jobs: map<int, Rule>, pids: map<int, int>, clients: seq<Client>, deps: map<Target, nat>, id: int, hole: set<int>)
    requires DriversOK(jobs, pids, clients, deps, hole) && id in hole
    ensures DriversOK(jobs - {id}, pids, clients, deps, hole - {id})
  {
    var jobs' := jobs - {id};
    assert forall j :: Drivable(jobs', j) <==> Drivable(jobs, j) && j != id;
    assert ShellsOK(jobs', pids, deps) by {
      forall p | p in pids ensures Drivable(jobs', pids[p]) {
        assert HasShell(pids, pids[p]);
      }
    }
    assert DelayedOK(jobs', clients) by {
      forall client | client in clients && client.delayed ensures Drivable(jobs', client.jobId) {
        assert Delayed(clients, client.jobId);
      }
    }
  }

  lemma SettledKeepsRechecks(s: State, status': StatusMap, id: int, hole: set<int>)
    requires RechecksOK(s.status, s.jobs, s.pids, s.deps, s.recs, hole)
    requires status'.Keys == s.status.Keys
    requires forall t :: t in status' && !Finished(status'[t].st) ==> status'[t] == s.status[t]
    ensures RechecksOK(status', s.jobs - {id}, s.pids, s.deps, s.recs, hole - {id})
  {
    assert forall j :: j in s.jobs - {id} && j !in hole - {id} ==> j !in hole;
    KeepsRechecks(s.status, status', s.jobs, s.jobs - {id}, s.pids, s.deps, s.recs, hole, hole - {id});
  }

  lemma SettledAdvances(a: StatusMap, b: StatusMap, targets: seq<Target>)
    requires a.Keys == b.Keys
    requires forall t :: t in a && t !in targets ==> b[t] == a[t]
    requires forall t :: t in targets ==> t in a && Active(a[t].st) && Finished(b[t].st)
    ensures Advances(a, b)
    ensures forall t :: t in b && !Finished(b[t].st) ==> b[t] == a[t]
  {
  }

  lemma FinishedIsOver()
    ensures forall st :: Finished(st) ==> !Startable(st) && !Active(st)
  {
  }

  /** What the end of a job may change: its targets get a final status, and only their files change. */
  ghost predicate Ended(s: State, s': State, id: int) {
    && id in s.jobs && s'.status.Keys == s.status.Keys
    && (forall t :: t in s.status && t !in s.jobs[id].targets ==> s'.status[t] == s.status[t])
    && (forall t :: t in s.jobs[id].targets ==> t in s.status && Finished(s'.status[t].st))
    && (forall t :: t !in s.jobs[id].targets ==> (t in s'.files <==> t in s.files))
    && s' == s.(status := s'.status, files := s'.files, jobs := s.jobs - {id})
  }

  /** The end of a job leaves the invariant intact. */
  lemma EndedKeepsInv(c: Config, s: State, s': State, id: int, hole: set<int>)
    requires Inv(c, s, hole) && id in hole && Ended(s, s', id)
    ensures Inv(c, s', hole - {id}) && Advances(s.status, s'.status)
  {
    hide PhasesOK, DriversOK, ClientsOK, RechecksOK, DbOK, GroupsOK, JobsOK, Finished, Active;
    var targets := s.jobs[id].targets;
    TargetsOf(c, s, id);
    FinishedIsOver();
    SettledAdvances(s.status, s'.status, targets);
    SettledKeepsPhases(c, s, s', targets);
    SettledKeepsJobs(c, s, s', id);
    EndKeepsDrivers(s.jobs, s.pids, s.clients, s.deps, id, hole);
    AdvancesKeepsClients(c, s.clients, s.asked, s.status, s'.status);
    SettledKeepsRechecks(s, s'.status, id, hole);
  }

  lemma CompletedEnds(c: Config, s: State, s': State, id: int, success: bool)
    requires Completed(c, s, s', id, success)
    ensures Ended(s, s', id)
    ensures forall t :: t in s.jobs[id].targets ==> if success then Done(s'.status[t].st) else s'.status[t].st.Failed?
  {
    Settled(s.status, s.files, c.now, s.jobs[id].targets, success);
    hide Settle;
  }

  /** The three ways in which launching the script of a job can end: a shell, nothing to run, or no shell. */
  datatype Launch = ShellStarted | NothingToRun | LaunchFailed

  ghost predicate Launched(c: Config, s: State, s': State, id: int, outcome: Launch) {
    && id in s.jobs && (forall t :: t in s.jobs[id].targets ==> t in s.status)
    && var s1 := Recorded(s, s.jobs[id]);
       match outcome
       case ShellStarted => exists pid :: pid !in s.pids && s' == s1.(pids := s.pids[pid := id])
       case NothingToRun => Completed(c, s1, s', id, true)
       case LaunchFailed => Completed(c, s1, s', id, false)
  }

  lemma LaunchedKeepsInv(c: Config, s: State, s': State, id: int, outcome: Launch, hole: set<int>)
    requires Inv(c, s, hole) && id in hole && Launched(c, s, s', id, outcome)
    ensures Inv(c, s', hole - {id}) && Advances(s.status, s'.status)
    ensures forall t :: t in s.jobs[id].targets ==>
              t in s'.status && match outcome
                                case ShellStarted => s'.status[t] == s.status[t]
                                case NothingToRun => Done(s'.status[t].st)
                                case LaunchFailed => s'.status[t].st.Failed?
    ensures s'.clients == s.clients && s'.asked == s.asked && s'.counter == s.counter
    ensures s'.jobs == s.jobs || s'.jobs == s.jobs - {id}
  {
    hide Inv, Completed;
    RecordedKeepsInv(c, s, id, hole);
    var s1 := Recorded(s, s.jobs[id]);
    match outcome
    case ShellStarted =>
      var pid :| pid !in s.pids && s' == s1.(pids := s.pids[pid := id]);
      ShellKeepsInv(c, s1, pid, id, hole);
    case NothingToRun =>
      CompletedEnds(c, s1, s', id, true);
      EndedKeepsInv(c, s1, s', id, hole);
    case LaunchFailed =>
      CompletedEnds(c, s1, s', id, false);
      EndedKeepsInv(c, s1, s', id, hole);
  }

  // Clients come and go.

  ghost function Without<T>(s: seq<T>, i: nat): seq<T>
    requires i < |s|
  {
    s[..i] + s[i + 1..]
  }

  ghost function Inserted<T>(s: seq<T>, i: nat, x: T): seq<T>
    requires i <= |s|
  {
    s[..i] + [x] + s[i..]
  }

  lemma DelayedInserted(clients: seq<Client>, i: nat, x: Client)
    requires i <= |clients|
    ensures forall j :: Delayed(Inserted(clients, i, x), j) <==> Delayed(clients, j) || (x.delayed && x.jobId == j)
  {
    var clients' := Inserted(clients, i, x);
    assert clients == clients[..i] + clients[i..];
    assert forall client :: client in clients' <==> client in clients || client == x;
    forall j | x.delayed && x.jobId == j ensures Delayed(clients', j) { assert x in clients'; }
    forall j | Delayed(clients, j) ensures Delayed(clients', j) {
      var client :| client in clients && client.delayed && client.jobId == j;
      assert client in clients';
    }
  }

  lemma InsertedKeepsDelayed(jobs: map<int, Rule>, clients: seq<Client>, i: nat, x: Client)
    requires DelayedOK(jobs, clients) && i <= |clients|
    requires x.delayed ==> Drivable(jobs, x.jobId) && !Delayed(clients, x.jobId)
    ensures DelayedOK(jobs, Inserted(clients, i, x))
  {
    var clients' := Inserted(clients, i, x);
    assert clients == clients[..i] + clients[i..];
    forall k, l | 0 <= k < l < |clients'| && clients'[k].delayed && clients'[l].delayed
      ensures clients'[k].jobId != clients'[l].jobId
    {
      var k', l' := if k < i then k else k - 1, if l < i then l else l - 1;
      assert k != i ==> clients'[k] == clients[k'] && clients'[k] in clients;
      assert l != i ==> clients'[l] == clients[l'] && clients'[l] in clients;
    }
    assert forall client :: client in clients' ==> client in clients || client == x;
  }

  lemma WithoutKeepsDelayed(jobs: map<int, Rule>, clients: seq<Client>, i: nat)
    requires DelayedOK(jobs, clients) && i < |clients|
    ensures DelayedOK(jobs, Without(clients, i))
    ensures clients[i].delayed ==> !Delayed(Without(clients, i), clients[i].jobId)
    ensures forall j :: Delayed(clients, j) <==>
                          Delayed(Without(clients, i), j) || (clients[i].delayed && clients[i].jobId == j)
  {
    var rest, x := Without(clients, i), clients[i];
    assert Inserted(rest, i, x) == clients;
    DelayedInserted(rest, i, x);
    forall k | 0 <= k < |rest| ensures rest[k] == clients[if k < i then k else k + 1] {}
    hide Without, Inserted;
    forall client | client in rest ensures client in clients {
      var k :| 0 <= k < |rest| && rest[k] == client;
      assert client == clients[if k < i then k else k + 1];
    }
    if x.delayed {
      forall client | client in rest && client.delayed ensures client.jobId != x.jobId {
        var k :| 0 <= k < |rest| && rest[k] == client;
        var k' := if k < i then k else k + 1;
        assert clients[k'] == client && k' != i;
      }
    }
  }

  ghost function Hole(client: Client): set<int> { if client.delayed then {client.jobId} else {} }

  lemma InsertedKeepsDrivers(jobs: map<int, Rule>, pids: map<int, int>, clients: seq<Client>, deps: map<Target, nat>,
                             i: nat, x: Client, hole: set<int>)
    requires DriversOK(jobs, pids, clients, deps, hole) && i <= |clients| && Hole(x) <= hole
    ensures DriversOK(jobs, pids, Inserted(clients, i, x), deps, hole - Hole(x))
  {
    assert x.delayed ==> x.jobId in hole;
    InsertedKeepsDelayed(jobs, clients, i, x);
    DelayedInserted(clients, i, x);
    hide Delayed, DelayedOK, ShellsOK, HasShell, Drivable, Inserted;
  }

  lemma WithoutKeepsDrivers(jobs: map<int, Rule>, pids: map<int, int>, clients: seq<Client>, deps: map<Target, nat>, i: nat, hole: set<int>)
    requires DriversOK(jobs, pids, clients, deps, hole) && i < |clients|
    ensures DriversOK(jobs, pids, Without(clients, i), deps, hole + Hole(clients[i]))
  {
    assert clients[i] in clients;
    assert clients[i].delayed ==> Drivable(jobs, clients[i].jobId);
    assert clients[i].delayed ==> Delayed(clients, clients[i].jobId);
    WithoutKeepsDelayed(jobs, clients, i);
    hide Delayed, DelayedOK, ShellsOK, HasShell, Drivable, Without;
  }

  lemma ChangedKeepsDrivers(jobs: map<int, Rule>, pids: map<int, int>, clients: seq<Client>, deps: map<Target, nat>, i: nat, x: Client, hole: set<int>)
    requires DriversOK(jobs, pids, clients, deps, hole) && i < |clients|
    requires x.delayed == clients[i].delayed && x.jobId == clients[i].jobId
    ensures DriversOK(jobs, pids, clients[i := x], deps, hole)
  {
    assert clients[i] in clients;
    assert clients[i].delayed ==> clients[i].jobId !in hole by { assert clients[i].delayed ==> Delayed(clients, clients[i].jobId); }
    WithoutKeepsDrivers(jobs, pids, clients, deps, i, hole);
    InsertedKeepsDrivers(jobs, pids, Without(clients, i), deps, i, x, hole + Hole(x));
    InsertedWithout(clients, i, x);
    assert hole + Hole(x) - Hole(x) == hole;
  }

  ghost function WithClient(s: State, i: nat, x: Client, asked: set<Target>): State
    requires i <= |s.clients| && |s.asked| == |s.clients|
  {
    s.(clients := Inserted(s.clients, i, x), asked := Inserted(s.asked, i, asked))
  }

  ghost function WithoutClient(s: State, i: nat): State
    requires i < |s.clients| && |s.asked| == |s.clients|
  {
    s.(clients := Without(s.clients, i), asked := Without(s.asked, i))
  }

  ghost function ChangedClient(s: State, i: nat, x: Client, asked: set<Target>): State
    requires i < |s.clients| && |s.asked| == |s.clients|
  {
    s.(clients := s.clients[i := x], asked := s.asked[i := asked])
  }

  lemma WithClientKeepsClients(c: Config, s: State, i: nat, x: Client, asked: set<Target>)
    requires ClientsOK(c, s.clients, s.asked, s.status) && i <= |s.clients| && ClientOK(c, x, asked, s.status)
    ensures ClientsOK(c, Inserted(s.clients, i, x), Inserted(s.asked, i, asked), s.status)
  {
    hide ClientOK;
    forall k | 0 <= k <= |s.clients|
      ensures ClientOK(c, Inserted(s.clients, i, x)[k], Inserted(s.asked, i, asked)[k], s.status)
    {
      var k' := if k < i then k else k - 1;
      assert k != i ==> ClientOK(c, s.clients[k'], s.asked[k'], s.status);
    }
  }

  lemma WithoutClientKeepsClients(c: Config, s: State, i: nat)
    requires ClientsOK(c, s.clients, s.asked, s.status) && i < |s.clients|
    ensures ClientsOK(c, Without(s.clients, i), Without(s.asked, i), s.status)
  {
    hide ClientOK;
    forall k | 0 <= k < |s.clients| - 1
      ensures ClientOK(c, Without(s.clients, i)[k], Without(s.asked, i)[k], s.status)
    {
      var k' := if k < i then k else k + 1;
      assert ClientOK(c, s.clients[k'], s.asked[k'], s.status);
    }
  }

  /** A new client joins; a dependency client takes its job out of the hole. */
  lemma WithClientKeepsInv(c: Config, s: State, i: nat, x: Client, asked: set<Target>, hole: set<int>)
    requires Inv(c, s, hole) && i <= |s.clients| && |s.asked| == |s.clients| && Hole(x) <= hole && ClientOK(c, x, asked, s.status)
    requires forall j, t :: j in Hole(x) && j in s.jobs && t in s.jobs[j].targets ==>
               (t in s.status && s.status[t].st.RunningRecheck? ==> Recheckable(s.status, s.deps, s.recs, t))
    ensures Inv(c, WithClient(s, i, x, asked), hole - Hole(x))
  {
    hide PhasesOK, JobsOK, DbOK, GroupsOK, DriversOK, ClientsOK, Recheckable, HasShell;
    InsertedKeepsDrivers(s.jobs, s.pids, s.clients, s.deps, i, x, hole);
    WithClientKeepsClients(c, s, i, x, asked);
    hide Hole, ClientOK;
  }

  /** A client leaves; the job of a dependency client falls into the hole. */
  lemma WithoutClientKeepsInv(c: Config, s: State, i: nat, hole: set<int>)
    requires Inv(c, s, hole) && i < |s.clients| && |s.asked| == |s.clients|
    ensures Inv(c, WithoutClient(s, i), hole + Hole(s.clients[i]))
  {
    hide PhasesOK, JobsOK, DbOK, GroupsOK, DriversOK, ClientsOK, Recheckable, HasShell;
    WithoutKeepsDrivers(s.jobs, s.pids, s.clients, s.deps, i, hole);
    WithoutClientKeepsClients(c, s, i);
    hide Hole;
  }

  lemma ChangedClientKeepsInv(c: Config, s: State, i: nat, x: Client, asked: set<Target>)
    requires Inv(c, s) && i < |s.clients| && |s.asked| == |s.clients| && ClientOK(c, x, asked, s.status)
    requires x.delayed == s.clients[i].delayed && x.jobId == s.clients[i].jobId
    ensures Inv(c, ChangedClient(s, i, x, asked))
  {
    hide PhasesOK, JobsOK, DbOK, GroupsOK, DriversOK, RechecksOK, ClientOK;
    ChangedKeepsDrivers(s.jobs, s.pids, s.clients, s.deps, i, x, {});
  }

  /** A shell ends; its job falls into the hole. */
  lemma ShellEndedKeepsInv(c: Config, s: State, pid: int)
    requires Inv(c, s) && pid in s.pids
    ensures Inv(c, s.(pids := s.pids - {pid}), {s.pids[pid]})
  {
    hide PhasesOK, JobsOK, DbOK, GroupsOK, DriversOK, ClientsOK, Recheckable;
    var pids', id := s.pids - {pid}, s.pids[pid];
    ShellEndedKeepsDrivers(s.jobs, s.pids, s.clients, s.deps, pid);
    ShellRemoved(s.jobs, s.pids, s.deps, pid);
    hide HasShell, ShellsOK;
  }

  lemma ShellRemoved(jobs: map<int, Rule>, pids: map<int, int>, deps: map<Target, nat>, pid: int)
    requires (forall p, q :: p in pids && q in pids && pids[p] == pids[q] ==> p == q) && pid in pids
    ensures forall j :: HasShell(pids, j) <==> j == pids[pid] || HasShell(pids - {pid}, j)
    ensures !HasShell(pids - {pid}, pids[pid])
  {
    var pids' := pids - {pid};
    forall j | HasShell(pids, j) && j != pids[pid] ensures HasShell(pids', j) {
      var p :| p in pids && pids[p] == j;
      assert p in pids' && pids'[p] == j;
    }
    forall j | HasShell(pids', j) ensures HasShell(pids, j) {
      var p :| p in pids' && pids'[p] == j;
      assert pids[p] == j;
    }
  }

  lemma ShellEndedKeepsDrivers(jobs: map<int, Rule>, pids: map<int, int>, clients: seq<Client>, deps: map<Target, nat>, pid: int)
    requires DriversOK(jobs, pids, clients, deps, {}) && pid in pids
    ensures DriversOK(jobs, pids - {pid}, clients, deps, {pids[pid]})
    ensures forall p, q :: p in pids && q in pids && pids[p] == pids[q] ==> p == q
  {
    ShellRemoved(jobs, pids, deps, pid);
    assert ShellsOK(jobs, pids - {pid}, deps);
    assert HasShell(pids, pids[pid]) && Drivable(jobs, pids[pid]);
    hide ShellsOK, DelayedOK, HasShell, Delayed, Drivable;
  }

  /** Every file that appears or vanishes is recorded, is the only target of its rule, or has only siblings with a status. */
  predicate WritesApart(c: Config, status: StatusMap, deps: map<Target, nat>, files: map<Target, int>, files': map<Target, int>) {
    forall t | t in c.rules ::
      || (t in files <==> t in files')
      || t in deps
      || (forall u | u in c.rules[t].targets :: u == t)
      || (forall u | u in c.rules[t].targets :: u in status)
  }

  /** A script that exits may leave any files, as long as it does not set siblings apart that are yet to be looked up. */
  lemma WrittenKeepsInv(c: Config, s: State, files': map<Target, int>, hole: set<int>)
    requires Inv(c, s, hole) && WritesApart(c, s.status, s.deps, s.files, files')
    ensures Inv(c, s.(files := files'), hole)
  {
    hide JobsOK, ClientsOK, DriversOK, RechecksOK;
    forall t, u | t in c.rules && u in c.rules[t].targets
      ensures SiblingsOK(s.status, s.deps, files', t, u)
    {
      RecordedTogether(c, s.deps, s.recs, t, u);
      GroupOf(c, t, u);
      WrittenKeepsSiblings(c, s, files', t, u);
    }
    hide GroupsOK, DbOK, SiblingsOK, WritesApart;
  }

  lemma WrittenKeepsSiblings(c: Config, s: State, files': map<Target, int>, t: Target, u: Target)
    requires WritesApart(c, s.status, s.deps, s.files, files') && SiblingsOK(s.status, s.deps, s.files, t, u)
    requires t in c.rules && u in c.rules && (t in s.deps <==> u in s.deps)
    requires t in c.rules[t].targets && u in c.rules[t].targets && t in c.rules[u].targets && u in c.rules[u].targets
    ensures SiblingsOK(s.status, s.deps, files', t, u)
  {
  }

  // A script asks for more dependencies.

  /** The record `r` with more dependencies; everyone who shares the record sees them. */
  ghost function Extended(s: State, r: nat, names: set<Target>): State
    requires r < |s.recs|
  {
    s.(recs := s.recs[r := s.recs[r].(deps := s.recs[r].deps + names)])
  }

  lemma ExtendedKeepsDb(c: Config, s: State, r: nat, names: set<Target>)
    requires DbOK(c, s.deps, s.recs) && r < |s.recs| && names <= c.rules.Keys
    ensures DbOK(c, s.deps, Extended(s, r, names).recs)
  {
    var recs' := Extended(s, r, names).recs;
    assert forall k :: 0 <= k < |recs'| ==> recs'[k].targets == s.recs[k].targets;
    forall t | t in s.deps && t in c.rules ensures RecordOK(c, t, recs'[s.deps[t]]) {
      assert RecordOK(c, t, s.recs[s.deps[t]]);
    }
  }

  /** Only the targets of the job that owns a record look at it. */
  lemma SharesRecord(c: Config, s: State, id: int, front: Target, t: Target)
    requires DbOK(c, s.deps, s.recs) && JobRulesOK(c, s.jobs)
    requires id in s.jobs && front in s.jobs[id].targets && front in s.deps && t in s.deps && s.deps[t] == s.deps[front]
    ensures t in s.jobs[id].targets
  {
    assert JobRuleOK(c, s.jobs[id]) && RecordOK(c, front, s.recs[s.deps[front]]);
    assert c.rules[front].targets != [] by { assert front in Elems(c.rules[front].targets); }
    assert t in Elems(s.recs[s.deps[t]].targets);
    assert t in Elems(s.jobs[id].targets);
  }

  lemma ExtendedKeepsRechecks(c: Config, s: State, id: int, front: Target, names: set<Target>)
    requires DbOK(c, s.deps, s.recs) && JobsOK(c, s.jobs, s.counter, s.owner, s.status)
    requires RechecksOK(s.status, s.jobs, s.pids, s.deps, s.recs, {})
    requires id in s.jobs && front in s.jobs[id].targets && front in s.deps && HasShell(s.pids, id)
    ensures RechecksOK(s.status, s.jobs, s.pids, s.deps, Extended(s, s.deps[front], names).recs, {})
  {
    var r := s.deps[front];
    var recs' := Extended(s, r, names).recs;
    TargetsOf(c, s, id);
    hide JobRuleOK, TargetsActive, ActiveOwned;
    forall t | t in s.status && s.status[t].st.Recheck? ensures Recheckable(s.status, s.deps, recs', t) {
      assert Recheckable(s.status, s.deps, s.recs, t);
      if s.deps[t] == r { SharesRecord(c, s, id, front, t); }
    }
    forall j, t | j in s.jobs && !HasShell(s.pids, j) && t in s.jobs[j].targets && t in s.status && s.status[t].st.RunningRecheck?
      ensures Recheckable(s.status, s.deps, recs', t)
    {
      assert Recheckable(s.status, s.deps, s.recs, t);
      if s.deps[t] == r { SharesRecord(c, s, id, front, t); }
    }
  }

  lemma ExtendedKeepsInv(c: Config, s: State, id: int, front: Target, names: set<Target>)
    requires Inv(c, s) && id in s.jobs && front in s.jobs[id].targets && HasShell(s.pids, id) && names <= c.rules.Keys
    ensures front in s.deps && s.deps[front] < |s.recs| && Inv(c, Extended(s, s.deps[front], names))
  {
    ShellTargetsRecorded(s.jobs, s.pids, s.clients, s.deps, id);
    hide JobsOK, GroupsOK, DriversOK, ClientsOK, RechecksOK;
    ExtendedKeepsDb(c, s, s.deps[front], names);
    ExtendedKeepsRechecks(c, s, id, front, names);
    ExtendedKeepsPhases(c, s, s.deps[front], names);
  }

  lemma ShellTargetsRecorded(jobs: map<int, Rule>, pids: map<int, int>, clients: seq<Client>, deps: map<Target, nat>, id: int)
    requires DriversOK(jobs, pids, clients, deps, {}) && HasShell(pids, id)
    ensures id in jobs && forall t :: t in jobs[id].targets ==> t in deps
  {
    var p :| p in pids && pids[p] == id;
    assert Drivable(jobs, pids[p]);
  }

  lemma ExtendedKeepsPhases(c: Config, s: State, r: nat, names: set<Target>)
    requires PhasesOK(c, s.status, s.deps, s.recs, s.files) && r < |s.recs|
    ensures PhasesOK(c, s.status, s.deps, Extended(s, r, names).recs, s.files)
  {
    var recs' := Extended(s, r, names).recs;
    assert forall k :: 0 <= k < |recs'| ==> recs'[k].targets == s.recs[k].targets;
    hide SiblingsOK;
  }

  // Counting real clients.

  /** The jobs that the real clients came from. */
  ghost function RealJobs(clients: seq<Client>): multiset<int> {
    if clients == [] then multiset{}
    else RealJobs(clients[..|clients| - 1]) + RealJob(clients[|clients| - 1])
  }

  ghost function RealJob(client: Client): multiset<int> {
    if client.socket then multiset{client.jobId} else multiset{}
  }

  lemma {:induction false} RealJobsConcat(a: seq<Client>, b: seq<Client>)
    ensures RealJobs(a + b) == RealJobs(a) + RealJobs(b)
    decreases |b|
  {
    if b == [] {
      assert a + b == a;
    } else {
      assert (a + b)[..|a + b| - 1] == a + b[..|b| - 1];
      RealJobsConcat(a, b[..|b| - 1]);
    }
  }

  lemma RealJobsInserted(clients: seq<Client>, i: nat, x: Client)
    requires i <= |clients|
    ensures RealJobs(Inserted(clients, i, x)) == RealJobs(clients) + RealJob(x)
  {
    hide RealJobs, RealJob;
    var front, back := clients[..i], clients[i..];
    assert clients == front + back;
    RealJobsConcat(front, back);
    RealJobsConcat(front, [x]);
    RealJobsConcat(front + [x], back);
    RealJobsOne(x);
  }

  lemma RealJobsOne(x: Client)
    ensures RealJobs([x]) == RealJob(x)
  {
    assert [x][..0] == [];
  }

  lemma InsertedWithout<T>(s: seq<T>, i: nat, x: T)
    requires i < |s|
    ensures Inserted(Without(s, i), i, x) == s[i := x]
    ensures x == s[i] ==> s[i := x] == s
  {
  }

  lemma RealJobsWithout(clients: seq<Client>, i: nat)
    requires i < |clients|
    ensures RealJobs(clients) == RealJobs(Without(clients, i)) + RealJob(clients[i])
    ensures |RealJobs(clients)| == |RealJobs(Without(clients, i))| + if clients[i].socket then 1 else 0
    ensures RealJobs(Without(clients, i)) <= RealJobs(clients)
  {
    hide RealJobs;
    InsertedWithout(clients, i, clients[i]);
    RealJobsInserted(Without(clients, i), i, clients[i]);
  }

  lemma RealJobsChanged(clients: seq<Client>, i: nat, x: Client)
    requires i < |clients| && x.socket == clients[i].socket && x.jobId == clients[i].jobId
    ensures RealJobs(clients[i := x]) == RealJobs(clients)
  {
    hide RealJobs, Inserted;
    RealJobsWithout(clients, i);
    InsertedWithout(clients, i, x);
    RealJobsInserted(Without(clients, i), i, x);
  }

  /** Every real client was started by a script that still runs and waits for no other client. */
  ghost predicate Honest(clients: seq<Client>, pids: map<int, int>) {
    forall j :: j in RealJobs(clients) ==> RealJobs(clients)[j] == 1 && HasShell(pids, j)
  }

  /** Honest clients are no more than the shells. */
  lemma {:induction false} HonestCount(jobs: multiset<int>, pids: map<int, int>)
    requires forall j :: j in jobs ==> jobs[j] == 1 && HasShell(pids, j)
    ensures |jobs| <= |pids|
    decreases |pids|
  {
    if p :| p in pids {
      var j := pids[p];
      var rest, jobs' := pids - {p}, jobs[j := 0];
      assert |rest| == |pids| - 1;
      forall k | k in jobs' ensures jobs'[k] == 1 && HasShell(rest, k) {
        var q :| q in pids && pids[q] == k;
        assert q in rest && rest[q] == k;
      }
      HonestCount(jobs', rest);
      assert jobs == jobs' + multiset{j} || jobs == jobs';
    } else {
      assert forall j :: !HasShell(pids, j);
      assert forall j :: jobs[j] == multiset{}[j];
    }
  }

  // What dependency clients ask for.

  lemma AskedInserted(jobs: map<int, Rule>, clients: seq<Client>, asked: seq<set<Target>>, i: nat, x: Client, names: set<Target>)
    requires AskedOK(jobs, clients, asked) && i <= |clients|
    requires x.delayed ==> x.jobId in jobs && names == Prerequisites(jobs[x.jobId])
    ensures AskedOK(jobs, Inserted(clients, i, x), Inserted(asked, i, names))
  {
    hide Prerequisites;
  }

  lemma AskedWithout(jobs: map<int, Rule>, clients: seq<Client>, asked: seq<set<Target>>, i: nat)
    requires AskedOK(jobs, clients, asked) && i < |clients|
    ensures AskedOK(jobs, Without(clients, i), Without(asked, i))
  {
    hide Prerequisites;
  }

  /** Jobs of the remaining dependency clients are untouched when another job ends or begins. */
  lemma AskedJobs(jobs: map<int, Rule>, jobs': map<int, Rule>, clients: seq<Client>, asked: seq<set<Target>>, id: int)
    requires AskedOK(jobs, clients, asked) && !Delayed(clients, id)
    requires forall j :: j in jobs && j != id ==> j in jobs' && jobs'[j] == jobs[j]
    ensures AskedOK(jobs', clients, asked)
  {
    hide Prerequisites;
    forall i | 0 <= i < |clients| && clients[i].delayed
      ensures clients[i].jobId in jobs' && asked[i] == Prerequisites(jobs'[clients[i].jobId])
    {
      assert clients[i] in clients;
      assert clients[i].jobId != id;
    }
  }

  // What the invariant says about jobs, spelled out.

  /** No target belongs to two live jobs; a live job has either one shell or one dependency client, never both. */
  lemma JobsAreExclusive(c: Config, s: State)
    requires Inv(c, s)
    ensures forall j, k, t :: j in s.jobs && k in s.jobs && t in s.jobs[j].targets && t in s.jobs[k].targets ==> j == k
    ensures forall j :: j in s.jobs && s.jobs[j].targets != [] ==> (HasShell(s.pids, j) <==> !Delayed(s.clients, j))
    ensures forall p, q :: p in s.pids && q in s.pids && s.pids[p] == s.pids[q] ==> p == q
    ensures forall i, k :: 0 <= i < k < |s.clients| && s.clients[i].delayed && s.clients[k].delayed ==> s.clients[i].jobId != s.clients[k].jobId
    ensures forall j, t :: j in s.jobs && t in s.jobs[j].targets ==> t in s.status && Active(s.status[t].st)
    ensures forall t :: t in s.status && Active(s.status[t].st) ==> exists j :: j in s.jobs && t in s.jobs[j].targets
  {
    hide GroupsOK, DbOK, PhasesOK, ClientsOK, RechecksOK;
    DriversAreExclusive(s.jobs, s.pids, s.clients, s.deps);
    hide DriversOK;
    forall j, k, t | j in s.jobs && k in s.jobs && t in s.jobs[j].targets && t in s.jobs[k].targets ensures j == k {
      assert s.owner[t] == j && s.owner[t] == k;
    }
    forall t | t in s.status && Active(s.status[t].st) ensures exists j :: j in s.jobs && t in s.jobs[j].targets {
      var j := s.owner[t];
      assert j in s.jobs && t in s.jobs[j].targets;
    }
  }

  lemma DriversAreExclusive(jobs: map<int, Rule>, pids: map<int, int>, clients: seq<Client>, deps: map<Target, nat>)
    requires DriversOK(jobs, pids, clients, deps, {})
    ensures forall j :: j in jobs && jobs[j].targets != [] ==> (HasShell(pids, j) <==> !Delayed(clients, j))
    ensures forall p, q :: p in pids && q in pids && pids[p] == pids[q] ==> p == q
    ensures forall i, k :: 0 <= i < k < |clients| && clients[i].delayed && clients[k].delayed ==> clients[i].jobId != clients[k].jobId
  {
    hide HasShell, Delayed;
    forall j | j in jobs && jobs[j].targets != [] ensures HasShell(pids, j) <==> !Delayed(clients, j) {
      assert Drivable(jobs, j);
    }
  }

  // The first state.

  /** The server before a loop: some statuses are known, and jobs for which no rule was found may be left. */
  ghost function Initial(presets: StatusMap, jobs: map<int, Rule>, counter: nat, deps: map<Target, nat>, recs: seq<Record>,
                         files: map<Target, int>): State {
    State(presets, jobs, map[], [], [], map[], deps, recs, files, counter)
  }

  /** What the inputs of a loop must be: nothing is running, rechecks can be decided, and groups are consistent. */
  ghost predicate Startup(c: Config, presets: StatusMap, jobs: map<int, Rule>, counter: nat, deps: map<Target, nat>,
                          recs: seq<Record>, files: map<Target, int>)
  {
    && RulesOK(c) && DbOK(c, deps, recs) && presets.Keys <= c.rules.Keys
    && (forall t :: t in presets ==>
         !Active(presets[t].st) && (presets[t].st.Recheck? ==> Recheckable(presets, deps, recs, t)))
    && (forall j :: j in jobs ==> 0 <= j < counter && jobs[j].targets == [] && Prerequisites(jobs[j]) <= c.rules.Keys)
    && PhasesOK(c, presets, deps, recs, files)
  }

  lemma InitialInv(c: Config, presets: StatusMap, jobs: map<int, Rule>, counter: nat, deps: map<Target, nat>, recs: seq<Record>,
                   files: map<Target, int>)
    requires Startup(c, presets, jobs, counter, deps, recs, files)
    ensures var s := Initial(presets, jobs, counter, deps, recs, files); Inv(c, s) && AskedOK(s.jobs, s.clients, s.asked)
  {
    ResolvedRulesAgree(c);
    hide RulesOK, GroupsOK, DbOK, PhasesOK, Recheckable, Prerequisites;
    var s := Initial(presets, jobs, counter, deps, recs, files);
    NothingDriven(c, jobs, counter, presets, deps);
    hide JobsOK, DriversOK;
  }

  lemma NothingDriven(c: Config, jobs: map<int, Rule>, counter: nat, status: StatusMap, deps: map<Target, nat>)
    requires forall j :: j in jobs ==> 0 <= j < counter && jobs[j].targets == [] && Prerequisites(jobs[j]) <= c.rules.Keys
    requires forall t :: t in status ==> !Active(status[t].st)
    ensures JobsOK(c, jobs, counter, map[], status) && DriversOK(jobs, map[], [], deps, {})
  {
  }

  lemma ResolvedRulesAgree(c: Config)
    requires RulesOK(c)
    ensures GroupsOK(c)
  {
    hide RuleFor, FiledUnderTargets, GroupsAgree;
    ResolvedRulesList(c);
  }

  /** The same targets, in the same groups. */
  ghost predicate SameGroups(c: Config, d: Config) {
    && d.rules.Keys == c.rules.Keys && d.obsolete == c.obsolete
    && forall t :: t in c.rules ==> Elems(d.rules[t].targets) == Elems(c.rules[t].targets)
  }

  /** When a loop has ended, with no client and no shell left, another one can start where it stopped, also with other
      rules that keep the groups. */
  lemma LoopIsOver(c: Config, s: State, d: Config)
    requires Inv(c, s) && s.clients == [] && s.pids == map[] && RulesOK(d) && SameGroups(c, d)
    ensures Startup(d, s.status, s.jobs, s.counter, s.deps, s.recs, s.files)
  {
    NothingRuns(c, s);
    SameGroupsKeepDb(c, d, s.deps, s.recs);
    SameGroupsKeepPhases(c, d, s.status, s.deps, s.recs, s.files);
    hide DbOK, PhasesOK, JobsOK, DriversOK, GroupsOK, Recheckable;
  }

  lemma NothingRuns(c: Config, s: State)
    requires Inv(c, s) && s.clients == [] && s.pids == map[]
    ensures forall j :: j in s.jobs ==> 0 <= j < s.counter && s.jobs[j].targets == [] && Prerequisites(s.jobs[j]) <= c.rules.Keys
    ensures forall t :: t in s.status ==> !Active(s.status[t].st)
  {
    hide GroupsOK, DbOK, PhasesOK, ClientsOK, RechecksOK, Prerequisites, Active;
    forall j | j in s.jobs
      ensures 0 <= j < s.counter && s.jobs[j].targets == [] && Prerequisites(s.jobs[j]) <= c.rules.Keys
    {
      assert JobRuleOK(c, s.jobs[j]);
      assert !HasShell(s.pids, j) && !Delayed(s.clients, j);
      assert !Drivable(s.jobs, j);
    }
  }

  lemma SameGroupsKeepDb(c: Config, d: Config, deps: map<Target, nat>, recs: seq<Record>)
    requires SameGroups(c, d) && DbOK(c, deps, recs)
    ensures DbOK(d, deps, recs)
  {
    forall t | t in deps && t in d.rules
      ensures RecordOK(d, t, recs[deps[t]])
    {
      assert RecordOK(c, t, recs[deps[t]]);
      NoElems(c.rules[t].targets);
      NoElems(d.rules[t].targets);
    }
  }

  lemma NoElems(s: seq<Target>)
    ensures s == [] <==> Elems(s) == {}
  {
    if s != [] { assert s[0] in Elems(s); }
  }

  lemma SameGroupsKeepPhases(c: Config, d: Config, status: StatusMap, deps: map<Target, nat>, recs: seq<Record>, files: map<Target, int>)
    requires SameGroups(c, d) && PhasesOK(c, status, deps, recs, files)
    ensures PhasesOK(d, status, deps, recs, files)
  {
    hide SiblingsOK;
    forall t, u | t in d.rules && u in d.rules[t].targets
      ensures SiblingsOK(status, deps, files, t, u)
    {
      assert u in Elems(c.rules[t].targets);
    }
  }

  /** Rule resolution itself makes a rule that is found list the target it was found for. */
  lemma ResolvedRulesList(c: Config)
    requires FiledUnderTargets(c.specific) && forall t :: t in c.rules ==> c.rules[t] == RuleFor(c.specific, c.generic, t)
    ensures forall t :: t in c.rules && c.rules[t].targets != [] ==> t in c.rules[t].targets
  {
    forall t | t in c.rules
      ensures c.rules[t].targets != [] ==> t in c.rules[t].targets
    {
      RuleListsTarget(c.specific, c.generic, t);
    }
  }

  // What happens to siblings that the database does not know to belong together.

  /** Starting a target revokes no verdict and takes no target from another job exactly when no sibling has got past
      being startable. */
  lemma StartAdvancesExactly(c: Config, s: State, t: Target, st: BuildStatus)
    requires StartOf(c, s, t, st) && JobsOK(c, s.jobs, s.counter, s.owner, s.status)
    ensures var s' := Started(c, s, t, st);
      Advances(s.status, s'.status) && TargetsActive(s'.jobs, s'.owner, s'.status)
      <==> forall x :: x in c.rules[t].targets && x in s.status ==> Startable(s.status[x].st)
  {
    var s' := Started(c, s, t, st);
    hide JobRulesOK;
    forall x | x in s.status
      ensures x in s'.status && s'.status[x].st == if x in c.rules[t].targets then st else s.status[x].st
    {
    }
    if forall x :: x in c.rules[t].targets && x in s.status ==> Startable(s.status[x].st) {
      StartTakesNothing(c, s, t, st);
    } else if Advances(s.status, s'.status) {
      var x :| x in c.rules[t].targets && x in s.status && !Startable(s.status[x].st);
      assert Active(s.status[x].st);
      var j := s.owner[x];
      assert j in s.jobs && j < s.counter && j in s'.jobs && x in s'.jobs[j].targets && s'.owner[x] == s.counter;
    }
  }

  lemma StartTakesNothing(c: Config, s: State, t: Target, st: BuildStatus)
    requires StartOf(c, s, t, st) && JobsOK(c, s.jobs, s.counter, s.owner, s.status)
    requires forall x :: x in c.rules[t].targets && x in s.status ==> Startable(s.status[x].st)
    ensures var s' := Started(c, s, t, st); TargetsActive(s'.jobs, s'.owner, s'.status)
  {
    hide JobRulesOK, ActiveOwned;
    var s' := Started(c, s, t, st);
    forall j, x | j in s'.jobs && x in s'.jobs[j].targets
      ensures x in s'.status && Active(s'.status[x].st) && x in s'.owner && s'.owner[x] == j
    {
      if j != s.counter {
        assert j in s.jobs && x in s.jobs[j].targets && Active(s.status[x].st);
      }
    }
  }

  /** A generic rule with two targets, one of which exists while the other is missing and neither is
      recorded: the lookups of both succeed, and then building the missing one revokes the verdict on the other. */
  lemma DisagreeingSiblings() returns (c: Config, s: State, looked: StatusMap)
    ensures GroupsOK(c) && DbOK(c, s.deps, s.recs) && s.status == map[] && Looked(c, s, looked)
    ensures looked == map["x.b" := Entry(Uptodate, 7), "x.a" := Entry(Todo, 0)]
    ensures StartOf(c, s.(status := looked), "x.a", Running)
    ensures "x.b" in Started(c, s.(status := looked), "x.a", Running).status
    ensures Started(c, s.(status := looked), "x.a", Running).status["x.b"].st == Running
  {
    hide GroupsOK, DbOK, Looked, StartOf, Started;
    var rule := Rule(["x.a", "x.b"], [], [], "make both");
    c := Config(map[], [Rule(["%.a", "%.b"], [], [], "make both")], 1, false, 0, {"x.a", "x.b"}, map["x.a" := rule, "x.b" := rule]);
    s := State(map[], map[], map[], [], [], map[], map[], [], map["x.b" := 7], 0);
    looked := map["x.b" := Entry(Uptodate, 7), "x.a" := Entry(Todo, 0)];
    SiblingGroups(c, rule);
    NothingRecorded(c, s);
    SiblingLookups(c, s, looked);
    SiblingStarted(c, s.(status := looked), rule);
  }

  lemma NothingRecorded(c: Config, s: State)
    requires s.deps == map[]
    ensures DbOK(c, s.deps, s.recs)
  {
  }

  lemma SiblingGroups(c: Config, rule: Rule)
    requires rule == Rule(["x.a", "x.b"], [], [], "make both") && c.rules == map["x.a" := rule, "x.b" := rule]
    ensures GroupsOK(c)
  {
    assert rule.targets[0] == "x.a" && rule.targets[1] == "x.b";
    assert Prerequisites(rule) == {};
  }

  lemma SiblingLookups(c: Config, s: State, looked: StatusMap)
    requires c.rules.Keys == {"x.a", "x.b"} && s.status == map[] && s.deps == map[] && s.files == map["x.b" := 7]
    requires looked == map["x.b" := Entry(Uptodate, 7), "x.a" := Entry(Todo, 0)]
    ensures Looked(c, s, looked)
  {
    assert Found(c, s, looked, "x.a") && Found(c, s, looked, "x.b");
  }

  lemma SiblingStarted(c: Config, s: State, rule: Rule)
    requires rule == Rule(["x.a", "x.b"], [], [], "make both") && c.rules == map["x.a" := rule, "x.b" := rule]
    requires s.status == map["x.b" := Entry(Uptodate, 7), "x.a" := Entry(Todo, 0)]
    ensures StartOf(c, s, "x.a", Running) && "x.b" in Started(c, s, "x.a", Running).status
    ensures Started(c, s, "x.a", Running).status["x.b"].st == Running
  {
    assert c.rules["x.a"] == rule && rule.targets[1] == "x.b";
  }
}
