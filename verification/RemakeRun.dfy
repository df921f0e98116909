/** Runs of the server as moves from state to state, and one that ends in waiting for nothing. */
module RemakeRun {
  import opened RemakeRules
  import opened RemakeState
  import opened RemakeLookup
  import opened RemakeServer

  /** Where the server is: about to visit the client at place `i`, serving it, waiting, or handling what happened. */
  datatype Phase = Visiting(i: nat, restart: bool) | Serving(i: nat, restart: bool) | Waiting | Events

  datatype Run = Run(s: State, phase: Phase)

  ghost predicate Free(c: Config, s: State) {
    c.maxJobs <= 0 || |s.pids| - |RealJobs(s.clients)| < c.maxJobs
  }

  /** A client with nothing pending and something to wait for is left alone. */
  ghost function Goes(s: State, i: nat, restart: bool): Phase {
    if i < |s.clients| && Served(s.clients[i]) then Visiting(i + 1, restart) else Serving(i, restart)
  }

  // The moves of a server whose scripts all succeed.

  ghost predicate Reaps(s: State, i: nat, s': State) {
    && i < |s.clients| == |s.asked|
    && var x := Reaped(s.clients[i], s.status, {}); !x.failed && s' == ChangedClient(s, i, x, s.asked[i])
  }

  /** The first pending target is popped and its status looked up. */
  ghost predicate Takes(c: Config, s: State, i: nat, looked: StatusMap) {
    && i < |s.clients| == |s.asked| && s.clients[i].pending != [] && Looked(c, s, looked)
    && s.clients[i].pending[0] in c.rules && s.clients[i].pending[0] in looked
  }

  ghost predicate Files(c: Config, s: State, i: nat, looked: StatusMap, s': State) {
    && Takes(c, s, i, looked)
    && var (client, target) := (s.clients[i], s.clients[i].pending[0]);
       var x := client.(pending := client.pending[1..], running := client.running + {target});
       Active(looked[target].st) && s' == ChangedClient(s.(status := looked), i, x, s.asked[i])
  }

  /** The target is marked for a fresh job and the client waits for it. */
  ghost function Marks(c: Config, s: State, i: nat, looked: StatusMap): State
    requires Takes(c, s, i, looked)
  {
    var (client, target) := (s.clients[i], s.clients[i].pending[0]);
    var st := if Prerequisites(c.rules[target]) != {} && looked[target].st.Recheck? then RunningRecheck else Running;
    var x := client.(pending := client.pending[1..], running := client.running + {target});
    ChangedClient(Started(c, s.(status := looked), target, st), i, x, s.asked[i])
  }

  ghost predicate Defers(c: Config, s: State, i: nat, looked: StatusMap, s': State) {
    && Takes(c, s, i, looked)
    && var target := s.clients[i].pending[0];
       var rule := c.rules[target];
       && Startable(looked[target].st) && rule.targets != [] && Prerequisites(rule) != {}
       && s' == WithClient(Marks(c, s, i, looked), i, DependencyClient(s.counter, rule), Prerequisites(rule))
  }

  ghost predicate Launches(c: Config, s: State, i: nat, looked: StatusMap, s': State) {
    && Takes(c, s, i, looked)
    && var target := s.clients[i].pending[0];
       var rule := c.rules[target];
       && Startable(looked[target].st) && rule.targets != [] && Prerequisites(rule) == {} && rule.script != ""
       && Launched(c, Marks(c, s, i, looked), s', s.counter, ShellStarted)
  }

  ghost predicate Answers(s: State, i: nat, s': State) {
    && i < |s.clients| == |s.asked|
    && var x := s.clients[i]; x.pending == [] && x.running == {} && !x.failed && !x.delayed && s' == WithoutClient(s, i)
  }

  ghost predicate Requests(c: Config, s: State, jobId: int, pending: seq<Target>, s': State) {
    && HasShell(s.pids, jobId) && jobId in s.jobs && s.jobs[jobId].targets != [] && |s.asked| == |s.clients|
    && var front := s.jobs[jobId].targets[0];
       && front in s.deps && s.deps[front] < |s.recs| && Elems(pending) <= c.rules.Keys
       && s' == WithClient(Extended(s, s.deps[front], Elems(pending)), 0, Client(true, jobId, false, pending, {}, false), Elems(pending))
  }

  ghost predicate Exits(c: Config, s: State, pid: int, s': State) {
    pid in s.pids && Completed(c, s.(pids := s.pids - {pid}), s', s.pids[pid], true)
  }

  ghost predicate Move(c: Config, a: Run, b: Run) {
    match a.phase
    case Visiting(i, restart) =>
      if i < |a.s.clients| && Free(c, a.s) then Reaps(a.s, i, b.s) && b.phase == Goes(b.s, i, restart)
      else |a.s.pids| != |RealJobs(a.s.clients)| && b == Run(a.s, Waiting)
    case Serving(i, restart) =>
      || ((exists looked :: Files(c, a.s, i, looked, b.s) || Defers(c, a.s, i, looked, b.s)) && b.phase == Goes(b.s, i, restart))
      || ((exists looked :: Launches(c, a.s, i, looked, b.s))
          && b.phase == if Free(c, b.s) then Goes(b.s, i, restart) else Waiting)
      || (Answers(a.s, i, b.s) && b.phase == Visiting(i, true))
    case Waiting =>
      (b.s == a.s || exists jobId, pending :: Requests(c, a.s, jobId, pending, b.s)) && b.phase.Events?
    case Events =>
      b == Run(a.s, Visiting(0, false)) || (b.phase.Events? && exists pid :: Exits(c, a.s, pid, b.s))
  }

  ghost predicate Path(c: Config, runs: seq<Run>) {
    runs != [] && forall k {:trigger runs[k]} :: 0 < k < |runs| ==> Move(c, runs[k - 1], runs[k])
  }

  ghost predicate Reaches(c: Config, a: Run, b: Run) {
    exists runs :: Path(c, runs) && runs[0] == a && runs[|runs| - 1] == b
  }

  lemma StartsAt(c: Config, a: Run)
    ensures Reaches(c, a, a)
  {
    assert Path(c, [a]) && [a][0] == a;
  }

  lemma GoesOn(c: Config, a: Run, b: Run, d: Run)
    requires Reaches(c, a, b) && Move(c, b, d)
    ensures Reaches(c, a, d)
  {
    hide Move;
    var runs :| Path(c, runs) && runs[0] == a && runs[|runs| - 1] == b;
    var longer := runs + [d];
    forall k | 0 < k < |longer| ensures Move(c, longer[k - 1], longer[k]) {
      if k < |runs| { assert longer[k] == runs[k] && longer[k - 1] == runs[k - 1]; }
    }
    assert longer[0] == a && longer[|longer| - 1] == d;
  }

  // The rules: `b` and `c` have scripts, `a` depends on itself; one job at a time.

  const MADE := Entry(Remade, 0)

  const BUSY := Entry(Running, 0)

  const SELF := Rule(["a"], ["a"], [], "touch a")

  function Plain(t: Target): Rule { Rule([t], [], [], "make") }

  function Rules(): map<Target, Rule> { map["a" := SELF, "b" := Plain("b"), "c" := Plain("c")] }

  function Setting(): Config { Config(Rules(), [], 1, false, 0, {"a", "b", "c"}, Rules()) }

  function User(pending: seq<Target>, running: set<Target>): Client { Client(false, -1, false, pending, running, false) }

  /** The request that the script of `b` leaves behind. */
  function Orphan(pending: seq<Target>, running: set<Target>): Client { Client(true, 0, false, pending, running, false) }

  /** The dependency client of `a`. */
  function Inner(pending: seq<Target>): Client { Client(false, 1, false, pending, {"a"} - Elems(pending), true) }

  /** The user asks for `b` and `c`. */
  ghost function Asking(): State {
    State(map[], map[], map[], [User(["b", "c"], {})], [{"b", "c"}], map[], map[], [], map[], 0)
  }

  ghost function Building(names: set<Target>): State {
    State(map["b" := BUSY], map[0 := Plain("b")], map[0 := 0], [User(["c"], {"b"})], [{"b", "c"}], map["b" := 0],
          map["b" := 0], [Record(["b"], names)], map[], 1)
  }

  /** The script of `b` asks for `a`. */
  ghost function Requested(): State {
    Building({"a"}).(clients := [Orphan(["a"], {}), User(["c"], {"b"})], asked := [{"a"}, {"b", "c"}])
  }

  ghost function Deferred(pending: seq<Target>): State {
    State(map["b" := BUSY, "a" := BUSY], map[0 := Plain("b"), 1 := SELF], map[0 := 0],
          [Inner(pending), Orphan([], {"a"}), User(["c"], {"b"})], [{"a"}, {"a"}, {"b", "c"}], map["b" := 0, "a" := 1],
          map["b" := 0], [Record(["b"], {"a"})], map[], 2)
  }

  ghost function Both(): State {
    State(map["b" := BUSY, "a" := BUSY, "c" := BUSY], map[0 := Plain("b"), 1 := SELF, 2 := Plain("c")], map[0 := 0, 1 := 2],
          [Inner([]), Orphan([], {"a"}), User([], {"b", "c"})], [{"a"}, {"a"}, {"b", "c"}], map["b" := 0, "a" := 1, "c" := 2],
          map["b" := 0, "c" := 1], [Record(["b"], {"a"}), Record(["c"], {})], map[], 3)
  }

  /** The script of `b` exits, without waiting for the answer to its request. */
  ghost function Left(): State {
    Both().(status := map["b" := MADE, "a" := BUSY, "c" := BUSY], jobs := map[1 := SELF, 2 := Plain("c")], pids := map[1 := 2])
  }

  ghost function Alone(user: Client): State {
    Both().(status := map["b" := MADE, "a" := BUSY, "c" := MADE], jobs := map[1 := SELF], pids := map[],
            clients := [Inner([]), Orphan([], {"a"}), user])
  }

  /** Nothing runs, and both clients that are left wait for `a`. */
  ghost function Stuck(): State {
    Alone(User([], {})).(clients := [Inner([]), Orphan([], {"a"})], asked := [{"a"}, {"a"}])
  }

  // What the moves do to a target that is the only one of its rule and that nothing is known about.

  ghost predicate Unknown(c: Config, s: State, t: Target) {
    && t in c.rules && t !in s.status && t !in s.deps && t !in s.files && s.status.Keys <= c.rules.Keys
    && c.rules[t].targets == [t]
  }

  ghost function Unbuilt(s: State, t: Target): StatusMap { s.status[t := Entry(Todo, 0)] }

  lemma TakesUnknown(c: Config, s: State, i: nat, t: Target, rest: seq<Target>)
    requires i < |s.clients| == |s.asked| && s.clients[i].pending == [t] + rest && Unknown(c, s, t)
    ensures Takes(c, s, i, Unbuilt(s, t)) && Startable(Unbuilt(s, t)[t].st)
    ensures Marks(c, s, i, Unbuilt(s, t))
            == var client := s.clients[i];
               var x := client.(pending := rest, running := client.running + {t});
               s.(status := s.status[t := BUSY], jobs := s.jobs[s.counter := c.rules[t]], counter := s.counter + 1,
                  owner := s.owner[t := s.counter], clients := s.clients[i := x])
  {
    var looked := Unbuilt(s, t);
    assert Found(c, s, looked, t);
    assert s.clients[i].pending[0] == t && s.clients[i].pending[1..] == rest;
    assert Marked(looked, [t], Running) == s.status[t := BUSY];
    assert Owned(s.owner, [t], s.counter) == s.owner[t := s.counter];
    assert s.asked[i := s.asked[i]] == s.asked;
    hide Marked, Owned, Looked, Prerequisites, Found;
  }

  lemma LaunchesPlain(s: State, t: Target, id: int, pid: int)
    requires id in s.jobs && s.jobs[id] == Plain(t) && t in s.status && pid !in s.pids
    ensures Launched(Setting(), s, s.(deps := s.deps[t := |s.recs|], recs := s.recs + [Record([t], {})], pids := s.pids[pid := id]),
                     id, ShellStarted)
  {
    assert Sharing(s.deps, [t], |s.recs|) == s.deps[t := |s.recs|];
    assert Elems([]) == {};
    assert Recorded(s, s.jobs[id]).(pids := s.pids[pid := id])
        == s.(deps := s.deps[t := |s.recs|], recs := s.recs + [Record([t], {})], pids := s.pids[pid := id]);
  }

  lemma ExitsPlain(s: State, t: Target, pid: int)
    requires pid in s.pids && s.pids[pid] in s.jobs && s.jobs[s.pids[pid]] == Plain(t)
    requires t in s.status && s.status[t] == BUSY && t !in s.files
    ensures Exits(Setting(), s, pid, s.(status := s.status[t := MADE], jobs := s.jobs - {s.pids[pid]}, pids := s.pids - {pid}))
  {
    assert [t][1..] == [];
    assert Settle(s.status, s.files, 0, [t], true) == (s.status[t := MADE], s.files);
    hide Settle;
  }

  // The moves of the run.

  lemma LaunchesB()
    ensures Launches(Setting(), Asking(), 0, Unbuilt(Asking(), "b"), Building({}))
  {
    var c, s := Setting(), Asking();
    TakesUnknown(c, s, 0, "b", ["c"]);
    hide Takes, Unbuilt, Marks, Launched;
    NoneFor(Plain("b"));
    var s1 := Marks(c, s, 0, Unbuilt(s, "b"));
    LaunchesPlain(s1, "b", 0, 0);
    OneMore("b");
    assert s1.clients == [User(["c"], {"b"})];
    assert s1.deps["b" := 0] == map["b" := 0] && s1.pids[0 := 0] == map[0 := 0] && s1.jobs == map[0 := Plain("b")];
    assert s1.recs + [Record(["b"], {})] == [Record(["b"], {})];
  }

  lemma OneMore(t: Target)
    ensures {} + {t} == {t}
  {
  }

  lemma NoneFor(rule: Rule)
    requires rule.deps == [] && rule.wdeps == []
    ensures Prerequisites(rule) == {}
  {
  }

  lemma RequestsA()
    ensures Requests(Setting(), Building({}), 0, ["a"], Requested())
  {
    var s := Building({});
    assert s.pids[0] == 0;
    assert Elems(["a"]) == {"a"};
    hide Elems;
    OneMore("a");
    assert Extended(s, 0, {"a"}).recs == [Record(["b"], {"a"})];
    assert Inserted(s.clients, 0, Orphan(["a"], {})) == [Orphan(["a"], {}), User(["c"], {"b"})];
    assert Inserted(s.asked, 0, {"a"}) == [{"a"}, {"b", "c"}];
  }

  lemma DefersA()
    ensures Defers(Setting(), Requested(), 0, Unbuilt(Requested(), "a"), Deferred(["a"]))
  {
    var c, s := Setting(), Requested();
    TakesUnknown(c, s, 0, "a", []);
    AsksForItself();
    hide Takes, Unbuilt, Marks, Prerequisites, Elems;
    var s1 := Marks(c, s, 0, Unbuilt(s, "a"));
    OneMore("a");
    assert s1.clients == [Orphan([], {"a"}), User(["c"], {"b"})];
    assert Inserted(s1.clients, 0, Inner(["a"])) == Deferred(["a"]).clients;
    assert Inserted(s1.asked, 0, {"a"}) == Deferred(["a"]).asked;
  }

  lemma AsksForItself()
    ensures Prerequisites(SELF) == {"a"} && DependencyClient(1, SELF) == Inner(["a"])
  {
    assert SELF.deps[0] == "a" && Elems(["a"]) == {"a"};
    assert SELF.deps + SELF.wdeps == ["a"];
  }

  lemma FilesA()
    ensures Files(Setting(), Deferred(["a"]), 0, Deferred(["a"]).status, Deferred([]))
  {
    var c, s := Setting(), Deferred(["a"]);
    LookedNothing(c, s);
    hide Looked;
    assert Elems(["a"]) == {"a"} && Elems([]) == {};
    assert ["a"][1..] == [] && Inner(["a"]).running + {"a"} == Inner([]).running;
    hide Elems;
    assert ChangedClient(s, 0, Inner([]), {"a"}).clients == Deferred([]).clients;
    assert ChangedClient(s, 0, Inner([]), {"a"}).asked == s.asked;
  }

  lemma LaunchesC()
    ensures Launches(Setting(), Deferred([]), 2, Unbuilt(Deferred([]), "c"), Both())
  {
    var c, s := Setting(), Deferred([]);
    TakesUnknown(c, s, 2, "c", []);
    hide Takes, Unbuilt, Marks, Launched;
    NoneFor(Plain("c"));
    var s1 := Marks(c, s, 2, Unbuilt(s, "c"));
    assert s1.jobs == Both().jobs && s1.status == Both().status;
    LaunchesPlain(s1, "c", 2, 1);
    hide Elems;
    assert {"b"} + {"c"} == {"b", "c"};
    assert s1.clients == Both().clients;
    assert s1.recs + [Record(["c"], {})] == Both().recs;
  }

  lemma ExitsB()
    ensures Exits(Setting(), Both(), 0, Left())
  {
    WithoutB();
    hide Exits;
    ExitsPlain(Both(), "b", 0);
  }

  lemma WithoutB()
    ensures Both().status["b" := MADE] == Left().status && Both().jobs - {0} == Left().jobs && Both().pids - {0} == Left().pids
  {
    hide Elems;
  }

  lemma ExitsC()
    ensures Exits(Setting(), Left(), 1, Alone(User([], {"b", "c"})))
  {
    var s := Left();
    ExitsPlain(s, "c", 1);
    hide Exits;
    assert s.status["c" := MADE] == Alone(User([], {})).status && s.jobs - {2} == map[1 := SELF] && s.pids - {1} == map[];
  }

  // How the moves make up the run.

  /** Visiting a client whose targets are all being built changes nothing. */
  lemma Passes(c: Config, s: State, i: nat, restart: bool)
    requires i < |s.clients| == |s.asked| && Free(c, s) && !s.clients[i].failed
    requires forall t :: t in s.clients[i].running ==> t in s.status && Active(s.status[t].st)
    ensures Move(c, Run(s, Visiting(i, restart)), Run(s, Goes(s, i, restart)))
  {
    var x := s.clients[i];
    assert Reaped(x, s.status, {}).running == x.running;
    assert s.clients[i := x] == s.clients && s.asked[i := s.asked[i]] == s.asked;
    hide Free, Goes, RealJobs;
    assert Reaps(s, i, s);
  }

  lemma Begins(c: Config, s: State, i: nat, looked: StatusMap, s': State, restart: bool)
    requires Launches(c, s, i, looked, s') && !Free(c, s')
    ensures Move(c, Run(s, Serving(i, restart)), Run(s', Waiting))
  {
    hide Launches, Free, Goes;
  }

  lemma Handles(c: Config, s: State, i: nat, looked: StatusMap, s': State, restart: bool)
    requires Files(c, s, i, looked, s') || Defers(c, s, i, looked, s')
    ensures Move(c, Run(s, Serving(i, restart)), Run(s', Goes(s', i, restart)))
  {
    hide Files, Defers, Goes;
  }

  lemma Happens(c: Config, s: State, s': State)
    requires s' == s || exists jobId, pending :: Requests(c, s, jobId, pending, s')
    ensures Move(c, Run(s, Waiting), Run(s', Events))
    ensures Move(c, Run(s, Events), Run(s, Visiting(0, false)))
  {
    hide Requests;
  }

  // The numbers of processes and of waiting requests along the run.

  lemma RealAmong(clients: seq<Client>, x: Client)
    ensures |RealJobs([x] + clients)| == |RealJobs(clients)| + if x.socket then 1 else 0
  {
    RealJobsConcat([x], clients);
    RealJobsOne(x);
    hide RealJobs;
  }

  lemma OneReal(x: Client)
    ensures |RealJobs([x])| == if x.socket then 1 else 0
  {
    RealJobsOne(x);
    hide RealJobs;
  }

  lemma TwoReal(x: Client, y: Client)
    ensures |RealJobs([x, y])| == (if x.socket then 1 else 0) + if y.socket then 1 else 0
  {
    OneReal(y);
    RealAmong([y], x);
    hide RealJobs;
    assert [x] + [y] == [x, y];
  }

  lemma ThreeReal(x: Client, y: Client, z: Client)
    ensures |RealJobs([x, y, z])| == (if x.socket then 1 else 0) + (if y.socket then 1 else 0) + if z.socket then 1 else 0
  {
    TwoReal(y, z);
    RealAmong([y, z], x);
    hide RealJobs;
    assert [x] + [y, z] == [x, y, z];
  }

  lemma FreeAtFirst()
    ensures Free(Setting(), Asking()) && !Free(Setting(), Building({})) && Free(Setting(), Requested())
  {
    hide RealJobs, Elems;
    OneReal(User(["b", "c"], {}));
    OneReal(User(["c"], {"b"}));
    TwoReal(Orphan(["a"], {}), User(["c"], {"b"}));
    assert |Building({}).pids| == 1;
  }

  lemma FreeLater()
    ensures Free(Setting(), Deferred([])) && !Free(Setting(), Both())
  {
    hide RealJobs, Elems;
    ThreeReal(Inner([]), Orphan([], {"a"}), User(["c"], {"b"}));
    ThreeReal(Inner([]), Orphan([], {"a"}), User([], {"b", "c"}));
    TwoPids();
  }

  lemma TwoPids()
    ensures |Deferred([]).pids| == 1 && |Both().pids| == 2
  {
    assert Both().pids - {1} == map[0 := 0];
  }

  lemma FreeAtLast()
    ensures Free(Setting(), Alone(User([], {"b", "c"})))
    ensures |RealJobs(Stuck().clients)| == 1
  {
    hide RealJobs, Elems;
    ThreeReal(Inner([]), Orphan([], {"a"}), User([], {"b", "c"}));
    TwoReal(Inner([]), Orphan([], {"a"}));
  }

  ghost function First(): Run { Run(Asking(), Visiting(0, false)) }

  /** The script of `b` runs and asks for `a`. */
  lemma RunsAndAsks()
    ensures Reaches(Setting(), First(), Run(Requested(), Visiting(0, false)))
  {
    var c := Setting();
    hide Move, RealJobs, Reaches, Launches, Requests, Free, Elems;
    FreeAtFirst();
    Passes(c, Asking(), 0, false);
    LaunchesB();
    RequestsA();
    hide Building, Requested, Setting;
    StartsAt(c, First());
    GoesOn(c, First(), First(), Run(Asking(), Serving(0, false)));
    hide Asking;
    Begins(c, Asking(), 0, Unbuilt(Asking(), "b"), Building({}), false);
    Happens(c, Building({}), Requested());
    Happens(c, Requested(), Requested());
    GoesOn(c, First(), Run(Asking(), Serving(0, false)), Run(Building({}), Waiting));
    GoesOn(c, First(), Run(Building({}), Waiting), Run(Requested(), Events));
    GoesOn(c, First(), Run(Requested(), Events), Run(Requested(), Visiting(0, false)));
  }

  /** The dependency client of `a` ends up waiting for `a` itself. */
  lemma WaitsForItself()
    requires Reaches(Setting(), First(), Run(Requested(), Visiting(0, false)))
    ensures Reaches(Setting(), First(), Run(Deferred([]), Visiting(1, false)))
  {
    var c := Setting();
    hide Move, RealJobs, Reaches, Defers, Files, Free, Setting, First;
    FreeAtFirst();
    Passes(c, Requested(), 0, false);
    DefersA();
    FilesA();
    assert Goes(Requested(), 0, false) == Serving(0, false);
    assert Goes(Deferred(["a"]), 0, false) == Serving(0, false);
    assert Goes(Deferred([]), 0, false) == Visiting(1, false) by { assert "a" in Inner([]).running; }
    hide Requested, Deferred, Goes;
    Handles(c, Requested(), 0, Unbuilt(Requested(), "a"), Deferred(["a"]), false);
    Handles(c, Deferred(["a"]), 0, Deferred(["a"]).status, Deferred([]), false);
    GoesOn(c, First(), Run(Requested(), Visiting(0, false)), Run(Requested(), Serving(0, false)));
    GoesOn(c, First(), Run(Requested(), Serving(0, false)), Run(Deferred(["a"]), Serving(0, false)));
    GoesOn(c, First(), Run(Deferred(["a"]), Serving(0, false)), Run(Deferred([]), Visiting(1, false)));
  }

  /** In the slot that the request sets free, `c` is started too. */
  lemma StartsTheOther()
    requires Reaches(Setting(), First(), Run(Deferred([]), Visiting(1, false)))
    ensures Reaches(Setting(), First(), Run(Both(), Waiting))
  {
    var c, s := Setting(), Deferred([]);
    hide Move, RealJobs, Reaches, Launches, Free, Setting, First;
    FreeLater();
    LaunchesC();
    hide Both;
    Passes(c, s, 1, false);
    Passes(c, s, 2, false);
    assert Goes(s, 1, false) == Visiting(2, false) by { assert "a" in s.clients[1].running; }
    assert Goes(s, 2, false) == Serving(2, false);
    hide Deferred, Goes;
    Begins(c, s, 2, Unbuilt(s, "c"), Both(), false);
    GoesOn(c, First(), Run(s, Visiting(1, false)), Run(s, Visiting(2, false)));
    GoesOn(c, First(), Run(s, Visiting(2, false)), Run(s, Serving(2, false)));
    GoesOn(c, First(), Run(s, Serving(2, false)), Run(Both(), Waiting));
  }

  /** Both scripts exit. */
  lemma BothExit()
    requires Reaches(Setting(), First(), Run(Both(), Waiting))
    ensures Reaches(Setting(), First(), Run(Alone(User([], {"b", "c"})), Visiting(0, false)))
  {
    var c, s := Setting(), Alone(User([], {"b", "c"}));
    hide Reaches, Exits, Setting, First, Both, Left, Alone;
    ExitsB();
    ExitsC();
    assert Move(c, Run(Both(), Events), Run(Left(), Events)) && Move(c, Run(Left(), Events), Run(s, Events));
    hide Move;
    Happens(c, Both(), Both());
    Happens(c, s, s);
    GoesOn(c, First(), Run(Both(), Waiting), Run(Both(), Events));
    GoesOn(c, First(), Run(Both(), Events), Run(Left(), Events));
    GoesOn(c, First(), Run(Left(), Events), Run(s, Events));
    GoesOn(c, First(), Run(s, Events), Run(s, Visiting(0, false)));
  }

  lemma AnswersUser()
    ensures Reaps(Alone(User([], {"b", "c"})), 2, Alone(User([], {}))) && Answers(Alone(User([], {})), 2, Stuck())
  {
    var s := Alone(User([], {"b", "c"}));
    assert Reaped(s.clients[2], s.status, {}).running == {};
    assert s.clients[2 := User([], {})] == Alone(User([], {})).clients && s.asked[2 := s.asked[2]] == s.asked;
    assert Without(Alone(User([], {})).clients, 2) == Stuck().clients && Without(s.asked, 2) == Stuck().asked;
  }

  lemma LastMoves()
    ensures Move(Setting(), Run(Alone(User([], {"b", "c"})), Visiting(2, false)), Run(Alone(User([], {})), Serving(2, false)))
    ensures Move(Setting(), Run(Alone(User([], {})), Serving(2, false)), Run(Stuck(), Visiting(2, true)))
    ensures Move(Setting(), Run(Stuck(), Visiting(2, true)), Run(Stuck(), Waiting))
  {
    hide RealJobs, Reaps, Answers, Free, Elems;
    AnswersUser();
    FreeAtLast();
  }

  /** The user is answered, and the server waits although nothing runs. */
  lemma WaitsForNothing()
    requires Reaches(Setting(), First(), Run(Alone(User([], {"b", "c"})), Visiting(0, false)))
    ensures Reaches(Setting(), First(), Run(Stuck(), Waiting))
  {
    var c, s := Setting(), Alone(User([], {"b", "c"}));
    hide Move, RealJobs, Reaches, Free, Setting, First;
    FreeAtLast();
    Passes(c, s, 0, false);
    Passes(c, s, 1, false);
    LastMoves();
    assert Goes(s, 0, false) == Visiting(1, false) by { assert "a" in s.clients[0].running; }
    assert Goes(s, 1, false) == Visiting(2, false) by { assert "a" in s.clients[1].running; }
    hide Alone, Stuck, Goes;
    GoesOn(c, First(), Run(s, Visiting(0, false)), Run(s, Visiting(1, false)));
    GoesOn(c, First(), Run(s, Visiting(1, false)), Run(s, Visiting(2, false)));
    GoesOn(c, First(), Run(s, Visiting(2, false)), Run(Alone(User([], {})), Serving(2, false)));
    GoesOn(c, First(), Run(Alone(User([], {})), Serving(2, false)), Run(Stuck(), Visiting(2, true)));
    GoesOn(c, First(), Run(Stuck(), Visiting(2, true)), Run(Stuck(), Waiting));
  }

  lemma SettingOK()
    ensures Startup(Setting(), map[], map[], 0, map[], [], map[])
  {
    var c := Setting();
    hide RuleFor, FiledUnderTargets, GroupsAgree;
    forall t | t in c.rules ensures c.rules[t] == RuleFor(c.specific, c.generic, t) {
      Scripted(c.specific, c.generic, t);
    }
    RulesFit();
  }

  lemma RulesFit()
    ensures FiledUnderTargets(Rules()) && GroupsAgree(Setting())
  {
    AsksForItself();
    NoneFor(Plain("b"));
    NoneFor(Plain("c"));
    hide Prerequisites, Elems;
    OneEach();
    hide Rules;
  }

  lemma OneEach()
    ensures forall t :: t in Rules() ==> Rules()[t].targets == [t] && (t != "a" ==> Rules()[t] == Plain(t))
    ensures Rules().Keys == {"a", "b", "c"} && Rules()["a"] == SELF
  {
  }

  lemma Scripted(specific: map<Target, Rule>, generic: seq<Rule>, t: Target)
    requires t in specific && specific[t].script != ""
    ensures RuleFor(specific, generic, t) == specific[t]
  {
  }

  lemma AllWait()
    ensures forall i :: 0 <= i < |Stuck().clients| ==> Waits(Stuck().clients[i], Stuck().status)
  {
    assert Inner([]).running == {"a"};
    assert "a" in Inner([]).running && "a" in Orphan([], {"a"}).running;
  }

  /** The documented promise that a process runs while requests are pending fails on this run: the script of `b` asks for
      `a` and exits without waiting for the answer. In the end the server waits with one request pending and no process. */
  lemma OrphanedRequestStalls() returns (c: Config, first: State, last: State)
    ensures Startup(c, map[], map[], 0, map[], [], map[])
    ensures first == WithClient(Initial(map[], map[], 0, map[], [], map[]), 0, Client(false, -1, false, ["b", "c"], {}, false),
                                Elems(["b", "c"]))
    ensures Reaches(c, Run(first, Visiting(0, false)), Run(last, Waiting))
    ensures last.pids == map[] && |RealJobs(last.clients)| == 1
    ensures forall i :: 0 <= i < |last.clients| ==> Waits(last.clients[i], last.status)
  {
    hide Startup, Reaches, RealJobs, Waits;
    c, first, last := Setting(), Asking(), Stuck();
    SettingOK();
    RunsAndAsks();
    WaitsForItself();
    StartsTheOther();
    BothExit();
    WaitsForNothing();
    FreeAtLast();
    AllWait();
    FirstRequest();
  }

  lemma FirstRequest()
    ensures Asking() == WithClient(Initial(map[], map[], 0, map[], [], map[]), 0, Client(false, -1, false, ["b", "c"], {}, false),
                                   Elems(["b", "c"]))
  {
    assert ["b", "c"][0] == "b" && ["b", "c"][1] == "c";
    assert Elems(["b", "c"]) == {"b", "c"};
    hide Elems;
    var none: seq<Client>, nothing: seq<set<Target>> := [], [];
    assert Inserted(none, 0, User(["b", "c"], {})) == [User(["b", "c"], {})];
    assert Inserted(nothing, 0, {"b", "c"}) == [{"b", "c"}];
  }
}
