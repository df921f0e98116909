/** The workers that search the lemmas of many files, as interleaved steps on a shared queue of jobs. */
module SearchWorkers {
  import opened Prelude

  type File = string
  type Text = string

  /** A lemma to prove, told by its file and by the text of its statement. */
  datatype Job = Job(file: File, statement: Text)

  /** The statements of the proofs of every file, the jobs in the order they were queued, and the number of workers. */
  datatype Config = Config(files: map<File, seq<Text>>, jobs: seq<Job>, workers: nat)

  /** A worker with a job runs through the proofs of the file from `pos` on; `failing` is the last lemma on which
      it hit an anomaly. Between two jobs it still knows its file and how far it came. */
  datatype Worker =
    | Starting
    | Seeking(job: nat, pos: nat, failing: Option<Text>)
    | Between(file: File, pos: nat, failing: Option<Text>)
    | Gone
    | NotFound(job: nat)
    | Dead(job: nat)

  datatype State = State(taken: nat, workers: seq<Worker>, done: seq<nat>, searched: seq<nat>)

  datatype Outcome = Finished | Killed | Anomaly

  /** What a worker can do next. `Reload` is an anomaly on the way to the next proof, `Die` an uncaught exception. */
  datatype Event = Take | Walk | Reload | Search(outcome: Outcome) | Die

  /** Every job names a proof of its file, and the jobs of a file are queued in the order of their proofs. */
  ghost predicate FileOrder(c: Config, place: seq<nat>) {
    && |place| == |c.jobs|
    && (forall i :: 0 <= i < |c.jobs| ==> c.jobs[i].file in c.files)
    && (forall i :: 0 <= i < |c.jobs| ==>
         place[i] < |c.files[c.jobs[i].file]| && c.files[c.jobs[i].file][place[i]] == c.jobs[i].statement)
    && (forall i, j :: 0 <= i < j < |c.jobs| && c.jobs[i].file == c.jobs[j].file ==> place[i] < place[j])
  }

  function Initial(c: Config): State {
    State(0, seq(if c.workers < |c.jobs| then c.workers else |c.jobs|, _ => Starting), [], seq(|c.jobs|, _ => 0))
  }

  /** One step of the worker `w`; `None` when the worker cannot take it. */
  function Step(c: Config, s: State, w: nat, event: Event): Option<State>
    requires |s.searched| == |c.jobs|
  {
    if w >= |s.workers| then None
    else
      match (s.workers[w], event)
      case (Starting, Take) => Some(Taken(c, s, w, "", 0, None))
      case (Between(file, pos, failing), Take) => Some(Taken(c, s, w, file, pos, failing))
      case (Seeking(job, pos, failing), Walk) =>
        if job >= |c.jobs| || c.jobs[job].file !in c.files then None
        else if pos >= |c.files[c.jobs[job].file]| then Some(s.(workers := s.workers[w := NotFound(job)]))
        else if c.files[c.jobs[job].file][pos] != c.jobs[job].statement
        then Some(s.(workers := s.workers[w := Seeking(job, pos + 1, failing)]))
        else None
      case (Seeking(job, pos, failing), Reload) => Some(s.(workers := s.workers[w := Seeking(job, 0, failing)]))
      case (Seeking(job, pos, failing), Search(outcome)) =>
        if job >= |c.jobs| || c.jobs[job].file !in c.files || pos >= |c.files[c.jobs[job].file]|
           || c.files[c.jobs[job].file][pos] != c.jobs[job].statement then None
        else Some(Searched(c, s.(searched := s.searched[job := s.searched[job] + 1]), w, job, pos, failing, outcome))
      case (Seeking(job, _, _), Die) => Some(s.(workers := s.workers[w := Dead(job)]))
      case _ => None
  }

  /** Takes the next job, and starts over in its file when that is a new one. */
  function Taken(c: Config, s: State, w: nat, file: File, pos: nat, failing: Option<Text>): State
    requires w < |s.workers|
  {
    if s.taken >= |c.jobs| then s.(workers := s.workers[w := Gone])
    else
      var start := if c.jobs[s.taken].file == file then pos else 0;
      s.(taken := s.taken + 1, workers := s.workers[w := Seeking(s.taken, start, failing)])
  }

  /** The end of a search. The first anomaly on a lemma only starts the file over. */
  function Searched(c: Config, s: State, w: nat, job: nat, pos: nat, failing: Option<Text>, outcome: Outcome): State
    requires w < |s.workers| && job < |c.jobs|
  {
    var statement := c.jobs[job].statement;
    match outcome
    case Finished => Reported(c, s, w, job, pos + 1, failing)
    case Killed => Reported(c, s, w, job, 0, failing)
    case Anomaly =>
      if failing == Some(statement) then Reported(c, s, w, job, 0, failing)
      else s.(workers := s.workers[w := Seeking(job, 0, Some(statement))])
  }

  function Reported(c: Config, s: State, w: nat, job: nat, pos: nat, failing: Option<Text>): State
    requires w < |s.workers| && job < |c.jobs|
  {
    s.(workers := s.workers[w := Between(c.jobs[job].file, pos, failing)], done := s.done + [job])
  }

  /** The state after an interleaving of steps. */
  function After(c: Config, trace: seq<(nat, Event)>): (s: Option<State>)
    ensures s.Some? ==> |s.value.searched| == |c.jobs|
  {
    if trace == [] then Some(Initial(c))
    else
      var before := After(c, trace[..|trace| - 1]);
      var (w, event) := trace[|trace| - 1];
      if before.None? then None else Step(c, before.value, w, event)
  }

  // ---------------------------------------------------------------- where every job is

  predicate Holds(worker: Worker, job: nat) {
    (worker.Seeking? || worker.NotFound? || worker.Dead?) && worker.job == job
  }

  /** How many workers hold the job. */
  ghost function Holders(workers: seq<Worker>, job: nat): nat {
    if workers == [] then 0 else (if Holds(workers[0], job) then 1 else 0) + Holders(workers[1..], job)
  }

  lemma {:induction false} HoldersChange(workers: seq<Worker>, w: nat, worker: Worker, job: nat)
    requires w < |workers|
    ensures Holders(workers[w := worker], job) + (if Holds(workers[w], job) then 1 else 0)
            == Holders(workers, job) + (if Holds(worker, job) then 1 else 0)
  {
    if w > 0 {
      assert workers[w := worker][1..] == workers[1..][w - 1 := worker];
      HoldersChange(workers[1..], w - 1, worker, job);
    } else {
      assert workers[w := worker][1..] == workers[1..];
    }
  }

  lemma {:induction false} OneHolder(workers: seq<Worker>, w: nat, job: nat)
    requires w < |workers| && Holds(workers[w], job)
    ensures Holders(workers, job) >= 1
    ensures Holders(workers, job) == 1 ==> forall v :: 0 <= v < |workers| && v != w ==> !Holds(workers[v], job)
  {
    if w > 0 {
      OneHolder(workers[1..], w - 1, job);
    } else {
      assert forall v :: 1 <= v < |workers| ==> workers[v] == workers[1..][v - 1];
      if v :| 1 <= v < |workers| && Holds(workers[v], job) {
        OneHolder(workers[1..], v - 1, job);
      }
    }
  }

  lemma {:induction false} NoHolders(workers: seq<Worker>, job: nat)
    requires forall w :: 0 <= w < |workers| ==> !Holds(workers[w], job)
    ensures Holders(workers, job) == 0
  {
    if workers != [] {
      assert forall w :: 0 <= w < |workers| - 1 ==> workers[1..][w] == workers[w + 1];
      NoHolders(workers[1..], job);
    }
  }

  // ---------------------------------------------------------------- what every step keeps

  /** Every job taken so far was reported or is in the hands of one worker, and no other job is. */
  ghost predicate Conserved(s: State) {
    forall j: nat :: multiset(s.done)[j] + Holders(s.workers, j) == if j < s.taken then 1 else 0
  }

  /** A worker that seeks a proof has not run past it. */
  ghost predicate OnTheWay(c: Config, taken: nat, place: seq<nat>, worker: Worker) {
    && (worker.Seeking? ==> worker.job < |c.jobs| && worker.job < |place| && worker.pos <= place[worker.job])
    && (worker.Between? ==> NotPast(c, taken, place, worker.file, worker.pos))
    && !worker.NotFound?
    && (worker.Gone? ==> taken == |c.jobs|)
  }

  /** All the jobs of the file that are still queued lie at or behind the position. */
  ghost predicate NotPast(c: Config, taken: nat, place: seq<nat>, file: File, pos: nat) {
    forall j :: taken <= j < |c.jobs| && j < |place| && c.jobs[j].file == file ==> pos <= place[j]
  }

  /** A job in hand was searched at most once, and then its lemma is the one that failed. */
  ghost predicate Sparing(c: Config, searched: seq<nat>, worker: Worker) {
    worker.Seeking? && worker.job < |c.jobs| && worker.job < |searched| ==>
      searched[worker.job] == 0 || (searched[worker.job] == 1 && worker.failing == Some(c.jobs[worker.job].statement))
  }

  ghost predicate Counted(c: Config, taken: nat, searched: seq<nat>) {
    && |searched| == |c.jobs|
    && (forall j :: 0 <= j < |c.jobs| ==> searched[j] <= 2)
    && (forall j :: taken <= j < |c.jobs| ==> searched[j] == 0)
  }

  ghost predicate WorkersOK(c: Config, s: State, place: seq<nat>) {
    forall w :: 0 <= w < |s.workers| ==> OnTheWay(c, s.taken, place, s.workers[w]) && Sparing(c, s.searched, s.workers[w])
  }

  ghost predicate Inv(c: Config, s: State, place: seq<nat>) {
    s.taken <= |c.jobs| && Conserved(s) && Counted(c, s.taken, s.searched) && WorkersOK(c, s, place)
  }

  /** Two workers never hold the same job, and none holds a job that is done. */
  lemma HeldOnce(s: State, w: nat)
    requires Conserved(s) && w < |s.workers| && s.workers[w].Seeking?
    ensures s.workers[w].job < s.taken && multiset(s.done)[s.workers[w].job] == 0
    ensures forall v :: 0 <= v < |s.workers| && v != w ==> !Holds(s.workers[v], s.workers[w].job)
  {
    OneHolder(s.workers, w, s.workers[w].job);
    assert multiset(s.done)[s.workers[w].job] + Holders(s.workers, s.workers[w].job) <= 1;
  }

  /** A worker that keeps its job, or drops none, keeps the jobs where they are. */
  lemma ConservedByMove(s: State, w: nat, worker: Worker, searched: seq<nat>)
    requires Conserved(s) && w < |s.workers| && forall j: nat :: Holds(s.workers[w], j) == Holds(worker, j)
    ensures Conserved(s.(workers := s.workers[w := worker], searched := searched))
  {
    forall j: nat
      ensures Holders(s.workers[w := worker], j) == Holders(s.workers, j)
    {
      HoldersChange(s.workers, w, worker, j);
    }
  }

  lemma ConservedByTaking(s: State, w: nat, worker: Worker)
    requires Conserved(s) && w < |s.workers| && (forall j: nat :: !Holds(s.workers[w], j))
    requires worker.Seeking? && worker.job == s.taken
    ensures Conserved(s.(taken := s.taken + 1, workers := s.workers[w := worker]))
  {
    var next := s.(taken := s.taken + 1, workers := s.workers[w := worker]);
    forall j: nat
      ensures multiset(next.done)[j] + Holders(next.workers, j) == if j < next.taken then 1 else 0
    {
      HoldersChange(s.workers, w, worker, j);
      assert multiset(s.done)[j] + Holders(s.workers, j) == if j < s.taken then 1 else 0;
    }
  }

  lemma ConservedByReport(s: State, w: nat, worker: Worker, searched: seq<nat>)
    requires Conserved(s) && w < |s.workers| && s.workers[w].Seeking? && worker.Between?
    ensures Conserved(s.(workers := s.workers[w := worker], done := s.done + [s.workers[w].job], searched := searched))
  {
    var job := s.workers[w].job;
    var next := s.(workers := s.workers[w := worker], done := s.done + [job], searched := searched);
    assert multiset(next.done) == multiset(s.done) + multiset{job};
    forall j: nat
      ensures multiset(next.done)[j] + Holders(next.workers, j) == if j < next.taken then 1 else 0
    {
      HoldersChange(s.workers, w, worker, j);
      assert multiset(s.done)[j] + Holders(s.workers, j) == if j < s.taken then 1 else 0;
    }
  }

  lemma TakenKeeps(c: Config, s: State, place: seq<nat>, w: nat, file: File, pos: nat, failing: Option<Text>)
    requires Inv(c, s, place) && |place| == |c.jobs| && w < |s.workers| && forall j: nat :: !Holds(s.workers[w], j)
    requires NotPast(c, s.taken, place, file, pos)
    ensures Inv(c, Taken(c, s, w, file, pos, failing), place)
  {
    hide Conserved, Holders;
    var next := Taken(c, s, w, file, pos, failing);
    if s.taken >= |c.jobs| {
      ConservedByMove(s, w, Gone, s.searched);
    } else {
      ConservedByTaking(s, w, next.workers[w]);
    }
  }

  /** The counts of the other workers' jobs do not change. */
  lemma OthersSpared(c: Config, s: State, place: seq<nat>, w: nat, worker: Worker, n: nat, done: seq<nat>)
    requires Conserved(s) && WorkersOK(c, s, place) && w < |s.workers| && s.workers[w].Seeking?
    requires s.workers[w].job < |s.searched|
    requires var job := s.workers[w].job;
      OnTheWay(c, s.taken, place, worker) && Sparing(c, s.searched[job := n], worker)
    ensures var job := s.workers[w].job;
      WorkersOK(c, s.(searched := s.searched[job := n], workers := s.workers[w := worker], done := done), place)
  {
    hide Conserved, OnTheWay;
    HeldOnce(s, w);
  }

  lemma SearchedKeeps(c: Config, s: State, place: seq<nat>, w: nat, outcome: Outcome)
    requires FileOrder(c, place) && Inv(c, s, place) && w < |s.workers| && s.workers[w].Seeking?
    requires Step(c, s, w, Search(outcome)).Some?
    ensures Inv(c, Step(c, s, w, Search(outcome)).value, place)
  {
    hide Conserved, Holders, WorkersOK;
    var Seeking(job, pos, failing) := s.workers[w];
    var n := s.searched[job] + 1;
    var next := Step(c, s, w, Search(outcome)).value;
    HeldOnce(s, w);
    assert OnTheWay(c, s.taken, place, s.workers[w]) && Sparing(c, s.searched, s.workers[w]) by {
      WorkerOK(c, s, place, w);
    }
    OthersSpared(c, s, place, w, next.workers[w], n, next.done);
    if outcome.Anomaly? && failing != Some(c.jobs[job].statement) {
      ConservedByMove(s, w, next.workers[w], next.searched);
    } else {
      ConservedByReport(s, w, next.workers[w], next.searched);
    }
  }

  lemma WorkerOK(c: Config, s: State, place: seq<nat>, w: nat)
    requires WorkersOK(c, s, place) && w < |s.workers|
    ensures OnTheWay(c, s.taken, place, s.workers[w]) && Sparing(c, s.searched, s.workers[w])
  {
  }

  lemma MovedKeeps(c: Config, s: State, place: seq<nat>, w: nat, worker: Worker)
    requires Inv(c, s, place) && w < |s.workers| && s.workers[w].Seeking?
    requires (worker.Seeking? && worker.failing == s.workers[w].failing) || worker.Dead?
    requires worker.job == s.workers[w].job && OnTheWay(c, s.taken, place, worker)
    ensures Inv(c, s.(workers := s.workers[w := worker]), place)
  {
    hide Conserved, Holders, OnTheWay;
    ConservedByMove(s, w, worker, s.searched);
    WorkerOK(c, s, place, w);
  }

  lemma StepKeeps(c: Config, s: State, place: seq<nat>, w: nat, event: Event)
    requires FileOrder(c, place) && Inv(c, s, place) && Step(c, s, w, event).Some?
    ensures Inv(c, Step(c, s, w, event).value, place)
  {
    hide Conserved, Holders, Sparing, NotPast, WorkersOK, Taken;
    var worker := s.workers[w];
    WorkerOK(c, s, place, w);
    match event
    case Take =>
      if worker.Starting? {
        AnyStart(c, s.taken, place);
        TakenKeeps(c, s, place, w, "", 0, None);
      } else {
        TakenKeeps(c, s, place, w, worker.file, worker.pos, worker.failing);
      }
    case Search(outcome) => SearchedKeeps(c, s, place, w, outcome);
    case _ =>
      MovedKeeps(c, s, place, w, Step(c, s, w, event).value.workers[w]);
  }

  lemma AnyStart(c: Config, taken: nat, place: seq<nat>)
    ensures NotPast(c, taken, place, "", 0)
  {
  }

  lemma InitialInv(c: Config, place: seq<nat>)
    requires FileOrder(c, place)
    ensures Inv(c, Initial(c), place)
  {
    forall j: nat
      ensures Holders(Initial(c).workers, j) == 0
    {
      NoHolders(Initial(c).workers, j);
    }
  }

  lemma {:induction false} EveryRunKeeps(c: Config, place: seq<nat>, trace: seq<(nat, Event)>)
    requires FileOrder(c, place) && After(c, trace).Some?
    ensures Inv(c, After(c, trace).value, place)
    decreases |trace|
  {
    if trace == [] {
      InitialInv(c, place);
    } else {
      EveryRunKeeps(c, place, trace[..|trace| - 1]);
      var before := After(c, trace[..|trace| - 1]).value;
      StepKeeps(c, before, place, trace[|trace| - 1].0, trace[|trace| - 1].1);
    }
  }

  // ---------------------------------------------------------------- the properties of every interleaving

  /** Every job is queued, in the hands of exactly one worker, or done, and exactly one of these. */
  lemma JobsConserved(c: Config, place: seq<nat>, trace: seq<(nat, Event)>, j: nat)
    requires FileOrder(c, place) && After(c, trace).Some? && j < |c.jobs|
    ensures var s := After(c, trace).value;
      multiset(s.done)[j] + Holders(s.workers, j) + (if s.taken <= j then 1 else 0) == 1
  {
    EveryRunKeeps(c, place, trace);
  }

  /** No job is searched more than twice, and no worker gives up on finding its lemma. */
  lemma SearchedTwiceAtMost(c: Config, place: seq<nat>, trace: seq<(nat, Event)>)
    requires FileOrder(c, place) && After(c, trace).Some?
    ensures var s := After(c, trace).value;
      && (forall j :: 0 <= j < |c.jobs| ==> s.searched[j] <= 2)
      && (forall w :: 0 <= w < |s.workers| ==> !s.workers[w].NotFound?)
  {
    EveryRunKeeps(c, place, trace);
    var s := After(c, trace).value;
    forall w | 0 <= w < |s.workers|
      ensures !s.workers[w].NotFound?
    {
      WorkerOK(c, s, place, w);
    }
  }

  /** No proof before that of a job has the same statement. */
  ghost predicate FirstOfItsStatement(c: Config, place: seq<nat>) {
    forall i, q ::
      (0 <= i < |c.jobs| && i < |place| && c.jobs[i].file in c.files && 0 <= q < place[i] && q < |c.files[c.jobs[i].file]|) ==>
        c.files[c.jobs[i].file][q] != c.jobs[i].statement
  }

  /** A worker can search the proof at `pos` next, for a job that was made from another one. */
  ghost predicate SearchesAnother(c: Config, place: seq<nat>, trace: seq<(nat, Event)>, w: nat) {
    && After(c, trace).Some? && Step(c, After(c, trace).value, w, Search(Finished)).Some?
    && var worker := After(c, trace).value.workers[w];
       worker.Seeking? && worker.job < |place| && worker.pos != place[worker.job]
  }

  /** In every run the proof that is searched is the one the job was made from, exactly when no earlier proof of the
      file has the same statement. */
  lemma SearchesTheRightProof(c: Config, place: seq<nat>)
    requires FileOrder(c, place) && c.workers > 0
    ensures (forall trace, w :: !SearchesAnother(c, place, trace, w)) <==> FirstOfItsStatement(c, place)
  {
    if FirstOfItsStatement(c, place) {
      forall trace, w ensures !SearchesAnother(c, place, trace, w) {
        if SearchesAnother(c, place, trace, w) {
          EveryRunKeeps(c, place, trace);
          WorkerOK(c, After(c, trace).value, place, w);
        }
      }
    } else {
      var i, q :| 0 <= i < |c.jobs| && 0 <= q < place[i] && q < |c.files[c.jobs[i].file]|
                  && c.files[c.jobs[i].file][q] == c.jobs[i].statement;
      var trace := SearchAnother(c, place, i, q);
      assert SearchesAnother(c, place, trace, 0);
    }
  }

  lemma Longer(c: Config, trace: seq<(nat, Event)>, w: nat, event: Event)
    requires After(c, trace).Some?
    ensures After(c, trace + [(w, event)]) == Step(c, After(c, trace).value, w, event)
  {
    assert (trace + [(w, event)])[..|trace|] == trace;
  }

  /** A worker that seeks a proof gets to the next one with the statement of its job. */
  lemma {:induction false} WalksTo(c: Config, place: seq<nat>, trace: seq<(nat, Event)>, bound: nat) returns (trace': seq<(nat, Event)>)
    requires FileOrder(c, place) && After(c, trace).Some? && |After(c, trace).value.workers| > 0
    requires var worker := After(c, trace).value.workers[0];
      && worker.Seeking? && worker.job < |c.jobs| && worker.pos <= bound < |c.files[c.jobs[worker.job].file]|
      && c.files[c.jobs[worker.job].file][bound] == c.jobs[worker.job].statement
    ensures After(c, trace').Some? && |After(c, trace').value.workers| > 0
    ensures var (s, s') := (After(c, trace).value, After(c, trace').value);
      && s'.taken == s.taken && s'.workers[0].Seeking? && s'.workers[0].job == s.workers[0].job
      && s'.workers[0].pos <= bound && Step(c, s', 0, Search(Finished)).Some?
    decreases bound - After(c, trace).value.workers[0].pos
  {
    hide After;
    var worker := After(c, trace).value.workers[0];
    if c.files[c.jobs[worker.job].file][worker.pos] == c.jobs[worker.job].statement {
      trace' := trace;
    } else {
      Longer(c, trace, 0, Walk);
      trace' := WalksTo(c, place, trace + [(0, Walk)], bound);
    }
  }

  /** One worker can do the first `n` jobs alone. */
  lemma {:induction false} DoesFirst(c: Config, place: seq<nat>, n: nat) returns (trace: seq<(nat, Event)>)
    requires FileOrder(c, place) && c.workers > 0 && |c.jobs| > 0 && n <= |c.jobs|
    ensures After(c, trace).Some? && |After(c, trace).value.workers| > 0 && After(c, trace).value.taken == n
    ensures var worker := After(c, trace).value.workers[0]; worker.Starting? || worker.Between?
  {
    trace := [];
    if n > 0 {
      trace := DoesFirst(c, place, n - 1);
      hide After, FileOrder;
      trace := TakesNext(c, place, trace);
      BoundedBy(c, place, n - 1);
      trace := WalksTo(c, place, trace, place[n - 1]);
      Longer(c, trace, 0, Search(Killed));
      trace := trace + [(0, Search(Killed))];
    }
  }

  lemma BoundedBy(c: Config, place: seq<nat>, i: nat)
    requires FileOrder(c, place) && i < |c.jobs|
    ensures i < |place| && c.jobs[i].file in c.files && place[i] < |c.files[c.jobs[i].file]|
    ensures c.files[c.jobs[i].file][place[i]] == c.jobs[i].statement
  {
  }

  /** The next job is taken, and an anomaly on the way makes the worker start over in the file. */
  lemma TakesNext(c: Config, place: seq<nat>, trace: seq<(nat, Event)>) returns (trace': seq<(nat, Event)>)
    requires After(c, trace).Some? && |After(c, trace).value.workers| > 0 && After(c, trace).value.taken < |c.jobs|
    requires var worker := After(c, trace).value.workers[0]; worker.Starting? || worker.Between?
    ensures After(c, trace').Some? && |After(c, trace').value.workers| > 0
    ensures var (s, s') := (After(c, trace).value, After(c, trace').value);
      s'.taken == s.taken + 1 && s'.workers[0].Seeking? && s'.workers[0].job == s.taken && s'.workers[0].pos == 0
  {
    hide After;
    Longer(c, trace, 0, Take);
    Longer(c, trace + [(0, Take)], 0, Reload);
    trace' := trace + [(0, Take)] + [(0, Reload)];
  }

  lemma SearchAnother(c: Config, place: seq<nat>, i: nat, q: nat) returns (trace: seq<(nat, Event)>)
    requires FileOrder(c, place) && c.workers > 0 && i < |c.jobs|
    requires q < place[i] && c.files[c.jobs[i].file][q] == c.jobs[i].statement
    ensures SearchesAnother(c, place, trace, 0)
  {
    hide After;
    trace := DoesFirst(c, place, i);
    trace := TakesNext(c, place, trace);
    trace := WalksTo(c, place, trace, q);
  }

  /** As long as no search ends in an anomaly, the searches of a job are its reports, so that it is searched once at most.
      The code that starts a search turns every exception into a kill. */
  lemma {:induction false} SearchedOnce(c: Config, place: seq<nat>, trace: seq<(nat, Event)>, j: nat)
    requires FileOrder(c, place) && After(c, trace).Some? && j < |c.jobs|
    requires forall k :: 0 <= k < |trace| ==> trace[k].1 != Search(Anomaly)
    ensures var s := After(c, trace).value; s.searched[j] == multiset(s.done)[j] <= 1
    decreases |trace|
  {
    if trace != [] {
      var front := trace[..|trace| - 1];
      var (w, event) := trace[|trace| - 1];
      assert forall k :: 0 <= k < |front| ==> trace[k].1 == front[k].1;
      SearchedOnce(c, place, front, j);
      SearchIsReport(c, After(c, front).value, w, event, j);
    }
    JobsConserved(c, place, trace, j);
  }

  lemma SearchIsReport(c: Config, s: State, w: nat, event: Event, j: nat)
    requires |s.searched| == |c.jobs| && j < |c.jobs| && Step(c, s, w, event).Some? && event != Search(Anomaly)
    requires s.searched[j] == multiset(s.done)[j]
    ensures var s' := Step(c, s, w, event).value; |s'.searched| == |c.jobs| && s'.searched[j] == multiset(s'.done)[j]
  {
    var s' := Step(c, s, w, event).value;
    if event.Search? {
      assert multiset(s'.done) == multiset(s.done) + multiset{s.workers[w].job};
    }
  }

  /** Once all workers have left, every job was reported exactly once, so that the collector, which waits for as
      many results as there are jobs, gets them all and no more. */
  lemma CollectorGetsAll(c: Config, place: seq<nat>, trace: seq<(nat, Event)>)
    requires FileOrder(c, place) && c.workers > 0 && After(c, trace).Some?
    requires forall w :: 0 <= w < |After(c, trace).value.workers| ==> After(c, trace).value.workers[w].Gone?
    ensures var done := After(c, trace).value.done;
      |done| == |c.jobs| && forall j :: 0 <= j < |c.jobs| ==> multiset(done)[j] == 1
  {
    hide FileOrder;
    EveryRunKeeps(c, place, trace);
    SameWorkers(c, trace);
    var s := After(c, trace).value;
    if |c.jobs| > 0 {
      WorkerOK(c, s, place, 0);
    }
    forall j: nat
      ensures multiset(s.done)[j] == if j < |c.jobs| then 1 else 0
    {
      NoHolders(s.workers, j);
    }
    EachOnce(s.done, |c.jobs|);
  }

  lemma {:induction false} EachOnce(done: seq<nat>, n: nat)
    requires forall j: nat :: multiset(done)[j] == if j < n then 1 else 0
    ensures |done| == n
  {
    var numbers := seq(n, i => i);
    forall j: nat
      ensures multiset(numbers)[j] == if j < n then 1 else 0
    {
      Numbers(n, j);
    }
    assert multiset(done) == multiset(numbers);
    assert |multiset(done)| == |done| && |multiset(numbers)| == |numbers|;
  }

  lemma {:induction false} Numbers(n: nat, j: nat)
    ensures multiset(seq(n, i => i))[j] == if j < n then 1 else 0
  {
    if n > 0 {
      Numbers(n - 1, j);
      assert seq(n, i => i) == seq(n - 1, i => i) + [n - 1];
    }
  }

  /** A worker that has not died can always go on, without an anomaly. */
  lemma NeverStuck(c: Config, place: seq<nat>, trace: seq<(nat, Event)>, w: nat)
    requires FileOrder(c, place) && After(c, trace).Some? && w < |After(c, trace).value.workers|
    requires var worker := After(c, trace).value.workers[w]; !worker.Gone? && !worker.Dead?
    ensures var s := After(c, trace).value;
      exists event: Event :: !event.Reload? && !event.Die? && Step(c, s, w, event).Some?
  {
    EveryRunKeeps(c, place, trace);
    var s := After(c, trace).value;
    var worker := s.workers[w];
    WorkerOK(c, s, place, w);
    if worker.Seeking? {
      if c.files[c.jobs[worker.job].file][worker.pos] == c.jobs[worker.job].statement {
        assert Step(c, s, w, Search(Finished)).Some?;
      } else {
        assert Step(c, s, w, Walk).Some?;
      }
    } else {
      assert Step(c, s, w, Take).Some?;
    }
  }

  // ---------------------------------------------------------------- how long the workers can go on

  /** No file has more proofs than this. */
  ghost predicate Bounded(c: Config, bound: nat) { forall f :: f in c.files ==> |c.files[f]| <= bound }

  /** The steps that a worker can still take with what it holds, when nothing makes it start its file over. */
  ghost function Patience(c: Config, bound: nat, worker: Worker): nat {
    match worker
    case Starting => 1
    case Between(_, _, _) => 1
    case Seeking(job, pos, failing) =>
      var again := if job < |c.jobs| && failing == Some(c.jobs[job].statement) then 0 else bound + 2;
      again + 2 + if pos < bound then bound - pos else 0
    case _ => 0
  }

  ghost function TotalPatience(c: Config, bound: nat, workers: seq<Worker>): nat {
    if workers == [] then 0 else Patience(c, bound, workers[0]) + TotalPatience(c, bound, workers[1..])
  }

  lemma {:induction false} PatienceChanges(c: Config, bound: nat, workers: seq<Worker>, w: nat, worker: Worker)
    requires w < |workers|
    ensures TotalPatience(c, bound, workers[w := worker]) + Patience(c, bound, workers[w])
            == TotalPatience(c, bound, workers) + Patience(c, bound, worker)
  {
    if w > 0 {
      assert workers[w := worker][1..] == workers[1..][w - 1 := worker];
      PatienceChanges(c, bound, workers[1..], w - 1, worker);
    } else {
      assert workers[w := worker][1..] == workers[1..];
    }
  }

  ghost function StepsLeft(c: Config, bound: nat, s: State): nat
    requires s.taken <= |c.jobs|
  {
    (2 * bound + 4) * (|c.jobs| - s.taken) + TotalPatience(c, bound, s.workers)
  }

  /** Every step but a reload uses up patience. */
  lemma StepsDecrease(c: Config, bound: nat, s: State, w: nat, event: Event)
    requires |s.searched| == |c.jobs| && s.taken <= |c.jobs| && Bounded(c, bound)
    requires !event.Reload? && Step(c, s, w, event).Some?
    ensures Step(c, s, w, event).value.taken <= |c.jobs|
    ensures StepsLeft(c, bound, Step(c, s, w, event).value) < StepsLeft(c, bound, s)
  {
    hide TotalPatience;
    var next := Step(c, s, w, event).value;
    assert next.workers == s.workers[w := next.workers[w]];
    PatienceChanges(c, bound, s.workers, w, next.workers[w]);
    if next.taken == s.taken + 1 {
      assert (2 * bound + 4) * (|c.jobs| - s.taken) == (2 * bound + 4) * (|c.jobs| - next.taken) + (2 * bound + 4);
    }
  }

  ghost predicate NoReload(trace: seq<(nat, Event)>) { forall i :: 0 <= i < |trace| ==> !trace[i].1.Reload? }

  /** Runs without an anomaly between two proofs end: they have no more steps than this. By `NeverStuck` a longest one
      ends with all workers gone, or dead. */
  lemma {:induction false} RunsEnd(c: Config, bound: nat, trace: seq<(nat, Event)>)
    requires Bounded(c, bound) && NoReload(trace) && After(c, trace).Some?
    ensures After(c, trace).value.taken <= |c.jobs|
    ensures |trace| + StepsLeft(c, bound, After(c, trace).value) <= (2 * bound + 4) * |c.jobs| + c.workers
    decreases |trace|
  {
    if trace == [] {
      AllStarting(c, bound, Initial(c).workers);
    } else {
      var front := trace[..|trace| - 1];
      var (w, event) := trace[|trace| - 1];
      RunsEnd(c, bound, front);
      hide StepsLeft, Step;
      assert trace[|trace| - 1].1 == event;
      StepsDecrease(c, bound, After(c, front).value, w, event);
    }
  }

  lemma {:induction false} AllStarting(c: Config, bound: nat, workers: seq<Worker>)
    requires forall w :: 0 <= w < |workers| ==> workers[w] == Starting
    ensures TotalPatience(c, bound, workers) == |workers|
  {
    if workers != [] {
      AllStarting(c, bound, workers[1..]);
    }
  }

  lemma {:induction false} SameWorkers(c: Config, trace: seq<(nat, Event)>)
    requires After(c, trace).Some?
    ensures |After(c, trace).value.workers| == |Initial(c).workers|
    decreases |trace|
  {
    if trace != [] {
      var front := trace[..|trace| - 1];
      var (w, event) := trace[|trace| - 1];
      SameWorkers(c, front);
      assert After(c, trace) == Step(c, After(c, front).value, w, event);
    }
  }

  /** Out of file order the queue is not served: the worker runs past the second job and leaves without reporting it. */
  lemma OutOfOrderIsLost()
    ensures var c := Config(map["f" := ["a", "b"]], [Job("f", "b"), Job("f", "a")], 1);
      var s := After(c, [(0, Take), (0, Walk), (0, Search(Finished)), (0, Take), (0, Walk)]);
      s.Some? && s.value.workers == [NotFound(1)] && s.value.done == [0]
  {
    var c := Config(map["f" := ["a", "b"]], [Job("f", "b"), Job("f", "a")], 1);
    var t1 := [(0, Take)];
    var t2 := t1 + [(0, Walk)];
    var t3 := t2 + [(0, Search(Finished))];
    var t4 := t3 + [(0, Take)];
    FirstSteps(c);
    LastSteps(c);
    hide Step, After;
    AfterNext(c, [], 0, Take);
    assert [] + [(0, Take)] == t1;
    AfterNext(c, t1, 0, Walk);
    AfterNext(c, t2, 0, Search(Finished));
    AfterNext(c, t3, 0, Take);
    AfterNext(c, t4, 0, Walk);
    assert t4 + [(0, Walk)] == [(0, Take), (0, Walk), (0, Search(Finished)), (0, Take), (0, Walk)];
  }

  lemma FirstSteps(c: Config)
    requires c == Config(map["f" := ["a", "b"]], [Job("f", "b"), Job("f", "a")], 1)
    ensures After(c, []) == Some(State(0, [Starting], [], [0, 0]))
    ensures Step(c, State(0, [Starting], [], [0, 0]), 0, Take) == Some(State(1, [Seeking(0, 0, None)], [], [0, 0]))
    ensures Step(c, State(1, [Seeking(0, 0, None)], [], [0, 0]), 0, Walk) == Some(State(1, [Seeking(0, 1, None)], [], [0, 0]))
  {
    assert Initial(c) == State(0, [Starting], [], [0, 0]);
    OnlyWorker(Starting, Seeking(0, 0, None));
    OnlyWorker(Seeking(0, 0, None), Seeking(0, 1, None));
  }

  lemma LastSteps(c: Config)
    requires c == Config(map["f" := ["a", "b"]], [Job("f", "b"), Job("f", "a")], 1)
    ensures Step(c, State(1, [Seeking(0, 1, None)], [], [0, 0]), 0, Search(Finished))
            == Some(State(1, [Between("f", 2, None)], [0], [1, 0]))
    ensures Step(c, State(1, [Between("f", 2, None)], [0], [1, 0]), 0, Take) == Some(State(2, [Seeking(1, 2, None)], [0], [1, 0]))
    ensures Step(c, State(2, [Seeking(1, 2, None)], [0], [1, 0]), 0, Walk) == Some(State(2, [NotFound(1)], [0], [1, 0]))
  {
    OnlyWorker(Seeking(0, 1, None), Between("f", 2, None));
    OnlyWorker(Between("f", 2, None), Seeking(1, 2, None));
    OnlyWorker(Seeking(1, 2, None), NotFound(1));
    var none: seq<nat> := [];
    assert [0, 0][0 := 1] == [1, 0] && none + [0] == [0];
  }

  lemma OnlyWorker(a: Worker, b: Worker)
    ensures [a][0 := b] == [b]
  {
  }

  lemma AfterNext(c: Config, trace: seq<(nat, Event)>, w: nat, event: Event)
    requires After(c, trace).Some?
    ensures After(c, trace + [(w, event)]) == Step(c, After(c, trace).value, w, event)
  {
    assert (trace + [(w, event)])[..|trace|] == trace;
  }
}
