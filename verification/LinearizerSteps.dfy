/** The loop of the linearizer as a machine: one step after the other, whatever the commands are, and why it stops. */
module LinearizerSteps {
  import opened FocusMachine
  import opened Tacticals

  /** A sentence of the proof to be linearized; the last one is `Qed.` or the like. */
  datatype Item = Tactic(cmd: Command) | OpenBrace | CloseBrace | Ending

  /** What awaits the remaining goals of a level: nothing, the same command for each, or one command each. */
  datatype Pending = Nothing | All(cmd: Command) | Each(cmds: seq<Command>)

  /** The variables of the linearizer: the state of the proof, the commands pending for each open
      brace, the commands still to be linearized, and the script emitted so far. */
  datatype Progress = Progress(levels: Levels, pending: seq<Pending>, batch: seq<Item>, script: seq<Stmt<Comp>>)

  /** The loop goes on, ends with a complete proof, or stops at an error of the proof assistant or of its own. */
  datatype Next = More(p: Progress) | Finished(script: seq<Stmt<Comp>>) | Stuck(script: seq<Stmt<Comp>>)

  function Start(goal: Goal, proof: seq<Item>): Progress { Progress([[goal]], [], proof, []) }

  /** Every open brace has its pending commands, and at most one goal is in focus. */
  predicate Lined(p: Progress) { |p.pending| == |p.levels| - 1 && |Top(p.levels)| <= 1 }

  // ---------------------------------------------------------------- one step

  /** What waits for the first goal of a level, and for the others. */
  function Head(p: Pending): seq<Item> {
    match p
    case Nothing => []
    case All(cmd) => [Tactic(cmd)]
    case Each(cmds) => if cmds == [] then [] else [Tactic(cmds[0])]
  }

  function Tail(p: Pending): Pending {
    if p.Each? then (if |p.cmds| <= 1 then Nothing else Each(p.cmds[1..])) else p
  }

  /** Commands that no goal was left for go to the enclosing level, unless that is the outermost brace or has a
      command for every goal. */
  function Returned(pending: seq<Pending>, popped: Pending): (r: seq<Pending>)
    ensures |r| == |pending|
  {
    var n := |pending| - 1;
    if popped.Each? && popped.cmds != [] && n > 0 then
      match pending[n]
      case Nothing => pending[..n] + [popped]
      case Each(cmds) => pending[..n] + [Each(popped.cmds + cmds)]
      case All(_) => pending
    else pending
  }

  /** Leaves the level that has no goal left; focuses the next goal of the level below, if it has one. An empty list
      of pending commands has no first one to take. */
  function Closed(p: Progress): (r: Next)
    requires Lined(p) && Top(p.levels) == [] && p.pending != []
    ensures r.More? ==> Lined(r.p)
  {
    var below, n := Below(p.levels), |p.pending| - 1;
    var goals, last := below[n], p.pending[n];
    if goals == [] then More(Progress(below, Returned(p.pending[..n], last), p.batch, p.script + [Close]))
    else if last == Each([]) then Stuck(p.script + [Close] + [Open])
    else More(Progress(below[..n] + [goals[1..]] + [[goals[0]]], p.pending[..n] + [Tail(last)], Head(last) + p.batch,
                       p.script + [Close] + [Open]))
  }

  /** With several goals, all but the first are left to wait behind a brace. */
  function Split(p: Progress, waiting: Pending): (r: Progress)
    requires |p.pending| == |p.levels| - 1
    ensures Lined(r)
  {
    var goals := Top(p.levels);
    if |goals| <= 1 then p
    else Progress(Below(p.levels) + [goals[1..]] + [[goals[0]]], p.pending + [waiting], p.batch, p.script + [Open])
  }

  /** The commands that a bracket leaves, one for each of its cases. */
  function Cases(tail: Command): (r: seq<Command>)
    requires tail != [] && tail[0].Branches?
    ensures |r| == |tail[0].cases|
  {
    seq(|tail[0].cases|, i requires 0 <= i < |tail[0].cases| => Case(tail[0].cases[i].chain) + tail[1..])
  }

  /** Runs the first component of a command on the goal in focus. What remains is queued: the rest of the chain for
      every goal, or the cases of a bracket. The first case is queued whatever the number of goals; the other cases wait
      only when there are several goals. */
  function Ran(m: Prim, p: Progress, cmd: Command): (r: Next)
    requires Lined(p) && Top(p.levels) != []
    ensures r.More? ==> Lined(r.p)
  {
    var chain := Strip(cmd);
    if chain == [] || RunComp(m, chain[0], Top(p.levels)[0]).None? then Stuck(p.script)
    else
      var goals := RunComp(m, chain[0], Top(p.levels)[0]).value;
      var q := p.(levels := Below(p.levels) + [goals], script := p.script + [Run(chain[0])]);
      if |chain| == 1 then More(Split(q, Nothing))
      else
        var tail := StripTight(chain[1..]);
        if tail != [] && tail[0].Branches? then
          if tail[0].cases == [] then Stuck(q.script)
          else More(Split(q.(batch := [Tactic(Cases(tail)[0])] + q.batch), Each(Cases(tail)[1..])))
        else More(Split(if goals == [] then q else q.(batch := [Tactic(tail)] + q.batch), All(tail)))
  }

  /** Once the proof is complete only its ending is emitted; whatever precedes it is dropped. */
  function Flushed(batch: seq<Item>): seq<Stmt<Comp>> {
    if batch == [] then [] else (if batch[0].Ending? then [End] else []) + Flushed(batch[1..])
  }

  function Advance(m: Prim, p: Progress): (r: Next)
    requires Lined(p)
    ensures r.More? ==> Lined(r.p)
  {
    if Top(p.levels) == [] then if p.pending == [] then Finished(p.script + Flushed(p.batch)) else Closed(p)
    else if p.batch == [] || p.batch[0].Ending? then Stuck(p.script)
    else
      var popped := p.(batch := p.batch[1..]);
      if p.batch[0].Tactic? then Ran(m, popped, p.batch[0].cmd) else More(popped)
  }

  /** Where the loop is after `n` steps, or how it ended before. */
  ghost function After(m: Prim, p: Progress, n: nat): (r: Next)
    requires Lined(p)
    ensures r.More? ==> Lined(r.p)
    decreases n
  {
    if n == 0 then More(p)
    else
      match Advance(m, p)
      case More(q) => After(m, q, n - 1)
      case end => end
  }

  lemma {:induction false} AfterAfter(m: Prim, p: Progress, a: nat, b: nat)
    requires Lined(p)
    ensures After(m, p, a + b) == match After(m, p, a) case More(q) => After(m, q, b) case end => end
    decreases a
  {
    hide Advance;
    if a > 0 && Advance(m, p).More? {
      AfterAfter(m, Advance(m, p).p, a - 1, b);
    }
  }

  // ---------------------------------------------------------------- why the loop stops

  ghost function SizeCount(cmds: seq<Command>, k: nat): nat {
    if cmds == [] then 0 else (if Sizes(cmds[0]) == k then 1 else 0) + SizeCount(cmds[1..], k)
  }

  ghost function BatchCount(batch: seq<Item>, k: nat): nat {
    if batch == [] then 0 else (if batch[0].Tactic? && Sizes(batch[0].cmd) == k then 1 else 0) + BatchCount(batch[1..], k)
  }

  ghost function LevelCount(p: Pending, goals: nat, k: nat): nat {
    match p
    case Nothing => 0
    case All(cmd) => if Sizes(cmd) == k then goals else 0
    case Each(cmds) => SizeCount(cmds, k)
  }

  ghost function PendingCount(pending: seq<Pending>, below: seq<seq<Goal>>, k: nat): nat
    requires |pending| == |below|
    decreases |pending|
  {
    if pending == [] then 0
    else
      var n := |pending| - 1;
      LevelCount(pending[n], |below[n]|, k) + PendingCount(pending[..n], below[..n], k)
  }

  /** How often a command of size `k` can still be taken from the batch, as far as it is known. */
  ghost function Count(p: Progress, k: nat): nat
    requires Lined(p)
  {
    BatchCount(p.batch, k) + PendingCount(p.pending, Below(p.levels), k)
  }

  lemma {:induction false} SizeCountConcat(a: seq<Command>, b: seq<Command>, k: nat)
    ensures SizeCount(a + b, k) == SizeCount(a, k) + SizeCount(b, k)
  {
    if a == [] {
      assert a + b == b;
    } else {
      assert (a + b)[0] == a[0] && (a + b)[1..] == a[1..] + b;
      SizeCountConcat(a[1..], b, k);
    }
  }

  lemma BatchCountFirst(item: Item, batch: seq<Item>, k: nat)
    ensures BatchCount([item] + batch, k) == (if item.Tactic? && Sizes(item.cmd) == k then 1 else 0) + BatchCount(batch, k)
  {
    assert ([item] + batch)[1..] == batch;
  }

  lemma PendingCountLast(pending: seq<Pending>, below: seq<seq<Goal>>, p: Pending, goals: seq<Goal>, k: nat)
    requires |pending| == |below|
    ensures PendingCount(pending + [p], below + [goals], k) == LevelCount(p, |goals|, k) + PendingCount(pending, below, k)
  {
    assert (pending + [p])[..|pending|] == pending && (below + [goals])[..|below|] == below;
  }

  lemma {:induction false} SmallCommands(cmds: seq<Command>, k: nat)
    requires forall i :: 0 <= i < |cmds| ==> Sizes(cmds[i]) < k
    ensures SizeCount(cmds, k) == 0
  {
    if cmds != [] {
      SmallCommands(cmds[1..], k);
    }
  }

  /** Taking the next pending command, or giving pending commands back, makes none of them more. */
  lemma ClosedCount(p: Progress, k: nat)
    requires Lined(p) && Top(p.levels) == [] && p.pending != [] && Closed(p).More?
    ensures Count(Closed(p).p, k) <= Count(p, k)
  {
    var below, n := Below(p.levels), |p.pending| - 1;
    var goals, last, pending := below[n], p.pending[n], p.pending[..n];
    assert below == below[..n] + [goals] && p.pending == pending + [last];
    PendingCountLast(pending, below[..n], last, goals, k);
    if goals == [] {
      ReturnedCount(pending, below[..n], last, k);
    } else {
      var q := Closed(p).p;
      assert Below(q.levels) == below[..n] + [goals[1..]];
      PendingCountLast(pending, below[..n], Tail(last), goals[1..], k);
      HeadTailCount(last, |goals|, p.batch, k);
    }
  }

  lemma HeadTailCount(p: Pending, goals: nat, batch: seq<Item>, k: nat)
    requires goals > 0
    ensures BatchCount(Head(p) + batch, k) + LevelCount(Tail(p), goals - 1, k) <= BatchCount(batch, k) + LevelCount(p, goals, k)
  {
    if Head(p) == [] {
      assert Head(p) + batch == batch;
    } else {
      BatchCountFirst(Head(p)[0], batch, k);
    }
  }

  lemma ReturnedCount(pending: seq<Pending>, below: seq<seq<Goal>>, popped: Pending, k: nat)
    requires |pending| == |below|
    ensures PendingCount(Returned(pending, popped), below, k) <= PendingCount(pending, below, k) + LevelCount(popped, 0, k)
  {
    hide PendingCount, SizeCount, Sizes;
    var n := |pending| - 1;
    if popped.Each? && popped.cmds != [] && n > 0 {
      var front, last := pending[..n], pending[n];
      assert pending == front + [last] && below == below[..n] + [below[n]];
      PendingCountLast(front, below[..n], last, below[n], k);
      match last
      case Nothing => PendingCountLast(front, below[..n], popped, below[n], k);
      case Each(cmds) =>
        SizeCountConcat(popped.cmds, cmds, k);
        PendingCountLast(front, below[..n], Each(popped.cmds + cmds), below[n], k);
      case All(_) =>
    }
  }

  /** What a command leaves behind is smaller than the command. */
  lemma Smaller(cmd: Command)
    requires |Strip(cmd)| > 1
    ensures var tail := StripTight(Strip(cmd)[1..]);
      && Sizes(tail) < Sizes(cmd)
      && (tail != [] && tail[0].Branches? ==> forall i :: 0 <= i < |Cases(tail)| ==> Sizes(Cases(tail)[i]) < Sizes(cmd))
  {
    var chain := Strip(cmd);
    var tail := StripTight(chain[1..]);
    assert Sizes(chain) == Size(chain[0]) + Sizes(chain[1..]);
    if tail != [] && tail[0].Branches? {
      forall i | 0 <= i < |Cases(tail)|
        ensures Sizes(Cases(tail)[i]) < Sizes(cmd)
      {
        CaseSize(tail[0].cases, i);
        SizesConcat(Case(tail[0].cases[i].chain), tail[1..]);
      }
    }
  }

  lemma SplitCount(p: Progress, waiting: Pending, k: nat)
    requires |p.pending| == |p.levels| - 1
    ensures |Top(p.levels)| > 1 ==>
      Count(Split(p, waiting), k)
      == BatchCount(p.batch, k) + LevelCount(waiting, |Top(p.levels)| - 1, k) + PendingCount(p.pending, Below(p.levels), k)
    ensures |Top(p.levels)| <= 1 ==> Count(Split(p, waiting), k) == BatchCount(p.batch, k) + PendingCount(p.pending, Below(p.levels), k)
  {
    var goals := Top(p.levels);
    if |goals| > 1 {
      assert Below(Split(p, waiting).levels) == Below(p.levels) + [goals[1..]];
      PendingCountLast(p.pending, Below(p.levels), waiting, goals[1..], k);
    }
  }

  lemma RanCount(m: Prim, p: Progress, cmd: Command, k: nat)
    requires Lined(p) && Top(p.levels) != [] && k >= Sizes(cmd) && Ran(m, p, cmd).More?
    ensures Count(Ran(m, p, cmd).p, k) <= Count(p, k)
  {
    hide RunComp, PendingCount, SizeCount, BatchCount;
    var chain := Strip(cmd);
    var goals := RunComp(m, chain[0], Top(p.levels)[0]).value;
    var q := p.(levels := Below(p.levels) + [goals], script := p.script + [Run(chain[0])]);
    assert Below(q.levels) == Below(p.levels);
    if |chain| == 1 {
      SplitCount(q, Nothing, k);
    } else {
      Smaller(cmd);
      var tail := StripTight(chain[1..]);
      if tail != [] && tail[0].Branches? {
        SmallCommands(Cases(tail)[1..], k);
        BatchCountFirst(Tactic(Cases(tail)[0]), q.batch, k);
        SplitCount(q.(batch := [Tactic(Cases(tail)[0])] + q.batch), Each(Cases(tail)[1..]), k);
      } else {
        BatchCountFirst(Tactic(tail), q.batch, k);
        SplitCount(if goals == [] then q else q.(batch := [Tactic(tail)] + q.batch), All(tail), k);
      }
    }
  }

  /** Steps that run no command close a level, take a goal of the levels below, or drop a brace of the proof. */
  ghost function Small(p: Progress): nat { Goals(Below(p.levels)) + |p.levels| + Braces(p.batch) }

  ghost function Goals(below: seq<seq<Goal>>): nat {
    if below == [] then 0 else |below[|below| - 1]| + Goals(below[..|below| - 1])
  }

  ghost function Braces(batch: seq<Item>): nat {
    if batch == [] then 0 else (if batch[0].Tactic? then 0 else 1) + Braces(batch[1..])
  }

  lemma ClosedSmall(p: Progress)
    requires Lined(p) && Top(p.levels) == [] && p.pending != [] && Closed(p).More?
    ensures Small(Closed(p).p) < Small(p)
  {
    var below, n := Below(p.levels), |p.pending| - 1;
    var goals := below[n];
    if goals != [] {
      var q := Closed(p).p;
      assert Below(q.levels) == below[..n] + [goals[1..]] && (below[..n] + [goals[1..]])[..n] == below[..n];
      var head := Head(p.pending[n]);
      if head == [] {
        assert head + p.batch == p.batch;
      } else {
        assert head == [head[0]] && ([head[0]] + p.batch)[1..] == p.batch;
      }
    }
  }

  /** The next thing to do is to run a command of at least this size. */
  predicate Poised(p: Progress, k: nat) {
    Top(p.levels) != [] && p.batch != [] && p.batch[0].Tactic? && Sizes(p.batch[0].cmd) >= k
  }

  lemma OneStep(m: Prim, p: Progress, k: nat)
    requires Lined(p) && Advance(m, p).More?
    requires Top(p.levels) != [] && p.batch != [] && p.batch[0].Tactic? ==> Sizes(p.batch[0].cmd) <= k
    ensures Count(Advance(m, p).p, k) + (if Poised(p, k) then 1 else 0) <= Count(p, k)
    ensures !Poised(p, 0) ==> Small(Advance(m, p).p) < Small(p)
  {
    hide PendingCount, Ran, Closed;
    if Top(p.levels) == [] {
      ClosedCount(p, k);
      ClosedSmall(p);
    } else if p.batch[0].Tactic? {
      RanCount(m, p.(batch := p.batch[1..]), p.batch[0].cmd, k);
    }
  }

  /** Whatever larger commands there are, the loop comes to its end or to a command of size `k` or more. */
  lemma {:induction false} Reaches(m: Prim, p: Progress, k: nat) returns (n: nat)
    requires Lined(p)
    ensures var r := After(m, p, n); r.More? ==> Poised(r.p, k) && forall j :: j >= k ==> Count(r.p, j) <= Count(p, j)
    decreases k, if k > 0 then Count(p, k - 1) else Small(p)
  {
    hide Advance, Count, Small;
    if k == 0 {
      if Poised(p, 0) { return 0; }
      var next := Advance(m, p);
      if !next.More? { return 1; }
      forall j: nat
        ensures Count(next.p, j) <= Count(p, j) && Small(next.p) < Small(p)
      {
        OneStep(m, p, j);
      }
      assert Count(next.p, 0) <= Count(p, 0);
      var rest := Reaches(m, next.p, 0);
      return rest + 1;
    }
    var first := Reaches(m, p, k - 1);
    var r := After(m, p, first);
    if !r.More? || Poised(r.p, k) { return first; }
    var next := Advance(m, r.p);
    AfterAfter(m, p, first, 1);
    if !next.More? { return first + 1; }
    forall j | j >= k - 1
      ensures Count(next.p, j) + (if j == k - 1 then 1 else 0) <= Count(p, j)
    {
      OneStep(m, r.p, j);
    }
    var rest := Reaches(m, next.p, k);
    AfterAfter(m, p, first + 1, rest);
    return first + 1 + rest;
  }

  ghost function TotalSize(batch: seq<Item>): nat {
    if batch == [] then 0 else (if batch[0].Tactic? then Sizes(batch[0].cmd) else 0) + TotalSize(batch[1..])
  }

  lemma {:induction false} NoLarger(batch: seq<Item>, k: nat)
    requires k > TotalSize(batch)
    ensures BatchCount(batch, k) == 0
  {
    if batch != [] {
      NoLarger(batch[1..], k);
    }
  }

  /** The loop ends for every proof, also when brackets do not match the goals. */
  lemma Terminates(m: Prim, goal: Goal, proof: seq<Item>) returns (n: nat)
    ensures !After(m, Start(goal, proof), n).More?
  {
    var p, k := Start(goal, proof), TotalSize(proof) + 1;
    n := Reaches(m, p, k);
    var r := After(m, p, n);
    if r.More? {
      var size := Sizes(r.p.batch[0].cmd);
      assert Count(r.p, size) > 0;
      NoLarger(proof, size);
    }
  }
}
