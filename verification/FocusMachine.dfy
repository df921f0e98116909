/** The proof assistant as a machine: a stack of focused goal lists on which tactics and braces act. */
module FocusMachine {
  import opened Prelude

  type Goal = string

  /** What a tactic makes of one goal: the goals it leaves, or a failure. */
  type Step<!T> = (T, Goal) -> Option<seq<Goal>>

  /** The focus stack, innermost level last. There is always at least one level. */
  type Levels = levels: seq<seq<Goal>> | levels != [] witness [[]]

  /** A statement of a script. */
  datatype Stmt<T> = Open | Close | Run(tactic: T) | End

  function Top(levels: Levels): seq<Goal> { levels[|levels| - 1] }

  function Below(levels: Levels): seq<seq<Goal>> { levels[..|levels| - 1] }

  /** All the goals, innermost level first. */
  ghost function Flat(levels: seq<seq<Goal>>): seq<Goal> {
    if levels == [] then [] else levels[|levels| - 1] + Flat(levels[..|levels| - 1])
  }

  /** `{` focuses the first goal of the current level, `}` leaves an empty level, a tactic acts on the
      first goal of the current level, and the proof can end when no goal and no brace is left. */
  function Exec<T>(step: Step<T>, levels: Levels, stmt: Stmt<T>): Option<Levels> {
    match stmt
    case Open => if Top(levels) == [] then None else Some(Below(levels) + [Top(levels)[1..], [Top(levels)[0]]])
    case Close => if Top(levels) != [] || |levels| == 1 then None else Some(Below(levels))
    case Run(tactic) =>
      if Top(levels) == [] then None
      else
        var goals := step(tactic, Top(levels)[0]);
        if goals.None? then None else Some(Below(levels) + [goals.value + Top(levels)[1..]])
    case End => if levels == [[]] then Some(levels) else None
  }

  ghost function ExecAll<T>(step: Step<T>, levels: Levels, script: seq<Stmt<T>>): Option<Levels> {
    if script == [] then Some(levels)
    else
      var before := ExecAll(step, levels, script[..|script| - 1]);
      if before.None? then None else Exec(step, before.value, script[|script| - 1])
  }

  lemma ExecNext<T>(step: Step<T>, levels: Levels, script: seq<Stmt<T>>, stmt: Stmt<T>)
    requires ExecAll(step, levels, script).Some?
    ensures ExecAll(step, levels, script + [stmt]) == Exec(step, ExecAll(step, levels, script).value, stmt)
  {
    assert (script + [stmt])[..|script|] == script;
  }

  lemma {:induction false} ExecConcat<T>(step: Step<T>, levels: Levels, a: seq<Stmt<T>>, b: seq<Stmt<T>>)
    ensures ExecAll(step, levels, a + b)
            == if ExecAll(step, levels, a).None? then None else ExecAll(step, ExecAll(step, levels, a).value, b)
    decreases |b|
  {
    if b == [] {
      assert a + b == a;
    } else {
      assert (a + b)[..|a + b| - 1] == a + b[..|b| - 1];
      ExecConcat(step, levels, a, b[..|b| - 1]);
    }
  }

  // The machine without focus: one flat list of goals, of which tactics see the first.

  ghost function FlatExec<T>(step: Step<T>, goals: seq<Goal>, stmt: Stmt<T>): Option<seq<Goal>> {
    match stmt
    case Open => Some(goals)
    case Close => Some(goals)
    case Run(tactic) =>
      if goals == [] then None
      else
        var made := step(tactic, goals[0]);
        if made.None? then None else Some(made.value + goals[1..])
    case End => if goals == [] then Some([]) else None
  }

  ghost function FlatExecAll<T>(step: Step<T>, goals: seq<Goal>, script: seq<Stmt<T>>): Option<seq<Goal>> {
    if script == [] then Some(goals)
    else
      var before := FlatExecAll(step, goals, script[..|script| - 1]);
      if before.None? then None else FlatExec(step, before.value, script[|script| - 1])
  }

  lemma FlatTop(levels: Levels)
    ensures Flat(levels) == Top(levels) + Flat(Below(levels))
  {
  }

  lemma FlatPush(below: seq<seq<Goal>>, top: seq<Goal>)
    ensures Flat(below + [top]) == top + Flat(below)
  {
    assert (below + [top])[..|below|] == below;
  }

  /** Focus is only bookkeeping: what a statement does to the levels, it does to the flat list of goals. */
  lemma ExecFlattens<T>(step: Step<T>, levels: Levels, stmt: Stmt<T>)
    requires Exec(step, levels, stmt).Some?
    ensures FlatExec(step, Flat(levels), stmt) == Some(Flat(Exec(step, levels, stmt).value))
  {
    var top, below := Top(levels), Below(levels);
    FlatTop(levels);
    match stmt
    case Open =>
      FlatPush(below, top[1..]);
      FlatPush(below + [top[1..]], [top[0]]);
      assert below + [top[1..], [top[0]]] == below + [top[1..]] + [[top[0]]];
      assert [top[0]] + (top[1..] + Flat(below)) == top + Flat(below);
    case Close =>
      assert [] + Flat(below) == Flat(below);
    case Run(tactic) =>
      var made := step(tactic, top[0]).value;
      FlatPush(below, made + top[1..]);
      assert Flat(levels)[0] == top[0] && Flat(levels)[1..] == top[1..] + Flat(below);
      assert made + top[1..] + Flat(below) == made + (top[1..] + Flat(below));
    case End =>
      assert below == [] && top == [] && top + Flat(below) == [];
  }

  /** A script that runs on the focus stack also runs, braces ignored, on the flat list of goals. */
  lemma {:induction false} ScriptFlattens<T>(step: Step<T>, levels: Levels, script: seq<Stmt<T>>)
    requires ExecAll(step, levels, script).Some?
    ensures FlatExecAll(step, Flat(levels), script) == Some(Flat(ExecAll(step, levels, script).value))
    decreases |script|
  {
    if script != [] {
      var before := ExecAll(step, levels, script[..|script| - 1]);
      ScriptFlattens(step, levels, script[..|script| - 1]);
      ExecFlattens(step, before.value, script[|script| - 1]);
    }
  }

  /** The statements that are tactics. */
  ghost function Tactics<T>(script: seq<Stmt<T>>): seq<T> {
    if script == [] then []
    else
      var rest, stmt := Tactics(script[..|script| - 1]), script[|script| - 1];
      if stmt.Run? then rest + [stmt.tactic] else rest
  }

  /** The flat machine run on tactics alone. */
  ghost function Replay<T>(step: Step<T>, goals: seq<Goal>, tactics: seq<T>): Option<seq<Goal>> {
    if tactics == [] then Some(goals)
    else
      var before := Replay(step, goals, tactics[..|tactics| - 1]);
      if before.None? then None else FlatExec(step, before.value, Run(tactics[|tactics| - 1]))
  }

  /** Braces do not matter on the flat list. */
  lemma {:induction false} ReplayIgnoresBraces<T>(step: Step<T>, goals: seq<Goal>, script: seq<Stmt<T>>)
    requires End !in script
    ensures FlatExecAll(step, goals, script) == Replay(step, goals, Tactics(script))
    decreases |script|
  {
    if script != [] {
      var rest, stmt := script[..|script| - 1], script[|script| - 1];
      assert stmt in script;
      ReplayIgnoresBraces(step, goals, rest);
      if stmt.Run? {
        assert (Tactics(rest) + [stmt.tactic])[..|Tactics(rest)|] == Tactics(rest);
      }
    }
  }

  /** Opening braces less closing braces. */
  ghost function Balance<T>(script: seq<Stmt<T>>): int {
    if script == [] then 0
    else Balance(script[..|script| - 1]) + match script[|script| - 1] case Open => 1 case Close => -1 case _ => 0
  }

  /** The depth of the focus stack counts the open braces. */
  lemma {:induction false} DepthIsBalance<T>(step: Step<T>, levels: Levels, script: seq<Stmt<T>>)
    requires ExecAll(step, levels, script).Some?
    ensures |ExecAll(step, levels, script).value| == |levels| + Balance(script)
    decreases |script|
  {
    if script != [] {
      DepthIsBalance(step, levels, script[..|script| - 1]);
    }
  }
}
