/** The linearizer: turns a proof of compound tactics into a script of single components and braces. */
module Linearizer {
  import opened Prelude
  import opened FocusMachine
  import opened Tacticals
  import opened LinearizerSteps

  ghost predicate EndsOnce(batch: seq<Item>) {
    batch != [] && forall i :: 0 <= i < |batch| ==> (batch[i].Ending? <==> i == |batch| - 1)
  }

  function CompStep(m: Prim): Step<Comp> { (comp, g) => RunComp(m, comp, g) }

  // ---------------------------------------------------------------- what the proofs prove

  /** The original proof on the focus stack, braces and all. */
  ghost predicate OriginalProves(m: Prim, levels: Levels, batch: seq<Item>)
    decreases |batch|
  {
    batch != []
    && match batch[0]
       case Ending => levels == [[]]
       case OpenBrace => Top(levels) != [] && OriginalProves(m, Below(levels) + [Top(levels)[1..], [Top(levels)[0]]], batch[1..])
       case CloseBrace => Top(levels) == [] && |levels| > 1 && OriginalProves(m, Below(levels), batch[1..])
       case Tactic(cmd) =>
         && Top(levels) != []
         && var goals := RunCommand(m, cmd, Top(levels)[0]);
            goals.Some? && OriginalProves(m, Below(levels) + [goals.value + Top(levels)[1..]], batch[1..])
  }

  /** The proof on the flat list of goals, with the meaning that linearized chains have. Sentences
      after the last goal is solved are skipped. */
  ghost predicate LinProves(m: Prim, goals: seq<Goal>, batch: seq<Item>)
    decreases |batch|
  {
    batch != []
    && match batch[0]
       case Ending => goals == []
       case OpenBrace => LinProves(m, goals, batch[1..])
       case CloseBrace => LinProves(m, goals, batch[1..])
       case Tactic(cmd) =>
         if goals == [] then LinProves(m, [], batch[1..])
         else
           var made := LinCommand(m, cmd, goals[0]);
           made.Some? && LinProves(m, made.value + goals[1..], batch[1..])
  }

  ghost predicate AllLeading(batch: seq<Item>) { forall i :: 0 <= i < |batch| && batch[i].Tactic? ==> Leading(batch[i].cmd) }

  /** A proof whose brackets lead still proves its goal with the meaning of linearized chains. */
  lemma {:induction false} OriginalLinProves(m: Prim, levels: Levels, batch: seq<Item>)
    requires OriginalProves(m, levels, batch) && AllLeading(batch)
    ensures LinProves(m, Flat(levels), batch)
    decreases |batch|
  {
    var top, below := Top(levels), Below(levels);
    FlatTop(levels);
    match batch[0]
    case Ending =>
      assert below == [] && top + Flat(below) == [];
    case OpenBrace =>
      var next := below + [top[1..], [top[0]]];
      assert next == below + [top[1..]] + [[top[0]]];
      FlatPush(below, top[1..]);
      FlatPush(below + [top[1..]], [top[0]]);
      assert Flat(next) == [top[0]] + (top[1..] + Flat(below)) == Flat(levels);
      OriginalLinProves(m, next, batch[1..]);
    case CloseBrace =>
      assert [] + Flat(below) == Flat(below);
      OriginalLinProves(m, below, batch[1..]);
    case Tactic(cmd) =>
      LeadingAgrees(m, cmd, top[0]);
      var made := RunCommand(m, cmd, top[0]).value;
      FlatPush(below, made + top[1..]);
      assert Flat(levels)[0] == top[0] && Flat(levels)[1..] == top[1..] + Flat(below);
      assert made + top[1..] + Flat(below) == made + (top[1..] + Flat(below));
      OriginalLinProves(m, below + [made + top[1..]], batch[1..]);
  }

  /** A proof by one chain with a bracket behind several components: it keeps its meaning exactly when the components
      before the last one leave a single goal. */
  lemma TrailingBracketProof(m: Prim, front: Command, c: Comp, cases: seq<Clause>, tail: Command, g: Goal)
    requires Simple(front) && (c.Atom? || c.Idtac?) && cases != [] && Leading([c, Branches(cases)] + tail)
    requires OriginalProves(m, [[g]], [Tactic(front + ([c, Branches(cases)] + tail)), Ending])
    ensures RunCommand(m, front, g).Some?
    ensures LinProves(m, [g], [Tactic(front + ([c, Branches(cases)] + tail)), Ending]) <==> |RunCommand(m, front, g).value| == 1
  {
    var cmd := front + ([c, Branches(cases)] + tail);
    var batch := [Tactic(cmd), Ending];
    OneChain(m, cmd, g);
    TrailingBracket(m, front, c, cases, tail, g);
  }

  lemma OneChain(m: Prim, cmd: Command, g: Goal)
    ensures OriginalProves(m, [[g]], [Tactic(cmd), Ending]) <==> RunCommand(m, cmd, g) == Some([])
    ensures LinProves(m, [g], [Tactic(cmd), Ending]) <==> LinCommand(m, cmd, g) == Some([])
  {
    var batch, none := [Tactic(cmd), Ending], Below([[g]]);
    assert batch[1..] == [Ending] && [g][1..] == [] && none == [];
    var made := RunCommand(m, cmd, g);
    if made.Some? {
      assert made.value + [g][1..] == made.value && none + [made.value] == [made.value];
      assert Below([made.value]) == none;
      assert OriginalProves(m, [made.value], batch[1..]) <==> made.value == [];
    }
    var lin := LinCommand(m, cmd, g);
    if lin.Some? {
      assert lin.value + [g][1..] == lin.value;
      assert LinProves(m, lin.value, batch[1..]) <==> lin.value == [];
    }
    hide RunCommand, LinCommand;
  }

  /** Otherwise the linearization can fail: the first case is tried on the second goal too. */
  lemma TrailingBracketDiffers()
    ensures exists m: Prim, batch: seq<Item> ::
      && EndsOnce(batch) && OriginalProves(m, [["G"]], batch)
      && exists n: nat :: After(m, Start("G", batch), n).Stuck?
  {
    var m: Prim := (t: string, g: Goal) =>
      if t == "t" then Some(["G1", "G2"])
      else if t == "u" then Some([if g == "G1" then "A" else "B"])
      else if (t == "a" && g == "A") || (t == "b" && g == "B") then Some([])
      else None;
    var bracket := Branches([Clause([Atom("a")]), Clause([Atom("b")])]);
    var cmd := [Atom("t"), Atom("u"), bracket];
    TrailingBracketRuns(m, bracket, cmd);
    OneChain(m, cmd, "G");
    TrailingBracketStops(m, bracket, cmd);
    assert EndsOnce([Tactic(cmd), Ending]);
  }

  lemma TrailingBracketRuns(m: Prim, bracket: Comp, cmd: Command)
    requires bracket == Branches([Clause([Atom("a")]), Clause([Atom("b")])]) && cmd == [Atom("t"), Atom("u"), bracket]
    requires m("t", "G") == Some(["G1", "G2"]) && m("u", "G1") == Some(["A"]) && m("u", "G2") == Some(["B"])
    requires m("a", "A") == Some([]) && m("b", "B") == Some([])
    ensures RunCommand(m, cmd, "G") == Some([])
  {
    var u := Atom("u");
    assert cmd[1..] == [u, bracket] && [u, bracket][1..] == [bracket] && [bracket][1..] == [];
    OnEachTwo(m, u, "G1", "G2");
    assert ["A"] + ["B"] == ["A", "B"];
    var a, b := Clause([Atom("a")]), Clause([Atom("b")]);
    assert [a, b][1..] == [b] && [b][1..] == [] && ["A", "B"][1..] == ["B"] && ["B"][1..] == [];
    CaseRuns(m, "a", "A");
    CaseRuns(m, "b", "B");
    assert RunCommand(m, a.chain, "A") == Some([]) && RunCommand(m, b.chain, "B") == Some([]);
    var done: seq<Goal> := [];
    assert done + done == done;
    assert Dispatch(m, [b], ["B"]) == Join(Some([]), Dispatch(m, [], []));
    assert Dispatch(m, [a, b], ["A", "B"]) == Join(Some([]), Dispatch(m, [b], ["B"]));
    assert RunRest(m, [bracket], ["A", "B"]) == RunRest(m, [], []);
    assert RunRest(m, [u, bracket], ["G1", "G2"]) == RunRest(m, [bracket], ["A", "B"]);
  }

  lemma CaseRuns(m: Prim, text: string, g: Goal)
    ensures RunCommand(m, [Atom(text)], g) == m(text, g)
  {
    assert [Atom(text)][1..] == [];
  }

  lemma TrailingBracketStops(m: Prim, bracket: Comp, cmd: Command)
    requires bracket == Branches([Clause([Atom("a")]), Clause([Atom("b")])]) && cmd == [Atom("t"), Atom("u"), bracket]
    requires m("t", "G") == Some(["G1", "G2"]) && m("u", "G1") == Some(["A"]) && m("u", "G2") == Some(["B"])
    requires m("a", "A") == Some([]) && m("a", "B") == None
    ensures After(m, Start("G", [Tactic(cmd), Ending]), 6).Stuck?
  {
    hide RunComp, Strip, StripTight, Advance, After;
    var t, u := Atom("t"), Atom("u");
    var none: seq<seq<Goal>> := [];
    var p0 := Start("G", [Tactic(cmd), Ending]);
    var p1 := Progress([["G2"], ["G1"]], [All([u, bracket])], [Tactic([u, bracket]), Ending], [Run(t), Open]);
    var p2 := Progress([["G2"], ["A"]], [All([u, bracket])], [Tactic([Atom("a")]), Ending], [Run(t), Open, Run(u)]);
    var p3 := Progress([["G2"], []], [All([u, bracket])], [Ending], p2.script + [Run(Atom("a"))]);
    var p4 := Progress([[], ["G2"]], [All([u, bracket])], [Tactic([u, bracket]), Ending], p3.script + [Close] + [Open]);
    var p5 := Progress([[], ["B"]], [All([u, bracket])], [Tactic([Atom("a")]), Ending], p4.script + [Run(u)]);
    ChainStep(m, p0, cmd, t, [u, bracket], ["G1", "G2"], p1);
    BracketStep(m, p1, u, bracket, "A", p2);
    LastStep(m, p2, Atom("a"), p3);
    NextGoalStep(m, p3, [u, bracket], "G2", p4);
    BracketStep(m, p4, u, bracket, "B", p5);
    FailingStep(m, p5, Atom("a"));
    OneMoreStep(m, p4, p5, 1);
    OneMoreStep(m, p3, p4, 2);
    OneMoreStep(m, p2, p3, 3);
    OneMoreStep(m, p1, p2, 4);
    OneMoreStep(m, p0, p1, 5);
  }

  /** The first component of a chain without bracket leaves two goals. */
  lemma ChainStep(m: Prim, p: Progress, cmd: Command, c: Comp, tail: Command, goals: seq<Goal>, q: Progress)
    requires Lined(p) && |Top(p.levels)| == 1 && p.batch != [] && p.batch[0] == Tactic(cmd) && cmd == [c] + tail
    requires c.Atom? && tail != [] && !tail[0].Group? && !tail[0].Branches? && m(c.text, Top(p.levels)[0]) == Some(goals) && |goals| == 2
    requires q == Progress(Below(p.levels) + [[goals[1]], [goals[0]]], p.pending + [All(tail)], [Tactic(tail)] + p.batch[1..],
                           p.script + [Run(c)] + [Open])
    ensures Advance(m, p) == More(q)
  {
    assert Strip(cmd) == cmd && cmd[1..] == tail && StripTight(tail) == tail && goals[1..] == [goals[1]];
    assert (Below(p.levels) + [goals])[..|p.levels| - 1] == Below(p.levels);
    assert Below(p.levels) + [goals[1..]] + [[goals[0]]] == q.levels;
  }

  /** A component in front of a bracket with two cases leaves one goal. */
  lemma BracketStep(m: Prim, p: Progress, c: Comp, bracket: Comp, made: Goal, q: Progress)
    requires Lined(p) && |Top(p.levels)| == 1 && p.batch != [] && p.batch[0] == Tactic([c, bracket])
    requires bracket == Branches([Clause([Atom("a")]), Clause([Atom("b")])])
    requires c.Atom? && m(c.text, Top(p.levels)[0]) == Some([made])
    requires q == Progress(Below(p.levels) + [[made]], p.pending, [Tactic([Atom("a")])] + p.batch[1..], p.script + [Run(c)])
    ensures Advance(m, p) == More(q)
  {
    var cmd := [c, bracket];
    assert Strip(cmd) == cmd && cmd[1..] == [bracket] && StripTight([bracket]) == [bracket];
    assert Cases([bracket])[0] == [Atom("a")] + [bracket][1..] == [Atom("a")];
  }

  /** The command pending for the one goal that is left comes next. */
  lemma NextGoalStep(m: Prim, p: Progress, cmd: Command, next: Goal, q: Progress)
    requires p.levels == [[next], []] && p.pending == [All(cmd)]
    requires q == Progress([[], [next]], [All(cmd)], [Tactic(cmd)] + p.batch, p.script + [Close] + [Open])
    ensures Advance(m, p) == More(q)
  {
    var below := Below(p.levels);
    assert below == [[next]] && [next][1..] == [] && below[..0] + [[next][1..]] + [[next]] == q.levels;
    assert p.pending[..0] + [All(cmd)] == q.pending;
  }

  lemma FailingStep(m: Prim, p: Progress, c: Comp)
    requires Lined(p) && |Top(p.levels)| == 1 && p.batch != [] && p.batch[0] == Tactic([c])
    requires c.Atom? && m(c.text, Top(p.levels)[0]) == None
    ensures After(m, p, 1).Stuck?
  {
  }

  lemma OneMoreStep(m: Prim, p: Progress, q: Progress, n: nat)
    requires Lined(p) && Advance(m, p) == More(q)
    ensures After(m, p, n + 1) == After(m, q, n)
  {
  }

  lemma LastStep(m: Prim, p: Progress, c: Comp, q: Progress)
    requires Lined(p) && |Top(p.levels)| == 1 && p.batch != [] && p.batch[0] == Tactic([c])
    requires c.Atom? && m(c.text, Top(p.levels)[0]) == Some([])
    requires q == Progress(Below(p.levels) + [[]], p.pending, p.batch[1..], p.script + [Run(c)])
    ensures Advance(m, p) == More(q)
  {
  }

  // ---------------------------------------------------------------- pending commands

  /** The commands that wait for `n` goals. */
  ghost function Awaiting(p: Pending, n: nat): seq<Command>
    requires !p.Nothing?
  {
    match p
    case All(cmd) => seq(n, i => cmd)
    case Each(cmds) => cmds
  }

  /** As many commands wait as there are goals left. */
  ghost predicate Fits(p: Pending, goals: seq<Goal>) { p.Each? ==> |p.cmds| == |goals| && p.cmds != [] }

  ghost function LinGoals(m: Prim, commands: seq<Command>, goals: seq<Goal>): Option<seq<Goal>>
    requires |commands| == |goals|
  {
    if goals == [] then Some([]) else Join(LinCommand(m, commands[0], goals[0]), LinGoals(m, commands[1..], goals[1..]))
  }

  /** The goals of a level once its pending commands have run. */
  ghost function Expand(m: Prim, p: Pending, goals: seq<Goal>): Option<seq<Goal>>
    requires Fits(p, goals)
  {
    if p.Nothing? then Some(goals) else LinGoals(m, Awaiting(p, |goals|), goals)
  }

  ghost predicate AllFit(pending: seq<Pending>, below: seq<seq<Goal>>) {
    |pending| == |below| && forall k :: 0 <= k < |pending| ==> Fits(pending[k], below[k])
  }

  ghost function ExpandAll(m: Prim, pending: seq<Pending>, below: seq<seq<Goal>>): Option<seq<Goal>>
    requires AllFit(pending, below)
    decreases |pending|
  {
    if pending == [] then Some([])
    else
      var n := |pending| - 1;
      Join(Expand(m, pending[n], below[n]), ExpandAll(m, pending[..n], below[..n]))
  }

  /** What is left to prove once all the pending commands have run, and whether the batch proves it. */
  ghost predicate WillProve(m: Prim, top: seq<Goal>, pending: seq<Pending>, below: seq<seq<Goal>>, batch: seq<Item>)
    requires AllFit(pending, below)
  {
    var rest := ExpandAll(m, pending, below);
    rest.Some? && LinProves(m, top + rest.value, batch)
  }

  // One more level, or one goal less at the innermost one.

  lemma Pushed(m: Prim, pending: seq<Pending>, below: seq<seq<Goal>>, p: Pending, goals: seq<Goal>)
    requires AllFit(pending, below) && Fits(p, goals)
    ensures AllFit(pending + [p], below + [goals])
    ensures ExpandAll(m, pending + [p], below + [goals]) == Join(Expand(m, p, goals), ExpandAll(m, pending, below))
  {
    var n := |pending|;
    assert (pending + [p])[..n] == pending && (below + [goals])[..n] == below;
  }

  lemma HeadTail(m: Prim, p: Pending, goals: seq<Goal>)
    requires Fits(p, goals) && goals != []
    ensures Fits(Tail(p), goals[1..])
    ensures Expand(m, p, goals)
            == Join(if p.Nothing? then Some([goals[0]]) else LinCommand(m, Head(p)[0].cmd, goals[0]), Expand(m, Tail(p), goals[1..]))
  {
    match p
    case Nothing => assert [goals[0]] + goals[1..] == goals;
    case All(cmd) =>
      assert Awaiting(p, |goals|)[1..] == Awaiting(p, |goals[1..]|);
    case Each(cmds) =>
      if |cmds| == 1 {
        assert goals[1..] == [];
        assert LinGoals(m, cmds[1..], goals[1..]) == Some([]);
      }
  }

  /** Running the command of the first goal now or with the others makes no difference. */
  lemma CommandFirst(m: Prim, cmd: Command, g: Goal, others: Option<seq<Goal>>, rest: Option<seq<Goal>>, batch: seq<Item>)
    ensures var all := Join(Join(LinCommand(m, cmd, g), others), rest);
            var later := Join(others, rest);
            (all.Some? && LinProves(m, [] + all.value, batch))
            <==> (later.Some? && LinProves(m, [g] + later.value, [Tactic(cmd)] + batch))
  {
    var made := LinCommand(m, cmd, g);
    assert ([Tactic(cmd)] + batch)[0] == Tactic(cmd) && ([Tactic(cmd)] + batch)[1..] == batch;
    if others.Some? && rest.Some? {
      var later := others.value + rest.value;
      assert ([g] + later)[0] == g && ([g] + later)[1..] == later;
      if made.Some? { assert [] + (made.value + others.value + rest.value) == made.value + later; }
    }
    hide LinCommand;
  }

  lemma GoalFirst(m: Prim, g: Goal, others: Option<seq<Goal>>, rest: Option<seq<Goal>>, batch: seq<Item>)
    ensures var all := Join(Join(Some([g]), others), rest);
            var later := Join(others, rest);
            (all.Some? && LinProves(m, [] + all.value, batch)) <==> (later.Some? && LinProves(m, [g] + later.value, batch))
  {
    if others.Some? && rest.Some? {
      assert [] + ([g] + others.value + rest.value) == [g] + (others.value + rest.value);
    }
    hide LinProves;
  }

  /** Focusing the next goal of a level brings its pending command to the front of the batch. */
  lemma FocusNext(m: Prim, pending: seq<Pending>, below: seq<seq<Goal>>, p: Pending, goals: seq<Goal>, batch: seq<Item>)
    requires AllFit(pending, below) && Fits(p, goals) && goals != []
    ensures AllFit(pending + [p], below + [goals]) && AllFit(pending + [Tail(p)], below + [goals[1..]])
    ensures WillProve(m, [], pending + [p], below + [goals], batch)
            <==> WillProve(m, [goals[0]], pending + [Tail(p)], below + [goals[1..]], Head(p) + batch)
  {
    hide LinProves, LinCommand, ExpandAll, Expand, Join, Tail;
    HeadTail(m, p, goals);
    Pushed(m, pending, below, p, goals);
    Pushed(m, pending, below, Tail(p), goals[1..]);
    var rest, others := ExpandAll(m, pending, below), Expand(m, Tail(p), goals[1..]);
    if p.Nothing? {
      assert Head(p) + batch == batch;
      GoalFirst(m, goals[0], others, rest, batch);
    } else {
      CommandFirst(m, Head(p)[0].cmd, goals[0], others, rest, batch);
    }
  }

  /** An empty level disappears together with what was pending for it. */
  lemma LeaveLevel(m: Prim, top: seq<Goal>, pending: seq<Pending>, below: seq<seq<Goal>>, p: Pending, batch: seq<Item>)
    requires AllFit(pending, below) && Fits(p, [])
    ensures AllFit(pending + [p], below + [[]])
    ensures WillProve(m, top, pending + [p], below + [[]], batch) <==> WillProve(m, top, pending, below, batch)
  {
    Pushed(m, pending, below, p, []);
    if ExpandAll(m, pending, below).Some? {
      assert [] + ExpandAll(m, pending, below).value == ExpandAll(m, pending, below).value;
    }
  }

  /** What waits for the `n` goals made by the first component of a chain. */
  function Waiting(chain: Command, n: nat): Option<Pending>
    requires chain != []
  {
    if |chain| == 1 then Some(Nothing)
    else
      var commands, tail := Remainders(chain[1..], n), StripTight(chain[1..]);
      if commands.None? then None
      else if tail != [] && tail[0].Branches? then Some(Each(commands.value))
      else Some(All(tail))
  }

  lemma {:induction false} EachIsGoals(m: Prim, bound: nat, commands: seq<Command>, goals: seq<Goal>)
    requires |commands| == |goals| && forall i :: 0 <= i < |commands| ==> Sizes(commands[i]) < bound
    ensures LinEach(m, bound, commands, goals) == LinGoals(m, commands, goals)
    decreases |goals|
  {
    if goals != [] { EachIsGoals(m, bound, commands[1..], goals[1..]); }
  }

  /** Running a chain on a goal is running its first component and then what waits for the goals it makes. */
  lemma ChainRuns(m: Prim, cmd: Command, g: Goal)
    ensures var chain := Strip(cmd);
            if chain == [] || RunComp(m, chain[0], g).None? || Waiting(chain, |RunComp(m, chain[0], g).value|).None? then
              LinCommand(m, cmd, g) == None
            else
              var goals := RunComp(m, chain[0], g).value;
              var p := Waiting(chain, |goals|).value;
              Fits(p, goals) && LinCommand(m, cmd, g) == Expand(m, p, goals)
  {
    var chain := Strip(cmd);
    if chain != [] && RunComp(m, chain[0], g).Some? && |chain| > 1 {
      var goals := RunComp(m, chain[0], g).value;
      var commands := Remainders(chain[1..], |goals|);
      if commands.Some? {
        assert Sizes(chain) == Size(chain[0]) + Sizes(chain[1..]);
        EachIsGoals(m, Sizes(cmd), commands.value, goals);
        var p := Waiting(chain, |goals|).value;
        assert Awaiting(p, |goals|) == commands.value;
      }
    }
  }

  /** Popping a command and running its first component leaves what waits for the goals it makes. */
  lemma CommandRuns(m: Prim, cmd: Command, g: Goal, pending: seq<Pending>, below: seq<seq<Goal>>, batch: seq<Item>)
    requires AllFit(pending, below)
    ensures var chain := Strip(cmd);
            if chain == [] || RunComp(m, chain[0], g).None? || Waiting(chain, |RunComp(m, chain[0], g).value|).None? then
              !WillProve(m, [g], pending, below, [Tactic(cmd)] + batch)
            else
              var goals := RunComp(m, chain[0], g).value;
              var p := Waiting(chain, |goals|).value;
              && Fits(p, goals) && AllFit(pending + [p], below + [goals])
              && (WillProve(m, [g], pending, below, [Tactic(cmd)] + batch) <==> WillProve(m, [], pending + [p], below + [goals], batch))
  {
    ChainRuns(m, cmd, g);
    hide ExpandAll, Expand, LinCommand, Waiting;
    var rest := ExpandAll(m, pending, below);
    CommandFirst(m, cmd, g, Some([]), rest, batch);
    var made := LinCommand(m, cmd, g);
    if made.Some? { assert made.value + [] == made.value; }
    if rest.Some? { assert [] + rest.value == rest.value; }
    var chain := Strip(cmd);
    if chain != [] && RunComp(m, chain[0], g).Some? && Waiting(chain, |RunComp(m, chain[0], g).value|).Some? {
      var goals := RunComp(m, chain[0], g).value;
      Pushed(m, pending, below, Waiting(chain, |goals|).value, goals);
    }
  }

  // ---------------------------------------------------------------- what a step keeps

  /** As many commands wait as there are goals, as long as brackets met as many goals as they have cases. */
  ghost predicate Fit(p: Progress) { Lined(p) && AllFit(p.pending, Below(p.levels)) && EndsOnce(p.batch) }

  ghost predicate Promising(m: Prim, p: Progress)
    requires Fit(p)
  {
    WillProve(m, Top(p.levels), p.pending, Below(p.levels), p.batch)
  }

  /** The next step runs a component in front of a bracket that has not as many cases as there are goals. */
  ghost predicate Mismatch(m: Prim, p: Progress)
    requires Lined(p)
  {
    && Top(p.levels) != [] && p.batch != [] && p.batch[0].Tactic?
    && var chain := Strip(p.batch[0].cmd);
       |chain| > 1 && RunComp(m, chain[0], Top(p.levels)[0]).Some?
       && var tail := StripTight(chain[1..]);
          tail != [] && tail[0].Branches? && tail[0].cases != []
          && |tail[0].cases| != |RunComp(m, chain[0], Top(p.levels)[0]).value|
  }

  lemma PrependedEndsOnce(batch: seq<Item>, front: seq<Item>)
    requires EndsOnce(batch) && |front| <= 1 && forall i :: 0 <= i < |front| ==> front[i].Tactic?
    ensures EndsOnce(front + batch)
  {
  }

  lemma PoppedEndsOnce(batch: seq<Item>)
    requires EndsOnce(batch) && !batch[0].Ending?
    ensures EndsOnce(batch[1..])
  {
  }

  /** Closing a level, focusing the next goal or dropping what was pending changes nothing that is left to prove. */
  lemma ClosedMeaning(m: Prim, p: Progress)
    requires Fit(p) && Top(p.levels) == [] && p.pending != []
    ensures Closed(p).More? && Fit(Closed(p).p) && (Promising(m, Closed(p).p) <==> Promising(m, p))
  {
    hide Expand, ExpandAll, LinProves, Tail, WillProve, EndsOnce;
    var n := |p.pending| - 1;
    var below, pending := Below(p.levels), p.pending[..n];
    var last, goals := p.pending[n], below[n];
    assert p.pending == pending + [last] && below == below[..n] + [goals] && Fits(last, goals);
    if goals != [] {
      FocusNext(m, pending, below[..n], last, goals, p.batch);
      PrependedEndsOnce(p.batch, Head(last));
      assert Below(Closed(p).p.levels) == below[..n] + [goals[1..]];
    } else {
      LeaveLevel(m, [], pending, below[..n], last, p.batch);
      assert !last.Each?;
    }
  }

  /** What is queued for the goals that a component made means what the rest of the chain means for them. */
  lemma SplitMeaning(m: Prim, p: Progress, waiting: Pending)
    requires |p.pending| == |p.levels| - 1 && AllFit(p.pending, Below(p.levels)) && Fits(waiting, Top(p.levels)) && EndsOnce(p.batch)
    ensures var goals := Top(p.levels);
      var q := Split(if goals == [] then p else p.(batch := Head(waiting) + p.batch), Tail(waiting));
      && AllFit(p.pending + [waiting], Below(p.levels) + [goals]) && Fit(q)
      && (Promising(m, q) <==> WillProve(m, [], p.pending + [waiting], Below(p.levels) + [goals], p.batch))
  {
    hide Expand, ExpandAll, LinProves, WillProve, EndsOnce;
    var below, goals := Below(p.levels), Top(p.levels);
    if goals == [] {
      LeaveLevel(m, [], p.pending, below, waiting, p.batch);
    } else {
      FocusNext(m, p.pending, below, waiting, goals, p.batch);
      PrependedEndsOnce(p.batch, Head(waiting));
      var q := p.(batch := Head(waiting) + p.batch);
      if |goals| > 1 {
        assert Below(Split(q, Tail(waiting)).levels) == below + [goals[1..]];
      } else {
        assert goals == [goals[0]] && goals[1..] == [];
        LeaveLevel(m, [goals[0]], p.pending, below, Tail(waiting), q.batch);
      }
    }
  }

  /** When the cases match the goals, running the first component and queueing the rest is what `Waiting` describes. */
  lemma RanWaiting(m: Prim, p: Progress, cmd: Command)
    requires Lined(p) && Top(p.levels) != [] && !Mismatch(m, p.(batch := [Tactic(cmd)] + p.batch))
    ensures var chain := Strip(cmd);
      if chain == [] || RunComp(m, chain[0], Top(p.levels)[0]).None?
         || Waiting(chain, |RunComp(m, chain[0], Top(p.levels)[0]).value|).None? then
        Ran(m, p, cmd).Stuck?
      else
        var goals := RunComp(m, chain[0], Top(p.levels)[0]).value;
        var waiting := Waiting(chain, |goals|).value;
        var q := p.(levels := Below(p.levels) + [goals], script := p.script + [Run(chain[0])]);
        Ran(m, p, cmd) == More(Split(if goals == [] then q else q.(batch := Head(waiting) + q.batch), Tail(waiting)))
  {
    hide RunComp;
    var chain := Strip(cmd);
    if |chain| > 1 && RunComp(m, chain[0], Top(p.levels)[0]).Some? {
      var goals := RunComp(m, chain[0], Top(p.levels)[0]).value;
      var tail := StripTight(chain[1..]);
      if tail != [] && tail[0].Branches? && |tail[0].cases| == |goals| && goals != [] {
        assert Remainders(chain[1..], |goals|) == Some(Cases(tail));
      }
    } else if |chain| == 1 && RunComp(m, chain[0], Top(p.levels)[0]).Some? {
      var q := p.(levels := Below(p.levels) + [RunComp(m, chain[0], Top(p.levels)[0]).value], script := p.script + [Run(chain[0])]);
      assert [] + q.batch == q.batch;
    }
  }

  /** A bracket that does not match the goals leaves nothing that linearized chains would wait for. */
  lemma MismatchWaits(m: Prim, p: Progress, cmd: Command)
    requires Lined(p) && Top(p.levels) != []
    ensures !Ran(m, p, cmd).Finished?
    ensures Mismatch(m, p.(batch := [Tactic(cmd)] + p.batch)) ==>
      && Strip(cmd) != [] && RunComp(m, Strip(cmd)[0], Top(p.levels)[0]).Some?
      && Waiting(Strip(cmd), |RunComp(m, Strip(cmd)[0], Top(p.levels)[0]).value|).None?
  {
    hide RunComp;
  }

  lemma RanMeaning(m: Prim, p: Progress, cmd: Command)
    requires Fit(p) && Top(p.levels) != []
    ensures var before := p.(batch := [Tactic(cmd)] + p.batch);
      && Fit(before) && !Ran(m, p, cmd).Finished?
      && if Mismatch(m, before) || Ran(m, p, cmd).Stuck? then !Promising(m, before)
         else Fit(Ran(m, p, cmd).p) && (Promising(m, Ran(m, p, cmd).p) <==> Promising(m, before))
  {
    var before := p.(batch := [Tactic(cmd)] + p.batch);
    hide Ran, Waiting, WillProve, RunComp, LinProves;
    PrependedEndsOnce(p.batch, [Tactic(cmd)]);
    var chain, g := Strip(cmd), Top(p.levels)[0];
    assert Top(p.levels) == [g];
    CommandRuns(m, cmd, g, p.pending, Below(p.levels), p.batch);
    hide Expand, ExpandAll, EndsOnce, Awaiting, AllFit, Mismatch;
    MismatchWaits(m, p, cmd);
    if !Mismatch(m, before) {
      RanWaiting(m, p, cmd);
      hide Remainders, Ran, Waiting;
      if chain != [] && RunComp(m, chain[0], g).Some? && Waiting(chain, |RunComp(m, chain[0], g).value|).Some? {
        var goals := RunComp(m, chain[0], g).value;
        var q := p.(levels := Below(p.levels) + [goals], script := p.script + [Run(chain[0])]);
        assert Below(q.levels) == Below(p.levels);
        SplitMeaning(m, q, Waiting(chain, |goals|).value);
      }
    }
  }

  /** With no goal left, what comes before the ending is skipped. */
  lemma {:induction false} Done(m: Prim, batch: seq<Item>)
    requires EndsOnce(batch)
    ensures LinProves(m, [], batch) && Flushed(batch) == [End]
    decreases |batch|
  {
    if !batch[0].Ending? {
      PoppedEndsOnce(batch);
      Done(m, batch[1..]);
    } else {
      assert batch[1..] == [];
    }
  }

  /** What a step of the loop does to the chances of the proof, unless a bracket does not match the goals. */
  lemma StepMeaning(m: Prim, p: Progress)
    requires Fit(p)
    ensures if Mismatch(m, p) then !Promising(m, p)
      else
        match Advance(m, p)
        case More(q) => Fit(q) && (Promising(m, q) <==> Promising(m, p))
        case Finished(_) => Promising(m, p)
        case Stuck(_) => !Promising(m, p)
  {
    if Top(p.levels) == [] {
      if p.pending == [] {
        Done(m, p.batch);
        var none: seq<Goal> := [];
        assert none + none == none;
      } else {
        ClosedMeaning(m, p);
      }
    } else {
      var popped := p.(batch := p.batch[1..]);
      assert p.batch == [p.batch[0]] + p.batch[1..];
      if p.batch[0].Tactic? {
        PoppedEndsOnce(p.batch);
        hide WillProve, Ran;
        assert p.(batch := [Tactic(p.batch[0].cmd)] + popped.batch) == p;
        RanMeaning(m, popped, p.batch[0].cmd);
      } else if !p.batch[0].Ending? {
        PoppedEndsOnce(p.batch);
      }
    }
  }

  /** In the next `n` steps every bracket meets as many goals as it has cases. */
  ghost predicate Smooth(m: Prim, p: Progress, n: nat)
    requires Lined(p)
    decreases n
  {
    n == 0 || (!Mismatch(m, p) && (Advance(m, p).More? ==> Smooth(m, Advance(m, p).p, n - 1)))
  }

  /** Somewhere on the way a bracket meets another number of goals. */
  ghost predicate Mismatched(m: Prim, p: Progress)
    requires Lined(p)
  {
    exists n: nat :: !Smooth(m, p, n)
  }

  lemma {:induction false} SmoothRun(m: Prim, p: Progress, n: nat)
    requires Fit(p)
    ensures !Smooth(m, p, n) ==> !Promising(m, p)
    ensures Smooth(m, p, n) && After(m, p, n).Finished? ==> Promising(m, p)
    ensures Smooth(m, p, n) && After(m, p, n).Stuck? ==> !Promising(m, p)
    decreases n
  {
    hide Mismatch, Advance, Promising, AllFit, EndsOnce, Lined;
    if n > 0 {
      StepMeaning(m, p);
      if !Mismatch(m, p) && Advance(m, p).More? {
        SmoothRun(m, Advance(m, p).p, n - 1);
      }
    }
  }

  // ---------------------------------------------------------------- what the script does

  /** The script emitted so far was accepted and led here. */
  ghost predicate Sound(m: Prim, goal: Goal, p: Progress) { ExecAll(CompStep(m), [[goal]], p.script) == Some(p.levels) }

  /** Pushing a level: the goals of the current level wait, except the first, which gets the focus. */
  lemma Focused(m: Prim, below: seq<seq<Goal>>, goals: seq<Goal>)
    requires goals != []
    ensures Exec(CompStep(m), below + [goals], Open) == Some(below + [goals[1..]] + [[goals[0]]])
  {
    assert below + [goals[1..], [goals[0]]] == below + [goals[1..]] + [[goals[0]]];
  }

  lemma SplitSound(m: Prim, goal: Goal, p: Progress, waiting: Pending)
    requires |p.pending| == |p.levels| - 1 && Sound(m, goal, p)
    ensures Sound(m, goal, Split(p, waiting))
  {
    if |Top(p.levels)| > 1 {
      ExecNext(CompStep(m), [[goal]], p.script, Open);
      assert p.levels == Below(p.levels) + [Top(p.levels)];
      Focused(m, Below(p.levels), Top(p.levels));
    }
  }

  lemma ClosedSound(m: Prim, goal: Goal, p: Progress)
    requires Lined(p) && Top(p.levels) == [] && p.pending != [] && Sound(m, goal, p)
    ensures match Closed(p)
      case More(q) => Sound(m, goal, q)
      case Stuck(script) => ExecAll(CompStep(m), [[goal]], script).Some?
      case Finished(_) => false
  {
    hide ExecAll;
    var below, n := Below(p.levels), |p.pending| - 1;
    ExecNext(CompStep(m), [[goal]], p.script, Close);
    if below[n] != [] {
      ExecNext(CompStep(m), [[goal]], p.script + [Close], Open);
      assert below == below[..n] + [below[n]];
      Focused(m, below[..n], below[n]);
    }
  }

  lemma RanSound(m: Prim, goal: Goal, p: Progress, cmd: Command)
    requires Lined(p) && Top(p.levels) != [] && Sound(m, goal, p)
    ensures match Ran(m, p, cmd)
      case More(q) => Sound(m, goal, q)
      case Stuck(script) => ExecAll(CompStep(m), [[goal]], script).Some?
      case Finished(_) => false
  {
    hide ExecAll, RunComp, StripTight;
    var chain := Strip(cmd);
    if chain != [] && RunComp(m, chain[0], Top(p.levels)[0]).Some? {
      var goals := RunComp(m, chain[0], Top(p.levels)[0]).value;
      var q := p.(levels := Below(p.levels) + [goals], script := p.script + [Run(chain[0])]);
      ExecNext(CompStep(m), [[goal]], p.script, Run(chain[0]));
      assert goals + Top(p.levels)[1..] == goals;
      var tail := StripTight(chain[1..]);
      if |chain| == 1 {
        SplitSound(m, goal, q, Nothing);
      } else if tail != [] && tail[0].Branches? {
        if tail[0].cases != [] {
          SplitSound(m, goal, q.(batch := [Tactic(Cases(tail)[0])] + q.batch), Each(Cases(tail)[1..]));
        }
      } else {
        SplitSound(m, goal, if goals == [] then q else q.(batch := [Tactic(tail)] + q.batch), All(tail));
      }
    }
  }

  /** The script that is emitted for a complete proof ends it, with as many closing as opening braces. */
  lemma FinishedSound(m: Prim, goal: Goal, p: Progress, script: seq<Stmt<Comp>>)
    requires Sound(m, goal, p) && p.levels == [[]] && script == p.script + [End]
    ensures ExecAll(CompStep(m), [[goal]], script) == Some([[]]) && Balance(script) == 0 && End in script
  {
    ExecNext(CompStep(m), [[goal]], p.script, End);
    DepthIsBalance(CompStep(m), [[goal]], script);
    assert script[|script| - 1] == End;
  }

  // ---------------------------------------------------------------- the linearizer

  /** Leaves the level that has no goal left; focuses the next goal of the level below, if it has one. */
  method NextGoal(p: Progress) returns (next: Next)
    requires Lined(p) && Top(p.levels) == [] && p.pending != []
    ensures next == Closed(p)
  {
    var n := |p.pending| - 1;
    var below, pending := Below(p.levels), p.pending[..n];
    var last, goals := p.pending[n], below[n];
    var q := p.(levels := below, script := p.script + [Close]);
    if goals != [] {
      q := q.(levels := below[..n] + [goals[1..]] + [[goals[0]]], script := q.script + [Open]);
      match last
      case Nothing =>
        assert [] + q.batch == q.batch;
      case All(cmd) =>
        q := q.(batch := [Tactic(cmd)] + q.batch);
      case Each(cmds) =>
        if cmds == [] { return Stuck(q.script); }
        q := q.(batch := [Tactic(cmds[0])] + q.batch);
        last := if |cmds| > 1 then Each(cmds[1..]) else Nothing;
      q := q.(pending := pending + [last]);
    } else {
      if last.Each? && last.cmds != [] && n > 1 {
        match pending[n - 1]
        case Nothing => pending := pending[..n - 1] + [last];
        case Each(cmds) => pending := pending[..n - 1] + [Each(last.cmds + cmds)];
        case All(_) =>
      }
      q := q.(pending := pending);
    }
    return More(q);
  }

  /** Runs the first component of the popped command on the goal in focus and queues what remains for the goals it makes. */
  method RunFirst(m: Prim, p: Progress, cmd: Command) returns (next: Next)
    requires Lined(p) && Top(p.levels) != []
    ensures next == Ran(m, p, cmd)
  {
    var chain := Strip(cmd);
    if chain == [] { return Stuck(p.script); }
    var made := RunComp(m, chain[0], Top(p.levels)[0]);
    if made.None? { return Stuck(p.script); }
    var goals := made.value;
    var q := p.(levels := Below(p.levels) + [goals], script := p.script + [Run(chain[0])]);
    var waiting := Nothing;
    if |chain| > 1 {
      var tail := StripTight(chain[1..]);
      if tail != [] && tail[0].Branches? {
        if tail[0].cases == [] { return Stuck(q.script); }
        var commands := Cases(tail);
        q := q.(batch := [Tactic(commands[0])] + q.batch);
        waiting := Each(commands[1..]);
      } else {
        if |goals| > 0 { q := q.(batch := [Tactic(tail)] + q.batch); }
        waiting := All(tail);
      }
    }
    if |goals| > 1 {
      q := q.(levels := Below(q.levels) + [goals[1..]] + [[goals[0]]], pending := q.pending + [waiting], script := q.script + [Open]);
    }
    return More(q);
  }

  method Flush(p: Progress) returns (script: seq<Stmt<Comp>>)
    ensures script == p.script + Flushed(p.batch)
  {
    script := p.script;
    var batch := p.batch;
    while batch != []
      invariant script + Flushed(batch) == p.script + Flushed(p.batch)
      decreases |batch|
    {
      ghost var rest := Flushed(batch[1..]);
      assert script + ([End] + rest) == script + [End] + rest && script + ([] + rest) == script + rest;
      if batch[0].Ending? { script := script + [End]; }
      batch := batch[1..];
    }
    assert script + [] == script;
  }

  /** Linearizes the proof of one goal. It always ends, and the script emitted so far was accepted; when it succeeds the
      script proves the goal. A proof that goes through with the meaning of linearized chains is one on which it succeeds
      and on which every bracket meets as many goals as it has cases. */
  method LinearizeProof(m: Prim, goal: Goal, proof: seq<Item>) returns (script: seq<Stmt<Comp>>, ok: bool)
    requires EndsOnce(proof)
    ensures exists n: nat :: After(m, Start(goal, proof), n) == if ok then Finished(script) else Stuck(script)
    ensures ok && !Mismatched(m, Start(goal, proof)) <==> LinProves(m, [goal], proof)
    ensures OriginalProves(m, [[goal]], proof) && AllLeading(proof) ==> ok
    ensures ExecAll(CompStep(m), [[goal]], script).Some?
    ensures ok ==> ExecAll(CompStep(m), [[goal]], script) == Some([[]]) && Balance(script) == 0 && End in script
  {
    hide Advance, Closed, Ran, ExecAll, Mismatched, AllLeading, OriginalProves;
    ghost var steps := Terminates(m, goal, proof);
    ghost var start, left := Start(goal, proof), steps;
    Meaning(m, goal, proof, steps);
    OriginalImplies(m, goal, proof);
    NoSteps(m, goal);
    var p := Start(goal, proof);
    while true
      invariant Lined(p) && Sound(m, goal, p) && EndsLater(p)
      invariant After(m, start, steps) == After(m, p, left) && !After(m, p, left).More?
      decreases left
    {
      AdvanceUnfolds(m, p);
      left := left - 1;
      if Top(p.levels) == [] {
        if p.pending == [] {
          Ended(p);
          FinishedSound(m, goal, p, p.script + Flushed(p.batch));
          script := Flush(p);
          return script, true;
        }
        ClosedSound(m, goal, p);
        if Closed(p).More? { EndsLaterStays(m, p); }
        var next := NextGoal(p);
        if next.Stuck? { return next.script, false; }
        p := next.p;
        continue;
      }
      if p.batch == [] || p.batch[0].Ending? { return p.script, false; }
      if Advance(m, p).More? { EndsLaterStays(m, p); }
      var item := p.batch[0];
      p := p.(batch := p.batch[1..]);
      if item.Tactic? {
        RanSound(m, goal, p, item.cmd);
        var next := RunFirst(m, p, item.cmd);
        if next.Stuck? { return next.script, false; }
        p := next.p;
      }
    }
  }

  lemma AdvanceUnfolds(m: Prim, p: Progress)
    requires Lined(p)
    ensures Advance(m, p)
            == if Top(p.levels) == [] then if p.pending == [] then Finished(p.script + Flushed(p.batch)) else Closed(p)
               else if p.batch == [] || p.batch[0].Ending? then Stuck(p.script)
               else if p.batch[0].Tactic? then Ran(m, p.(batch := p.batch[1..]), p.batch[0].cmd)
               else More(p.(batch := p.batch[1..]))
  {
  }

  /** The ending stays the last sentence of the batch. */
  ghost predicate EndsLater(p: Progress) { EndsOnce(p.batch) }

  lemma Ended(p: Progress)
    requires Lined(p) && EndsLater(p) && Top(p.levels) == [] && p.pending == []
    ensures p.levels == [[]] && Flushed(p.batch) == [End]
  {
    Done((t, g) => None, p.batch);
  }

  lemma EndsLaterStays(m: Prim, p: Progress)
    requires Lined(p) && EndsLater(p) && Advance(m, p).More?
    ensures EndsLater(Advance(m, p).p)
  {
    hide RunComp, EndsOnce;
    if Top(p.levels) == [] {
      PrependedEndsOnce(p.batch, Head(p.pending[|p.pending| - 1]));
    } else {
      PoppedEndsOnce(p.batch);
      if p.batch[0].Tactic? {
        var chain := Strip(p.batch[0].cmd);
        if |chain| > 1 {
          var tail := StripTight(chain[1..]);
          PrependedEndsOnce(p.batch[1..], [Tactic(tail)]);
          if tail != [] && tail[0].Branches? && tail[0].cases != [] {
            PrependedEndsOnce(p.batch[1..], [Tactic(Cases(tail)[0])]);
          }
        }
      }
    }
  }

  lemma NoSteps(m: Prim, goal: Goal)
    ensures ExecAll(CompStep(m), [[goal]], []) == Some([[goal]])
  {
  }

  /** What the end of the loop says about the proof. */
  lemma Meaning(m: Prim, goal: Goal, proof: seq<Item>, n: nat)
    requires EndsOnce(proof) && !After(m, Start(goal, proof), n).More?
    ensures After(m, Start(goal, proof), n).Finished? && !Mismatched(m, Start(goal, proof)) <==> LinProves(m, [goal], proof)
  {
    var p := Start(goal, proof);
    assert [goal] + [] == [goal];
    assert Promising(m, p) <==> LinProves(m, [goal], proof);
    SmoothRun(m, p, n);
    hide Promising, After, Smooth, LinProves;
    if Mismatched(m, p) {
      var k: nat :| !Smooth(m, p, k);
      SmoothRun(m, p, k);
    }
  }

  lemma OriginalImplies(m: Prim, goal: Goal, proof: seq<Item>)
    ensures OriginalProves(m, [[goal]], proof) && AllLeading(proof) ==> LinProves(m, [goal], proof)
  {
    if OriginalProves(m, [[goal]], proof) && AllLeading(proof) {
      OriginalLinProves(m, [[goal]], proof);
      FlatPush([], [goal]);
      assert [] + [[goal]] == [[goal]] && [goal] + Flat([]) == [goal];
    }
  }
}
