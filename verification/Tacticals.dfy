/** Compound tactics: their meaning in the proof assistant, and the meaning that a linearized script gives them. */
module Tacticals {
  import opened Prelude
  import opened FocusMachine

  /** One component of a chain `c1; c2; ...`: a simple tactic, `idtac`, a parenthesised chain (`tight` when no space
      precedes the parenthesis), or a bracket with one chain per goal. An empty case stands for `idtac`. */
  datatype Comp = Atom(text: string) | Idtac | Group(tight: bool, inner: seq<Comp>) | Branches(cases: seq<Clause>)

  /** One case of a bracket. */
  datatype Clause = Clause(chain: seq<Comp>)

  type Command = seq<Comp>

  /** What simple tactics do. */
  type Prim = Step<string>

  function Size(comp: Comp): nat
    ensures Size(comp) > 0
  {
    match comp
    case Atom(_) => 1
    case Idtac => 1
    case Group(_, inner) => 1 + Sizes(inner)
    case Branches(cases) => 2 + CaseSizes(cases)
  }

  function Sizes(cmd: Command): nat {
    if cmd == [] then 0 else Size(cmd[0]) + Sizes(cmd[1..])
  }

  function CaseSizes(cases: seq<Clause>): nat {
    if cases == [] then 0 else 2 + Sizes(cases[0].chain) + CaseSizes(cases[1..])
  }

  lemma {:induction false} SizesConcat(a: Command, b: Command)
    ensures Sizes(a + b) == Sizes(a) + Sizes(b)
    decreases |a|
  {
    if a == [] {
      assert a + b == b;
    } else {
      assert (a + b)[0] == a[0] && (a + b)[1..] == a[1..] + b;
      SizesConcat(a[1..], b);
    }
  }

  lemma {:induction false} CaseSize(cases: seq<Clause>, i: nat)
    requires i < |cases|
    ensures Sizes(cases[i].chain) + 2 <= CaseSizes(cases)
    decreases |cases|
  {
    if i > 0 { CaseSize(cases[1..], i - 1); }
  }

  /** Both lists of goals, provided there are both. */
  function Join(a: Option<seq<Goal>>, b: Option<seq<Goal>>): Option<seq<Goal>> {
    if a.Some? && b.Some? then Some(a.value + b.value) else None
  }

  // ---------------------------------------------------------------- the meaning of a tactic

  /** One component applied to one goal. A bracket cannot stand alone. */
  function RunComp(m: Prim, comp: Comp, g: Goal): Option<seq<Goal>>
    decreases Size(comp), 0, 0
  {
    match comp
    case Atom(text) => m(text, g)
    case Idtac => Some([g])
    case Group(_, inner) => RunCommand(m, inner, g)
    case Branches(_) => None
  }

  /** A chain applied to one goal; `;` associates to the left. */
  function RunCommand(m: Prim, cmd: Command, g: Goal): Option<seq<Goal>>
    decreases Sizes(cmd), 4, 0
  {
    if cmd == [] then Some([g])
    else
      var goals := RunComp(m, cmd[0], g);
      if goals.None? then None else RunRest(m, cmd[1..], goals.value)
  }

  /** The rest of a chain applied to all the goals made so far. */
  function RunRest(m: Prim, rest: Command, goals: seq<Goal>): Option<seq<Goal>>
    decreases Sizes(rest), 3, 0
  {
    if rest == [] then Some(goals)
    else
      assert Sizes(rest) == Size(rest[0]) + Sizes(rest[1..]);
      var next := if rest[0].Branches? then Dispatch(m, rest[0].cases, goals) else OnEach(m, rest[0], goals);
      if next.None? then None else RunRest(m, rest[1..], next.value)
  }

  /** `t; c`: the component on every goal. */
  function OnEach(m: Prim, comp: Comp, goals: seq<Goal>): Option<seq<Goal>>
    decreases Size(comp), 1, |goals|
  {
    if goals == [] then Some([]) else Join(RunComp(m, comp, goals[0]), OnEach(m, comp, goals[1..]))
  }

  /** `t; [c1 | ... | cn]`: as many cases as goals, one for each. */
  function Dispatch(m: Prim, cases: seq<Clause>, goals: seq<Goal>): Option<seq<Goal>>
    decreases CaseSizes(cases), 2, |goals|
  {
    if |cases| != |goals| then None
    else if goals == [] then Some([])
    else Join(RunCommand(m, cases[0].chain, goals[0]), Dispatch(m, cases[1..], goals[1..]))
  }

  // ---------------------------------------------------------------- the meaning of the linearized script

  /** The chain without the parentheses around its first component. */
  function Strip(cmd: Command): (r: Command)
    ensures Sizes(r) <= Sizes(cmd)
  {
    if cmd != [] && cmd[0].Group? then SizesConcat(cmd[0].inner, cmd[1..]); cmd[0].inner + cmd[1..] else cmd
  }

  /** The same for what follows a semicolon, where a space before the parenthesis keeps it. */
  function StripTight(rest: Command): (r: Command)
    ensures Sizes(r) <= Sizes(rest)
  {
    if rest != [] && rest[0].Group? && rest[0].tight then Strip(rest) else rest
  }

  function Case(cmd: Command): Command { if cmd == [] then [Idtac] else cmd }

  /** The commands left for each of the `n` goals made by the first component, if there is one for each. */
  function Remainders(rest: Command, n: nat): (r: Option<seq<Command>>)
    ensures r.Some? ==> |r.value| == n && forall i :: 0 <= i < n ==> Sizes(r.value[i]) <= Sizes(rest)
  {
    var tail := StripTight(rest);
    if tail != [] && tail[0].Branches? then
      if |tail[0].cases| != n || n == 0 then None
      else
        var commands := seq(n, i requires 0 <= i < n => Case(tail[0].cases[i].chain) + tail[1..]);
        assert forall i :: 0 <= i < n ==> Sizes(commands[i]) <= Sizes(tail) by {
          forall i | 0 <= i < n ensures Sizes(commands[i]) <= Sizes(tail) {
            CaseSize(tail[0].cases, i);
            SizesConcat(Case(tail[0].cases[i].chain), tail[1..]);
          }
        }
        Some(commands)
    else Some(seq(n, i requires 0 <= i < n => tail))
  }

  /** What the linearized script of a chain does to one goal: the first component runs, and what
      remains runs separately on each of the goals it makes. */
  function LinCommand(m: Prim, cmd: Command, g: Goal): Option<seq<Goal>>
    decreases Sizes(cmd), 1, 0
  {
    var chain := Strip(cmd);
    if chain == [] then None
    else
      var goals := RunComp(m, chain[0], g);
      if goals.None? then None
      else if |chain| == 1 then goals
      else
        var commands := Remainders(chain[1..], |goals.value|);
        if commands.None? then None else LinEach(m, Sizes(cmd), commands.value, goals.value)
  }

  function LinEach(m: Prim, ghost bound: nat, commands: seq<Command>, goals: seq<Goal>): Option<seq<Goal>>
    requires |commands| == |goals| && forall i :: 0 <= i < |commands| ==> Sizes(commands[i]) < bound
    decreases bound, 0, |goals|
  {
    if goals == [] then Some([])
    else Join(LinCommand(m, commands[0], goals[0]), LinEach(m, bound, commands[1..], goals[1..]))
  }

  /** The bound only serves termination. */
  lemma {:induction false} BoundIrrelevant(m: Prim, a: nat, b: nat, commands: seq<Command>, goals: seq<Goal>)
    requires |commands| == |goals| && forall i :: 0 <= i < |commands| ==> Sizes(commands[i]) < a && Sizes(commands[i]) < b
    ensures LinEach(m, a, commands, goals) == LinEach(m, b, commands, goals)
    decreases |goals|
  {
    if goals != [] {
      BoundIrrelevant(m, a, b, commands[1..], goals[1..]);
    }
  }

  // ---------------------------------------------------------------- when the two meanings agree

  /** Brackets occur only right after the first component of a chain, also once parentheses are stripped. */
  ghost predicate Leading(cmd: Command)
    decreases Sizes(cmd), 1
  {
    var chain := Strip(cmd);
    Proper(cmd) && (|chain| > 1 ==> LeadingRest(Sizes(cmd), chain[1..]))
  }

  /** There is a first component, and parentheses around it hold something. */
  ghost predicate Proper(cmd: Command) { cmd != [] && (cmd[0].Group? ==> cmd[0].inner != []) }

  ghost predicate LeadingRest(bound: nat, rest: Command)
    requires Sizes(rest) < bound
    decreases bound, 0
  {
    && Proper(rest) && NoBranches(rest[1..])
    && if rest[0].Branches? then
         rest[0].cases != [] && forall i :: 0 <= i < |rest[0].cases| ==> LeadingCase(rest, i)
       else Leading(StripTight(rest)) && !StripTight(rest)[0].Branches?
  }

  ghost predicate LeadingCase(rest: Command, i: nat)
    requires rest != [] && rest[0].Branches? && i < |rest[0].cases|
    decreases Sizes(rest), 2
  {
    CaseSize(rest[0].cases, i);
    SizesConcat(Case(rest[0].cases[i].chain), rest[1..]);
    assert Sizes(rest) == 2 + CaseSizes(rest[0].cases) + Sizes(rest[1..]);
    assert Sizes(Case(rest[0].cases[i].chain)) <= Sizes(rest[0].cases[i].chain) + 1 by { assert Sizes([Idtac]) == 1 + Sizes([Idtac][1..]); }
    Leading(Case(rest[0].cases[i].chain) + rest[1..])
  }

  ghost predicate NoBranches(cmd: Command) { forall k :: 0 <= k < |cmd| ==> !cmd[k].Branches? }

  lemma {:induction false} RunRestConcat(m: Prim, a: Command, b: Command, goals: seq<Goal>)
    ensures RunRest(m, a + b, goals)
            == if RunRest(m, a, goals).None? then None else RunRest(m, b, RunRest(m, a, goals).value)
    decreases |a|
  {
    if a == [] {
      assert a + b == b;
    } else {
      assert (a + b)[0] == a[0] && (a + b)[1..] == a[1..] + b;
      var next := if a[0].Branches? then Dispatch(m, a[0].cases, goals) else OnEach(m, a[0], goals);
      if next.Some? { RunRestConcat(m, a[1..], b, next.value); }
    }
  }

  /** Parentheses around the first component do not matter. */
  lemma StripRuns(m: Prim, cmd: Command, g: Goal)
    requires Proper(cmd)
    ensures Strip(cmd) != [] && RunCommand(m, Strip(cmd), g) == RunCommand(m, cmd, g)
  {
    if cmd[0].Group? {
      var inner, rest := cmd[0].inner, cmd[1..];
      assert (inner + rest)[0] == inner[0] && (inner + rest)[1..] == inner[1..] + rest;
      var goals := RunComp(m, inner[0], g);
      assert RunComp(m, cmd[0], g) == RunCommand(m, inner, g);
      assert RunCommand(m, inner, g) == if goals.None? then None else RunRest(m, inner[1..], goals.value);
      if goals.Some? { RunRestConcat(m, inner[1..], rest, goals.value); }
    }
  }

  lemma {:induction false} OnEachConcat(m: Prim, comp: Comp, a: seq<Goal>, b: seq<Goal>)
    ensures OnEach(m, comp, a + b) == Join(OnEach(m, comp, a), OnEach(m, comp, b))
    decreases |a|
  {
    if a == [] {
      assert a + b == b;
      if OnEach(m, comp, b).Some? { assert [] + OnEach(m, comp, b).value == OnEach(m, comp, b).value; }
    } else {
      assert (a + b)[0] == a[0] && (a + b)[1..] == a[1..] + b;
      OnEachConcat(m, comp, a[1..], b);
      JoinAssociates(RunComp(m, comp, a[0]), OnEach(m, comp, a[1..]), OnEach(m, comp, b));
    }
  }

  lemma OnEachOne(m: Prim, comp: Comp, g: Goal)
    ensures OnEach(m, comp, [g]) == RunComp(m, comp, g)
  {
    var rest := [g][1..];
    assert OnEach(m, comp, rest) == Some([]);
    if RunComp(m, comp, g).Some? { assert RunComp(m, comp, g).value + [] == RunComp(m, comp, g).value; }
  }

  lemma OnEachTwo(m: Prim, comp: Comp, g: Goal, h: Goal)
    ensures OnEach(m, comp, [g, h]) == Join(RunComp(m, comp, g), RunComp(m, comp, h))
  {
    assert [g] + [h] == [g, h];
    OnEachConcat(m, comp, [g], [h]);
    OnEachOne(m, comp, g);
    OnEachOne(m, comp, h);
  }

  lemma JoinAssociates(a: Option<seq<Goal>>, b: Option<seq<Goal>>, c: Option<seq<Goal>>)
    ensures Join(Join(a, b), c) == Join(a, Join(b, c))
  {
    if a.Some? && b.Some? && c.Some? {
      assert a.value + b.value + c.value == a.value + (b.value + c.value);
    }
  }

  /** Without brackets, what remains of a chain acts on every goal by itself. */
  lemma {:induction false} RunRestDistributes(m: Prim, rest: Command, a: seq<Goal>, b: seq<Goal>)
    requires NoBranches(rest)
    ensures RunRest(m, rest, a + b) == Join(RunRest(m, rest, a), RunRest(m, rest, b))
    decreases |rest|
  {
    if rest != [] {
      OnEachConcat(m, rest[0], a, b);
      var x, y := OnEach(m, rest[0], a), OnEach(m, rest[0], b);
      if x.Some? && y.Some? { RunRestDistributes(m, rest[1..], x.value, y.value); }
    }
  }

  lemma {:induction false} RunRestOnNothing(m: Prim, rest: Command)
    requires NoBranches(rest)
    ensures RunRest(m, rest, []) == Some([])
    decreases |rest|
  {
    if rest != [] { RunRestOnNothing(m, rest[1..]); }
  }

  /** A command for each goal. */
  ghost function RunEach(m: Prim, commands: seq<Command>, goals: seq<Goal>): Option<seq<Goal>>
    requires |commands| == |goals|
  {
    if goals == [] then Some([]) else Join(RunCommand(m, commands[0], goals[0]), RunEach(m, commands[1..], goals[1..]))
  }

  lemma RunRestOne(m: Prim, rest: Command, g: Goal)
    requires rest != [] && !rest[0].Branches?
    ensures RunRest(m, rest, [g]) == RunCommand(m, rest, g)
  {
    OnEachOne(m, rest[0], g);
  }

  lemma {:induction false} RestRunsEach(m: Prim, rest: Command, goals: seq<Goal>, commands: seq<Command>)
    requires rest != [] && NoBranches(rest) && |commands| == |goals| && forall i :: 0 <= i < |goals| ==> commands[i] == rest
    ensures RunRest(m, rest, goals) == RunEach(m, commands, goals)
    decreases |goals|
  {
    if goals == [] {
      RunRestOnNothing(m, rest);
    } else {
      assert [goals[0]] + goals[1..] == goals;
      RunRestDistributes(m, rest, [goals[0]], goals[1..]);
      RunRestOne(m, rest, goals[0]);
      RestRunsEach(m, rest, goals[1..], commands[1..]);
    }
  }

  lemma CaseThenRest(m: Prim, chain: Command, rest: Command, g: Goal)
    ensures RunCommand(m, Case(chain) + rest, g)
            == if RunCommand(m, chain, g).None? then None else RunRest(m, rest, RunCommand(m, chain, g).value)
  {
    var c := Case(chain);
    assert (c + rest)[0] == c[0] && (c + rest)[1..] == c[1..] + rest;
    var goals := RunComp(m, c[0], g);
    if goals.Some? { RunRestConcat(m, c[1..], rest, goals.value); }
  }

  lemma {:induction false} CasesRunEach(m: Prim, cases: seq<Clause>, rest: Command, goals: seq<Goal>, commands: seq<Command>)
    requires NoBranches(rest) && |cases| == |goals| == |commands|
    requires forall i :: 0 <= i < |goals| ==> commands[i] == Case(cases[i].chain) + rest
    ensures RunEach(m, commands, goals)
            == if Dispatch(m, cases, goals).None? then None else RunRest(m, rest, Dispatch(m, cases, goals).value)
    decreases |goals|
  {
    if goals == [] {
      RunRestOnNothing(m, rest);
    } else {
      CasesRunEach(m, cases[1..], rest, goals[1..], commands[1..]);
      CaseThenRest(m, cases[0].chain, rest, goals[0]);
      var a, b := RunCommand(m, cases[0].chain, goals[0]), Dispatch(m, cases[1..], goals[1..]);
      if a.Some? && b.Some? { RunRestDistributes(m, rest, a.value, b.value); }
    }
  }

  /** The commands left for the goals mean what the rest of the chain means. */
  lemma RemaindersRun(m: Prim, bound: nat, rest: Command, goals: seq<Goal>)
    requires Sizes(rest) < bound && LeadingRest(bound, rest)
    ensures var commands := Remainders(rest, |goals|);
            RunRest(m, rest, goals) == if commands.None? then None else RunEach(m, commands.value, goals)
  {
    var commands := Remainders(rest, |goals|);
    if rest[0].Branches? {
      if commands.Some? { CasesRunEach(m, rest[0].cases, rest[1..], goals, commands.value); }
    } else {
      var same := seq(|goals|, i requires 0 <= i < |goals| => rest);
      assert NoBranches(rest);
      RestRunsEach(m, rest, goals, same);
      forall i | 0 <= i < |goals| ensures RunCommand(m, commands.value[i], goals[i]) == RunCommand(m, same[i], goals[i]) {
        StripRuns(m, rest, goals[i]);
      }
      SameRuns(m, same, commands.value, goals);
    }
  }

  lemma {:induction false} SameRuns(m: Prim, a: seq<Command>, b: seq<Command>, goals: seq<Goal>)
    requires |a| == |b| == |goals| && forall i :: 0 <= i < |goals| ==> RunCommand(m, b[i], goals[i]) == RunCommand(m, a[i], goals[i])
    ensures RunEach(m, a, goals) == RunEach(m, b, goals)
    decreases |goals|
  {
    if goals != [] { SameRuns(m, a[1..], b[1..], goals[1..]); }
  }

  lemma RemaindersLead(rest: Command, bound: nat, n: nat)
    requires Sizes(rest) < bound && LeadingRest(bound, rest)
    ensures var commands := Remainders(rest, n);
            commands.Some? ==> forall i :: 0 <= i < n ==> Leading(commands.value[i])
  {
    if rest[0].Branches? && Remainders(rest, n).Some? {
      forall i | 0 <= i < n ensures Leading(Remainders(rest, n).value[i]) {
        assert LeadingCase(rest, i);
      }
    }
  }

  /** The linearized script of a chain means what the chain means, when brackets lead. */
  lemma {:induction false} LeadingAgrees(m: Prim, cmd: Command, g: Goal)
    requires Leading(cmd)
    ensures LinCommand(m, cmd, g) == RunCommand(m, cmd, g)
    decreases Sizes(cmd), 1, 0
  {
    StripRuns(m, cmd, g);
    var chain := Strip(cmd);
    var goals := RunComp(m, chain[0], g);
    if goals.Some? && |chain| > 1 {
      var rest := chain[1..];
      var commands := Remainders(rest, |goals.value|);
      assert Sizes(chain) == Size(chain[0]) + Sizes(rest);
      RemaindersRun(m, Sizes(cmd), rest, goals.value);
      RemaindersLead(rest, Sizes(cmd), |goals.value|);
      if commands.Some? { LeadingEachAgrees(m, Sizes(cmd), commands.value, goals.value); }
    }
  }

  lemma {:induction false} LeadingEachAgrees(m: Prim, bound: nat, commands: seq<Command>, goals: seq<Goal>)
    requires |commands| == |goals|
    requires forall i :: 0 <= i < |commands| ==> Sizes(commands[i]) < bound && Leading(commands[i])
    ensures LinEach(m, bound, commands, goals) == RunEach(m, commands, goals)
    decreases bound, 0, |goals|
  {
    if goals != [] {
      LeadingAgrees(m, commands[0], goals[0]);
      LeadingEachAgrees(m, bound, commands[1..], goals[1..]);
    }
  }

  // ---------------------------------------------------------------- a bracket further back

  /** Simple components, which no parenthesis surrounds. */
  ghost predicate Simple(cmd: Command) { forall k :: 0 <= k < |cmd| ==> cmd[k].Atom? || cmd[k].Idtac? }

  /** What the linearized script of a chain does to several goals. */
  ghost function LinAll(m: Prim, cmd: Command, goals: seq<Goal>): Option<seq<Goal>> {
    if goals == [] then Some([]) else Join(LinCommand(m, cmd, goals[0]), LinAll(m, cmd, goals[1..]))
  }

  lemma {:induction false} LinAllConcat(m: Prim, cmd: Command, a: seq<Goal>, b: seq<Goal>)
    ensures LinAll(m, cmd, a + b) == Join(LinAll(m, cmd, a), LinAll(m, cmd, b))
  {
    hide LinCommand;
    if a == [] {
      assert a + b == b;
      if LinAll(m, cmd, b).Some? { assert [] + LinAll(m, cmd, b).value == LinAll(m, cmd, b).value; }
    } else {
      assert (a + b)[0] == a[0] && (a + b)[1..] == a[1..] + b;
      LinAllConcat(m, cmd, a[1..], b);
      JoinAssociates(LinCommand(m, cmd, a[0]), LinAll(m, cmd, a[1..]), LinAll(m, cmd, b));
    }
  }

  lemma LinAllOne(m: Prim, cmd: Command, g: Goal)
    ensures LinAll(m, cmd, [g]) == LinCommand(m, cmd, g)
  {
    assert [g][1..] == [];
    if LinCommand(m, cmd, g).Some? { assert LinCommand(m, cmd, g).value + [] == LinCommand(m, cmd, g).value; }
  }

  lemma {:induction false} LinEachAll(m: Prim, bound: nat, cmd: Command, commands: seq<Command>, goals: seq<Goal>)
    requires |commands| == |goals| && Sizes(cmd) < bound && forall i :: 0 <= i < |commands| ==> commands[i] == cmd
    ensures LinEach(m, bound, commands, goals) == LinAll(m, cmd, goals)
    decreases |goals|
  {
    if goals != [] {
      LinEachAll(m, bound, cmd, commands[1..], goals[1..]);
    }
  }

  /** A simple component in front of a chain without bracket at its head: the chain runs on every goal made. */
  lemma SimpleFirst(m: Prim, c: Comp, rest: Command, g: Goal)
    requires (c.Atom? || c.Idtac?) && rest != [] && !rest[0].Branches? && !rest[0].Group?
    ensures LinCommand(m, [c] + rest, g)
            == if RunComp(m, c, g).None? then None else LinAll(m, rest, RunComp(m, c, g).value)
  {
    var chain := [c] + rest;
    assert Strip(chain) == chain && chain[1..] == rest && StripTight(rest) == rest;
    var goals := RunComp(m, c, g);
    if goals.Some? {
      assert Sizes(chain) == Size(c) + Sizes(rest);
      LinEachAll(m, Sizes(chain), rest, Remainders(rest, |goals.value|).value, goals.value);
    }
  }

  /** Simple components at the front are linearized like they run; the rest of the chain runs on every goal they leave. */
  lemma {:induction false} FrontRuns(m: Prim, front: Command, rest: Command, g: Goal)
    requires Simple(front) && rest != [] && !rest[0].Branches? && !rest[0].Group?
    ensures LinCommand(m, front + rest, g)
            == if RunCommand(m, front, g).None? then None else LinAll(m, rest, RunCommand(m, front, g).value)
    decreases |front|, 1
  {
    if front == [] {
      assert front + rest == rest;
      LinAllOne(m, rest, g);
    } else {
      assert front + rest == [front[0]] + (front[1..] + rest);
      SimpleFirst(m, front[0], front[1..] + rest, g);
      var goals := RunComp(m, front[0], g);
      if goals.Some? {
        FrontRunsEach(m, front[1..], rest, goals.value);
      }
    }
  }

  lemma {:induction false} FrontRunsEach(m: Prim, front: Command, rest: Command, goals: seq<Goal>)
    requires Simple(front) && rest != [] && !rest[0].Branches? && !rest[0].Group?
    ensures LinAll(m, front + rest, goals)
            == if RunRest(m, front, goals).None? then None else LinAll(m, rest, RunRest(m, front, goals).value)
    decreases |front|, 2, |goals|
  {
    assert NoBranches(front);
    if front == [] {
      assert front + rest == rest;
    } else if goals == [] {
      RunRestOnNothing(m, front);
    } else {
      FrontRuns(m, front, rest, goals[0]);
      FrontRunsEach(m, front, rest, goals[1..]);
      assert [goals[0]] + goals[1..] == goals;
      RunRestDistributes(m, front, [goals[0]], goals[1..]);
      RunRestOne(m, front, goals[0]);
      var a, b := RunCommand(m, front, goals[0]), RunRest(m, front, goals[1..]);
      if a.Some? && b.Some? { LinAllConcat(m, rest, a.value, b.value); }
    }
  }

  lemma FrontThenRest(m: Prim, front: Command, rest: Command, g: Goal)
    requires NoBranches(front) && rest != [] && !rest[0].Branches?
    ensures RunCommand(m, front + rest, g)
            == if RunCommand(m, front, g).None? then None else RunRest(m, rest, RunCommand(m, front, g).value)
  {
    if front == [] {
      assert front + rest == rest;
      RunRestOne(m, rest, g);
    } else {
      assert (front + rest)[0] == front[0] && (front + rest)[1..] == front[1..] + rest;
      var goals := RunComp(m, front[0], g);
      if goals.Some? { RunRestConcat(m, front[1..], rest, goals.value); }
    }
  }

  /** The linearized script of `c; [...]` exists for a goal only if `c` makes as many goals as there are cases. */
  lemma CasesKept(m: Prim, c: Comp, cases: seq<Clause>, tail: Command, g: Goal)
    requires (c.Atom? || c.Idtac?) && LinCommand(m, [c, Branches(cases)] + tail, g).Some?
    ensures RunComp(m, c, g).Some? && |RunComp(m, c, g).value| == |cases|
  {
    var chain := [c, Branches(cases)] + tail;
    assert Strip(chain) == chain && chain[1..] == [Branches(cases)] + tail;
  }

  lemma TwoGoals(m: Prim, c: Comp, goals: seq<Goal>)
    requires |goals| >= 2 && OnEach(m, c, goals).Some?
    ensures RunComp(m, c, goals[0]).Some? && RunComp(m, c, goals[1]).Some?
    ensures |OnEach(m, c, goals).value| >= |RunComp(m, c, goals[0]).value| + |RunComp(m, c, goals[1]).value|
  {
    assert OnEach(m, c, goals[1..]).Some?;
  }

  lemma TwoLinearized(m: Prim, cmd: Command, goals: seq<Goal>)
    requires |goals| >= 2 && LinAll(m, cmd, goals).Some?
    ensures LinCommand(m, cmd, goals[0]).Some? && LinCommand(m, cmd, goals[1]).Some?
  {
    assert LinAll(m, cmd, goals[1..]).Some?;
  }

  /** A bracket behind several components is for all the goals made so far, but is linearized for those of each goal. Where
      the chain runs, the linearization keeps the counts, and then the meaning, exactly when the components before
      the last one leave a single goal. */
  lemma TrailingBracket(m: Prim, front: Command, c: Comp, cases: seq<Clause>, tail: Command, g: Goal)
    requires Simple(front) && (c.Atom? || c.Idtac?) && cases != [] && Leading([c, Branches(cases)] + tail)
    requires RunCommand(m, front + ([c, Branches(cases)] + tail), g).Some?
    ensures RunCommand(m, front, g).Some?
    ensures var cmd := front + ([c, Branches(cases)] + tail);
      LinCommand(m, cmd, g) == if |RunCommand(m, front, g).value| == 1 then RunCommand(m, cmd, g) else None
  {
    var bracket := Branches(cases);
    var rest := [c, bracket] + tail;
    FrontThenRest(m, front, rest, g);
    FrontRuns(m, front, rest, g);
    var goals := RunCommand(m, front, g).value;
    hide LinCommand, RunComp, Leading, RunCommand;
    assert rest[0] == c && rest[1..] == [bracket] + tail && rest[1..][0] == bracket;
    var made := OnEach(m, c, goals);
    assert made.Some? && Dispatch(m, cases, made.value).Some?;
    if |goals| == 1 {
      assert goals == [goals[0]];
      LinAllOne(m, rest, goals[0]);
      LeadingAgrees(m, rest, goals[0]);
      RunRestOne(m, rest, goals[0]);
    } else if |goals| >= 2 {
      if LinAll(m, rest, goals).Some? {
        TwoLinearized(m, rest, goals);
        CasesKept(m, c, cases, tail, goals[0]);
        CasesKept(m, c, cases, tail, goals[1]);
        TwoGoals(m, c, goals);
      }
    }
  }
}
