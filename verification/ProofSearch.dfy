/** Depth-first proof search with backtracking over the proof assistant. */
module ProofSearch {
  import opened Prelude
  import opened FocusMachine

  type Script = seq<Stmt<string>>

  /** A node of the search graph: the tactic predicted there, the context before it and the node it was tried from. */
  datatype Node = Node(id: nat, prediction: string, context: Levels, previous: Option<Node>)

  /** What a search found: the tactics of a complete proof, or how many open subgoals were closed on the way. */
  datatype SubSearchResult = SubSearchResult(solution: Option<seq<string>>, solvedSubgoals: int)

  datatype SearchResult = Success(tactics: seq<string>) | Incomplete | Failure

  datatype Arguments = Arguments(searchWidth: int, maxAttempts: nat, searchDepth: int, hardDepthLimit: int,
                                 countFailing: bool, showFailing: bool, countSoftfail: bool)

  /** The predictor, which sees the history and the goals, the comparison of contexts, and the check for too big ones. */
  datatype Oracle = Oracle(predict: (Script, Levels) -> seq<string>, similar: (Levels, Levels) -> bool, big: Levels -> bool)

  predicate Completed(levels: Levels) { levels == [[]] }

  // ---------------------------------------------------------------- the proof assistant with its history

  class Coq {
    const step: Step<string>
    var stmts: Script
    var states: seq<Levels>

    ghost predicate Valid()
      reads this
    {
      |states| == |stmts| + 1 && forall i :: 0 <= i < |stmts| ==> Exec(step, states[i], stmts[i]) == Some(states[i + 1])
    }

    function Current(): Levels
      reads this
      requires Valid()
    {
      states[|stmts|]
    }

    method RunStmt(stmt: Stmt<string>) returns (ok: bool)
      requires Valid()
      modifies this
      ensures Valid()
      ensures ok <==> Exec(step, old(Current()), stmt).Some?
      ensures ok ==> stmts == old(stmts) + [stmt] && states == old(states) + [Exec(step, old(Current()), stmt).value]
      ensures !ok ==> stmts == old(stmts) && states == old(states)
    {
      var next := Exec(step, Current(), stmt);
      if next.None? { return false; }
      stmts, states := stmts + [stmt], states + [next.value];
      return true;
    }

    method CancelLast()
      requires Valid() && stmts != []
      modifies this
      ensures Valid() && stmts == old(stmts)[..|old(stmts)| - 1] && states == old(states)[..|old(stmts)|]
    {
      states := states[..|stmts|];
      stmts := stmts[..|stmts| - 1];
    }

    /** Cancels the last `n` statements, one by one. */
    method Cancel(n: nat)
      requires Valid() && n <= |stmts|
      modifies this
      ensures Valid() && stmts == old(stmts)[..|old(stmts)| - n] && states == old(states)[..|old(states)| - n]
    {
      for i := 0 to n
        invariant Valid() && stmts == old(stmts)[..|old(stmts)| - i] && states == old(states)[..|old(states)| - i]
      {
        CancelLast();
      }
    }
  }

  // ---------------------------------------------------------------- what one prediction does

  /** A tactic that ran, and the braces written after it. */
  datatype Try = Try(prediction: string, closed: nat, opens: nat)

  function Repeat(stmt: Stmt<string>, n: nat): Script { seq(n, _ => stmt) }

  function Written(try: Try): Script { [Run(try.prediction)] + Repeat(Close, try.closed) + Repeat(Open, try.opens) }

  /** The statements of a whole branch of the search. */
  ghost function Steps(branch: seq<Try>): Script {
    if branch == [] then [] else Written(branch[0]) + Steps(branch[1..])
  }

  ghost function Predictions(branch: seq<Try>): seq<string> {
    if branch == [] then [] else [branch[0].prediction] + Predictions(branch[1..])
  }

  /** Leaves all the levels that have no goal left, except the outermost one. */
  ghost function Unwind(levels: Levels): Levels
    decreases |levels|
  {
    if Top(levels) == [] && |levels| > 1 then Unwind(Below(levels)) else levels
  }

  /** The state after the finished levels are left, and after the next goal is focused where there is a choice. */
  ghost function Refocused(ran: Levels): (nat, nat, Levels) {
    var left := Unwind(ran);
    var closed := if |left| <= |ran| then |ran| - |left| else 0;
    if |Top(left)| > 1 || (Top(left) != [] && closed > 0)
    then (closed, 1, Below(left) + [Top(left)[1..], [Top(left)[0]]]) else (closed, 0, left)
  }

  /** Unless the proof is complete one goal is in focus, alone; it was focused with a brace unless it already was alone.
      Finished levels were left, and no goal is lost. */
  ghost predicate Focused(ran: Levels, closed: nat, opens: nat, next: Levels) {
    && opens <= 1 && |next| == |ran| - closed + opens && Flat(next) == Flat(ran)
    && (Completed(next) || |Top(next)| == 1)
    && (!Completed(next) ==> (opens == 0 <==> |Top(ran)| == 1) && (closed > 0 <==> Top(ran) == []))
  }

  lemma {:induction false} UnwindMeans(levels: Levels)
    ensures |Unwind(levels)| <= |levels| && Flat(Unwind(levels)) == Flat(levels)
    ensures Top(Unwind(levels)) != [] || |Unwind(levels)| == 1
    ensures Top(levels) != [] ==> Unwind(levels) == levels
    ensures Top(levels) == [] && |levels| > 1 ==> |Unwind(levels)| < |levels|
    decreases |levels|
  {
    if Top(levels) == [] && |levels| > 1 {
      FlatTop(levels);
      UnwindMeans(Below(levels));
    }
  }

  lemma RefocusedMeans(ran: Levels)
    ensures var (closed, opens, next) := Refocused(ran); Focused(ran, closed, opens, next)
  {
    UnwindMeans(ran);
    hide Unwind;
    var left := Unwind(ran);
    if Top(left) != [] { FlatOpened(left); }
    hide Flat;
    assert |left| == 1 && Top(left) == [] ==> left == [[]];
  }

  lemma FlatOpened(levels: Levels)
    requires Top(levels) != []
    ensures Flat(Below(levels) + [Top(levels)[1..], [Top(levels)[0]]]) == Flat(levels)
  {
    var below, top := Below(levels), Top(levels);
    FlatPush(below + [top[1..]], [top[0]]);
    FlatPush(below, top[1..]);
    FlatTop(levels);
    assert below + [top[1..], [top[0]]] == below + [top[1..]] + [[top[0]]];
    assert [top[0]] + (top[1..] + Flat(below)) == top + Flat(below);
  }

  /** The lowest depth of the focus stack along a script. */
  ghost function LowestDepth(step: Step<string>, levels: Levels, script: Script): nat {
    if script == [] then |levels| - 1
    else
      var before := LowestDepth(step, levels, script[..|script| - 1]);
      var after := ExecAll(step, levels, script);
      if after.Some? && |after.value| - 1 < before then |after.value| - 1 else before
  }

  lemma NoSteps(step: Step<string>, levels: Levels)
    ensures ExecAll(step, levels, []) == Some(levels) && LowestDepth(step, levels, []) == |levels| - 1
  {
  }

  lemma LowestNext(step: Step<string>, levels: Levels, script: Script, stmt: Stmt<string>)
    ensures LowestDepth(step, levels, script + [stmt])
            == var before, after := LowestDepth(step, levels, script), ExecAll(step, levels, script + [stmt]);
               if after.Some? && |after.value| - 1 < before then |after.value| - 1 else before
  {
    assert (script + [stmt])[..|script|] == script;
  }

  /** The lowest depth of a run in two parts is the lower of the two. */
  lemma {:induction false} LowestConcat(step: Step<string>, levels: Levels, a: Script, b: Script)
    requires ExecAll(step, levels, a).Some?
    ensures LowestDepth(step, levels, a + b)
            == var first, second := LowestDepth(step, levels, a), LowestDepth(step, ExecAll(step, levels, a).value, b);
               if second < first then second else first
    decreases |b|
  {
    LowestBelowEntry(step, levels, a);
    if b == [] {
      assert a + b == a;
    } else {
      var front, stmt := b[..|b| - 1], b[|b| - 1];
      assert b == front + [stmt] && a + b == (a + front) + [stmt];
      LowestConcat(step, levels, a, front);
      ExecConcat(step, levels, a, b);
      LowestNext(step, levels, a + front, stmt);
    }
  }

  lemma {:induction false} UnwindLeaves(levels: Levels)
    ensures |Unwind(levels)| <= |levels|
    decreases |levels|
  {
    if Top(levels) == [] && |levels| > 1 {
      UnwindLeaves(Below(levels));
    }
  }

  lemma {:induction false} LowestBelowEntry(step: Step<string>, levels: Levels, script: Script)
    requires ExecAll(step, levels, script).Some?
    ensures LowestDepth(step, levels, script) <= |levels| - 1
    ensures LowestDepth(step, levels, script) <= |ExecAll(step, levels, script).value| - 1
    decreases |script|
  {
    if script != [] {
      LowestBelowEntry(step, levels, script[..|script| - 1]);
    }
  }

  lemma WrittenFrom(prediction: string, closed: nat)
    ensures Written(Try(prediction, 0, 0)) == [Run(prediction)]
    ensures Written(Try(prediction, closed, 0)) + [Close] == Written(Try(prediction, closed + 1, 0))
    ensures Written(Try(prediction, closed, 0)) + [Open] == Written(Try(prediction, closed, 1))
  {
  }

  lemma UnwindSteps(levels: Levels)
    ensures Top(levels) != [] || |levels| == 1 ==> Unwind(levels) == levels
    ensures Top(levels) == [] && |levels| > 1 ==> Unwind(levels) == Unwind(Below(levels))
  {
  }

  /** Runs a prediction, then closes the levels it finished and focuses the next goal. */
  method TryPrediction(coq: Coq, prediction: string) returns (numStmts: nat, closed: nat, opens: nat, error: bool)
    requires coq.Valid()
    modifies coq
    ensures coq.Valid()
    ensures error <==> Exec(coq.step, old(coq.Current()), Run(prediction)).None?
    ensures error ==> coq.stmts == old(coq.stmts) && coq.states == old(coq.states)
    ensures !error ==> coq.stmts == old(coq.stmts) + Written(Try(prediction, closed, opens))
    ensures !error ==> numStmts == |Written(Try(prediction, closed, opens))| && old(coq.states) <= coq.states
    ensures !error ==> ExecAll(coq.step, old(coq.Current()), Written(Try(prediction, closed, opens))) == Some(coq.Current())
    ensures !error ==> closed <= |old(coq.Current())| - 1
    ensures !error ==> |coq.Current()| == |old(coq.Current())| - closed + opens
    ensures !error ==> LowestDepth(coq.step, old(coq.Current()), Written(Try(prediction, closed, opens)))
                       == |old(coq.Current())| - 1 - closed
    ensures !error ==> Refocused(Exec(coq.step, old(coq.Current()), Run(prediction)).value) == (closed, opens, coq.Current())
    ensures !error ==> Focused(Exec(coq.step, old(coq.Current()), Run(prediction)).value, closed, opens, coq.Current())
  {
    hide ExecAll, LowestDepth, Written, Unwind;
    ghost var step, entry, before := coq.step, coq.Current(), coq.stmts;
    var ok := coq.RunStmt(Run(prediction));
    if !ok { return 0, 0, 0, true; }
    error, closed, opens, numStmts := false, 0, 0, 1;
    ghost var ran := coq.Current();
    ghost var script := Written(Try(prediction, 0, 0));
    UnwindLeaves(ran);
    WrittenFrom(prediction, 0);
    NoSteps(step, entry);
    ExecNext(step, entry, [], Run(prediction));
    LowestNext(step, entry, [], Run(prediction));
    assert [] + [Run(prediction)] == script;
    while Top(coq.Current()) == [] && !Completed(coq.Current())
      invariant coq.Valid() && old(coq.states) <= coq.states
      invariant script == Written(Try(prediction, closed, 0)) && coq.stmts == before + script && numStmts == |script|
      invariant ExecAll(step, entry, script) == Some(coq.Current())
      invariant |coq.Current()| == |entry| - closed
      invariant LowestDepth(step, entry, script) == |entry| - 1 - closed
      invariant Unwind(coq.Current()) == Unwind(ran)
      decreases |coq.Current()|
    {
      UnwindSteps(coq.Current());
      ExecNext(step, entry, script, Close);
      LowestNext(step, entry, script, Close);
      WrittenFrom(prediction, closed);
      ok := coq.RunStmt(Close);
      closed, numStmts := closed + 1, numStmts + 1;
      script := script + [Close];
    }
    UnwindSteps(coq.Current());
    if |Top(coq.Current())| > 1 || (|Top(coq.Current())| > 0 && closed > 0) {
      ExecNext(step, entry, script, Open);
      LowestNext(step, entry, script, Open);
      WrittenFrom(prediction, closed);
      ok := coq.RunStmt(Open);
      opens, numStmts := 1, numStmts + 1;
    }
    RefocusedMeans(ran);
  }

  // ---------------------------------------------------------------- the search graph

  /** The tactics from the root to the node. */
  ghost function PathTo(node: Node): seq<string> {
    if node.previous.None? then [] else PathTo(node.previous.value) + [node.prediction]
  }

  ghost predicate Rooted(node: Node, start: Node) {
    if node.previous.None? then node == start else Rooted(node.previous.value, start)
  }

  lemma ChildNode(node: Node, parent: Node, start: Node)
    requires node.previous == Some(parent) && Rooted(parent, start)
    ensures Rooted(node, start) && PathTo(node) == PathTo(parent) + [node.prediction]
  {
  }

  class SearchGraph {
    const start: Node
    var nextId: nat

    constructor (lemmaName: string)
      ensures start == Node(0, lemmaName, [[]], None) && nextId == 1
    {
      start, nextId := Node(0, lemmaName, [[]], None), 1;
    }

    method MkNode(prediction: string, context: Levels, previous: Option<Node>) returns (node: Node)
      modifies this
      ensures node == Node(old(nextId), prediction, context, previous) && nextId == old(nextId) + 1
    {
      node := Node(nextId, prediction, context, previous);
      nextId := nextId + 1;
    }

    /** Reads a solution off the graph, from the last tactic back to the start node. */
    method MkQED(last: Node) returns (tactics: seq<string>)
      requires start.previous.None? && Rooted(last, start)
      modifies this
      ensures tactics == PathTo(last)
    {
      var _ := MkNode("QED", [[]], Some(last));
      var node := last;
      var path: seq<Node> := [];
      while node != start
        invariant Rooted(node, start)
        invariant PathTo(last) == PathTo(node) + Reversed(path)
        decreases node
      {
        assert Reversed(path + [node]) == [node.prediction] + Reversed(path);
        path := path + [node];
        node := node.previous.value;
      }
      tactics := Reversed(path);
    }
  }

  function Reversed(path: seq<Node>): seq<string> { seq(|path|, i requires 0 <= i < |path| => path[|path| - 1 - i].prediction) }

  // ---------------------------------------------------------------- the search

  ghost function Sum(s: seq<nat>): nat { if s == [] then 0 else Sum(s[..|s| - 1]) + s[|s| - 1] }

  function Branching(args: Arguments): nat {
    if args.searchWidth < 0 then 0 else if args.searchWidth < args.maxAttempts then args.searchWidth else args.maxAttempts
  }

  /** How many levels of calls can still come below a path of this length. */
  function Remaining(args: Arguments, length: nat): nat {
    if length < args.hardDepthLimit then args.hardDepthLimit - length + 1 else 1
  }

  /** The nodes of a full tree of the given depth. */
  function NodesInTree(branching: int, depth: nat): (nodes: int)
    ensures branching >= 0 ==> nodes >= 0
  {
    if depth == 0 then 0 else 1 + branching * NodesInTree(branching, depth - 1)
  }

  function Power(b: int, e: nat): int { if e == 0 then 1 else b * Power(b, e - 1) }

  lemma {:induction false} GeometricSum(branching: int, depth: nat)
    ensures (branching - 1) * NodesInTree(branching, depth) == Power(branching, depth) - 1
  {
    if depth > 0 {
      GeometricSum(branching, depth - 1);
      Distribute(branching, NodesInTree(branching, depth - 1), Power(branching, depth - 1));
    }
  }

  lemma Distribute(b: int, n: int, p: int)
    requires (b - 1) * n == p - 1
    ensures (b - 1) * (1 + b * n) == b * p - 1
  {
    assert (b - 1) * (1 + b * n) == (b - 1) + b * ((b - 1) * n);
  }

  /** The size of a full search tree; `None` where an assertion or the division fails. */
  function NumNodesInTree(branching: int, depth: int): (r: Option<int>)
    ensures r.None? <==> depth <= 0 || branching == 1 || NodesInTree(branching, depth) < 1
    ensures r.Some? ==> r.value == NodesInTree(branching, depth)
  {
    if depth <= 0 || branching == 1 then None
    else
      GeometricSum(branching, depth);
      DivisionExact(NodesInTree(branching, depth), branching - 1);
      var nodes := (Power(branching, depth) - 1) / (branching - 1);
      if nodes < 1 then None else Some(nodes)
  }

  /** More branches, more nodes. */
  lemma {:induction false} MoreBranches(few: nat, many: nat, depth: nat)
    requires few <= many
    ensures NodesInTree(few, depth) <= NodesInTree(many, depth)
  {
    if depth > 0 {
      var a, b := NodesInTree(few, depth - 1), NodesInTree(many, depth - 1);
      MoreBranches(few, many, depth - 1);
      assert few * a <= few * b && few * b <= many * b;
    }
  }

  lemma NodesBelow(branching: nat, depth: nat)
    requires depth > 0
    ensures NodesInTree(branching, depth) >= 0
    ensures NodesInTree(branching, depth) == 1 + Times(branching, NodesInTree(branching, depth - 1))
  {
  }

  ghost function Times(a: nat, b: nat): nat { a * b }

  lemma FewerCalls(a: nat, b: nat, c: nat)
    requires a <= b
    ensures Times(a, c) <= Times(b, c) && Times(a + 1, c) == Times(a, c) + c
  {
  }

  lemma DivisionExact(q: int, d: int)
    requires d != 0
    ensures d * q / d == q
  {
    var r := d * q / d;
    assert d * (q - r) == d * q % d;
    if q != r {
      MultipleIsFar(d, q - r);
    }
  }

  lemma MultipleIsFar(d: int, k: int)
    requires d != 0 && k != 0
    ensures d * k < 0 || (d * k >= d && d * k >= -d)
  {
    if d > 0 && k > 0 {
      assert d * k >= d;
    } else if d < 0 && k < 0 {
      assert d * k >= -d;
    }
  }

  /** What a search reports is a real run of the branch it took: the solved subgoals are the levels left below
      the entry depth at the lowest point, and a solution lists the tactics of the path and of the branch. */
  ghost predicate Reports(step: Step<string>, result: SubSearchResult, entry: Levels, prefix: seq<string>, branch: seq<Try>)
  {
    var end := ExecAll(step, entry, Steps(branch));
    && end.Some?
    && result.solvedSubgoals == |entry| - 1 - LowestDepth(step, entry, Steps(branch))
    && (result.solution.Some? ==> end == Some([[]]) && result.solution.value == prefix + Predictions(branch))
  }

  /** All of a failed search is undone; a parent of a solution cancels as many statements as it ran itself,
      so that as many statements of the solution stay as its last tactic needed. */
  ghost predicate Undone(failed: bool, before: Script, after: Script, branch: seq<Try>) {
    if failed then after == before
    else
      && branch != []
      && |Written(branch[|branch| - 1])| <= |Steps(branch)|
      && after == before + Steps(branch)[..|Written(branch[|branch| - 1])|]
  }

  lemma NothingReported(step: Step<string>, entry: Levels, prefix: seq<string>, before: Script)
    ensures Reports(step, SubSearchResult(None, 0), entry, prefix, [])
    ensures forall branch :: Undone(true, before, before, branch)
  {
  }

  lemma StepsFrom(try: Try, branch: seq<Try>)
    ensures Steps([try] + branch) == Written(try) + Steps(branch)
    ensures Predictions([try] + branch) == [try.prediction] + Predictions(branch)
  {
    assert ([try] + branch)[1..] == branch;
  }

  lemma StepsOf(try: Try)
    ensures Steps([try]) == Written(try) && Predictions([try]) == [try.prediction]
  {
    StepsFrom(try, []);
    assert [try] + [] == [try];
  }

  /** The report of one tactic that is not searched further. */
  lemma OneReported(step: Step<string>, solution: Option<seq<string>>, entry: Levels, prefix: seq<string>, try: Try)
    requires var end := ExecAll(step, entry, Written(try)); end.Some? && (solution.Some? ==> end == Some([[]]))
    requires LowestDepth(step, entry, Written(try)) == |entry| - 1 - try.closed
    requires solution.Some? ==> solution.value == prefix + [try.prediction]
    ensures Reports(step, SubSearchResult(solution, try.closed), entry, prefix, [try])
  {
    StepsOf(try);
  }

  /** The report of a tactic and of the search below it. */
  lemma BranchReported(step: Step<string>, sub: SubSearchResult, entry: Levels, prefix: seq<string>, try: Try, branch: seq<Try>)
    requires ExecAll(step, entry, Written(try)).Some?
    requires Reports(step, sub, ExecAll(step, entry, Written(try)).value, prefix + [try.prediction], branch)
    requires LowestDepth(step, entry, Written(try)) == |entry| - 1 - try.closed
    requires |ExecAll(step, entry, Written(try)).value| == |entry| - try.closed + try.opens
    requires sub.solution.Some? || sub.solvedSubgoals > try.opens
    ensures Reports(step, SubSearchResult(sub.solution, try.closed + sub.solvedSubgoals - try.opens), entry, prefix, [try] + branch)
  {
    hide LowestDepth;
    var middle := ExecAll(step, entry, Written(try)).value;
    StepsFrom(try, branch);
    ExecConcat(step, entry, Written(try), Steps(branch));
    LowestConcat(step, entry, Written(try), Steps(branch));
    LowestBelowEntry(step, middle, Steps(branch));
    assert prefix + [try.prediction] + Predictions(branch) == prefix + ([try.prediction] + Predictions(branch));
  }

  /** The tactic and its braces took the proof from `entry` to `levels`, and the history from `before` to `stmts`. */
  ghost predicate Ran(step: Step<string>, entry: Levels, before: Script, try: Try, stmts: Script, levels: Levels) {
    && stmts == before + Written(try)
    && ExecAll(step, entry, Written(try)) == Some(levels)
    && LowestDepth(step, entry, Written(try)) == |entry| - 1 - try.closed
    && |levels| == |entry| - try.closed + try.opens
  }

  lemma AllUndone(before: Script, after: Script, branch: seq<Try>)
    ensures Undone(true, before, after, branch) <==> after == before
  {
  }

  lemma OneLeft(before: Script, try: Try)
    ensures Undone(false, before, before + Written(try), [try])
  {
    StepsOf(try);
  }

  /** A solution found below a tactic, after as many statements as the tactic wrote are cancelled. */
  lemma BranchLeft(before: Script, try: Try, deep: Script, branch: seq<Try>)
    requires Undone(false, before + Written(try), deep, branch)
    ensures |Written(try)| <= |deep|
    ensures Undone(false, before, deep[..|deep| - |Written(try)|], [try] + branch)
  {
    hide Written, Steps;
    var last, all := Written(branch[|branch| - 1]), Steps(branch);
    StepsFrom(try, branch);
    assert ([try] + branch)[|[try] + branch| - 1] == branch[|branch| - 1];
    CancelBelow(before, Written(try), all, |last|);
  }

  /** Cancelling the top of a history takes as much from its end, whatever lies there. */
  lemma CancelBelow(before: Script, written: Script, all: Script, n: nat)
    requires n <= |all|
    ensures var deep := before + written + all[..n]; deep[..|deep| - |written|] == before + (written + all)[..n]
  {
  }

  // ---------------------------------------------------------------- what the search should find

  /** The distance stack once the innermost entry counts one more step. */
  function Bumped(distances: seq<nat>): seq<nat> {
    if distances == [] then [] else distances[..|distances| - 1] + [distances[|distances| - 1] + 1]
  }

  /** The sum of the last `n` entries. */
  function LastEntries(distances: seq<nat>, n: nat): nat
    requires n <= |distances|
    decreases n
  {
    if n == 0 then 0 else distances[|distances| - 1] + LastEntries(distances[..|distances| - 1], n - 1)
  }

  function Zeros(n: nat): seq<nat> { seq(n, _ => 0) }

  /** What a call of the search is given. */
  datatype Spot = Spot(levels: Levels, history: Script, tactics: seq<string>, contexts: seq<Levels>, distances: seq<nat>, extra: nat)

  /** What becomes of a prediction. */
  datatype Fate = Fails | Solves(closed: nat) | Repeats | TooBig | Cut(closed: nat) | Dives(closed: nat, opens: nat, child: Spot)

  ghost predicate SimilarToOne(oracle: Oracle, context: Levels, contexts: seq<Levels>) {
    exists i :: 0 <= i < |contexts| && oracle.similar(context, contexts[i])
  }

  ghost function FateOf(step: Step<string>, oracle: Oracle, args: Arguments, spot: Spot, prediction: string): Fate {
    var ran := Exec(step, spot.levels, Run(prediction));
    if ran.None? then Fails
    else
      var (closed, opens, next) := Refocused(ran.value);
      var contexts := spot.contexts + [spot.levels];
      if Completed(next) then Solves(closed)
      else if SimilarToOne(oracle, next, contexts) then Repeats
      else if oracle.big(next) then TooBig
      else
        var bumped := Bumped(spot.distances);
        var known := if closed <= |bumped| then closed else |bumped|;
        var extra := spot.extra + LastEntries(bumped, known);
        if |contexts| < args.searchDepth + extra && |contexts| < args.hardDepthLimit then
          Dives(closed, opens, Spot(next, spot.history + Written(Try(prediction, closed, opens)), spot.tactics + [prediction],
                                    contexts, bumped[..|bumped| - known] + Zeros(opens), extra))
        else Cut(closed)
  }

  /** A result, and whether some node was left unexplored because of the depth limits. */
  datatype Found = Found(result: SubSearchResult, unexplored: bool)

  /** The result of trying the predictions from number `i` on, after so many successful ones. */
  ghost function Explore(step: Step<string>, oracle: Oracle, args: Arguments, spot: Spot, i: nat, successful: int): Found
    decreases Remaining(args, |spot.contexts| + 1), 1, |oracle.predict(spot.history, spot.levels)| - i
  {
    var predictions := oracle.predict(spot.history, spot.levels);
    if i >= |predictions| || successful >= args.searchWidth then Found(SubSearchResult(None, 0), false)
    else
      match FateOf(step, oracle, args, spot, predictions[i])
      case Fails => Explore(step, oracle, args, spot, i + 1, if args.countFailing then successful + 1 else successful)
      case Solves(closed) => Found(SubSearchResult(Some(spot.tactics + [predictions[i]]), closed), false)
      case Repeats => Explore(step, oracle, args, spot, i + 1, if args.countSoftfail then successful + 1 else successful)
      case TooBig => Explore(step, oracle, args, spot, i + 1, successful + 1)
      case Cut(closed) =>
        if closed > 0 then Found(SubSearchResult(None, closed), true)
        else Found(Explore(step, oracle, args, spot, i + 1, successful + 1).result, true)
      case Dives(closed, opens, child) =>
        var sub := Explore(step, oracle, args, child, 0, 0);
        if sub.result.solution.Some? || sub.result.solvedSubgoals > opens
        then sub.(result := SubSearchResult(sub.result.solution, closed + sub.result.solvedSubgoals - opens))
        else if closed > 0 then sub.(result := SubSearchResult(None, closed))
        else
          var rest := Explore(step, oracle, args, spot, i + 1, successful + 1);
          rest.(unexplored := sub.unexplored || rest.unexplored)
  }

  ghost function Or(u: bool, found: Found): Found { found.(unexplored := u || found.unexplored) }

  /** What the result of the search below a tactic means for the one that ran it. */
  function PassedUp(sub: SubSearchResult, closed: nat, opens: nat): Option<SubSearchResult> {
    if sub.solution.Some? || sub.solvedSubgoals > opens
    then Some(SubSearchResult(sub.solution, closed + sub.solvedSubgoals - opens))
    else if closed > 0 then Some(SubSearchResult(None, closed)) else None
  }

  /** What a prediction that ran means for the exploration: the result if it ends here, whether the prediction counts as
      a successful one, and whether a node was left unexplored. */
  ghost function Meaning(step: Step<string>, oracle: Oracle, args: Arguments, spot: Spot, prediction: string)
    : (Option<SubSearchResult>, bool, bool)
  {
    match FateOf(step, oracle, args, spot, prediction)
    case Fails => (None, args.countFailing, false)
    case Solves(closed) => (Some(SubSearchResult(Some(spot.tactics + [prediction]), closed)), true, false)
    case Repeats => (None, args.countSoftfail, false)
    case TooBig => (None, true, false)
    case Cut(closed) => (if closed > 0 then Some(SubSearchResult(None, closed)) else None, true, true)
    case Dives(closed, opens, child) =>
      var sub := Explore(step, oracle, args, child, 0, 0);
      (PassedUp(sub.result, closed, opens), true, sub.unexplored)
  }

  /** One step of the exploration. */
  lemma ExploreStep(step: Step<string>, oracle: Oracle, args: Arguments, spot: Spot, i: nat, successful: int)
    ensures var predictions := oracle.predict(spot.history, spot.levels);
      Explore(step, oracle, args, spot, i, successful)
      == if i >= |predictions| || successful >= args.searchWidth then Found(SubSearchResult(None, 0), false)
         else
           var (ended, counts, unexplored) := Meaning(step, oracle, args, spot, predictions[i]);
           if ended.Some? then Found(ended.value, unexplored)
           else Or(unexplored, Explore(step, oracle, args, spot, i + 1, if counts then successful + 1 else successful))
  {
    hide FateOf;
  }

  /** The fate of a prediction that ran, from what the search computes. */
  lemma FateKnown(step: Step<string>, oracle: Oracle, args: Arguments, spot: Spot, try: Try, next: Levels)
    requires var ran := Exec(step, spot.levels, Run(try.prediction)); ran.Some? && Refocused(ran.value) == (try.closed, try.opens, next)
    requires try.closed <= |spot.distances|
    ensures var contexts, fate := spot.contexts + [spot.levels], FateOf(step, oracle, args, spot, try.prediction);
      var bumped := Bumped(spot.distances);
      var extra := spot.extra + LastEntries(bumped, try.closed);
      fate == if Completed(next) then Solves(try.closed)
              else if SimilarToOne(oracle, next, contexts) then Repeats
              else if oracle.big(next) then TooBig
              else if |contexts| < args.searchDepth + extra && |contexts| < args.hardDepthLimit then
                Dives(try.closed, try.opens, Spot(next, spot.history + Written(try), spot.tactics + [try.prediction], contexts,
                                                  bumped[..|bumped| - try.closed] + Zeros(try.opens), extra))
              else Cut(try.closed)
  {
  }

  // ---------------------------------------------------------------- what a prediction runs

  /** Some finished levels were left, one brace after the other. */
  lemma {:induction false} Unwinds(step: Step<string>, entry: Levels, prediction: string, closed: nat, levels: Levels)
    requires var script := Written(Try(prediction, closed, 0));
      && ExecAll(step, entry, script) == Some(levels)
      && |levels| == |entry| - closed && LowestDepth(step, entry, script) == |entry| - 1 - closed
    ensures |Unwind(levels)| <= |levels|
    ensures var all := closed + (|levels| - |Unwind(levels)|);
      var script := Written(Try(prediction, all, 0));
      && ExecAll(step, entry, script) == Some(Unwind(levels))
      && |Unwind(levels)| == |entry| - all && LowestDepth(step, entry, script) == |entry| - 1 - all
    decreases |levels|
  {
    hide ExecAll, LowestDepth, Written;
    UnwindLeaves(levels);
    if Top(levels) == [] && |levels| > 1 {
      var script := Written(Try(prediction, closed, 0));
      ExecNext(step, entry, script, Close);
      LowestNext(step, entry, script, Close);
      WrittenFrom(prediction, closed);
      Unwinds(step, entry, prediction, closed + 1, Below(levels));
    }
  }

  lemma OneRun(step: Step<string>, entry: Levels, prediction: string)
    requires Exec(step, entry, Run(prediction)).Some?
    ensures var (ran, script) := (Exec(step, entry, Run(prediction)).value, Written(Try(prediction, 0, 0)));
      && |ran| == |entry| && ExecAll(step, entry, script) == Some(ran) && LowestDepth(step, entry, script) == |entry| - 1
  {
    hide ExecAll, LowestDepth, Written;
    NoSteps(step, entry);
    ExecNext(step, entry, [], Run(prediction));
    LowestNext(step, entry, [], Run(prediction));
    WrittenFrom(prediction, 0);
    assert [] + [Run(prediction)] == [Run(prediction)];
  }

  lemma OneOpen(step: Step<string>, entry: Levels, prediction: string, closed: nat, levels: Levels)
    requires var script := Written(Try(prediction, closed, 0));
      && ExecAll(step, entry, script) == Some(levels) && closed <= |entry| - 1
      && |levels| == |entry| - closed && LowestDepth(step, entry, script) == |entry| - 1 - closed
    requires Top(levels) != []
    ensures var (script, next) := (Written(Try(prediction, closed, 1)), Below(levels) + [Top(levels)[1..], [Top(levels)[0]]]);
      && ExecAll(step, entry, script) == Some(next) && LowestDepth(step, entry, script) == |entry| - 1 - closed
  {
    hide ExecAll, LowestDepth, Written;
    var script := Written(Try(prediction, closed, 0));
    ExecNext(step, entry, script, Open);
    LowestNext(step, entry, script, Open);
    WrittenFrom(prediction, closed);
  }

  /** A prediction that runs, with the braces written after it. */
  lemma RefocusedRuns(step: Step<string>, entry: Levels, prediction: string)
    requires Exec(step, entry, Run(prediction)).Some?
    ensures var (closed, opens, next) := Refocused(Exec(step, entry, Run(prediction)).value);
      var script := Written(Try(prediction, closed, opens));
      && closed <= |entry| - 1 && |next| == |entry| - closed + opens
      && ExecAll(step, entry, script) == Some(next) && LowestDepth(step, entry, script) == |entry| - 1 - closed
  {
    hide ExecAll, LowestDepth, Written, Unwind, Exec, Refocused, Top, Below;
    OneRun(step, entry, prediction);
    var ran := Exec(step, entry, Run(prediction)).value;
    Unwinds(step, entry, prediction, 0, ran);
    RefocusedCases(ran);
    if Refocused(ran).1 == 1 { OneOpen(step, entry, prediction, |ran| - |Unwind(ran)|, Unwind(ran)); }
  }

  lemma RefocusedCases(ran: Levels)
    requires |Unwind(ran)| <= |ran|
    ensures var (left, (closed, opens, next)) := (Unwind(ran), Refocused(ran));
      && closed == |ran| - |left| && (opens == 0 || opens == 1)
      && (opens == 0 ==> next == left)
      && (opens == 1 ==> Top(left) != [] && next == Below(left) + [Top(left)[1..], [Top(left)[0]]] && |next| == |left| + 1)
  {
    hide Unwind;
  }

  /** The result of the exploration is that of a real run. */
  lemma {:induction false} ExploreReports(step: Step<string>, oracle: Oracle, args: Arguments, spot: Spot, i: nat, successful: int)
    returns (branch: seq<Try>)
    ensures Reports(step, Explore(step, oracle, args, spot, i, successful).result, spot.levels, spot.tactics, branch)
    ensures var predictions := oracle.predict(spot.history, spot.levels);
      branch != [] ==> exists k :: i <= k < |predictions| && branch[0].prediction == predictions[k]
    decreases Remaining(args, |spot.contexts| + 1), 1, |oracle.predict(spot.history, spot.levels)| - i
  {
    hide Reports, Explore, Meaning, FateOf;
    var predictions := oracle.predict(spot.history, spot.levels);
    branch := [];
    ExploreStep(step, oracle, args, spot, i, successful);
    NothingReported(step, spot.levels, spot.tactics, []);
    if i < |predictions| && successful < args.searchWidth {
      var (ended, counts, unexplored) := Meaning(step, oracle, args, spot, predictions[i]);
      if ended.Some? {
        branch := EndReports(step, oracle, args, spot, predictions[i]);
      } else {
        branch := ExploreReports(step, oracle, args, spot, i + 1, if counts then successful + 1 else successful);
      }
    }
  }

  lemma {:induction false} EndReports(step: Step<string>, oracle: Oracle, args: Arguments, spot: Spot, prediction: string)
    returns (branch: seq<Try>)
    requires Meaning(step, oracle, args, spot, prediction).0.Some?
    ensures Reports(step, Meaning(step, oracle, args, spot, prediction).0.value, spot.levels, spot.tactics, branch)
    ensures branch != [] && branch[0].prediction == prediction
    decreases Remaining(args, |spot.contexts| + 1), 0, 0
  {
    hide Reports, Explore, ExecAll, LowestDepth, Unwind, Written, SimilarToOne;
    RefocusedRuns(step, spot.levels, prediction);
    var (closed, opens, next) := Refocused(Exec(step, spot.levels, Run(prediction)).value);
    var try := Try(prediction, closed, opens);
    branch := [try];
    match FateOf(step, oracle, args, spot, prediction)
    case Solves(_) => OneReported(step, Some(spot.tactics + [prediction]), spot.levels, spot.tactics, try);
    case Cut(_) => OneReported(step, None, spot.levels, spot.tactics, try);
    case Dives(_, _, child) =>
      var deeper := ExploreReports(step, oracle, args, child, 0, 0);
      var sub := Explore(step, oracle, args, child, 0, 0).result;
      if sub.solution.Some? || sub.solvedSubgoals > opens {
        BranchReported(step, sub, spot.levels, spot.tactics, try, deeper);
        branch := [try] + deeper;
      } else {
        OneReported(step, None, spot.levels, spot.tactics, try);
      }
  }

  // ---------------------------------------------------------------- what the search does not miss

  /** The prediction completes the proof. */
  ghost predicate Finishes(step: Step<string>, spot: Spot, prediction: string) {
    var ran := Exec(step, spot.levels, Run(prediction));
    ran.Some? && Completed(Refocused(ran.value).2)
  }

  /** The node behind a prediction that runs. */
  ghost function Next(step: Step<string>, spot: Spot, prediction: string): Spot
    requires Exec(step, spot.levels, Run(prediction)).Some?
  {
    var (closed, opens, next) := Refocused(Exec(step, spot.levels, Run(prediction)).value);
    var bumped := Bumped(spot.distances);
    var known := if closed <= |bumped| then closed else |bumped|;
    Spot(next, spot.history + Written(Try(prediction, closed, opens)), spot.tactics + [prediction], spot.contexts + [spot.levels],
         bumped[..|bumped| - known] + Zeros(opens), spot.extra + LastEntries(bumped, known))
  }

  /** The prediction leads to an unfinished proof in a new context that is not too big, and within the limits on the depth
      if those are observed. */
  ghost predicate Follows(step: Step<string>, oracle: Oracle, args: Arguments, limited: bool, spot: Spot, prediction: string) {
    && Exec(step, spot.levels, Run(prediction)).Some?
    && var child := Next(step, spot, prediction);
       && !Completed(child.levels) && !oracle.big(child.levels)
       && (forall i :: 0 <= i < |child.contexts| ==> !oracle.similar(child.levels, child.contexts[i]))
       && (limited ==> |child.contexts| < args.searchDepth + child.extra && |child.contexts| < args.hardDepthLimit)
  }

  /** Taking the predictions with these numbers, each within the search width of its node, completes the proof. */
  ghost predicate Completes(step: Step<string>, oracle: Oracle, args: Arguments, limited: bool, spot: Spot, choices: seq<nat>)
    decreases |choices|
  {
    && choices != []
    && var (predictions, n) := (oracle.predict(spot.history, spot.levels), choices[0]);
       && n < |predictions| && n < args.searchWidth
       && if |choices| == 1 then Finishes(step, spot, predictions[n])
          else Follows(step, oracle, args, limited, spot, predictions[n])
               && Completes(step, oracle, args, limited, Next(step, spot, predictions[n]), choices[1..])
  }

  /** Tactics that begin with the prediction close the goal in focus, and leave its level. */
  ghost predicate Closing(step: Step<string>, levels: Levels, prediction: string) {
    exists branch :: Closes(step, levels, prediction, branch)
  }

  ghost predicate Closes(step: Step<string>, levels: Levels, prediction: string, branch: seq<Try>) {
    && branch != [] && branch[0].prediction == prediction && ExecAll(step, levels, Steps(branch)).Some?
    && LowestDepth(step, levels, Steps(branch)) < |levels| - 1
  }

  /** Somewhere on the way an earlier prediction closes the goal in focus in another way. */
  ghost predicate Pruned(step: Step<string>, oracle: Oracle, spot: Spot, choices: seq<nat>)
    decreases |choices|
  {
    && choices != []
    && var (predictions, n) := (oracle.predict(spot.history, spot.levels), choices[0]);
       || (exists j :: 0 <= j < n && j < |predictions| && Closing(step, spot.levels, predictions[j]))
       || (|choices| > 1 && n < |predictions| && Exec(step, spot.levels, Run(predictions[n])).Some?
           && Pruned(step, oracle, Next(step, spot, predictions[n]), choices[1..]))
  }

  /** Found, pruned, or beyond the limits on the depth, which is then on record. */
  ghost predicate Accounted(step: Step<string>, oracle: Oracle, limited: bool, spot: Spot, choices: seq<nat>, found: Found) {
    found.result.solution.Some? || Pruned(step, oracle, spot, choices) || (!limited && found.unexplored)
  }

  lemma EndedCloses(step: Step<string>, oracle: Oracle, args: Arguments, spot: Spot, prediction: string)
    requires var ended := Meaning(step, oracle, args, spot, prediction).0; ended.Some? && ended.value.solution.None?
    ensures Closing(step, spot.levels, prediction)
  {
    var branch := EndReports(step, oracle, args, spot, prediction);
    EndedSolves(step, oracle, args, spot, prediction);
    hide Meaning, ExecAll, LowestDepth, Steps;
    assert Closes(step, spot.levels, prediction, branch);
  }

  lemma EndedSolves(step: Step<string>, oracle: Oracle, args: Arguments, spot: Spot, prediction: string)
    requires var ended := Meaning(step, oracle, args, spot, prediction).0; ended.Some? && ended.value.solution.None?
    ensures Meaning(step, oracle, args, spot, prediction).0.value.solvedSubgoals > 0
  {
    hide FateOf, Explore;
  }

  /** The prediction of the sequence leads on, or completes the proof. */
  lemma ChosenFate(step: Step<string>, oracle: Oracle, args: Arguments, limited: bool, spot: Spot, prediction: string)
    ensures Finishes(step, spot, prediction) ==> FateOf(step, oracle, args, spot, prediction).Solves?
    ensures Follows(step, oracle, args, limited, spot, prediction) ==>
      var fate := FateOf(step, oracle, args, spot, prediction);
      if fate.Dives? then fate.child == Next(step, spot, prediction) else fate.Cut? && !limited
  {
    hide Refocused, Written, Bumped, LastEntries, Zeros, Exec;
  }

  /** A sequence of predictions that completes the proof is found, unless a goal on the way was closed in another way first. */
  lemma {:induction false} SearchIsComplete(step: Step<string>, oracle: Oracle, args: Arguments, limited: bool, spot: Spot, choices: seq<nat>)
    requires Completes(step, oracle, args, limited, spot, choices)
    ensures Accounted(step, oracle, limited, spot, choices, Explore(step, oracle, args, spot, 0, 0))
    decreases |choices|, 2, 0
  {
    CompleteFrom(step, oracle, args, limited, spot, choices, 0, 0);
  }

  lemma {:induction false} CompleteFrom(step: Step<string>, oracle: Oracle, args: Arguments, limited: bool, spot: Spot, choices: seq<nat>,
                                        i: nat, successful: int)
    requires Completes(step, oracle, args, limited, spot, choices) && i <= choices[0] && successful <= i
    ensures Accounted(step, oracle, limited, spot, choices, Explore(step, oracle, args, spot, i, successful))
    decreases |choices|, 1, choices[0] - i
  {
    hide Explore, Meaning, Completes, Pruned, Closing;
    ChosenInRange(step, oracle, args, limited, spot, choices);
    var predictions := oracle.predict(spot.history, spot.levels);
    var (ended, counts, unexplored) := Meaning(step, oracle, args, spot, predictions[i]);
    ExploreStep(step, oracle, args, spot, i, successful);
    if i == choices[0] {
      ChosenEnds(step, oracle, args, limited, spot, choices);
    } else if ended.None? {
      CompleteFrom(step, oracle, args, limited, spot, choices, i + 1, if counts then successful + 1 else successful);
    } else if ended.value.solution.None? {
      EndedCloses(step, oracle, args, spot, predictions[i]);
      PrunedHere(step, oracle, spot, choices, i);
    }
  }

  lemma ChosenInRange(step: Step<string>, oracle: Oracle, args: Arguments, limited: bool, spot: Spot, choices: seq<nat>)
    requires Completes(step, oracle, args, limited, spot, choices)
    ensures choices != [] && choices[0] < |oracle.predict(spot.history, spot.levels)| && choices[0] < args.searchWidth
    ensures var prediction := oracle.predict(spot.history, spot.levels)[choices[0]];
      if |choices| == 1 then Finishes(step, spot, prediction)
      else Follows(step, oracle, args, limited, spot, prediction) && Exec(step, spot.levels, Run(prediction)).Some?
           && Completes(step, oracle, args, limited, Next(step, spot, prediction), choices[1..])
  {
    hide Finishes, Next;
  }

  lemma PrunedHere(step: Step<string>, oracle: Oracle, spot: Spot, choices: seq<nat>, j: nat)
    requires choices != [] && j < choices[0] && j < |oracle.predict(spot.history, spot.levels)|
    requires Closing(step, spot.levels, oracle.predict(spot.history, spot.levels)[j])
    ensures Pruned(step, oracle, spot, choices)
  {
    hide Closing;
  }

  lemma PrunedLater(step: Step<string>, oracle: Oracle, spot: Spot, choices: seq<nat>)
    requires |choices| > 1 && choices[0] < |oracle.predict(spot.history, spot.levels)|
    requires var prediction := oracle.predict(spot.history, spot.levels)[choices[0]];
      Exec(step, spot.levels, Run(prediction)).Some? && Pruned(step, oracle, Next(step, spot, prediction), choices[1..])
    ensures Pruned(step, oracle, spot, choices)
  {
    hide Closing, Next;
  }

  lemma {:induction false} ChosenEnds(step: Step<string>, oracle: Oracle, args: Arguments, limited: bool, spot: Spot, choices: seq<nat>)
    requires Completes(step, oracle, args, limited, spot, choices)
    ensures choices != [] && choices[0] < |oracle.predict(spot.history, spot.levels)|
    ensures var (ended, counts, unexplored) :=
        Meaning(step, oracle, args, spot, oracle.predict(spot.history, spot.levels)[choices[0]]);
      || (ended.Some? && ended.value.solution.Some?) || Pruned(step, oracle, spot, choices) || (!limited && unexplored)
    decreases |choices|, 0, 0
  {
    hide FateOf, Follows, Finishes, Explore, Closing, Completes, Pruned, Exec, Next;
    ChosenInRange(step, oracle, args, limited, spot, choices);
    var prediction := oracle.predict(spot.history, spot.levels)[choices[0]];
    ChosenFate(step, oracle, args, limited, spot, prediction);
    if |choices| > 1 {
      var child := Next(step, spot, prediction);
      SearchIsComplete(step, oracle, args, limited, child, choices[1..]);
      if Pruned(step, oracle, child, choices[1..]) { PrunedLater(step, oracle, spot, choices); }
    }
  }

  /** No state on the way has more than one goal. */
  ghost predicate OneGoal(step: Step<string>, oracle: Oracle, spot: Spot, choices: seq<nat>)
    decreases |choices|
  {
    && |Flat(spot.levels)| <= 1
    && (|choices| > 1 ==>
          var (predictions, n) := (oracle.predict(spot.history, spot.levels), choices[0]);
          n < |predictions| && Exec(step, spot.levels, Run(predictions[n])).Some? ==>
            OneGoal(step, oracle, Next(step, spot, predictions[n]), choices[1..]))
  }

  /** Where no state has more than one goal nothing is pruned. */
  lemma {:induction false} NothingPruned(step: Step<string>, oracle: Oracle, spot: Spot, choices: seq<nat>)
    requires OneGoal(step, oracle, spot, choices) && |spot.levels| == 1
    ensures !Pruned(step, oracle, spot, choices)
    decreases |choices|
  {
    var predictions := oracle.predict(spot.history, spot.levels);
    hide LowestDepth, Closing;
    forall prediction ensures !Closing(step, spot.levels, prediction) {
      OneLevel(step, spot.levels, prediction);
    }
    if |choices| > 1 && choices[0] < |predictions| && Exec(step, spot.levels, Run(predictions[choices[0]])).Some? {
      var child := Next(step, spot, predictions[choices[0]]);
      StaysOneLevel(step, spot.levels, predictions[choices[0]]);
      NothingPruned(step, oracle, child, choices[1..]);
    }
  }

  /** The node that a search starts from. */
  ghost function Root(levels: Levels, history: Script): Spot { Spot(levels, history, [], [], [], 0) }

  /** What the search of a lemma cannot miss. */
  lemma SearchMisses(step: Step<string>, oracle: Oracle, args: Arguments, root: Spot)
    requires |root.levels| == 1
    ensures var found := Explore(step, oracle, args, root, 0, 0);
      && (forall choices :: Completes(step, oracle, args, true, root, choices) ==>
            found.result.solution.Some? || Pruned(step, oracle, root, choices))
      && (forall choices :: Completes(step, oracle, args, true, root, choices) && OneGoal(step, oracle, root, choices) ==>
            found.result.solution.Some?)
      && (forall choices :: Completes(step, oracle, args, false, root, choices) ==>
            found.result.solution.Some? || found.unexplored || Pruned(step, oracle, root, choices))
  {
    hide Explore, Completes, Pruned, OneGoal;
    forall choices | Completes(step, oracle, args, true, root, choices)
      ensures Explore(step, oracle, args, root, 0, 0).result.solution.Some? || Pruned(step, oracle, root, choices)
      ensures OneGoal(step, oracle, root, choices) ==> Explore(step, oracle, args, root, 0, 0).result.solution.Some?
    {
      SearchIsComplete(step, oracle, args, true, root, choices);
      if OneGoal(step, oracle, root, choices) { NothingPruned(step, oracle, root, choices); }
    }
    forall choices | Completes(step, oracle, args, false, root, choices)
      ensures Accounted(step, oracle, false, root, choices, Explore(step, oracle, args, root, 0, 0))
    {
      SearchIsComplete(step, oracle, args, false, root, choices);
    }
  }

  // Pruning can lose a proof: `bad` and `good` both close goal `A`, but only behind `good` the predictor knows what to do.

  function Makes(tactic: string, goal: Goal): Option<seq<Goal>> {
    if tactic == "split" && goal == "G" then Some(["A", "B"])
    else if (tactic == "bad" || tactic == "good") && goal == "A" then Some([])
    else if tactic == "end" && goal == "B" then Some([])
    else None
  }

  function Guesses(history: Script, levels: Levels): seq<string> {
    if Top(levels) == ["G"] then ["split", "fail"]
    else if Top(levels) == ["A"] then ["bad", "good"]
    else if Run("bad") in history then ["fail", "fail"]
    else ["end", "end"]
  }

  function Adviser(): Oracle { Oracle(Guesses, (a, b) => false, levels => false) }

  function Width(): Arguments { Arguments(2, 2, 10, 10, false, false, false) }

  ghost function Begin(): Spot { Root([["G"]], []) }

  ghost function Divided(): Spot {
    Spot([["B"], ["A"]], [Run("split"), Open], ["split"], [[["G"]]], [0], 0)
  }

  ghost function Second(tactic: string): Spot {
    Spot([[], ["B"]], [Run("split"), Open, Run(tactic), Close, Open], ["split", tactic], [[["G"]], [["B"], ["A"]]], [0], 1)
  }

  lemma Splits()
    ensures Exec(Makes, Begin().levels, Run("split")).Some? && Next(Makes, Begin(), "split") == Divided()
    ensures Refocused(Exec(Makes, Begin().levels, Run("split")).value) == (0, 1, [["B"], ["A"]])
    ensures Follows(Makes, Adviser(), Width(), true, Begin(), "split")
  {
    var ran: Levels := [["A", "B"]];
    assert ["A", "B"] + ["G"][1..] == ["A", "B"] && Below([["G"]]) == [];
    assert ["A", "B"][1..] == ["B"] && Below(ran) == [];
    UnwindSteps(ran);
    assert Written(Try("split", 0, 1)) == [Run("split"), Open];
    assert [] + Zeros(1) == [0];
  }

  lemma ClosesA(tactic: string)
    requires tactic == "bad" || tactic == "good"
    ensures Exec(Makes, [["B"], ["A"]], Run(tactic)) == Some([["B"], []]) && Refocused([["B"], []]) == (1, 1, [[], ["B"]])
  {
    var none: seq<Goal> := [];
    var ran: Levels := [["B"], []];
    assert none + ["A"][1..] == none && Below([["B"], ["A"]]) == [["B"]] && [["B"]] + [none] == ran;
    UnwindSteps(ran);
    UnwindSteps([["B"]]);
    assert Below(ran) == [["B"]] && Unwind(ran) == [["B"]];
    hide Unwind;
    var empty: seq<seq<Goal>> := [];
    assert ["B"][1..] == none && Below([["B"]]) == empty && empty + [none, ["B"]] == [none, ["B"]];
  }

  lemma BehindA(tactic: string)
    ensures Written(Try(tactic, 1, 1)) == [Run(tactic), Close, Open]
    ensures Bumped([0]) == [1] && LastEntries([1], 1) == 1 && [1][..0] + Zeros(1) == [0]
    ensures Divided().history + [Run(tactic), Close, Open] == Second(tactic).history
    ensures Divided().contexts + [Divided().levels] == Second(tactic).contexts
  {
  }

  lemma SolvesA(tactic: string)
    requires tactic == "bad" || tactic == "good"
    ensures Exec(Makes, Divided().levels, Run(tactic)).Some? && Next(Makes, Divided(), tactic) == Second(tactic)
    ensures Refocused(Exec(Makes, Divided().levels, Run(tactic)).value) == (1, 1, [[], ["B"]])
    ensures Follows(Makes, Adviser(), Width(), true, Divided(), tactic)
  {
    hide Exec, Refocused, Written, Bumped, LastEntries, Zeros;
    ClosesA(tactic);
    BehindA(tactic);
  }

  lemma EndsHere()
    ensures Finishes(Makes, Second("good"), "end")
  {
    var ran: Levels := [[], []];
    var none: seq<Goal> := [];
    assert none + ["B"][1..] == none && Below(Second("good").levels) == [none];
    UnwindSteps(ran);
    assert Below(ran) == [[]];
    UnwindSteps([[]]);
    assert Unwind(ran) == [[]];
  }

  lemma NoFailing(spot: Spot)
    ensures Meaning(Makes, Adviser(), Width(), spot, "fail") == (None, false, false)
  {
  }

  lemma DeadEnd()
    ensures Explore(Makes, Adviser(), Width(), Second("bad"), 0, 0) == Found(SubSearchResult(None, 0), false)
  {
    var spot := Second("bad");
    hide Explore, Meaning;
    assert spot.history[2] == Run("bad") && Guesses(spot.history, spot.levels) == ["fail", "fail"];
    NoFailing(spot);
    ExploreStep(Makes, Adviser(), Width(), spot, 0, 0);
    ExploreStep(Makes, Adviser(), Width(), spot, 1, 0);
    ExploreStep(Makes, Adviser(), Width(), spot, 2, 0);
  }

  lemma GivesUp()
    ensures Explore(Makes, Adviser(), Width(), Divided(), 0, 0) == Found(SubSearchResult(None, 1), false)
  {
    hide Explore, Exec, Refocused, Follows;
    DeadEnd();
    SolvesA("bad");
    ChosenFate(Makes, Adviser(), Width(), true, Divided(), "bad");
    DiveIs(Makes, Adviser(), Width(), Divided(), "bad");
    hide FateOf;
    ExploreStep(Makes, Adviser(), Width(), Divided(), 0, 0);
  }

  lemma DiveIs(step: Step<string>, oracle: Oracle, args: Arguments, spot: Spot, prediction: string)
    requires FateOf(step, oracle, args, spot, prediction).Dives?
    ensures Exec(step, spot.levels, Run(prediction)).Some?
    ensures var (fate, made) := (FateOf(step, oracle, args, spot, prediction), Refocused(Exec(step, spot.levels, Run(prediction)).value));
      fate.closed == made.0 && fate.opens == made.1
  {
    hide Refocused, Exec;
  }

  lemma FindsNothing()
    ensures Explore(Makes, Adviser(), Width(), Begin(), 0, 0) == Found(SubSearchResult(None, 0), false)
  {
    hide Explore, Exec, Refocused, Follows;
    GivesUp();
    Splits();
    ChosenFate(Makes, Adviser(), Width(), true, Begin(), "split");
    DiveIs(Makes, Adviser(), Width(), Begin(), "split");
    NoFailing(Begin());
    hide FateOf;
    ExploreStep(Makes, Adviser(), Width(), Begin(), 0, 0);
    ExploreStep(Makes, Adviser(), Width(), Begin(), 1, 1);
    ExploreStep(Makes, Adviser(), Width(), Begin(), 2, 1);
  }

  lemma WouldFind()
    ensures Completes(Makes, Adviser(), Width(), true, Begin(), [0, 1, 0])
  {
    hide Exec, Refocused, Follows, Next, Finishes;
    Splits();
    SolvesA("good");
    EndsHere();
    assert [0, 1, 0][1..] == [1, 0] && [1, 0][1..] == [0];
    assert Guesses(Second("good").history, Second("good").levels) == ["end", "end"];
    assert Completes(Makes, Adviser(), Width(), true, Second("good"), [0]);
    assert Completes(Makes, Adviser(), Width(), true, Divided(), [1, 0]);
  }

  /** Once a goal is closed the search does not come back to close it otherwise, so that it can miss a proof. */
  lemma PruningLoses() returns (step: Step<string>, oracle: Oracle, args: Arguments, choices: seq<nat>)
    ensures forall history, levels :: |oracle.predict(history, levels)| == args.maxAttempts
    ensures Completes(step, oracle, args, true, Root([["G"]], []), choices)
    ensures var found := Explore(step, oracle, args, Root([["G"]], []), 0, 0); found.result.solution.None? && !found.unexplored
  {
    hide Explore, Completes;
    step, oracle, args, choices := Makes, Adviser(), Width(), [0, 1, 0];
    FindsNothing();
    WouldFind();
  }

  lemma OneLevel(step: Step<string>, levels: Levels, prediction: string)
    requires |levels| == 1
    ensures !Closing(step, levels, prediction)
  {
    hide LowestDepth;
  }

  lemma StaysOneLevel(step: Step<string>, levels: Levels, prediction: string)
    requires |levels| == 1 && Exec(step, levels, Run(prediction)).Some?
    requires |Flat(Refocused(Exec(step, levels, Run(prediction)).value).2)| <= 1
    ensures |Refocused(Exec(step, levels, Run(prediction)).value).2| == 1
  {
    var ran := Exec(step, levels, Run(prediction)).value;
    UnwindSteps(ran);
    if Top(ran) != [] { FlatFocused(ran); }
    hide Flat, Unwind;
  }

  lemma FlatFocused(levels: Levels)
    requires Top(levels) != []
    ensures |Flat(Below(levels) + [Top(levels)[1..], [Top(levels)[0]]])| >= |Top(levels)|
  {
    var below, top := Below(levels), Top(levels);
    FlatPush(below + [top[1..]], [top[0]]);
    FlatPush(below, top[1..]);
    assert below + [top[1..], [top[0]]] == below + [top[1..]] + [[top[0]]];
  }

  function ContextsOf(path: seq<Node>): seq<Levels>
    requires path != []
  {
    seq(|path| - 1, i requires 0 <= i < |path| - 1 => path[i + 1].context)
  }

  lemma ContextsNext(path: seq<Node>, node: Node)
    requires path != []
    ensures ContextsOf(path + [node]) == ContextsOf(path) + [node.context]
    ensures |ContextsOf(path)| == |path| - 1
  {
  }

  class Searcher {
    const coq: Coq
    const graph: SearchGraph
    const args: Arguments
    const oracle: Oracle
    var hasUnexploredNode: bool

    constructor (coq: Coq, graph: SearchGraph, args: Arguments, oracle: Oracle)
      ensures this.coq == coq && this.graph == graph && this.args == args && this.oracle == oracle && !hasUnexploredNode
    {
      this.coq, this.graph, this.args, this.oracle, hasUnexploredNode := coq, graph, args, oracle, false;
    }

    /** The predictor gives as many predictions as it is asked for. */
    ghost predicate Obliging() { forall history, levels :: |oracle.predict(history, levels)| == args.maxAttempts }

    /** The distances of the levels left after a tactic that closed some, and the depth they give back. */
    method Credit(distances: seq<nat>, closed: nat, opens: nat, extra: nat) returns (newDistances: seq<nat>, newExtra: nat)
      requires closed <= |distances|
      ensures |Bumped(distances)| == |distances|
      ensures newDistances == Bumped(distances)[..|distances| - closed] + Zeros(opens)
      ensures |newDistances| == |distances| - closed + opens && newExtra >= extra
      ensures newExtra == extra + LastEntries(Bumped(distances), closed)
      ensures Sum(newDistances) + newExtra == Sum(distances) + extra + if distances == [] then 0 else 1
    {
      if distances != [] {
        newDistances := distances[..|distances| - 1] + [distances[|distances| - 1] + 1];
        assert newDistances[..|distances| - 1] == distances[..|distances| - 1];
      } else {
        newDistances := [];
      }
      newExtra := extra;
      ghost var bumped := newDistances;
      ghost var total := Sum(bumped) + newExtra;
      for i := 0 to closed
        invariant newDistances == bumped[..|bumped| - i]
        invariant newExtra + LastEntries(newDistances, closed - i) == extra + LastEntries(bumped, closed) && newExtra >= extra
        invariant Sum(newDistances) + newExtra == total
      {
        newExtra := newExtra + newDistances[|newDistances| - 1];
        newDistances := newDistances[..|newDistances| - 1];
      }
      ghost var kept := newDistances;
      for i := 0 to opens
        invariant newDistances == kept + Zeros(i) && Sum(newDistances) == Sum(kept)
      {
        assert (newDistances + [0])[..|newDistances|] == newDistances;
        assert Zeros(i + 1) == Zeros(i) + [0];
        newDistances := newDistances + [0];
      }
    }

    /** Whether the context is similar to one that a tactic on the path was tried in. */
    method ContextInPath(context: Levels, path: seq<Node>) returns (found: bool)
      requires path != []
      ensures found <==> SimilarToOne(oracle, context, ContextsOf(path))
    {
      found := false;
      for i := 1 to |path|
        invariant found <==> exists k :: 0 <= k < i - 1 && oracle.similar(context, ContextsOf(path)[k])
      {
        assert ContextsOf(path)[i - 1] == path[i].context;
        if oracle.similar(context, path[i].context) { found := true; }
      }
    }

    ghost function Here(path: seq<Node>, distances: seq<nat>, extra: nat): Spot
      reads coq
      requires coq.Valid() && path != []
    {
      Spot(coq.Current(), coq.stmts, PathTo(path[|path| - 1]), ContextsOf(path), distances, extra)
    }

    /** Searches below a tactic that ran, and cancels it. */
    method Descend(path: seq<Node>, node: Node, distances: seq<nat>, extra: nat, numStmts: nat,
                   try: Try,
                   ghost entry: Levels, ghost before: Script)
      returns (ended: Option<SubSearchResult>, ghost branch: seq<Try>, ghost calls: nat)
      requires coq.Valid() && graph.start.previous.None? && Obliging()
      requires path != [] && Rooted(node, graph.start) && PathTo(node) == PathTo(path[|path| - 1]) + [try.prediction]
      requires |distances| == |coq.Current()| - 1 && Sum(distances) + extra <= |path|
      requires |path| < args.searchDepth + extra && |path| < args.hardDepthLimit
      requires Ran(coq.step, entry, before, try, coq.stmts, coq.Current()) && numStmts == |Written(try)|
      modifies this, coq, graph
      ensures coq.Valid()
      ensures var found := Explore(coq.step, oracle, args, old(Here(path + [node], distances, extra)), 0, 0);
        && ended == PassedUp(found.result, try.closed, try.opens)
        && (hasUnexploredNode <==> old(hasUnexploredNode) || found.unexplored)
      ensures ended.Some? ==> Reports(coq.step, ended.value, entry, PathTo(path[|path| - 1]), branch)
      ensures ended.Some? ==> Undone(ended.value.solution.None?, before, coq.stmts, branch)
      ensures ended.Some? && ended.value.solution.Some? ==> ended.value.solution.value != []
      ensures ended.None? || ended.value.solution.None? ==>
        coq.stmts == before && coq.states == old(coq.states)[..|old(coq.states)| - numStmts]
      ensures calls <= NodesInTree(Branching(args), Remaining(args, |path| + 1))
      decreases Remaining(args, |path|), 0
    {
      hide Reports, Undone, ExecAll, LowestDepth, Steps, Predictions, NodesInTree, Written, Sum, Rooted, PathTo, Explore, ContextsOf;
      var sub;
      ghost var deeper;
      sub, deeper, calls := Search(path + [node], distances, extra);
      if sub.solution.Some? {
        BranchLeft(before, try, coq.stmts, deeper);
      } else {
        AllUndone(before + Written(try), coq.stmts, deeper);
        AllUndone(before, before, [try] + deeper);
        WhatRan(coq.step, entry, before, try, old(coq.stmts), old(coq.Current()));
      }
      coq.Cancel(numStmts);
      if (sub.solution.Some? && sub.solution.value != []) || sub.solvedSubgoals > try.opens {
        BranchReported(coq.step, sub, entry, PathTo(path[|path| - 1]), try, deeper);
        return Some(SubSearchResult(sub.solution, try.closed + sub.solvedSubgoals - try.opens)), [try] + deeper, calls;
      }
      if try.closed > 0 {
        OneReported(coq.step, None, entry, PathTo(path[|path| - 1]), try);
        AllUndone(before, coq.stmts, [try]);
        return Some(SubSearchResult(None, try.closed)), [try], calls;
      }
      return None, [], calls;
    }

    /** Goes on after a tactic that ran: with a solution, with the search below it, or without, and then cancels it. */
    method Attempt(path: seq<Node>, distances: seq<nat>, extra: nat, numStmts: nat, try: Try, contextBefore: Levels,
                   ghost entry: Levels, ghost before: Script)
      returns (ended: Option<SubSearchResult>, counts: bool, ghost unexplored: bool, ghost branch: seq<Try>, ghost calls: nat)
      requires coq.Valid() && graph.start.previous.None? && Obliging()
      requires path != [] && Rooted(path[|path| - 1], graph.start)
      requires |distances| == |entry| - 1 && Sum(distances) + extra <= |path| - 1 && try.closed <= |distances| && contextBefore == entry
      requires var ran := Exec(coq.step, entry, Run(try.prediction));
        ran.Some? && Refocused(ran.value) == (try.closed, try.opens, coq.Current())
      requires Ran(coq.step, entry, before, try, coq.stmts, coq.Current()) && numStmts == |Written(try)|
      modifies this, coq, graph
      ensures coq.Valid()
      ensures (ended, counts, unexplored)
              == Meaning(coq.step, oracle, args, Spot(entry, before, PathTo(path[|path| - 1]), ContextsOf(path), distances, extra),
                         try.prediction)
      ensures hasUnexploredNode <==> old(hasUnexploredNode) || unexplored
      ensures ended.Some? ==> Reports(coq.step, ended.value, entry, PathTo(path[|path| - 1]), branch)
      ensures ended.Some? ==> Undone(ended.value.solution.None?, before, coq.stmts, branch)
      ensures ended.Some? && ended.value.solution.Some? ==> ended.value.solution.value != []
      ensures ended.None? || ended.value.solution.None? ==>
        coq.stmts == before && coq.states == old(coq.states)[..|old(coq.states)| - numStmts]
      ensures calls <= if counts then NodesInTree(Branching(args), Remaining(args, |path|) - 1) else 0
      decreases Remaining(args, |path|), 1
    {
      hide Reports, Undone, ExecAll, LowestDepth, Steps, Predictions, NodesInTree, Written, Sum, Exec, Rooted, PathTo, Explore, FateOf,
           Refocused, SimilarToOne, Bumped, LastEntries, Zeros, ContextsOf, Ran, Top, Below;
      ghost var step, prefix := coq.step, PathTo(path[|path| - 1]);
      branch, calls, unexplored, counts := [try], 0, false, true;
      var node := graph.MkNode(try.prediction, contextBefore, Some(path[|path| - 1]));
      ChildNode(node, path[|path| - 1], graph.start);
      ContextsNext(path, node);
      var newDistances, newExtra := Credit(distances, try.closed, try.opens, extra);
      FateKnown(step, oracle, args, Spot(entry, before, prefix, ContextsOf(path), distances, extra), try, coq.Current());
      WhatRan(step, entry, before, try, coq.stmts, coq.Current());
      NoCalls(Branching(args), Remaining(args, |path|));
      if Completed(coq.Current()) {
        var solution := graph.MkQED(node);
        OneReported(step, Some(solution), entry, prefix, try);
        OneLeft(before, try);
        return Some(SubSearchResult(Some(solution), try.closed)), counts, unexplored, branch, calls;
      }
      var repeats := ContextInPath(coq.Current(), path + [node]);
      if repeats {
        counts := args.countSoftfail;
        coq.Cancel(numStmts);
      } else if oracle.big(coq.Current()) {
        coq.Cancel(numStmts);
      } else if |path| < args.searchDepth + newExtra && |path| < args.hardDepthLimit {
        unexplored := Explore(step, oracle, args, Here(path + [node], newDistances, newExtra), 0, 0).unexplored;
        ended, branch, calls := Descend(path, node, newDistances, newExtra, numStmts, try, entry, before);
        return;
      } else {
        hasUnexploredNode, unexplored := true, true;
        coq.Cancel(numStmts);
        if try.closed > 0 {
          OneReported(step, None, entry, prefix, try);
          AllUndone(before, before, branch);
          return Some(SubSearchResult(None, try.closed)), counts, unexplored, branch, calls;
        }
      }
      return None, counts, unexplored, branch, calls;
    }

    /** Searches from the current state on. The result is what `Explore` finds, whatever is tried and undone on the way. */
    method Search(path: seq<Node>, distances: seq<nat>, extra: nat)
      returns (result: SubSearchResult, ghost branch: seq<Try>, ghost calls: nat)
      requires coq.Valid() && graph.start.previous.None? && Obliging()
      requires path != [] && Rooted(path[|path| - 1], graph.start)
      requires |distances| == |coq.Current()| - 1
      requires Sum(distances) + extra <= |path| - 1
      requires |path| == 1 || (|path| <= args.searchDepth + extra && |path| <= args.hardDepthLimit)
      modifies this, coq, graph
      ensures coq.Valid()
      ensures var found := Explore(coq.step, oracle, args, old(Here(path, distances, extra)), 0, 0);
        result == found.result && (hasUnexploredNode <==> old(hasUnexploredNode) || found.unexplored)
      ensures Reports(coq.step, result, old(coq.Current()), PathTo(path[|path| - 1]), branch)
      ensures Undone(result.solution.None?, old(coq.stmts), coq.stmts, branch)
      ensures result.solution.None? ==> coq.states == old(coq.states)
      ensures result.solution.Some? ==> result.solution.value != []
      ensures calls <= NodesInTree(Branching(args), Remaining(args, |path|))
      decreases Remaining(args, |path|), 2
    {
      hide Reports, Undone, ExecAll, LowestDepth, Steps, Predictions, NodesInTree, Written, Sum, Exec, Times, Rooted, PathTo, Explore,
           FateOf, Refocused, ContextsOf, Meaning, Ran, Top, Below;
      ghost var step, entry, before, states, spot := coq.step, coq.Current(), coq.stmts, coq.states, Here(path, distances, extra);
      ghost var below := NodesInTree(Branching(args), Remaining(args, |path|) - 1);
      ghost var searched, u := 0, false;
      NodesBelow(Branching(args), Remaining(args, |path|));
      NothingReported(step, entry, PathTo(path[|path| - 1]), before);
      calls := 1;
      var predictions := oracle.predict(coq.stmts, coq.Current());
      var contextBefore := coq.Current();
      var successful := 0;
      for i := 0 to |predictions|
        invariant coq.Valid() && coq.stmts == before && coq.states == states
        invariant searched <= i && searched <= successful && searched <= Branching(args)
        invariant calls <= 1 + Times(searched, below)
        invariant Explore(step, oracle, args, spot, 0, 0) == Or(u, Explore(step, oracle, args, spot, i, successful))
        invariant hasUnexploredNode <==> old(hasUnexploredNode) || u
      {
        FewerCalls(searched, Branching(args), below);
        ExploreStep(step, oracle, args, spot, i, successful);
        if successful >= args.searchWidth { break; }
        var numStmts, closed, opens, error := TryPrediction(coq, predictions[i]);
        if error {
          FailureMeans(step, oracle, args, spot, predictions[i]);
          if args.countFailing { successful := successful + 1; }
          if args.showFailing { var _ := graph.MkNode(predictions[i], contextBefore, Some(path[|path| - 1])); }
          continue;
        }
        var try := Try(predictions[i], closed, opens);
        ItRan(step, entry, before, try, coq.stmts, coq.Current());
        var ended, counts, unexplored, deeper, subcalls :=
          Attempt(path, distances, extra, numStmts, try, contextBefore, entry, before);
        u := u || unexplored;
        calls := calls + subcalls;
        if counts {
          successful := successful + 1;
          searched := searched + 1;
        }
        FewerCalls(searched, Branching(args), below);
        if ended.Some? { return ended.value, deeper, calls; }
      }
      ExploreStep(step, oracle, args, spot, |predictions|, successful);
      FewerCalls(searched, Branching(args), below);
      return SubSearchResult(None, 0), [], calls;
    }
  }

  lemma WhatRan(step: Step<string>, entry: Levels, before: Script, try: Try, stmts: Script, levels: Levels)
    requires Ran(step, entry, before, try, stmts, levels)
    ensures stmts == before + Written(try) && ExecAll(step, entry, Written(try)) == Some(levels)
    ensures LowestDepth(step, entry, Written(try)) == |entry| - 1 - try.closed && |levels| == |entry| - try.closed + try.opens
    ensures |stmts| >= |Written(try)| && stmts[..|stmts| - |Written(try)|] == before
  {
  }

  lemma NoCalls(branching: int, remaining: nat)
    requires branching >= 0 && remaining > 0
    ensures NodesInTree(branching, remaining - 1) >= 0
  {
  }

  lemma ItRan(step: Step<string>, entry: Levels, before: Script, try: Try, stmts: Script, levels: Levels)
    requires stmts == before + Written(try) && ExecAll(step, entry, Written(try)) == Some(levels)
    requires LowestDepth(step, entry, Written(try)) == |entry| - 1 - try.closed && |levels| == |entry| - try.closed + try.opens
    ensures Ran(step, entry, before, try, stmts, levels)
  {
  }

  lemma FailureMeans(step: Step<string>, oracle: Oracle, args: Arguments, spot: Spot, prediction: string)
    requires Exec(step, spot.levels, Run(prediction)).None?
    ensures Meaning(step, oracle, args, spot, prediction) == (None, args.countFailing, false)
  {
  }

  // ---------------------------------------------------------------- the whole search

  lemma {:induction false} TacticsConcat(a: Script, b: Script)
    ensures Tactics(a + b) == Tactics(a) + Tactics(b)
    decreases |b|
  {
    if b == [] {
      assert a + b == a;
    } else {
      assert (a + b)[..|a + b| - 1] == a + b[..|b| - 1];
      TacticsConcat(a, b[..|b| - 1]);
    }
  }

  lemma {:induction false} TacticsOfBraces(stmt: Stmt<string>, n: nat)
    requires !stmt.Run?
    ensures Tactics(Repeat(stmt, n)) == []
  {
    if n > 0 {
      assert Repeat(stmt, n)[..n - 1] == Repeat(stmt, n - 1);
      TacticsOfBraces(stmt, n - 1);
    }
  }

  lemma TacticsWritten(try: Try)
    ensures Tactics(Written(try)) == [try.prediction] && End !in Written(try)
  {
    var run := [Run(try.prediction)];
    TacticsConcat(run + Repeat(Close, try.closed), Repeat(Open, try.opens));
    TacticsConcat(run, Repeat(Close, try.closed));
    TacticsOfBraces(Close, try.closed);
    TacticsOfBraces(Open, try.opens);
  }

  lemma {:induction false} TacticsOfSteps(branch: seq<Try>)
    ensures Tactics(Steps(branch)) == Predictions(branch) && End !in Steps(branch)
  {
    if branch != [] {
      TacticsWritten(branch[0]);
      TacticsConcat(Written(branch[0]), Steps(branch[1..]));
      TacticsOfSteps(branch[1..]);
    }
  }

  /** A branch that completes the proof is a list of tactics that solves the goals without any brace. */
  lemma SolutionReplays(step: Step<string>, entry: Levels, branch: seq<Try>)
    requires ExecAll(step, entry, Steps(branch)) == Some([[]])
    ensures Replay(step, Flat(entry), Predictions(branch)) == Some([])
  {
    ScriptFlattens(step, entry, Steps(branch));
    TacticsOfSteps(branch);
    ReplayIgnoresBraces(step, Flat(entry), Steps(branch));
    var done: Levels := [[]];
    FlatTop(done);
    assert Flat(done) == [];
  }

  /** Searches for a proof of the lemma that was just started; `None` where the size of the tree cannot be computed. */
  method DfsProofSearch(lemmaName: string, coq: Coq, args: Arguments, oracle: Oracle)
    returns (result: Option<SearchResult>, ghost calls: nat)
    requires coq.Valid() && |coq.Current()| == 1
    requires forall history, levels :: |oracle.predict(history, levels)| == args.maxAttempts
    modifies coq
    ensures coq.Valid()
    ensures result.None? <==> args.searchDepth + 2 <= 0 || args.searchWidth == 1
                              || NodesInTree(args.searchWidth, args.searchDepth + 2) < 1
    ensures result.Some? ==>
      var found := Explore(coq.step, oracle, args, Spot(old(coq.Current()), old(coq.stmts), [], [], [], 0), 0, 0);
      result.value == if found.result.solution.Some? then Success(found.result.solution.value)
                      else if found.unexplored then Incomplete else Failure
    ensures result.Some? ==>
      var root := Root(old(coq.Current()), old(coq.stmts));
      && (forall choices :: Completes(coq.step, oracle, args, true, root, choices) ==>
            result.value.Success? || Pruned(coq.step, oracle, root, choices))
      && (forall choices :: Completes(coq.step, oracle, args, true, root, choices) && OneGoal(coq.step, oracle, root, choices) ==>
            result.value.Success?)
      && (forall choices :: Completes(coq.step, oracle, args, false, root, choices) && result.value.Failure? ==>
            Pruned(coq.step, oracle, root, choices))
    ensures result.Some? && result.value.Success? ==>
      result.value.tactics != [] && Replay(coq.step, Flat(old(coq.Current())), result.value.tactics) == Some([])
    ensures !(result.Some? && result.value.Success?) ==> coq.stmts == old(coq.stmts) && coq.states == old(coq.states)
    ensures calls <= NodesInTree(args.maxAttempts, if args.hardDepthLimit < 1 then 1 else args.hardDepthLimit)
  {
    hide Steps, Predictions, Written, LowestDepth, ExecAll, NodesInTree, Explore, FateOf, Completes, Pruned, OneGoal;
    SearchMisses(coq.step, oracle, args, Root(coq.Current(), coq.stmts));
    var depth := if args.hardDepthLimit < 1 then 1 else args.hardDepthLimit;
    MoreBranches(Branching(args), args.maxAttempts, depth);
    NodesBelow(args.maxAttempts, depth);
    calls := 0;
    var graph := new SearchGraph(lemmaName);
    var total := NumNodesInTree(args.searchWidth, args.searchDepth + 2);
    if total.None? { return None, calls; }
    var searcher := new Searcher(coq, graph, args, oracle);
    ghost var entry, before := coq.Current(), coq.stmts;
    assert searcher.Here([graph.start], [], 0) == Spot(entry, before, [], [], [], 0);
    var found, branch, made := searcher.Search([graph.start], [], 0);
    calls := made;
    if found.solution.Some? && found.solution.value != [] {
      assert found.solution.value == Predictions(branch);
      SolutionReplays(coq.step, entry, branch);
      result := Some(Success(found.solution.value));
    } else {
      AllUndone(before, coq.stmts, branch);
      result := Some(if searcher.hasUnexploredNode then Incomplete else Failure);
    }
  }
}
