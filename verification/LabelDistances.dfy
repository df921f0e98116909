/** Labels every tactic of a proof with its distance to the end of the goal it works on. */
module LabelDistances {
  import opened Prelude

  type Tactic = string

  datatype Token = Open | Close | Qed(tactic: Tactic) | Run(tactic: Tactic)

  datatype Label = Label(tactic: Tactic, distance: nat)

  // ---------------------------------------------------------------- the three stacks

  datatype Stacks = Stacks(path: seq<seq<Tactic>>, closed: seq<nat>, result: seq<seq<Label>>)

  /** The tactics of a segment, the last one at distance `after + 1`. */
  function Mark(segment: seq<Tactic>, after: nat): seq<Label> {
    seq(|segment|, k requires 0 <= k < |segment| => Label(segment[k], after + |segment| - k))
  }

  ghost function Opened(s: Stacks): Stacks { Stacks(s.path + [[]], s.closed + [0], s.result + [[]]) }

  /** `None` where a pop or a read at the end of a stack fails. */
  ghost function Closed(s: Stacks): Option<Stacks> {
    var p, c, r := |s.path| - 1, |s.closed| - 1, |s.result| - 1;
    if p < 0 || c < 1 || r < 1 then None
    else
      Some(Stacks(s.path[..p],
                  s.closed[..c - 1] + [s.closed[c - 1] + s.closed[c] + |s.path[p]|],
                  s.result[..r - 1] + [s.result[r - 1] + (Mark(s.path[p], s.closed[c]) + s.result[r])]))
  }

  ghost function Finished(s: Stacks, qed: seq<Label>): Option<seq<Label>> {
    var end := Closed(s);
    if end.None? then None else Some(end.value.result[|end.value.result| - 1] + qed)
  }

  /** What the rest of the tactics makes of the stacks. */
  ghost function RunFrom(s: Stacks, tokens: seq<Token>): Option<seq<Label>>
    decreases |tokens|
  {
    if tokens == [] then if |s.path| == 1 then Finished(s, []) else None
    else
      match tokens[0]
      case Open => RunFrom(Opened(s), tokens[1..])
      case Close => if Closed(s).None? then None else RunFrom(Closed(s).value, tokens[1..])
      case Qed(tactic) => Finished(s, [Label(tactic, 0)])
      case Run(tactic) => if s.path == [] then None else RunFrom(WithTactic(s, tactic), tokens[1..])
  }

  ghost function WithTactic(s: Stacks, tactic: Tactic): Stacks
    requires s.path != []
  {
    s.(path := s.path[..|s.path| - 1] + [s.path[|s.path| - 1] + [tactic]])
  }

  ghost function Fresh(): Stacks { Stacks([[]], [0, 0], [[], []]) }

  class Labeller {
    var pathSegments: seq<seq<Tactic>>
    var closedDistances: seq<nat>
    var result: seq<seq<Label>>

    ghost function Current(): Stacks
      reads this
    {
      Stacks(pathSegments, closedDistances, result)
    }

    constructor ()
      ensures Current() == Fresh()
    {
      pathSegments, closedDistances, result := [[]], [0, 0], [[], []];
    }

    method OpenGoal()
      modifies this
      ensures Current() == Opened(old(Current()))
    {
      pathSegments := pathSegments + [[]];
      closedDistances := closedDistances + [0];
      result := result + [[]];
    }

    method CloseGoal() returns (ok: bool)
      modifies this
      ensures ok <==> Closed(old(Current())).Some?
      ensures ok ==> Current() == Closed(old(Current())).value
    {
      if pathSegments == [] || |closedDistances| < 2 || |result| < 2 { return false; }
      var lastSegment := pathSegments[|pathSegments| - 1];
      pathSegments := pathSegments[..|pathSegments| - 1];
      var lastDistance := closedDistances[|closedDistances| - 1];
      closedDistances := closedDistances[..|closedDistances| - 1];
      // numbers the segment from its end
      var closedTactics: seq<Label> := [];
      var distance := lastDistance + 1;
      for k := |lastSegment| downto 0
        invariant closedTactics == Mark(lastSegment, lastDistance)[k..]
        invariant distance == lastDistance + 1 + |lastSegment| - k
      {
        closedTactics := [Label(lastSegment[k], distance)] + closedTactics;
        distance := distance + 1;
      }
      var alreadyClosed := result[|result| - 1];
      result := result[..|result| - 1];
      result := result[|result| - 1 := result[|result| - 1] + (closedTactics + alreadyClosed)];
      closedDistances := closedDistances[|closedDistances| - 1 :=
        closedDistances[|closedDistances| - 1] + lastDistance + |lastSegment|];
      return true;
    }

    method LabelDistances(tactics: seq<Token>) returns (labels: Option<seq<Label>>)
      requires Current() == Fresh()
      modifies this
      ensures labels == RunFrom(Fresh(), tactics)
    {
      for i := 0 to |tactics|
        invariant RunFrom(Current(), tactics[i..]) == RunFrom(Fresh(), tactics)
      {
        assert tactics[i..][1..] == tactics[i + 1..];
        match tactics[i]
        case Open => OpenGoal();
        case Close =>
          var ok := CloseGoal();
          if !ok { return None; }
        case Qed(tactic) =>
          var ok := CloseGoal();
          return if ok then Some(result[|result| - 1] + [Label(tactic, 0)]) else None;
        case Run(tactic) =>
          if pathSegments == [] { return None; }
          ghost var before := Current();
          pathSegments := pathSegments[|pathSegments| - 1 := pathSegments[|pathSegments| - 1] + [tactic]];
          assert Current() == WithTactic(before, tactic);
      }
      if |pathSegments| != 1 { return None; }
      var ok := CloseGoal();
      if !ok { return None; }
      assert result[|result| - 1] + [] == result[|result| - 1];
      return Some(result[|result| - 1]);
    }
  }

  // ---------------------------------------------------------------- balanced proofs as trees

  /** A tactic, or a block in braces. */
  datatype Item = Tac(tactic: Tactic) | Sub(items: seq<Item>)

  ghost function Tokens(items: seq<Item>): seq<Token> {
    if items == [] then []
    else
      (match items[0] case Tac(tactic) => [Run(tactic)] case Sub(block) => [Open] + Tokens(block) + [Close])
      + Tokens(items[1..])
  }

  /** The tactics of a block outside its sub-blocks. */
  ghost function Own(items: seq<Item>): seq<Tactic> {
    if items == [] then [] else (if items[0].Tac? then [items[0].tactic] else []) + Own(items[1..])
  }

  /** The number of tactics in the sub-blocks of a block. */
  ghost function SubSize(items: seq<Item>): nat
    decreases items, 0
  {
    if items == [] then 0 else (if items[0].Sub? then Size(items[0].items) else 0) + SubSize(items[1..])
  }

  ghost function Size(items: seq<Item>): nat
    decreases items, 1
  {
    |Own(items)| + SubSize(items)
  }

  /** The tactics of the block itself come first, each after all of the sub-blocks, then the sub-blocks'. */
  ghost function Labels(items: seq<Item>): seq<Label>
    decreases items, 1
  {
    Mark(Own(items), SubSize(items)) + SubLabels(items)
  }

  ghost function SubLabels(items: seq<Item>): seq<Label>
    decreases items, 0
  {
    if items == [] then [] else (if items[0].Sub? then Labels(items[0].items) else []) + SubLabels(items[1..])
  }

  lemma FirstTactic(items: seq<Item>)
    requires items != [] && items[0].Tac?
    ensures var tactic, rest := items[0].tactic, items[1..];
      && Tokens(items) == [Run(tactic)] + Tokens(rest)
      && Own(items) == [tactic] + Own(rest)
      && SubSize(items) == SubSize(rest) && Size(items) == 1 + Size(rest)
      && SubLabels(items) == SubLabels(rest)
  {
  }

  lemma FirstBlock(items: seq<Item>)
    requires items != [] && items[0].Sub?
    ensures var block, rest := items[0].items, items[1..];
      && Tokens(items) == [Open] + (Tokens(block) + ([Close] + Tokens(rest)))
      && Own(items) == Own(rest)
      && SubSize(items) == Size(block) + SubSize(rest) && Size(items) == Size(block) + Size(rest)
      && SubLabels(items) == Labels(block) + SubLabels(rest)
  {
  }

  lemma Regroup<A>(a: seq<A>, b: seq<A>, c: seq<A>)
    ensures a + b + c == a + (b + c)
  {
  }

  lemma RegroupBlock(block: seq<Token>, tokens: seq<Token>, rest: seq<Token>)
    ensures [Open] + (block + ([Close] + tokens)) + rest == [Open] + (block + ([Close] + (tokens + rest)))
  {
  }

  lemma NothingAdded<A>(a: seq<A>)
    ensures [] + a == a && a + [] == a
  {
  }

  /** The stacks with their last entries. */
  ghost function On(path: seq<seq<Tactic>>, segment: seq<Tactic>, closed: seq<nat>, distance: nat,
                    result: seq<seq<Label>>, labels: seq<Label>): Stacks
  {
    Stacks(path + [segment], closed + [distance], result + [labels])
  }

  /** A block, or a part of it, adds its own tactics to the current segment, and the size and the labels of its
      sub-blocks, which are all closed, to the current entries. */
  lemma {:induction false} BlockRuns(path: seq<seq<Tactic>>, segment: seq<Tactic>, closed: seq<nat>, distance: nat,
                                     result: seq<seq<Label>>, labels: seq<Label>, items: seq<Item>, rest: seq<Token>)
    ensures RunFrom(On(path, segment, closed, distance, result, labels), Tokens(items) + rest)
            == RunFrom(On(path, segment + Own(items), closed, distance + SubSize(items), result, labels + SubLabels(items)), rest)
    decreases items
  {
    hide *;
    if items == [] {
      NothingRuns(segment, labels, items, rest);
    } else if items[0].Tac? {
      var tactic := items[0].tactic;
      FirstTactic(items);
      Regroup([Run(tactic)], Tokens(items[1..]), rest);
      RunTactic(path, segment, closed, distance, result, labels, tactic, Tokens(items[1..]) + rest);
      BlockRuns(path, segment + [tactic], closed, distance, result, labels, items[1..], rest);
      Regroup(segment, [tactic], Own(items[1..]));
    } else {
      var block, tail := items[0].items, Tokens(items[1..]) + rest;
      FirstBlock(items);
      RegroupBlock(Tokens(block), Tokens(items[1..]), rest);
      RunOpen(path, segment, closed, distance, result, labels, Tokens(block) + ([Close] + tail));
      BlockRuns(path + [segment], [], closed + [distance], 0, result + [labels], [], block, [Close] + tail);
      RunClose(path, segment, block, closed, distance, result, labels, tail);
      BlockRuns(path, segment, closed, distance + Size(block), result, labels + Labels(block), items[1..], rest);
      Regroup(labels, Labels(block), SubLabels(items[1..]));
    }
  }

  lemma NothingRuns(segment: seq<Tactic>, labels: seq<Label>, items: seq<Item>, rest: seq<Token>)
    requires items == []
    ensures segment + Own(items) == segment && SubSize(items) == 0 && labels + SubLabels(items) == labels
    ensures Tokens(items) + rest == rest
  {
  }

  lemma RunTactic(path: seq<seq<Tactic>>, segment: seq<Tactic>, closed: seq<nat>, distance: nat,
                  result: seq<seq<Label>>, labels: seq<Label>, tactic: Tactic, rest: seq<Token>)
    ensures RunFrom(On(path, segment, closed, distance, result, labels), [Run(tactic)] + rest)
            == RunFrom(On(path, segment + [tactic], closed, distance, result, labels), rest)
  {
    assert ([Run(tactic)] + rest)[1..] == rest;
    assert (path + [segment])[..|path|] == path;
  }

  lemma RunOpen(path: seq<seq<Tactic>>, segment: seq<Tactic>, closed: seq<nat>, distance: nat,
                result: seq<seq<Label>>, labels: seq<Label>, rest: seq<Token>)
    ensures RunFrom(On(path, segment, closed, distance, result, labels), [Open] + rest)
            == RunFrom(On(path + [segment], [], closed + [distance], 0, result + [labels], []), rest)
  {
    assert ([Open] + rest)[1..] == rest;
  }

  /** Closing a block adds its labels and its size to the block around it. */
  lemma RunClose(path: seq<seq<Tactic>>, segment: seq<Tactic>, block: seq<Item>, closed: seq<nat>, distance: nat,
                 result: seq<seq<Label>>, labels: seq<Label>, rest: seq<Token>)
    ensures RunFrom(On(path + [segment], [] + Own(block), closed + [distance], 0 + SubSize(block),
                       result + [labels], [] + SubLabels(block)), [Close] + rest)
            == RunFrom(On(path, segment, closed, distance + Size(block), result, labels + Labels(block)), rest)
  {
    hide Mark, Own, SubSize, SubLabels;
    NothingAdded(Own(block));
    NothingAdded(SubLabels(block));
    var p, c := path + [segment] + [Own(block)], closed + [distance] + [SubSize(block)];
    var r := result + [labels] + [SubLabels(block)];
    assert ([Close] + rest)[1..] == rest;
    assert p[..|p| - 1] == path + [segment] && c[..|c| - 2] == closed && r[..|r| - 2] == result;
  }

  /** On a balanced proof, with or without its closing command, the loop computes the labels of its tree. */
  lemma LabelsOfProof(items: seq<Item>, qed: Tactic, rest: seq<Token>)
    ensures RunFrom(Fresh(), Tokens(items)) == Some(Labels(items))
    ensures RunFrom(Fresh(), Tokens(items) + [Qed(qed)] + rest) == Some(Labels(items) + [Label(qed, 0)])
  {
    hide *;
    BlockRuns([], [], [0], 0, [[]], [], items, []);
    BlockRuns([], [], [0], 0, [[]], [], items, [Qed(qed)] + rest);
    NothingAdded(Tokens(items));
    Regroup(Tokens(items), [Qed(qed)], rest);
    FreshEnds(items, qed, rest);
  }

  lemma FreshEnds(items: seq<Item>, qed: Tactic, rest: seq<Token>)
    ensures Fresh() == On([], [], [0], 0, [[]], [])
    ensures var end := On([], [] + Own(items), [0], 0 + SubSize(items), [[]], [] + SubLabels(items));
      RunFrom(end, []) == Some(Labels(items)) && RunFrom(end, [Qed(qed)] + rest) == Some(Labels(items) + [Label(qed, 0)])
  {
    hide Own, SubSize, SubLabels, Mark;
    var end := On([], [] + Own(items), [0], 0 + SubSize(items), [[]], [] + SubLabels(items));
    var last := Closed(end).value.result;
    assert [] + Own(items) == Own(items) && [] + SubLabels(items) == SubLabels(items);
    assert last[|last| - 1] == [] + Labels(items) == Labels(items);
    assert Labels(items) + [] == Labels(items);
    assert ([Qed(qed)] + rest)[0] == Qed(qed);
  }

  // ---------------------------------------------------------------- what the labels mean

  /** The tactics of a list of tokens in source order. */
  ghost function Written(tokens: seq<Token>): seq<Tactic> {
    if tokens == [] then [] else (if tokens[0].Run? then [tokens[0].tactic] else []) + Written(tokens[1..])
  }

  ghost function Firsts(labels: seq<Label>): seq<Tactic> { seq(|labels|, k requires 0 <= k < |labels| => labels[k].tactic) }

  /** The number of tactics up to the brace that closes the current block, `depth` braces further open. */
  ghost function Left(tokens: seq<Token>, depth: nat): nat {
    if tokens == [] then 0
    else
      match tokens[0]
      case Open => Left(tokens[1..], depth + 1)
      case Close => if depth == 0 then 0 else Left(tokens[1..], depth - 1)
      case Qed(_) => Left(tokens[1..], depth)
      case Run(_) => 1 + Left(tokens[1..], depth)
  }

  /** Every tactic, in source order, with the number of tactics left, itself included, to close its goal. */
  ghost function SourceLabels(tokens: seq<Token>): seq<Label> {
    if tokens == [] then []
    else (if tokens[0].Run? then [Label(tokens[0].tactic, Left(tokens, 0))] else []) + SourceLabels(tokens[1..])
  }

  /** No tactic of a block is written after a sub-block that has tactics. */
  ghost predicate TacticsFirst(items: seq<Item>) {
    items == [] ||
    (&& TacticsFirst(items[1..])
     && (items[0].Sub? ==> TacticsFirst(items[0].items) && (Size(items[0].items) == 0 || Own(items[1..]) == [])))
  }

  lemma {:induction false} WrittenConcat(a: seq<Token>, b: seq<Token>)
    ensures Written(a + b) == Written(a) + Written(b)
  {
    if a == [] {
      assert a + b == b;
    } else {
      assert (a + b)[1..] == a[1..] + b;
      WrittenConcat(a[1..], b);
    }
  }

  lemma WrittenFirst(token: Token, rest: seq<Token>)
    ensures Written([token] + rest) == (if token.Run? then [token.tactic] else []) + Written(rest)
  {
    assert ([token] + rest)[1..] == rest;
  }

  /** No tactic is lost or repeated, whatever the blocks. */
  lemma {:induction false} LabelsPermute(items: seq<Item>)
    ensures multiset(Firsts(Labels(items))) == multiset(Written(Tokens(items)))
    decreases items
  {
    if items == [] {
      assert Labels(items) == [];
    } else {
      hide *;
      var rest := items[1..];
      LabelsPermute(rest);
      FirstsOfLabels(items);
      FirstsOfLabels(rest);
      match items[0]
      case Tac(tactic) =>
        FirstTactic(items);
        WrittenFirst(Run(tactic), Tokens(rest));
      case Sub(block) =>
        LabelsPermute(block);
        FirstBlock(items);
        WrittenFirst(Open, Tokens(block) + ([Close] + Tokens(rest)));
        WrittenConcat(Tokens(block), [Close] + Tokens(rest));
        WrittenFirst(Close, Tokens(rest));
        FirstsConcat(Labels(block), SubLabels(rest));
    }
  }

  lemma FirstsConcat(a: seq<Label>, b: seq<Label>)
    ensures Firsts(a + b) == Firsts(a) + Firsts(b)
  {
  }

  lemma FirstsOfLabels(items: seq<Item>)
    ensures Firsts(Labels(items)) == Own(items) + Firsts(SubLabels(items))
  {
    hide Own, SubLabels;
    assert Firsts(Mark(Own(items), SubSize(items))) == Own(items);
    FirstsConcat(Mark(Own(items), SubSize(items)), SubLabels(items));
  }

  lemma LeftFirst(token: Token, rest: seq<Token>, depth: nat)
    ensures Left([token] + rest, depth)
            == match token
               case Open => Left(rest, depth + 1)
               case Close => if depth == 0 then 0 else Left(rest, depth - 1)
               case Qed(_) => Left(rest, depth)
               case Run(_) => 1 + Left(rest, depth)
  {
    assert ([token] + rest)[1..] == rest;
  }

  lemma {:induction false} LeftOfBlock(items: seq<Item>, rest: seq<Token>, depth: nat)
    ensures Left(Tokens(items) + rest, depth) == Size(items) + Left(rest, depth)
    decreases items
  {
    if items == [] {
      assert Tokens(items) + rest == rest;
    } else {
      hide *;
      var tail := Tokens(items[1..]) + rest;
      LeftOfBlock(items[1..], rest, depth);
      match items[0]
      case Tac(tactic) =>
        FirstTactic(items);
        Regroup([Run(tactic)], Tokens(items[1..]), rest);
        LeftFirst(Run(tactic), tail, depth);
      case Sub(block) =>
        FirstBlock(items);
        RegroupBlock(Tokens(block), Tokens(items[1..]), rest);
        LeftFirst(Open, Tokens(block) + ([Close] + tail), depth);
        LeftOfBlock(block, [Close] + tail, depth + 1);
        LeftFirst(Close, tail, depth + 1);
    }
  }

  /** The labels that the source order asks for, computed on the tree. */
  ghost function TreeLabels(items: seq<Item>): seq<Label> {
    if items == [] then []
    else (match items[0] case Tac(tactic) => [Label(tactic, Size(items))] case Sub(block) => TreeLabels(block)) + TreeLabels(items[1..])
  }

  lemma TreeLabelsFirst(items: seq<Item>)
    requires items != []
    ensures items[0].Tac? ==> TreeLabels(items) == [Label(items[0].tactic, Size(items))] + TreeLabels(items[1..])
    ensures items[0].Sub? ==> TreeLabels(items) == TreeLabels(items[0].items) + TreeLabels(items[1..])
  {
  }

  lemma SourceLabelsFirst(token: Token, rest: seq<Token>)
    ensures SourceLabels([token] + rest)
            == (if token.Run? then [Label(token.tactic, Left([token] + rest, 0))] else []) + SourceLabels(rest)
  {
    assert ([token] + rest)[1..] == rest;
  }

  lemma {:induction false} SourceLabelsOfBlock(items: seq<Item>, rest: seq<Token>)
    requires Left(rest, 0) == 0
    ensures SourceLabels(Tokens(items) + rest) == TreeLabels(items) + SourceLabels(rest)
    decreases items
  {
    if items == [] {
      assert Tokens(items) + rest == rest;
    } else {
      hide *;
      var tail := Tokens(items[1..]) + rest;
      SourceLabelsOfBlock(items[1..], rest);
      TreeLabelsFirst(items);
      if items[0].Tac? {
        var tactic := items[0].tactic;
        FirstTactic(items);
        Regroup([Run(tactic)], Tokens(items[1..]), rest);
        SourceLabelsFirst(Run(tactic), tail);
        LeftOfBlock(items, rest, 0);
        Regroup([Label(tactic, Size(items))], TreeLabels(items[1..]), SourceLabels(rest));
      } else {
        var block := items[0].items;
        FirstBlock(items);
        RegroupBlock(Tokens(block), Tokens(items[1..]), rest);
        BlockSourceLabels(Tokens(block), tail);
        LeftFirst(Close, tail, 0);
        SourceLabelsOfBlock(block, [Close] + tail);
        Regroup(TreeLabels(block), TreeLabels(items[1..]), SourceLabels(rest));
      }
    }
  }

  lemma BlockSourceLabels(block: seq<Token>, tail: seq<Token>)
    ensures SourceLabels([Open] + (block + ([Close] + tail))) == SourceLabels(block + ([Close] + tail))
    ensures SourceLabels([Close] + tail) == SourceLabels(tail)
  {
    hide *;
    SourceLabelsFirst(Open, block + ([Close] + tail));
    SourceLabelsFirst(Close, tail);
    NothingAdded(SourceLabels(tail));
    NothingAdded(SourceLabels(block + ([Close] + tail)));
  }

  ghost function Total(labels: seq<Label>): nat {
    if labels == [] then 0 else labels[0].distance + Total(labels[1..])
  }

  ghost function Times(a: nat, b: nat): nat { a * b }

  /** How much the labels exceed the distances: every tactic counts the sub-blocks written before it. */
  ghost function Excess(items: seq<Item>): nat {
    if items == [] then 0
    else (if items[0].Sub? then Excess(items[0].items) + Times(|Own(items[1..])|, Size(items[0].items)) else 0) + Excess(items[1..])
  }

  lemma {:induction false} TotalConcat(a: seq<Label>, b: seq<Label>)
    ensures Total(a + b) == Total(a) + Total(b)
  {
    if a == [] {
      assert a + b == b;
    } else {
      assert (a + b)[1..] == a[1..] + b;
      TotalConcat(a[1..], b);
    }
  }

  lemma {:induction false} TotalMark(segment: seq<Tactic>, after: nat, more: nat)
    ensures Total(Mark(segment, after + more)) == Total(Mark(segment, after)) + Times(|segment|, more)
  {
    if segment != [] {
      TotalMark(segment[1..], after, more);
      assert Mark(segment, after)[1..] == Mark(segment[1..], after);
      assert Mark(segment, after + more)[1..] == Mark(segment[1..], after + more);
      assert |segment| * more == more + |segment[1..]| * more;
    }
  }

  lemma {:induction false} LabelsExceed(items: seq<Item>)
    ensures Total(Labels(items)) == Total(TreeLabels(items)) + Excess(items)
    decreases items
  {
    if items == [] {
      assert Labels(items) == [];
    } else {
      hide *;
      LabelsExceed(items[1..]);
      ExcessFirst(items);
      TotalTreeLabels(items);
      if items[0].Tac? {
        TotalAfterTactic(items);
      } else {
        LabelsExceed(items[0].items);
        TotalAfterBlock(items);
      }
    }
  }

  lemma TotalTreeLabels(items: seq<Item>)
    requires items != []
    ensures Total(TreeLabels(items))
            == (if items[0].Tac? then Size(items) else Total(TreeLabels(items[0].items))) + Total(TreeLabels(items[1..]))
  {
    TreeLabelsFirst(items);
    hide TreeLabels, Size;
    if items[0].Tac? {
      TotalConcat([Label(items[0].tactic, Size(items))], TreeLabels(items[1..]));
    } else {
      TotalConcat(TreeLabels(items[0].items), TreeLabels(items[1..]));
    }
  }

  lemma TotalAfterTactic(items: seq<Item>)
    requires items != [] && items[0].Tac?
    ensures Total(Labels(items)) == Size(items) + Total(Labels(items[1..]))
  {
    LabelsOfTactic(items);
    hide Labels, Size;
    TotalConcat([Label(items[0].tactic, Size(items))], Labels(items[1..]));
  }

  lemma TotalAfterBlock(items: seq<Item>)
    requires items != [] && items[0].Sub?
    ensures Total(Labels(items))
            == Total(Labels(items[0].items)) + Total(Labels(items[1..])) + Times(|Own(items[1..])|, Size(items[0].items))
  {
    hide Total, Mark, Own, SubSize, SubLabels, Size, Times;
    var block, rest := items[0].items, items[1..];
    FirstBlock(items);
    TotalConcat(Mark(Own(items), SubSize(items)), SubLabels(items));
    TotalConcat(Mark(Own(rest), SubSize(rest)), SubLabels(rest));
    TotalMark(Own(rest), SubSize(rest), Size(block));
    TotalConcat(Labels(block), SubLabels(rest));
  }

  lemma ExcessFirst(items: seq<Item>)
    requires items != []
    ensures items[0].Tac? ==> Excess(items) == Excess(items[1..])
    ensures items[0].Sub? ==>
      Excess(items) == Excess(items[0].items) + Times(|Own(items[1..])|, Size(items[0].items)) + Excess(items[1..])
  {
  }

  lemma LabelsOfTactic(items: seq<Item>)
    requires items != [] && items[0].Tac?
    ensures Labels(items) == [Label(items[0].tactic, Size(items))] + Labels(items[1..])
  {
    hide Own, SubSize, SubLabels;
    var rest := items[1..];
    FirstTactic(items);
    MarkFirst(items[0].tactic, Own(rest), SubSize(rest));
  }

  lemma MarkFirst(tactic: Tactic, segment: seq<Tactic>, after: nat)
    ensures Mark([tactic] + segment, after) == [Label(tactic, after + |segment| + 1)] + Mark(segment, after)
  {
  }

  lemma {:induction false} ExcessCounts(items: seq<Item>)
    ensures Excess(items) == 0 <==> TacticsFirst(items)
    decreases items
  {
    if items != [] {
      ExcessCounts(items[1..]);
      if items[0].Sub? {
        ExcessCounts(items[0].items);
        NoProduct(|Own(items[1..])|, Size(items[0].items));
      }
    }
  }

  lemma NoProduct(a: nat, b: nat)
    ensures Times(a, b) == 0 <==> a == 0 || b == 0
  {
  }

  lemma {:induction false} OrderedLabels(items: seq<Item>)
    requires TacticsFirst(items)
    ensures Labels(items) == TreeLabels(items)
    decreases items
  {
    if items == [] {
      assert Labels(items) == [];
    } else {
      hide Own, SubSize, SubLabels, Size, TreeLabels, Labels;
      OrderedLabels(items[1..]);
      TreeLabelsFirst(items);
      if items[0].Tac? {
        LabelsOfTactic(items);
      } else {
        OrderedLabels(items[0].items);
        LabelsOfBlock(items);
      }
    }
  }

  lemma LabelsOfBlock(items: seq<Item>)
    requires items != [] && items[0].Sub? && (Size(items[0].items) == 0 || Own(items[1..]) == [])
    ensures Labels(items) == Labels(items[0].items) + Labels(items[1..])
  {
    hide Own, SubSize, SubLabels, Size;
    var block, rest := items[0].items, items[1..];
    FirstBlock(items);
    if Size(block) == 0 {
      NoLabels(block);
      NothingAdded(Labels(rest));
      NothingAdded(SubLabels(rest));
    } else {
      NothingAdded(SubLabels(items));
      NothingAdded(SubLabels(rest));
    }
  }

  lemma NoLabels(items: seq<Item>)
    requires Size(items) == 0
    ensures Labels(items) == []
  {
    SubLabelsSize(items);
    assert |Labels(items)| == 0;
  }

  lemma {:induction false} SubLabelsSize(items: seq<Item>)
    ensures |SubLabels(items)| == SubSize(items)
    decreases items
  {
    if items != [] {
      SubLabelsSize(items[1..]);
      if items[0].Sub? {
        SubLabelsSize(items[0].items);
      }
    }
  }

  /** The output lists the tactics in source order with the number of tactics left to close each one's goal exactly
      when no tactic of a block is written after one of its sub-blocks. */
  lemma DistancesAreRight(items: seq<Item>)
    ensures Labels(items) == SourceLabels(Tokens(items)) <==> TacticsFirst(items)
  {
    hide *;
    EndOfSource();
    SourceLabelsOfBlock(items, []);
    assert Tokens(items) + [] == Tokens(items) && TreeLabels(items) + [] == TreeLabels(items);
    LabelsExceed(items);
    ExcessCounts(items);
    if TacticsFirst(items) {
      OrderedLabels(items);
    }
  }

  lemma EndOfSource()
    ensures Left([], 0) == 0 && SourceLabels([]) == []
  {
  }
}
