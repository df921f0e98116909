/** Rule resolution of the build server: generic rules, specific rules and how they combine. */
module RemakeRules {
  import opened Prelude

  type Target = string

  /** A rule of the Remakefile. Variable assignments are not modelled. */
  datatype Rule = Rule(targets: seq<Target>, deps: seq<Target>, wdeps: seq<Target>, script: string)

  const NO_RULE := Rule([], [], [], "")

  /** A generic rule instantiated with the stem that its pattern matched. */
  datatype Match = Match(stem: string, rule: Rule)

  /** Position of the first occurrence of `c` in `s` at or after `from`; `|s|` when there is none. */
  function Find(s: string, c: char, from: nat := 0): (pos: nat)
    requires from <= |s|
    ensures from <= pos <= |s|
    ensures pos < |s| ==> s[pos] == c
    ensures forall i :: from <= i < pos ==> s[i] != c
    decreases |s| - from
  {
    if from == |s| || s[from] == c then from else Find(s, c, from + 1)
  }

  /** The word with its first `%`, if any, replaced by the stem. */
  function Instantiate(stem: string, word: string): string {
    var pos := Find(word, '%');
    if pos == |word| then word else word[..pos] + stem + word[pos + 1..]
  }

  function Substitute(stem: string, words: seq<string>): seq<string> {
    seq(|words|, i requires 0 <= i < |words| => Instantiate(stem, words[i]))
  }

  function InstantiateRule(stem: string, rule: Rule): Rule {
    Rule(Substitute(stem, rule.targets), Substitute(stem, rule.deps), Substitute(stem, rule.wdeps), rule.script)
  }

  /** What a match is: a nonempty stem that turns the pattern into the target. */
  predicate Matches(pattern: string, target: Target, stem: string) {
    '%' in pattern && stem != "" && Instantiate(stem, pattern) == target
  }

  /** The stem of a match has the only length that can make up for the `%`. */
  lemma MatchLength(pattern: string, target: Target, stem: string)
    requires Matches(pattern, target, stem)
    ensures |pattern| <= |target| && |stem| == |target| - (|pattern| - 1)
    ensures var pos := Find(pattern, '%');
            stem == target[pos..pos + |stem|] && pattern[..pos] == target[..pos]
            && pattern[pos + 1..] == target[|target| - (|pattern| - (pos + 1))..]
  {
    var pos := Find(pattern, '%');
    assert target == pattern[..pos] + stem + pattern[pos + 1..];
  }

  /** The comparisons of the two halves of the pattern find a match whenever there is one. */
  lemma ComparisonIsMatch(pattern: string, target: Target)
    requires '%' in pattern && |pattern| <= |target|
    ensures var pos := Find(pattern, '%');
            var plen := |target| - (|pattern| - 1);
            var stem := target[pos..pos + plen];
            var len2 := |pattern| - (pos + 1);
            Matches(pattern, target, stem)
            <==> pattern[..pos] == target[..pos] && pattern[pos + 1..] == target[|target| - len2..]
  {
    var pos := Find(pattern, '%');
    var plen := |target| - (|pattern| - 1);
    var stem := target[pos..pos + plen];
    var len2 := |pattern| - (pos + 1);
    assert |target| - len2 == pos + plen;
    assert target == target[..pos] + stem + target[pos + plen..];
    if Matches(pattern, target, stem) {
      MatchLength(pattern, target, stem);
    }
  }

  /** The stem by which `pattern` matches `target`, provided it is shorter than `plen`. */
  ghost function Improving(pattern: string, target: Target, plen: nat): Option<string> {
    if exists stem :: Matches(pattern, target, stem) && |stem| < plen then
      var stem :| Matches(pattern, target, stem) && |stem| < plen;
      Some(stem)
    else None
  }

  /** The first pattern of a rule, from position `j` on, that beats the stem length `plen`. */
  ghost function FirstImproving(patterns: seq<string>, target: Target, plen: nat, j: nat := 0): Option<string>
    requires j <= |patterns|
    decreases |patterns| - j
  {
    if j == |patterns| then None
    else if Improving(patterns[j], target, plen).Some? then Improving(patterns[j], target, plen)
    else FirstImproving(patterns, target, plen, j + 1)
  }

  ghost function Bound(target: Target, best: Option<Match>): nat {
    if best.Some? then |best.value.stem| else |target| + 1
  }

  /** The generic rule selected among the first `n` rules. */
  ghost function SelectGeneric(rules: seq<Rule>, target: Target, n: nat): Option<Match>
    requires n <= |rules|
  {
    if n == 0 then None
    else
      var best := SelectGeneric(rules, target, n - 1);
      var stem := FirstImproving(rules[n - 1].targets, target, Bound(target, best));
      if stem.Some? then Some(Match(stem.value, InstantiateRule(stem.value, rules[n - 1]))) else best
  }

  lemma SubstituteNext(pat: string, src: seq<string>, i: nat, dst: seq<string>)
    requires i < |src|
    ensures dst + Substitute(pat, src[..i + 1]) == dst + Substitute(pat, src[..i]) + [Instantiate(pat, src[i])]
  {
    hide Instantiate;
    assert src[..i + 1] == src[..i] + [src[i]];
    assert Substitute(pat, src[..i + 1]) == Substitute(pat, src[..i]) + [Instantiate(pat, src[i])];
  }

  method SubstitutePattern(pat: string, src: seq<string>, dst: seq<string>) returns (res: seq<string>)
    ensures res == dst + Substitute(pat, src)
  {
    res := dst;
    for i := 0 to |src|
      invariant res == dst + Substitute(pat, src[..i])
    {
      hide Substitute;
      SubstituteNext(pat, src, i, dst);
      var pos := Find(src[i], '%');
      if pos == |src[i]| {
        res := res + [src[i]];
      } else {
        res := res + [src[i][..pos] + pat + src[i][pos + 1..]];
      }
    }
    assert src[..|src|] == src;
  }

  lemma ImprovingIsUnique(pattern: string, target: Target, plen: nat, stem: string)
    requires Matches(pattern, target, stem)
    ensures Improving(pattern, target, plen) == if |stem| < plen then Some(stem) else None
  {
    MatchLength(pattern, target, stem);
    forall other | Matches(pattern, target, other) ensures other == stem {
      MatchLength(pattern, target, other);
    }
    hide Matches;
  }

  /** The checks made on a pattern before the comparison only skip patterns that cannot match. */
  lemma NoImprovement(pattern: string, target: Target, plen: nat)
    requires |target| < |pattern| || plen <= |target| - (|pattern| - 1) || Find(pattern, '%') == |pattern|
    ensures Improving(pattern, target, plen) == None
  {
    forall stem | Matches(pattern, target, stem) ensures |stem| >= plen {
      MatchLength(pattern, target, stem);
    }
    hide Matches;
  }

  lemma ComparisonDecides(pattern: string, target: Target, plen: nat)
    requires '%' in pattern && |pattern| <= |target| && |target| - (|pattern| - 1) < plen
    ensures var pos := Find(pattern, '%');
            var stem := target[pos..pos + (|target| - (|pattern| - 1))];
            Improving(pattern, target, plen)
            == if pattern[..pos] == target[..pos] && pattern[pos + 1..] == target[|target| - (|pattern| - (pos + 1))..]
               then Some(stem) else None
  {
    ComparisonIsMatch(pattern, target);
    var pos := Find(pattern, '%');
    var stem := target[pos..pos + (|target| - (|pattern| - 1))];
    if Matches(pattern, target, stem) {
      ImprovingIsUnique(pattern, target, plen, stem);
    } else {
      forall other ensures !Matches(pattern, target, other) {
        if Matches(pattern, target, other) { MatchLength(pattern, target, other); }
      }
    }
    hide Matches;
  }

  /** Compares one pattern with the target, keeping it only when its stem is shorter than `plen`. */
  method TryPattern(pattern: string, target: Target, plen: nat) returns (stem: Option<string>)
    ensures stem == Improving(pattern, target, plen)
  {
    hide Improving;
    var tlen, len := |target|, |pattern|;
    var pos := Find(pattern, '%');
    if tlen < len || plen <= tlen - (len - 1) || pos == len {
      NoImprovement(pattern, target, plen);
      return None;
    }
    ComparisonDecides(pattern, target, plen);
    var len2 := len - (pos + 1);
    if pattern[..pos] != target[..pos] || pattern[pos + 1..] != target[tlen - len2..] { return None; }
    stem := Some(target[pos..pos + (tlen - (len - 1))]);
  }

  /** The first pattern of one rule with a stem shorter than `plen`; later patterns are not compared. */
  method FirstShorter(patterns: seq<string>, target: Target, plen: nat) returns (stem: Option<string>)
    ensures stem == FirstImproving(patterns, target, plen)
  {
    hide Improving;
    for j := 0 to |patterns|
      invariant FirstImproving(patterns, target, plen) == FirstImproving(patterns, target, plen, j)
    {
      stem := TryPattern(patterns[j], target, plen);
      if stem.Some? { return; }
    }
    return None;
  }

  method FindGenericRule(rules: seq<Rule>, target: Target) returns (best: Option<Match>)
    ensures best == SelectGeneric(rules, target, |rules|)
  {
    hide FirstImproving, Substitute;
    best := None;
    for i := 0 to |rules|
      invariant best == SelectGeneric(rules, target, i)
    {
      var plen := if best.Some? then |best.value.stem| else |target| + 1;
      var stem := FirstShorter(rules[i].targets, target, plen);
      if stem.Some? {
        var targets := SubstitutePattern(stem.value, rules[i].targets, []);
        var deps := SubstitutePattern(stem.value, rules[i].deps, []);
        var wdeps := SubstitutePattern(stem.value, rules[i].wdeps, []);
        best := Some(Match(stem.value, Rule(targets, deps, wdeps, rules[i].script)));
        assert best.value.rule == InstantiateRule(stem.value, rules[i]);
      }
    }
  }

  lemma {:induction false} FirstImprovingIsMatch(patterns: seq<string>, target: Target, plen: nat, j: nat)
    requires j <= |patterns|
    ensures var stem := FirstImproving(patterns, target, plen, j);
            if stem.Some? then
              |stem.value| < plen && exists k :: j <= k < |patterns| && Matches(patterns[k], target, stem.value)
            else
              forall k, other :: j <= k < |patterns| && Matches(patterns[k], target, other) ==> |other| >= plen
    decreases |patterns| - j
  {
    if j < |patterns| {
      var here := Improving(patterns[j], target, plen);
      if here.Some? {
        assert Matches(patterns[j], target, here.value);
      } else {
        FirstImprovingIsMatch(patterns, target, plen, j + 1);
      }
    }
  }

  /** The rule selected among the first `n` rules comes from a match of one of them, and is missed only if none matches. */
  lemma {:induction false} SelectedMatches(rules: seq<Rule>, target: Target, n: nat)
    requires n <= |rules|
    ensures var best := SelectGeneric(rules, target, n);
            if best.Some? then
              |best.value.stem| <= |target|
              && exists i, k :: 0 <= i < n && 0 <= k < |rules[i].targets|
                                && Matches(rules[i].targets[k], target, best.value.stem)
                                && best.value.rule == InstantiateRule(best.value.stem, rules[i])
            else
              forall i, k, stem :: 0 <= i < n && 0 <= k < |rules[i].targets| ==>
                                     !Matches(rules[i].targets[k], target, stem)
  {
    if n > 0 {
      SelectedMatches(rules, target, n - 1);
      var best := SelectGeneric(rules, target, n - 1);
      var patterns := rules[n - 1].targets;
      FirstImprovingIsMatch(patterns, target, Bound(target, best), 0);
      if FirstImproving(patterns, target, Bound(target, best)).None? && best.None? {
        forall k, stem | 0 <= k < |patterns| ensures !Matches(patterns[k], target, stem) {
          if Matches(patterns[k], target, stem) { MatchLength(patterns[k], target, stem); }
        }
      }
    }
  }

  /** The stem is no longer than that of any match of the patterns. */
  ghost predicate Shortest(patterns: seq<string>, target: Target, stem: string) {
    forall k, other :: 0 <= k < |patterns| && Matches(patterns[k], target, other) ==> |stem| <= |other|
  }

  /** The first pattern that matches has the shortest stem of all the patterns. */
  ghost predicate FirstIsShortest(patterns: seq<string>, target: Target) {
    forall j, stem :: 0 <= j < |patterns| && Matches(patterns[j], target, stem) && NoMatchBefore(patterns, target, j) ==>
      Shortest(patterns, target, stem)
  }

  ghost predicate NoMatchBefore(patterns: seq<string>, target: Target, j: nat) {
    forall k, other :: 0 <= k < j && k < |patterns| ==> !Matches(patterns[k], target, other)
  }

  lemma {:induction false} FirstImprovingAt(patterns: seq<string>, target: Target, plen: nat, j: nat) returns (k: nat)
    requires j <= |patterns|
    ensures var stem := FirstImproving(patterns, target, plen, j);
      stem.Some? ==>
        && j <= k < |patterns| && Matches(patterns[k], target, stem.value) && |stem.value| < plen
        && forall l, other :: j <= l < k && Matches(patterns[l], target, other) ==> |other| >= plen
    decreases |patterns| - j
  {
    k := j;
    if j < |patterns| && Improving(patterns[j], target, plen).None? {
      k := FirstImprovingAt(patterns, target, plen, j + 1);
    } else if j < |patterns| {
      assert Matches(patterns[j], target, Improving(patterns[j], target, plen).value);
    }
  }

  /** Among the patterns that match there is a first one. */
  lemma {:induction false} FirstMatch(patterns: seq<string>, target: Target, k: nat, stem: string) returns (j: nat, first: string)
    requires k < |patterns| && Matches(patterns[k], target, stem)
    ensures j <= k && Matches(patterns[j], target, first) && NoMatchBefore(patterns, target, j)
  {
    if l, other :| 0 <= l < k && Matches(patterns[l], target, other) {
      j, first := FirstMatch(patterns, target, l, other);
    } else {
      return k, stem;
    }
  }

  /** The inner loop finds the shortest stem of a rule, for every bound that it is given, exactly when the first pattern
      of the rule that matches has it. */
  lemma InnerLoopIsShortest(patterns: seq<string>, target: Target)
    ensures FirstIsShortest(patterns, target) <==>
      forall plen: nat :: var stem := FirstImproving(patterns, target, plen, 0); stem.Some? ==> Shortest(patterns, target, stem.value)
  {
    if FirstIsShortest(patterns, target) {
      forall plen: nat | FirstImproving(patterns, target, plen, 0).Some?
        ensures Shortest(patterns, target, FirstImproving(patterns, target, plen, 0).value)
      {
        InnerLoopShortest(patterns, target, plen);
      }
    } else {
      var j, stem :| 0 <= j < |patterns| && Matches(patterns[j], target, stem) && NoMatchBefore(patterns, target, j)
                     && !Shortest(patterns, target, stem);
      var plen := |target| + 1;
      MatchLength(patterns[j], target, stem);
      FirstImprovingIsMatch(patterns, target, plen, 0);
      var k := FirstImprovingAt(patterns, target, plen, 0);
      var found := FirstImproving(patterns, target, plen, 0).value;
      assert k == j by {
        assert k >= j;
        assert k > j ==> |stem| >= plen;
      }
      MatchLength(patterns[j], target, found);
      assert |found| == |stem|;
      assert !Shortest(patterns, target, found);
    }
  }

  lemma InnerLoopShortest(patterns: seq<string>, target: Target, plen: nat)
    requires FirstIsShortest(patterns, target) && FirstImproving(patterns, target, plen, 0).Some?
    ensures Shortest(patterns, target, FirstImproving(patterns, target, plen, 0).value)
  {
    var stem := FirstImproving(patterns, target, plen, 0).value;
    var k := FirstImprovingAt(patterns, target, plen, 0);
    var j, first := FirstMatch(patterns, target, k, stem);
    assert Shortest(patterns, target, first) && |first| <= |stem|;
    assert j == k;
    MatchLength(patterns[j], target, first);
    MatchLength(patterns[k], target, stem);
    hide Matches;
  }

  /** In every rule the first pattern that matches has the shortest stem. */
  ghost predicate FirstIsShortestPerRule(rules: seq<Rule>, target: Target) {
    forall i :: 0 <= i < |rules| ==> FirstIsShortest(rules[i].targets, target)
  }

  /** The stem of rule `chosen` is no longer than any match of the first `n` rules, and shorter than those of earlier rules. */
  ghost predicate ShortestFrom(rules: seq<Rule>, target: Target, n: nat, chosen: nat, len: nat)
    requires n <= |rules|
  {
    forall i, k, other :: 0 <= i < n && 0 <= k < |rules[i].targets| && Matches(rules[i].targets[k], target, other)
                          ==> if i < chosen then len < |other| else len <= |other|
  }

  /** Rule `i` offers exactly the match `best`. */
  ghost predicate Offers(rules: seq<Rule>, target: Target, i: nat, best: Match)
    requires i < |rules|
  {
    && best.rule == InstantiateRule(best.stem, rules[i])
    && exists k :: 0 <= k < |rules[i].targets| && Matches(rules[i].targets[k], target, best.stem)
  }

  ghost predicate ShortestAndEarliest(rules: seq<Rule>, target: Target, n: nat, best: Option<Match>)
    requires n <= |rules|
  {
    if best.None? then ShortestFrom(rules, target, n, n, |target|)
    else exists i :: 0 <= i < n && Offers(rules, target, i, best.value) && ShortestFrom(rules, target, n, i, |best.value.stem|)
  }

  /** When the first match of every rule is its shortest, the selected stem is a shortest one, and the earliest among those. */
  lemma {:induction false} ShortestStemWins(rules: seq<Rule>, target: Target, n: nat)
    requires n <= |rules| && FirstIsShortestPerRule(rules, target)
    ensures ShortestAndEarliest(rules, target, n, SelectGeneric(rules, target, n))
  {
    hide Matches, FirstIsShortest, FirstImproving, InstantiateRule;
    if n == 0 {
      assert ShortestFrom(rules, target, 0, 0, |target|);
    } else {
      ShortestStemWins(rules, target, n - 1);
      hide ShortestAndEarliest;
      NextRule(rules, target, n, SelectGeneric(rules, target, n - 1));
    }
  }

  /** One more rule: its stem replaces the selected one exactly when it is shorter. */
  lemma NextRule(rules: seq<Rule>, target: Target, n: nat, best: Option<Match>)
    requires 0 < n <= |rules| && FirstIsShortest(rules[n - 1].targets, target) && ShortestAndEarliest(rules, target, n - 1, best)
    ensures var stem := FirstImproving(rules[n - 1].targets, target, Bound(target, best));
      ShortestAndEarliest(rules, target, n,
                          if stem.Some? then Some(Match(stem.value, InstantiateRule(stem.value, rules[n - 1]))) else best)
  {
    hide Matches, FirstIsShortest, FirstImproving, InstantiateRule, ShortestAndEarliest, Shortest;
    var stem := FirstImproving(rules[n - 1].targets, target, Bound(target, best));
    FirstImprovingIsMatch(rules[n - 1].targets, target, Bound(target, best), 0);
    if stem.Some? {
      InnerLoopShortest(rules[n - 1].targets, target, Bound(target, best));
      BetterRule(rules, target, n, best, stem.value);
    } else {
      SameRule(rules, target, n, best);
    }
  }

  lemma BetterRule(rules: seq<Rule>, target: Target, n: nat, best: Option<Match>, stem: string)
    requires 0 < n <= |rules| && ShortestAndEarliest(rules, target, n - 1, best)
    requires |stem| < Bound(target, best) && Shortest(rules[n - 1].targets, target, stem)
    requires Offers(rules, target, n - 1, Match(stem, InstantiateRule(stem, rules[n - 1])))
    ensures ShortestAndEarliest(rules, target, n, Some(Match(stem, InstantiateRule(stem, rules[n - 1]))))
  {
    hide Matches, InstantiateRule;
    var last := rules[n - 1];
    var k :| 0 <= k < |last.targets| && Matches(last.targets[k], target, stem);
    forall i, j, other | 0 <= i < n && 0 <= j < |rules[i].targets| && Matches(rules[i].targets[j], target, other)
      ensures if i < n - 1 then |stem| < |other| else |stem| <= |other|
    {
      if i < n - 1 { Beaten(rules, target, n - 1, best, i, j, other); }
    }
    assert ShortestFrom(rules, target, n, n - 1, |stem|);
  }

  /** What was selected so far bounds every match seen so far from below. */
  lemma Beaten(rules: seq<Rule>, target: Target, n: nat, best: Option<Match>, i: nat, j: nat, other: string)
    requires i < n <= |rules| && j < |rules[i].targets| && Matches(rules[i].targets[j], target, other)
    requires ShortestAndEarliest(rules, target, n, best)
    ensures Bound(target, best) <= |other|
  {
    MatchLength(rules[i].targets[j], target, other);
    hide Matches;
  }

  lemma SameRule(rules: seq<Rule>, target: Target, n: nat, best: Option<Match>)
    requires 0 < n <= |rules| && ShortestAndEarliest(rules, target, n - 1, best)
    requires var last := rules[n - 1];
             forall k, other :: 0 <= k < |last.targets| && Matches(last.targets[k], target, other) ==> |other| >= Bound(target, best)
    ensures ShortestAndEarliest(rules, target, n, best)
  {
    hide Matches, Offers;
    if best.Some? {
      var i :| 0 <= i < n - 1 && Offers(rules, target, i, best.value) && ShortestFrom(rules, target, n - 1, i, |best.value.stem|);
      assert ShortestFrom(rules, target, n, i, |best.value.stem|);
    }
  }

  /** Without that condition a longer stem can win: the later, better pattern of the same rule is skipped. */
  lemma LongerStemCanWin()
    ensures var rules := [Rule(["%", "a%"], [], [], "touch $@")];
            && SelectGeneric(rules, "ab", 1).Some?
            && SelectGeneric(rules, "ab", 1).value.stem == "ab"
            && Matches(rules[0].targets[1], "ab", "b")
  {
    var rules := [Rule(["%", "a%"], [], [], "touch $@")];
    assert Instantiate("ab", "%") == "ab" && Matches("%", "ab", "ab");
    assert Find("a%", '%') == 1 by { assert Find("a%", '%', 1) == 1; }
    assert Instantiate("b", "a%") == "ab" && Matches("a%", "ab", "b");
    forall stem | Matches("%", "ab", stem) ensures stem == "ab" { MatchLength("%", "ab", stem); }
    assert SelectGeneric(rules, "ab", 0) == None;
    assert Improving("%", "ab", 3) == Some("ab");
    assert FirstImproving(rules[0].targets, "ab", 3) == Some("ab");
  }

  // Specific rules.

  /** Every specific rule is filed under its own targets. */
  ghost predicate FiledUnderTargets(specific: map<Target, Rule>) {
    forall t :: t in specific ==> t in specific[t].targets
  }

  function MergeRule(dest: Rule, src: Rule): Rule {
    dest.(deps := dest.deps + src.deps, wdeps := dest.wdeps + src.wdeps)
  }

  /** The rule with the prerequisites of the specific rules of `targets`, up to the first one that has a script. */
  ghost function MergeSpecific(rule: Rule, targets: seq<Target>, specific: map<Target, Rule>): (r: Rule)
    ensures r.targets == rule.targets && r.script == rule.script
    decreases targets
  {
    if targets == [] then rule
    else if targets[0] !in specific then MergeSpecific(rule, targets[1..], specific)
    else if specific[targets[0]].script != "" then rule
    else MergeSpecific(MergeRule(rule, specific[targets[0]]), targets[1..], specific)
  }

  /** The rule for building `target`; it has no targets when there is none. */
  ghost function RuleFor(specific: map<Target, Rule>, generic: seq<Rule>, target: Target): Rule {
    if target in specific && specific[target].script != "" then specific[target]
    else
      var found := SelectGeneric(generic, target, |generic|);
      if found.None? then (if target in specific then specific[target] else NO_RULE)
      else MergeSpecific(found.value.rule, found.value.rule.targets, specific)
  }

  method FindRule(specific: map<Target, Rule>, generic: seq<Rule>, target: Target) returns (rule: Rule)
    ensures rule == RuleFor(specific, generic, target)
    ensures HasScript(specific, target) ==> rule == specific[target]
    ensures !HasScript(specific, target) && !MatchesAny(generic, target) ==>
      rule == if target in specific then specific[target] else NO_RULE
    ensures !HasScript(specific, target) && MatchesAny(generic, target) ==>
      exists i, k, stem :: 0 <= i < |generic| && 0 <= k < |generic[i].targets| && Matches(generic[i].targets[k], target, stem)
                           && MadeFrom(specific, generic[i], stem, rule)
  {
    RuleIsMade(specific, generic, target);
    hide MadeFrom, MatchesAny;
    if target in specific && specific[target].script != "" {
      return specific[target];
    }
    var found := FindGenericRule(generic, target);
    SelectedMatches(generic, target, |generic|);
    rule := if found.Some? then found.value.rule else NO_RULE;
    if rule.targets == [] && target in specific {
      return specific[target];
    }
    if |rule.targets| == 1 {
      SingleTarget(specific, generic, target);
      if target in specific { rule := MergeRule(rule, specific[target]); }
      return;
    }
    var targets := rule.targets;
    for j := 0 to |targets|
      invariant MergeSpecific(rule, targets[j..], specific) == RuleFor(specific, generic, target)
    {
      assert targets[j..][0] == targets[j] && targets[j..][1..] == targets[j + 1..];
      if targets[j] in specific {
        if specific[targets[j]].script != "" { return; }
        rule := MergeRule(rule, specific[targets[j]]);
      }
    }
  }

  /** A selected generic rule lists the target it was selected for. */
  lemma SelectedLists(rules: seq<Rule>, target: Target)
    ensures var best := SelectGeneric(rules, target, |rules|);
            best.Some? ==> target in best.value.rule.targets
  {
    SelectedMatches(rules, target, |rules|);
    var best := SelectGeneric(rules, target, |rules|);
    if best.Some? {
      var i, k :| 0 <= i < |rules| && 0 <= k < |rules[i].targets|
                  && Matches(rules[i].targets[k], target, best.value.stem)
                  && best.value.rule == InstantiateRule(best.value.stem, rules[i]);
      assert best.value.rule.targets[k] == target;
    }
  }

  /** The shortcut taken for a single-target generic rule is the general merge. */
  lemma SingleTarget(specific: map<Target, Rule>, generic: seq<Rule>, target: Target)
    requires target !in specific || specific[target].script == ""
    ensures var best := SelectGeneric(generic, target, |generic|);
            best.Some? && |best.value.rule.targets| == 1 ==>
              RuleFor(specific, generic, target)
              == if target in specific then MergeRule(best.value.rule, specific[target]) else best.value.rule
  {
    SelectedLists(generic, target);
    var best := SelectGeneric(generic, target, |generic|);
    if best.Some? && |best.value.rule.targets| == 1 {
      var rule := best.value.rule;
      assert rule.targets[0] == target && rule.targets[1..] == [];
      var merged := if target in specific then MergeRule(rule, specific[target]) else rule;
      assert MergeSpecific(merged, rule.targets[1..], specific) == merged;
    }
  }

  /** The rule found for a target builds that target; none is found exactly when nothing specific or generic applies. */
  lemma RuleListsTarget(specific: map<Target, Rule>, generic: seq<Rule>, target: Target)
    requires FiledUnderTargets(specific)
    ensures var rule := RuleFor(specific, generic, target);
            && (rule.targets != [] ==> target in rule.targets)
            && (rule.targets == [] <==>
                target !in specific
                && forall i, k, stem :: 0 <= i < |generic| && 0 <= k < |generic[i].targets| ==>
                                          !Matches(generic[i].targets[k], target, stem))
  {
    SelectedLists(generic, target);
    SelectedMatches(generic, target, |generic|);
  }

  // What the rule found for a target asks for.

  predicate HasScript(specific: map<Target, Rule>, target: Target) {
    target in specific && specific[target].script != ""
  }

  /** The place of the first target whose specific rule has a script; `|targets|` when there is none. */
  ghost function FirstScripted(specific: map<Target, Rule>, targets: seq<Target>): (n: nat)
    ensures n <= |targets| && forall j :: 0 <= j < n ==> !HasScript(specific, targets[j])
    ensures n < |targets| ==> HasScript(specific, targets[n])
  {
    if targets == [] || HasScript(specific, targets[0]) then 0 else FirstScripted(specific, targets[1..]) + 1
  }

  /** The prerequisites that the specific rules of the targets name, one target after the other. */
  ghost function DepsOf(specific: map<Target, Rule>, targets: seq<Target>): seq<Target> {
    if targets == [] then []
    else (if targets[0] in specific then specific[targets[0]].deps else []) + DepsOf(specific, targets[1..])
  }

  ghost function WdepsOf(specific: map<Target, Rule>, targets: seq<Target>): seq<Target> {
    if targets == [] then []
    else (if targets[0] in specific then specific[targets[0]].wdeps else []) + WdepsOf(specific, targets[1..])
  }

  lemma {:induction false} MergeCollects(rule: Rule, targets: seq<Target>, specific: map<Target, Rule>)
    ensures var (merged, n) := (MergeSpecific(rule, targets, specific), FirstScripted(specific, targets));
      && merged.deps == rule.deps + DepsOf(specific, targets[..n])
      && merged.wdeps == rule.wdeps + WdepsOf(specific, targets[..n])
    decreases |targets|
  {
    var n := FirstScripted(specific, targets);
    if n == 0 {
      assert targets[..n] == [];
    } else {
      var first, rest := targets[0], targets[1..];
      assert targets[..n][0] == first && targets[..n][1..] == rest[..n - 1];
      MergeCollects(if first in specific then MergeRule(rule, specific[first]) else rule, rest, specific);
      if first in specific {
        var src := specific[first];
        assert rule.deps + src.deps + DepsOf(specific, rest[..n - 1]) == rule.deps + (src.deps + DepsOf(specific, rest[..n - 1]));
        assert rule.wdeps + src.wdeps + WdepsOf(specific, rest[..n - 1]) == rule.wdeps + (src.wdeps + WdepsOf(specific, rest[..n - 1]));
      }
    }
  }

  /** The words with the first `%` of each replaced by the stem. */
  ghost predicate Instantiated(stem: string, words: seq<string>, result: seq<string>) {
    |result| == |words| && forall j :: 0 <= j < |words| ==> result[j] == Instantiate(stem, words[j])
  }

  lemma InstantiateReplaces(stem: string, front: string, back: string)
    ensures '%' !in front ==> Instantiate(stem, front) == front && Instantiate(stem, front + "%" + back) == front + stem + back
  {
    if '%' !in front {
      var word := front + "%" + back;
      assert word[|front|] == '%' && forall i :: 0 <= i < |front| ==> word[i] == front[i];
      assert Find(word, '%') == |front|;
      assert word[..|front|] == front && word[|front| + 1..] == back;
    }
  }

  ghost predicate MatchesAny(generic: seq<Rule>, target: Target) {
    exists i, k, stem :: 0 <= i < |generic| && 0 <= k < |generic[i].targets| && Matches(generic[i].targets[k], target, stem)
  }

  /** The targets of a generic rule for the stem, and its prerequisites followed by those that the specific rules of the
      targets name, up to the first one with a script. */
  ghost predicate MadeFrom(specific: map<Target, Rule>, source: Rule, stem: string, rule: Rule) {
    var named, deps, wdeps := rule.targets[..FirstScripted(specific, rule.targets)], |source.deps|, |source.wdeps|;
    && Instantiated(stem, source.targets, rule.targets) && rule.script == source.script
    && deps <= |rule.deps| && Instantiated(stem, source.deps, rule.deps[..deps]) && rule.deps[deps..] == DepsOf(specific, named)
    && wdeps <= |rule.wdeps| && Instantiated(stem, source.wdeps, rule.wdeps[..wdeps]) && rule.wdeps[wdeps..] == WdepsOf(specific, named)
  }

  /** Without a specific rule that has a script, the rule found is made from a generic rule that matches, if there is one. */
  lemma RuleMerges(specific: map<Target, Rule>, generic: seq<Rule>, target: Target) returns (i: nat, k: nat, stem: string)
    requires !HasScript(specific, target) && MatchesAny(generic, target)
    ensures i < |generic| && k < |generic[i].targets| && Matches(generic[i].targets[k], target, stem)
    ensures SelectGeneric(generic, target, |generic|).Some? && stem == SelectGeneric(generic, target, |generic|).value.stem
    ensures MadeFrom(specific, generic[i], stem, RuleFor(specific, generic, target))
  {
    SelectedMatches(generic, target, |generic|);
    hide MadeFrom;
    var best := SelectGeneric(generic, target, |generic|).value;
    i, k :| 0 <= i < |generic| && 0 <= k < |generic[i].targets|
            && Matches(generic[i].targets[k], target, best.stem) && best.rule == InstantiateRule(best.stem, generic[i]);
    stem := best.stem;
    MergeMakes(specific, generic[i], stem);
  }

  lemma RuleIsMade(specific: map<Target, Rule>, generic: seq<Rule>, target: Target)
    ensures !HasScript(specific, target) && !MatchesAny(generic, target) ==>
      RuleFor(specific, generic, target) == if target in specific then specific[target] else NO_RULE
    ensures !HasScript(specific, target) && MatchesAny(generic, target) ==>
      exists i, k, stem :: 0 <= i < |generic| && 0 <= k < |generic[i].targets| && Matches(generic[i].targets[k], target, stem)
                           && MadeFrom(specific, generic[i], stem, RuleFor(specific, generic, target))
  {
    SelectedMatches(generic, target, |generic|);
    hide MadeFrom;
    if !HasScript(specific, target) && MatchesAny(generic, target) {
      var i, k, stem := RuleMerges(specific, generic, target);
    }
  }

  lemma MergeMakes(specific: map<Target, Rule>, source: Rule, stem: string)
    ensures var rule := InstantiateRule(stem, source); MadeFrom(specific, source, stem, MergeSpecific(rule, rule.targets, specific))
  {
    var rule := InstantiateRule(stem, source);
    MergeCollects(rule, rule.targets, specific);
    hide MergeSpecific, FirstScripted, DepsOf, WdepsOf;
  }

  /** Where the generic rule has a single target, all the prerequisites of a specific rule without script are kept. */
  lemma SpecificKept(specific: map<Target, Rule>, generic: seq<Rule>, target: Target)
    requires target in specific && specific[target].script == ""
    requires var best := SelectGeneric(generic, target, |generic|); best.Some? ==> |best.value.rule.targets| == 1
    ensures var rule := RuleFor(specific, generic, target);
      && (forall d :: d in specific[target].deps ==> d in rule.deps)
      && (forall d :: d in specific[target].wdeps ==> d in rule.wdeps)
  {
    SelectedLists(generic, target);
    var best := SelectGeneric(generic, target, |generic|);
    if best.Some? {
      var targets := best.value.rule.targets;
      assert targets[0] == target && targets[1..] == [];
      MergeCollects(best.value.rule, targets, specific);
      assert FirstScripted(specific, targets) == 1 && targets[..1][0] == target && targets[..1][1..] == [];
      assert DepsOf(specific, []) == [] && WdepsOf(specific, []) == [];
      assert DepsOf(specific, targets[..1]) == specific[target].deps + [];
      assert WdepsOf(specific, targets[..1]) == specific[target].wdeps + [];
    }
  }
}
