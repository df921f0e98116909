/** Splitting a string at separators outside brackets, and counting those separators: two different scanners. */
module BracketSplit {
  import opened Prelude

  /** The characters that open and close a bracket and the ones that separate. */
  datatype Pattern = Pattern(opens: set<char>, closes: set<char>, splits: set<char>)

  ghost predicate Disjoint(p: Pattern) { p.opens !! p.closes && p.opens !! p.splits && p.closes !! p.splits }

  function Weight(p: Pattern, c: char): int {
    if c in p.opens then 1 else if c in p.closes then -1 else 0
  }

  /** Opening less closing brackets before position `k`. */
  ghost function Depth(p: Pattern, s: string, k: nat): int
    requires k <= |s|
  {
    if k == 0 then 0 else Depth(p, s, k - 1) + Weight(p, s[k - 1])
  }

  ghost predicate SplitsAt(p: Pattern, s: string, k: nat)
    requires k < |s|
  {
    s[k] in p.splits && Depth(p, s, k) <= 0
  }

  ghost predicate NeverBelow(p: Pattern, s: string) { forall k :: 0 <= k <= |s| ==> Depth(p, s, k) >= 0 }

  // ---------------------------------------------------------------- the scanner of the splitter

  /** The end of the next match of a one-character pattern, one past the string when there is none. */
  method NextEnd(chars: set<char>, s: string, pos: nat) returns (end: nat)
    requires pos <= |s|
    ensures pos < end <= |s| + 1
    ensures forall i :: pos <= i < end - 1 && i < |s| ==> s[i] !in chars
    ensures end <= |s| ==> s[end - 1] in chars
  {
    end := pos + 1;
    while end <= |s| && s[end - 1] !in chars
      invariant pos < end <= |s| + 1
      invariant forall i :: pos <= i < end - 1 ==> s[i] !in chars
    {
      end := end + 1;
    }
  }

  lemma {:induction false} SameDepth(p: Pattern, s: string, a: nat, b: nat)
    requires a <= b <= |s|
    requires forall i :: a <= i < b ==> s[i] !in p.opens && s[i] !in p.closes
    ensures Depth(p, s, b) == Depth(p, s, a)
    decreases b
  {
    if a < b {
      SameDepth(p, s, a, b - 1);
    }
  }

  /** Splits at the first separator outside brackets. */
  method SplitByCharOutsideMatching(p: Pattern, s: string) returns (r: Option<(string, string)>)
    requires Disjoint(p)
    ensures r.None? ==> forall k :: 0 <= k < |s| ==> !SplitsAt(p, s, k)
    ensures r.Some? ==>
      var k := |r.value.0|;
      k < |s| && r.value == (s[..k], s[k..]) && SplitsAt(p, s, k) && forall j :: 0 <= j < k ==> !SplitsAt(p, s, j)
  {
    var counter: int := 0;
    var curpos: nat := 0;
    while curpos < |s| + 1
      invariant curpos <= |s| + 1
      invariant curpos <= |s| ==> counter == Depth(p, s, curpos)
      invariant forall j :: 0 <= j < curpos && j < |s| ==> !SplitsAt(p, s, j)
    {
      var nextOpen := NextEnd(p.opens, s, curpos);
      var nextClose := NextEnd(p.closes, s, curpos);
      var nextSplit := NextEnd(p.splits, s, curpos);
      if nextOpen < nextClose && nextOpen < nextSplit {
        SameDepth(p, s, curpos, nextOpen - 1);
        counter := counter + 1;
        curpos := nextOpen;
      } else if nextClose < nextOpen && (nextClose < nextSplit || (nextClose == nextSplit && counter > 0)) {
        SameDepth(p, s, curpos, nextClose - 1);
        counter := counter - 1;
        curpos := nextClose;
      } else {
        assert nextSplit <= |s| ==> nextSplit < nextOpen && nextSplit < nextClose;
        SameDepth(p, s, curpos, nextSplit - 1);
        if counter <= 0 {
          if nextSplit > |s| { return None; }
          return Some((s[..nextSplit - 1], s[nextSplit - 1..]));
        } else {
          curpos := nextSplit;
        }
      }
    }
    return None;
  }

  // ---------------------------------------------------------------- all the pieces

  /** The position of the first separator from `k` on. */
  ghost function FirstSplit(p: Pattern, s: string, k: nat): nat
    requires k <= |s|
    decreases |s| - k
  {
    if k == |s| || SplitsAt(p, s, k) then k else FirstSplit(p, s, k + 1)
  }

  lemma {:induction false} FirstSplitIsFirst(p: Pattern, s: string, k: nat)
    requires k <= |s|
    ensures var n := FirstSplit(p, s, k);
      k <= n <= |s| && (n < |s| ==> SplitsAt(p, s, n)) && forall j :: k <= j < n ==> !SplitsAt(p, s, j)
    decreases |s| - k
  {
    if k < |s| && !SplitsAt(p, s, k) {
      FirstSplitIsFirst(p, s, k + 1);
    }
  }

  ghost function Pieces(p: Pattern, s: string): seq<string>
    decreases |s|
  {
    FirstSplitIsFirst(p, s, 0);
    var n := FirstSplit(p, s, 0);
    if n == |s| then [s] else [s[..n]] + Pieces(p, s[n + 1..])
  }

  ghost function Separators(p: Pattern, s: string): string
    decreases |s|
  {
    FirstSplitIsFirst(p, s, 0);
    var n := FirstSplit(p, s, 0);
    if n == |s| then "" else [s[n]] + Separators(p, s[n + 1..])
  }

  lemma NextPiece(p: Pattern, left: string, splits: seq<string>)
    requires FirstSplit(p, left, 0) < |left|
    ensures var at := FirstSplit(p, left, 0);
      && left[at..][1..] == left[at + 1..]
      && splits + Pieces(p, left) == splits + [left[..at]] + Pieces(p, left[at + 1..])
  {
    hide SplitsAt, Depth, FirstSplit;
  }

  lemma LastPiece(p: Pattern, left: string)
    requires FirstSplit(p, left, 0) == |left|
    ensures Pieces(p, left) == [left]
  {
    hide SplitsAt, Depth, FirstSplit;
  }

  method MultisplitMatching(p: Pattern, s: string) returns (splits: seq<string>)
    requires Disjoint(p)
    ensures splits == Pieces(p, s)
  {
    hide SplitsAt, Depth, FirstSplit, Pieces;
    splits := [];
    var next := SplitByCharOutsideMatching(p, s);
    var rest: Option<string> := None;
    ghost var left := s;
    FirstSplitIsFirst(p, left, 0);
    while next.Some?
      invariant Pieces(p, s) == splits + Pieces(p, left)
      invariant rest.None? ==> left == s && splits == []
      invariant rest.Some? ==> rest.value != "" && left == rest.value[1..]
      invariant next.None? ==> FirstSplit(p, left, 0) == |left|
      invariant next.Some? ==>
        FirstSplit(p, left, 0) < |left| && next.value == (left[..FirstSplit(p, left, 0)], left[FirstSplit(p, left, 0)..])
      decreases |left|
    {
      var (before, after) := next.value;
      NextPiece(p, left, splits);
      rest := Some(after);
      splits := splits + [before];
      left := after[1..];
      FirstSplitIsFirst(p, left, 0);
      next := SplitByCharOutsideMatching(p, after[1..]);
    }
    LastPiece(p, left);
    if rest.Some? && rest.value != "" {
      splits := splits + [rest.value[1..]];
    } else {
      splits := splits + [s];
    }
  }

  /** The pieces with the separators between them. */
  ghost function Rejoined(pieces: seq<string>, separators: string): string
    requires |pieces| == |separators| + 1
  {
    if separators == "" then pieces[0] else pieces[0] + [separators[0]] + Rejoined(pieces[1..], separators[1..])
  }

  /** Nothing of the string is lost, the separators are separators, and no piece can be split further. */
  lemma {:induction false} PiecesRejoin(p: Pattern, s: string)
    ensures |Pieces(p, s)| == |Separators(p, s)| + 1 && Rejoined(Pieces(p, s), Separators(p, s)) == s
    ensures forall c :: c in Separators(p, s) ==> c in p.splits
    ensures forall i, k :: 0 <= i < |Pieces(p, s)| && 0 <= k < |Pieces(p, s)[i]| ==> !SplitsAt(p, Pieces(p, s)[i], k)
    decreases |s|
  {
    FirstSplitIsFirst(p, s, 0);
    var n := FirstSplit(p, s, 0);
    if n < |s| {
      PiecesRejoin(p, s[n + 1..]);
      assert s == s[..n] + [s[n]] + s[n + 1..];
      forall k | 0 <= k < n
        ensures !SplitsAt(p, s[..n], k)
      {
        PrefixDepth(p, s, n, k);
        assert s[..n][k] == s[k] && !SplitsAt(p, s, k);
      }
    }
  }

  lemma {:induction false} PrefixDepth(p: Pattern, s: string, n: nat, k: nat)
    requires k <= n <= |s|
    ensures Depth(p, s[..n], k) == Depth(p, s, k)
  {
    if k > 0 {
      PrefixDepth(p, s, n, k - 1);
    }
  }

  lemma {:induction false} SuffixDepth(p: Pattern, s: string, n: nat, k: nat)
    requires n + k <= |s|
    ensures Depth(p, s, n + k) == Depth(p, s, n) + Depth(p, s[n..], k)
  {
    if k > 0 {
      SuffixDepth(p, s, n, k - 1);
    }
  }

  // ---------------------------------------------------------------- the scanner of the counter

  /** The separators outside all brackets before position `k`. */
  ghost function Outside(p: Pattern, s: string, k: nat): nat
    requires k <= |s|
  {
    if k == 0 then 0 else Outside(p, s, k - 1) + if s[k - 1] in p.splits && Depth(p, s, k - 1) == 0 then 1 else 0
  }

  lemma {:induction false} NothingOutside(p: Pattern, s: string, a: nat, b: nat)
    requires a <= b <= |s| && forall i :: a <= i < b ==> s[i] !in p.splits
    ensures Outside(p, s, b) == Outside(p, s, a)
    decreases b
  {
    if a < b {
      NothingOutside(p, s, a, b - 1);
    }
  }

  /** Counts the separators outside brackets; `None` where an assertion fails, at a bracket that closes nothing. */
  method CountOutsideMatching(p: Pattern, s: string) returns (count: Option<nat>)
    requires Disjoint(p)
    ensures count.None? <==> !NeverBelow(p, s)
    ensures count.Some? ==> count.value == Outside(p, s, |s|)
  {
    var found: nat := 0;
    var depth: int := 0;
    var curpos: nat := 0;
    while curpos <= |s|
      invariant curpos <= |s| + 1
      invariant forall k :: 0 <= k <= curpos && k <= |s| ==> Depth(p, s, k) >= 0
      invariant curpos <= |s| ==> depth == Depth(p, s, curpos) && found == Outside(p, s, curpos)
      invariant curpos > |s| ==> found == Outside(p, s, |s|)
    {
      var nextOpen := NextEnd(p.opens, s, curpos);
      var nextClose := NextEnd(p.closes, s, curpos);
      var nextSub := NextEnd(p.splits, s, curpos);
      var nextPos := if nextOpen <= nextClose && nextOpen <= nextSub then nextOpen
                     else if nextClose <= nextSub then nextClose else nextSub;
      NothingOutside(p, s, curpos, nextPos - 1);
      forall k | curpos <= k < nextPos
        ensures Depth(p, s, k) == depth
      {
        SameDepth(p, s, curpos, k);
      }
      if nextPos == nextOpen {
        depth := depth + 1;
        curpos := nextPos;
      } else if nextPos == nextClose {
        depth := depth - 1;
        if depth < 0 {
          assert Depth(p, s, nextPos) < 0;
          return None;
        }
        curpos := nextPos;
      } else {
        if depth == 0 { found := found + 1; }
        curpos := nextPos;
      }
    }
    return Some(found);
  }

  /** The two scanners agree: where no bracket closes nothing, there is one piece more than separators counted. */
  lemma {:induction false} CountIsPieces(p: Pattern, s: string)
    requires NeverBelow(p, s) && Disjoint(p)
    ensures |Pieces(p, s)| == Outside(p, s, |s|) + 1
    decreases |s|
  {
    FirstSplitIsFirst(p, s, 0);
    var n := FirstSplit(p, s, 0);
    NoneBefore(p, s, n);
    if n < |s| {
      var rest := s[n + 1..];
      assert Depth(p, s, n) >= 0 && Depth(p, s, n + 1) == 0;
      forall k | 0 <= k <= |rest|
        ensures Depth(p, rest, k) >= 0
      {
        SuffixDepth(p, s, n + 1, k);
        assert Depth(p, s, n + 1 + k) >= 0;
      }
      OutsideSuffix(p, s, n + 1, |rest|);
      CountIsPieces(p, rest);
    }
  }

  lemma {:induction false} NoneBefore(p: Pattern, s: string, n: nat)
    requires n <= |s| && forall j :: 0 <= j < n ==> !SplitsAt(p, s, j)
    ensures Outside(p, s, n) == 0
  {
    if n > 0 {
      NoneBefore(p, s, n - 1);
      assert !SplitsAt(p, s, n - 1);
    }
  }

  lemma {:induction false} OutsideSuffix(p: Pattern, s: string, n: nat, k: nat)
    requires n + k <= |s| && Depth(p, s, n) == 0
    ensures Outside(p, s, n + k) == Outside(p, s, n) + Outside(p, s[n..], k)
  {
    if k > 0 {
      OutsideSuffix(p, s, n, k - 1);
      SuffixDepth(p, s, n, k - 1);
    }
  }
}
