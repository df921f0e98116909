/** The little language of context filters: atoms joined by `%` (and) or `+` (or), grouped by parentheses. */
module ContextFilter {
  import opened Prelude

  // ---------------------------------------------------------------- splitting at the top level

  predicate IsOperator(c: char) { c == '%' || c == '+' }

  function Flush(piece: string): seq<string> { if piece == "" then [] else [piece] }

  function Before(pieces: seq<string>, rest: Option<seq<string>>): Option<seq<string>> {
    if rest.None? then None else Some(pieces + rest.value)
  }

  /** The pieces that the rest of a specification gives, `depth` parentheses deep and with a piece begun. */
  function Scan(s: string, depth: nat, piece: string): Option<seq<string>> {
    if s == "" then if depth == 0 then Some(Flush(piece)) else None
    else if depth > 0 then
      if s[0] == ')' then
        if depth == 1 then Before(Flush(piece), Scan(s[1..], 0, "")) else Scan(s[1..], depth - 1, piece + [s[0]])
      else Scan(s[1..], if s[0] == '(' then depth + 1 else depth, piece + [s[0]])
    else if s[0] == '(' then Before(Flush(piece), Scan(s[1..], 1, ""))
    else if IsOperator(s[0]) then Before(Flush(piece) + [[s[0]]], Scan(s[1..], 0, ""))
    else Scan(s[1..], 0, piece + [s[0]])
  }

  lemma BeforeTwice(a: seq<string>, b: seq<string>, rest: Option<seq<string>>)
    ensures Before(a, Before(b, rest)) == Before(a + b, rest)
  {
    if rest.Some? {
      assert a + b + rest.value == a + (b + rest.value);
    }
  }

  lemma BeforeNothing(rest: Option<seq<string>>)
    ensures Before([], rest) == rest
  {
    if rest.Some? {
      assert [] + rest.value == rest.value;
    }
  }

  /** Splits into operators, groups without their parentheses, and what is between; `None` for a missing `)`. */
  method SplitToplevel(spec: string) returns (r: Option<seq<string>>)
    ensures r == Scan(spec, 0, "")
  {
    var depth: nat := 0;
    var pieces: seq<string> := [];
    var piece := "";
    BeforeNothing(Scan(spec, 0, ""));
    assert spec[0..] == spec;
    for i := 0 to |spec|
      invariant Scan(spec, 0, "") == Before(pieces, Scan(spec[i..], depth, piece))
    {
      var c := spec[i];
      assert spec[i..][0] == c && spec[i..][1..] == spec[i + 1..];
      assert pieces + [] == pieces;
      ghost var flushed := Flush(piece);
      BeforeTwice(pieces, flushed, Scan(spec[i + 1..], if depth == 0 then 1 else 0, ""));
      BeforeTwice(pieces, flushed + [[c]], Scan(spec[i + 1..], 0, ""));
      assert pieces + (flushed + [[c]]) == pieces + flushed + [[c]];
      if depth > 0 {
        if c == ')' {
          depth := depth - 1;
        } else if c == '(' {
          depth := depth + 1;
        }
        if depth > 0 {
          piece := piece + [c];
        } else {
          if piece != "" { pieces := pieces + [piece]; }
          piece := "";
        }
      } else if c == '(' {
        if piece != "" { pieces := pieces + [piece]; }
        piece := "";
        depth := depth + 1;
      } else if IsOperator(c) {
        if piece != "" { pieces := pieces + [piece]; }
        pieces := pieces + [[c]];
        piece := "";
      } else {
        piece := piece + [c];
      }
    }
    if depth != 0 { return None; }
    assert pieces + [] == pieces;
    if piece != "" { pieces := pieces + [piece]; }
    return Some(pieces);
  }

  function Concat(pieces: seq<string>): string {
    if pieces == [] then "" else pieces[0] + Concat(pieces[1..])
  }

  lemma {:induction false} ConcatAppend(a: seq<string>, b: seq<string>)
    ensures Concat(a + b) == Concat(a) + Concat(b)
  {
    if a == [] {
      assert a + b == b;
    } else {
      assert (a + b)[1..] == a[1..] + b;
      ConcatAppend(a[1..], b);
    }
  }

  lemma {:induction false} PieceFits(pieces: seq<string>, i: nat)
    requires i < |pieces| && "" !in pieces
    ensures |pieces[i]| + |pieces| - 1 <= |Concat(pieces)|
  {
    if i > 0 {
      PieceFits(pieces[1..], i - 1);
    } else if |pieces| > 1 {
      PieceFits(pieces[1..], 0);
    }
  }

  /** The pieces are not empty, and together they are the specification less the parentheses of the groups. */
  lemma {:induction false} PiecesFit(s: string, depth: nat, piece: string)
    requires Scan(s, depth, piece).Some?
    ensures "" !in Scan(s, depth, piece).value
    ensures |Concat(Scan(s, depth, piece).value)| <= |piece| + |s| - (if depth > 0 then 1 else 0)
    ensures |Concat(Scan(s, depth, piece).value)| == |piece| + |s| ==> Concat(Scan(s, depth, piece).value) == piece + s
    decreases |s|
  {
    hide Flush, Concat, IsOperator;
    FlushFits(piece);
    if s != "" {
      var c, rest := s[0], s[1..];
      assert s == [c] + rest && piece + [c] + rest == piece + s;
      if depth > 0 && c == ')' && depth == 1 {
        PiecesFit(rest, 0, "");
        GroupFits(piece, [], Scan(rest, 0, "").value);
      } else if depth > 0 {
        PiecesFit(rest, if c == ')' then depth - 1 else if c == '(' then depth + 1 else depth, piece + [c]);
      } else if c == '(' {
        PiecesFit(rest, 1, "");
        GroupFits(piece, [], Scan(rest, 1, "").value);
      } else if IsOperator(c) {
        PiecesFit(rest, 0, "");
        GroupFits(piece, [[c]], Scan(rest, 0, "").value);
        OperatorFits(piece, c, Scan(rest, 0, "").value, rest);
      } else {
        PiecesFit(rest, 0, piece + [c]);
      }
    }
  }

  /** What is put in front of the remaining pieces. */
  lemma GroupFits(piece: string, operator: seq<string>, rest: seq<string>)
    ensures Concat(Flush(piece) + operator + rest) == piece + Concat(operator) + Concat(rest)
    ensures operator == [] ==> Concat(Flush(piece) + rest) == piece + Concat(rest)
    ensures "" !in operator && "" !in rest ==> "" !in Flush(piece) + operator + rest
  {
    FlushFits(piece);
    hide Concat;
    ConcatAppend(Flush(piece), operator);
    ConcatAppend(Flush(piece) + operator, rest);
    ConcatAppend(Flush(piece), rest);
  }

  lemma OperatorFits(piece: string, c: char, pieces: seq<string>, rest: string)
    ensures Concat([[c]]) == [c] && "" !in [[c]]
    ensures Concat(pieces) == rest ==> piece + [c] + Concat(pieces) == piece + ([c] + rest)
  {
    assert [[c]][1..] == [];
  }

  lemma FlushFits(piece: string)
    ensures Concat(Flush(piece)) == piece && "" !in Flush(piece)
  {
    if piece != "" {
      assert Concat([piece]) == piece + "";
    }
  }

  // ---------------------------------------------------------------- the parser

  /** The filters that the closures stand for. */
  datatype Filter = Atom(name: string) | Both(left: Filter, right: Filter) | Either(left: Filter, right: Filter)

  /** A filter, a failed assertion, or a recursion without end. */
  datatype Result<+T> = Ok(value: T) | Malformed | Endless

  function Eval(filter: Filter, env: string -> bool): bool {
    match filter
    case Atom(name) => env(name)
    case Both(left, right) => Eval(left, env) && Eval(right, env)
    case Either(left, right) => Eval(left, env) || Eval(right, env)
  }

  function FilterAnd(filters: seq<Filter>): Filter
    requires filters != []
  {
    if |filters| == 1 then filters[0] else Both(filters[0], FilterAnd(filters[1..]))
  }

  function FilterOr(filters: seq<Filter>): Filter
    requires filters != []
  {
    if |filters| == 1 then filters[0] else Either(filters[0], FilterOr(filters[1..]))
  }

  predicate HasOperator(s: string) { '+' in s || '%' in s }

  /** Every other piece, from the first one on. */
  function Evens(pieces: seq<string>): (r: seq<string>)
    ensures forall i :: 0 <= i < |r| ==> r[i] in pieces
    ensures |r| == (|pieces| + 1) / 2
  {
    if |pieces| <= 1 then pieces else [pieces[0]] + Evens(pieces[2..])
  }

  function GetContextFilter(valid: string -> bool, spec: string): Result<Filter>
    decreases |spec|, 1, 0
  {
    if Scan(spec, 0, "").None? then Malformed
    else
      SplitFits(spec);
      var pieces := Scan(spec, 0, "").value;
      if !HasOperator(spec) then if valid(spec) then Ok(Atom(spec)) else Malformed
      else if |pieces| == 1 then
        if pieces[0] == spec then Endless else GetContextFilter(valid, pieces[0])
      else if |pieces| % 2 != 1 || (pieces[1] != "%" && pieces[1] != "+")
              || exists i :: 0 <= i < |pieces| && i % 2 == 1 && pieces[i] != pieces[1] then Malformed
      else
        var filters := GetAll(valid, Evens(pieces), |spec|);
        match filters
        case Ok(filters) => Ok(if pieces[1] == "%" then FilterAnd(filters) else FilterOr(filters))
        case Malformed => Malformed
        case Endless => Endless
  }

  /** The filters of all the pieces, or what goes wrong first. */
  function GetAll(valid: string -> bool, pieces: seq<string>, limit: nat): (r: Result<seq<Filter>>)
    requires forall i :: 0 <= i < |pieces| ==> |pieces[i]| < limit
    ensures r.Ok? ==> |r.value| == |pieces|
    decreases limit, 0, |pieces|
  {
    if pieces == [] then Ok([])
    else
      match GetContextFilter(valid, pieces[0])
      case Malformed => Malformed
      case Endless => Endless
      case Ok(filter) =>
        match GetAll(valid, pieces[1..], limit)
        case Malformed => Malformed
        case Endless => Endless
        case Ok(filters) => Ok([filter] + filters)
  }

  /** A piece is shorter than the specification unless it is all of it. */
  lemma SplitFits(spec: string)
    requires Scan(spec, 0, "").Some?
    ensures var pieces := Scan(spec, 0, "").value;
      forall i :: 0 <= i < |pieces| ==> |pieces[i]| < |spec| || (|pieces| == 1 && pieces[i] == spec)
  {
    PiecesFit(spec, 0, "");
    var pieces := Scan(spec, 0, "").value;
    assert "" + spec == spec;
    forall i | 0 <= i < |pieces|
      ensures |pieces[i]| < |spec| || (|pieces| == 1 && pieces[i] == spec)
    {
      PieceFits(pieces, i);
      if |pieces| == 1 { assert Concat(pieces) == pieces[0] + ""; }
    }
  }

  /** The parser calls itself on its own argument exactly when that is a lone operator. */
  lemma EndlessExactly(spec: string)
    ensures HasOperator(spec) && Scan(spec, 0, "") == Some([spec]) <==> spec == "%" || spec == "+"
  {
    if spec == "%" || spec == "+" {
      assert spec[1..] == "" && [spec[0]] == spec;
      var nothing: seq<string> := [];
      assert nothing + [[spec[0]]] + nothing == [spec];
    } else if HasOperator(spec) && Scan(spec, 0, "") == Some([spec]) {
      assert "" + spec == spec;
      LoneOperator(spec, "");
    }
  }

  lemma GroupIsShorter(s: string, piece: string)
    requires s != "" && s[0] == '(' && Scan(s, 0, piece).Some?
    ensures |Concat(Scan(s, 0, piece).value)| < |Concat([piece + s])|
  {
    PiecesFit(s[1..], 1, "");
    FlushFits(piece);
    ConcatAppend(Flush(piece), Scan(s[1..], 1, "").value);
    assert Concat([piece + s]) == piece + s + "";
  }

  lemma {:induction false} LoneOperator(s: string, piece: string)
    requires Scan(s, 0, piece) == Some([piece + s]) && HasOperator(s)
    ensures piece == "" && |s| == 1
    decreases |s|
  {
    if s[0] == '(' {
      GroupIsShorter(s, piece);
    } else if IsOperator(s[0]) {
      var pieces := Flush(piece) + [[s[0]]] + Scan(s[1..], 0, "").value;
      assert pieces == [piece + s] && pieces[|Flush(piece)|] == [s[0]];
    } else {
      assert piece + [s[0]] + s[1..] == piece + s;
      LoneOperator(s[1..], piece + [s[0]]);
    }
  }

  // ---------------------------------------------------------------- trees and how they are written

  datatype Tree = Leaf(name: string) | All(children: seq<Tree>) | Any(children: seq<Tree>)

  predicate Plain(name: string) {
    name != "" && forall i :: 0 <= i < |name| ==> !IsOperator(name[i]) && name[i] != '(' && name[i] != ')'
  }

  /** The leaves are valid atoms and every other node joins at least two trees. */
  ghost predicate WellFormed(valid: string -> bool, tree: Tree) {
    match tree
    case Leaf(name) => Plain(name) && valid(name)
    case All(children) => |children| >= 2 && forall i :: 0 <= i < |children| ==> WellFormed(valid, children[i])
    case Any(children) => |children| >= 2 && forall i :: 0 <= i < |children| ==> WellFormed(valid, children[i])
  }

  ghost predicate Holds(tree: Tree, env: string -> bool) {
    match tree
    case Leaf(name) => env(name)
    case All(children) => forall i :: 0 <= i < |children| ==> Holds(children[i], env)
    case Any(children) => exists i :: 0 <= i < |children| && Holds(children[i], env)
  }

  ghost function Print(tree: Tree): string
    decreases tree, 1
  {
    match tree
    case Leaf(name) => name
    case All(children) => Join(children, '%')
    case Any(children) => Join(children, '+')
  }

  ghost function PrintChild(tree: Tree): string
    decreases tree, 2
  {
    if tree.Leaf? then tree.name else "(" + Print(tree) + ")"
  }

  ghost function Join(children: seq<Tree>, op: char): string
    decreases children, 0
  {
    if children == [] then ""
    else if |children| == 1 then PrintChild(children[0])
    else PrintChild(children[0]) + [op] + Join(children[1..], op)
  }

  /** The pieces that a joined list of trees is split into. */
  ghost function Alternate(children: seq<Tree>, op: char): seq<string> {
    if children == [] then []
    else if |children| == 1 then [Print(children[0])]
    else [Print(children[0]), [op]] + Alternate(children[1..], op)
  }

  lemma {:induction false} ScanName(name: string, rest: string, depth: nat, piece: string)
    requires forall i :: 0 <= i < |name| ==> !IsOperator(name[i]) && name[i] != '(' && name[i] != ')'
    ensures Scan(name + rest, depth, piece) == Scan(rest, depth, piece + name)
  {
    if name == "" {
      assert name + rest == rest && piece + name == piece;
    } else {
      assert (name + rest)[0] == name[0] && (name + rest)[1..] == name[1..] + rest;
      ScanName(name[1..], rest, depth, piece + [name[0]]);
      assert piece + [name[0]] + name[1..] == piece + name;
    }
  }

  lemma NameFits(valid: string -> bool, tree: Tree)
    requires WellFormed(valid, tree)
    ensures Print(tree) != "" && (tree.Leaf? || HasOperator(Print(tree)))
  {
    match tree
    case Leaf(_) =>
    case All(children) => JoinHasOperator(children, '%');
    case Any(children) => JoinHasOperator(children, '+');
  }

  lemma JoinHasOperator(children: seq<Tree>, op: char)
    requires |children| >= 2
    ensures op in Join(children, op)
  {
    assert Join(children, op)[|PrintChild(children[0])|] == op;
  }

  /** Inside parentheses a printed tree is read as it stands. */
  lemma {:induction false} ScanInside(valid: string -> bool, tree: Tree, rest: string, depth: nat, piece: string)
    requires WellFormed(valid, tree) && depth >= 1
    ensures Scan(Print(tree) + rest, depth, piece) == Scan(rest, depth, piece + Print(tree))
    decreases tree, 1
  {
    match tree
    case Leaf(name) => ScanName(name, rest, depth, piece);
    case All(children) => ScanJoinInside(valid, children, '%', rest, depth, piece);
    case Any(children) => ScanJoinInside(valid, children, '+', rest, depth, piece);
  }

  lemma {:induction false} ScanJoinInside(valid: string -> bool, children: seq<Tree>, op: char, rest: string, depth: nat, piece: string)
    requires (forall i :: 0 <= i < |children| ==> WellFormed(valid, children[i])) && depth >= 1 && IsOperator(op)
    ensures Scan(Join(children, op) + rest, depth, piece) == Scan(rest, depth, piece + Join(children, op))
    decreases children, 0
  {
    if children == [] {
      assert "" + rest == rest && piece + "" == piece;
    } else if |children| == 1 {
      ScanChildInside(valid, children[0], rest, depth, piece);
    } else {
      var child, tail := PrintChild(children[0]), Join(children[1..], op);
      Regroup4(child, [op], tail, rest);
      ScanChildInside(valid, children[0], [op] + (tail + rest), depth, piece);
      ScanOne(op, tail + rest, depth, piece + child);
      ScanJoinInside(valid, children[1..], op, rest, depth, piece + child + [op]);
      Regroup4(piece, child, [op], tail);
      assert piece + child + [op] + tail == piece + (child + [op] + tail);
    }
  }

  lemma {:induction false} ScanChildInside(valid: string -> bool, tree: Tree, rest: string, depth: nat, piece: string)
    requires WellFormed(valid, tree) && depth >= 1
    ensures Scan(PrintChild(tree) + rest, depth, piece) == Scan(rest, depth, piece + PrintChild(tree))
    decreases tree, 2
  {
    if tree.Leaf? {
      ScanName(tree.name, rest, depth, piece);
    } else {
      var text := Print(tree);
      Regroup4("(", text, ")", rest);
      ScanOne('(', text + (")" + rest), depth, piece);
      ScanInside(valid, tree, ")" + rest, depth + 1, piece + "(");
      ScanOne(')', rest, depth + 1, piece + "(" + text);
      assert piece + "(" + text + ")" == piece + ("(" + text + ")");
    }
  }

  lemma Regroup4(a: string, b: string, c: string, d: string)
    ensures a + b + c + d == a + (b + (c + d))
  {
  }

  /** Inside parentheses, where the character does not end the group. */
  lemma ScanOne(c: char, rest: string, depth: nat, piece: string)
    requires depth >= 1 && (depth >= 2 || c != ')')
    ensures Scan([c] + rest, depth, piece)
            == Scan(rest, if c == '(' then depth + 1 else if c == ')' then depth - 1 else depth, piece + [c])
  {
    assert ([c] + rest)[1..] == rest;
  }

  /** At the top level a child of a printed tree is one piece, without its parentheses. */
  lemma ScanChild(valid: string -> bool, tree: Tree, rest: string)
    requires WellFormed(valid, tree) && (rest == "" || IsOperator(rest[0]))
    ensures Scan(PrintChild(tree) + rest, 0, "") == Before([Print(tree)], Scan(rest, 0, ""))
  {
    var text := Print(tree);
    NameFits(valid, tree);
    if tree.Leaf? {
      ScanName(text, rest, 0, "");
      assert "" + text == text;
      if rest == "" {
        var nothing: seq<string> := [];
        assert [text] + nothing == [text];
      } else {
        var nothing: seq<string> := [];
        assert nothing + [[rest[0]]] == [[rest[0]]];
        BeforeTwice([text], [[rest[0]]], Scan(rest[1..], 0, ""));
      }
    } else {
      Regroup4("(", text, ")", rest);
      assert ("(" + (text + (")" + rest)))[1..] == text + (")" + rest);
      BeforeNothing(Scan(text + (")" + rest), 1, ""));
      ScanInside(valid, tree, ")" + rest, 1, "");
      assert "" + text == text && (")" + rest)[1..] == rest;
    }
  }

  lemma {:induction false} ScanJoin(valid: string -> bool, children: seq<Tree>, op: char)
    requires children != [] && (forall i :: 0 <= i < |children| ==> WellFormed(valid, children[i])) && IsOperator(op)
    ensures Scan(Join(children, op), 0, "") == Some(Alternate(children, op))
  {
    var child := children[0];
    if |children| == 1 {
      ScanChild(valid, child, "");
      var nothing: seq<string> := [];
      assert PrintChild(child) + "" == PrintChild(child) && [Print(child)] + nothing == [Print(child)];
    } else {
      var tail := Join(children[1..], op);
      assert PrintChild(child) + [op] + tail == PrintChild(child) + ([op] + tail);
      ScanChild(valid, child, [op] + tail);
      ScanJoin(valid, children[1..], op);
      ScanOperator(op, tail);
      BeforeTwice([Print(child)], [[op]], Scan(tail, 0, ""));
      assert [Print(child)] + [[op]] == [Print(child), [op]];
    }
  }

  lemma ScanOperator(op: char, rest: string)
    requires IsOperator(op)
    ensures Scan([op] + rest, 0, "") == Before([[op]], Scan(rest, 0, ""))
  {
    assert ([op] + rest)[1..] == rest;
    var nothing: seq<string> := [];
    assert nothing + [[op]] == [[op]];
  }

  // ---------------------------------------------------------------- the round trip

  /** The filter that a tree is parsed into. */
  ghost function Expected(valid: string -> bool, tree: Tree): Filter
    requires WellFormed(valid, tree)
    decreases tree, 1
  {
    match tree
    case Leaf(name) => Atom(name)
    case All(children) => FilterAnd(ExpectedAll(valid, children))
    case Any(children) => FilterOr(ExpectedAll(valid, children))
  }

  ghost function ExpectedAll(valid: string -> bool, children: seq<Tree>): (r: seq<Filter>)
    requires forall i :: 0 <= i < |children| ==> WellFormed(valid, children[i])
    ensures |r| == |children|
    decreases children, 0
  {
    if children == [] then [] else [Expected(valid, children[0])] + ExpectedAll(valid, children[1..])
  }

  lemma {:induction false} AlternateParts(children: seq<Tree>, op: char)
    requires children != []
    ensures var pieces := Alternate(children, op);
      && |pieces| == 2 * |children| - 1
      && (forall i :: 0 <= i < |pieces| && i % 2 == 1 ==> pieces[i] == [op])
      && Evens(pieces) == Texts(children)
  {
    if |children| > 1 {
      AlternateParts(children[1..], op);
      var pieces, rest := Alternate(children, op), Alternate(children[1..], op);
      assert pieces[2..] == rest;
      forall i | 0 <= i < |pieces| && i % 2 == 1
        ensures pieces[i] == [op]
      {
        if i > 1 { assert pieces[i] == rest[i - 2]; }
      }
    }
  }

  ghost function Texts(children: seq<Tree>): seq<string> {
    if children == [] then [] else [Print(children[0])] + Texts(children[1..])
  }

  /** What is printed is parsed back into the filter of the tree. */
  lemma {:induction false} ParsePrinted(valid: string -> bool, tree: Tree)
    requires WellFormed(valid, tree)
    ensures GetContextFilter(valid, Print(tree)) == Ok(Expected(valid, tree))
    decreases tree, 1
  {
    match tree
    case Leaf(name) =>
      ScanName(name, "", 0, "");
      assert name + "" == name && "" + name == name;
    case All(children) => ParseJoined(valid, tree, children, '%');
    case Any(children) => ParseJoined(valid, tree, children, '+');
  }

  lemma {:induction false} ParseJoined(valid: string -> bool, tree: Tree, children: seq<Tree>, op: char)
    requires |children| >= 2 && forall i :: 0 <= i < |children| ==> WellFormed(valid, children[i])
    requires IsOperator(op)
    ensures GetContextFilter(valid, Join(children, op))
            == Ok(if op == '%' then FilterAnd(ExpectedAll(valid, children)) else FilterOr(ExpectedAll(valid, children)))
    decreases children, 1
  {
    var spec := Join(children, op);
    ScanJoin(valid, children, op);
    JoinHasOperator(children, op);
    AlternateParts(children, op);
    var pieces := Alternate(children, op);
    assert pieces[1] == [op];
    SplitFits(spec);
    assert forall i :: 0 <= i < |Evens(pieces)| ==> Evens(pieces)[i] in pieces;
    ParseTexts(valid, children, |spec|);
  }

  lemma {:induction false} ParseTexts(valid: string -> bool, children: seq<Tree>, limit: nat)
    requires forall i :: 0 <= i < |children| ==> WellFormed(valid, children[i])
    requires forall i :: 0 <= i < |Texts(children)| ==> |Texts(children)[i]| < limit
    ensures GetAll(valid, Texts(children), limit) == Ok(ExpectedAll(valid, children))
    decreases children, 0
  {
    if children != [] {
      ParsePrinted(valid, children[0]);
      var texts := Texts(children);
      assert texts[0] == Print(children[0]) && texts[1..] == Texts(children[1..]);
      ParseTexts(valid, children[1..], limit);
    }
  }

  lemma {:induction false} ExpectedMeans(valid: string -> bool, tree: Tree, env: string -> bool)
    requires WellFormed(valid, tree)
    ensures Eval(Expected(valid, tree), env) == Holds(tree, env)
    decreases tree, 1
  {
    match tree
    case Leaf(_) =>
    case All(children) =>
      ChildrenMean(valid, children, env);
      AndMeans(ExpectedAll(valid, children), env);
    case Any(children) =>
      ChildrenMean(valid, children, env);
      OrMeans(ExpectedAll(valid, children), env);
  }

  lemma {:induction false} ChildrenMean(valid: string -> bool, children: seq<Tree>, env: string -> bool)
    requires forall i :: 0 <= i < |children| ==> WellFormed(valid, children[i])
    ensures forall i :: 0 <= i < |children| ==> Eval(ExpectedAll(valid, children)[i], env) == Holds(children[i], env)
    decreases children, 0
  {
    if children != [] {
      ExpectedMeans(valid, children[0], env);
      ChildrenMean(valid, children[1..], env);
      forall i | 0 <= i < |children|
        ensures Eval(ExpectedAll(valid, children)[i], env) == Holds(children[i], env)
      {
        if i > 0 { assert children[i] == children[1..][i - 1]; }
      }
    }
  }

  lemma {:induction false} AndMeans(filters: seq<Filter>, env: string -> bool)
    requires filters != []
    ensures Eval(FilterAnd(filters), env) <==> forall i :: 0 <= i < |filters| ==> Eval(filters[i], env)
  {
    if |filters| > 1 {
      AndMeans(filters[1..], env);
      assert forall i :: 1 <= i < |filters| ==> filters[i] == filters[1..][i - 1];
      assert forall i :: 0 <= i < |filters| - 1 ==> filters[1..][i] == filters[i + 1];
    }
  }

  lemma {:induction false} OrMeans(filters: seq<Filter>, env: string -> bool)
    requires filters != []
    ensures Eval(FilterOr(filters), env) <==> exists i :: 0 <= i < |filters| && Eval(filters[i], env)
  {
    if |filters| > 1 {
      OrMeans(filters[1..], env);
      assert forall i :: 1 <= i < |filters| ==> filters[i] == filters[1..][i - 1];
      assert forall i :: 0 <= i < |filters| - 1 ==> filters[1..][i] == filters[i + 1];
    }
  }

  /** A printed tree is parsed, and the filter holds exactly where the tree does. */
  lemma RoundTrip(valid: string -> bool, tree: Tree, env: string -> bool)
    requires WellFormed(valid, tree)
    ensures var parsed := GetContextFilter(valid, Print(tree)); parsed.Ok? && Eval(parsed.value, env) == Holds(tree, env)
  {
    ParsePrinted(valid, tree);
    ExpectedMeans(valid, tree, env);
  }

  /** A printed tree of several atoms in parentheses splits into its own text alone. */
  lemma GroupedScan(valid: string -> bool, tree: Tree)
    requires WellFormed(valid, tree) && !tree.Leaf?
    ensures HasOperator("(" + Print(tree) + ")") && Scan("(" + Print(tree) + ")", 0, "") == Some([Print(tree)])
  {
    hide Print, WellFormed;
    var inner := Print(tree);
    var spec := "(" + inner + ")";
    NameFits(valid, tree);
    var k :| 0 <= k < |inner| && IsOperator(inner[k]);
    assert spec[k + 1] == inner[k];
    assert spec[0] == '(' && spec[1..] == inner + ")" && "" + inner == inner && ")"[1..] == "";
    ScanInside(valid, tree, ")", 1, "");
    var none: seq<string> := [];
    assert none + ([inner] + none) == [inner];
  }

  /** Parentheses around a whole specification of several atoms make no difference. */
  lemma GroupedTree(valid: string -> bool, tree: Tree, env: string -> bool)
    requires WellFormed(valid, tree) && !tree.Leaf?
    ensures var parsed := GetContextFilter(valid, "(" + Print(tree) + ")");
      parsed == GetContextFilter(valid, Print(tree)) && parsed.Ok? && Eval(parsed.value, env) == Holds(tree, env)
  {
    hide Print, WellFormed, Scan, HasOperator, Eval, Holds;
    GroupedScan(valid, tree);
    RoundTrip(valid, tree, env);
  }

  /** A node with a single leaf cannot be a child: an atom in parentheses splits into the atom alone, but is recognised
      only if the text with the parentheses is an atom itself. */
  lemma GroupedAtomFails(valid: string -> bool, name: string)
    requires Plain(name)
    ensures Scan("(" + name + ")", 0, "") == Some([name])
    ensures GetContextFilter(valid, "(" + name + ")") == if valid("(" + name + ")") then Ok(Atom("(" + name + ")")) else Malformed
  {
    var spec := "(" + name + ")";
    forall i | 0 <= i < |spec|
      ensures !IsOperator(spec[i])
    {
      if 0 < i < |spec| - 1 { assert spec[i] == name[i - 1]; }
    }
    assert !HasOperator(spec);
    assert spec[0] == '(' && spec[1..] == name + ")";
    ScanName(name, ")", 1, "");
    assert "" + name == name && ")"[1..] == "";
    var none: seq<string> := [];
    assert none + ([name] + none) == [name];
  }
}
