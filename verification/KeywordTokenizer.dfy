/** A tokenizer that gives every keyword and every character an ordinal. */
module KeywordTokenizer {
  import opened Prelude

  /** The text of the tokens: the keywords from ordinal `first` on, and the characters. */
  datatype Codes = Codes(keywords: seq<string>, first: nat, unmangle: map<nat, string>)

  const UNKNOWN := "UNKNOWN"

  predicate IsKeyword(k: Codes, token: nat) { k.first <= token < k.first + |k.keywords| }

  predicate Readable(k: Codes, token: nat) { IsKeyword(k, token) || token in k.unmangle }

  function Reading(k: Codes, token: nat): string {
    if IsKeyword(k, token) then k.keywords[token - k.first]
    else if token in k.unmangle then k.unmangle[token]
    else ""
  }

  ghost predicate AllReadable(k: Codes, tokens: seq<nat>) { forall i :: 0 <= i < |tokens| ==> Readable(k, tokens[i]) }

  ghost function Decoded(k: Codes, tokens: seq<nat>): string {
    if tokens == [] then "" else Reading(k, tokens[0]) + Decoded(k, tokens[1..])
  }

  lemma {:induction false} DecodedConcat(k: Codes, a: seq<nat>, b: seq<nat>)
    ensures Decoded(k, a + b) == Decoded(k, a) + Decoded(k, b)
  {
    if a == [] {
      assert a + b == b;
    } else {
      assert (a + b)[1..] == a[1..] + b;
      DecodedConcat(k, a[1..], b);
    }
  }

  // ---------------------------------------------------------------- replacing a keyword

  /** Replaces the occurrences of a pattern from left to right; an empty pattern occurs before every element and at
      the end. */
  function Replace(tokens: seq<nat>, pattern: seq<nat>, token: nat): (r: seq<nat>)
    ensures forall i :: 0 <= i < |r| ==> r[i] == token || r[i] in tokens
    decreases |tokens|
  {
    if pattern == [] then if tokens == [] then [token] else [token, tokens[0]] + Replace(tokens[1..], pattern, token)
    else if pattern <= tokens then [token] + Replace(tokens[|pattern|..], pattern, token)
    else if tokens == [] then []
    else [tokens[0]] + Replace(tokens[1..], pattern, token)
  }

  /** Replacing a pattern by a token that reads like it does not change the text. */
  lemma {:induction false} ReplaceKeepsText(k: Codes, tokens: seq<nat>, pattern: seq<nat>, token: nat)
    requires Decoded(k, pattern) == Reading(k, token)
    ensures Decoded(k, Replace(tokens, pattern, token)) == Decoded(k, tokens)
    decreases |tokens|
  {
    hide Reading;
    if pattern == [] {
      if tokens == [] {
        assert Decoded(k, [token]) == Reading(k, token) + "";
      } else {
        var rest := Replace(tokens[1..], pattern, token);
        ReplaceKeepsText(k, tokens[1..], pattern, token);
        assert [token, tokens[0]] + rest == [token] + ([tokens[0]] + rest);
        assert Decoded(k, [token] + ([tokens[0]] + rest)) == Reading(k, token) + Decoded(k, [tokens[0]] + rest);
        assert ([tokens[0]] + rest)[1..] == rest;
      }
    } else if pattern <= tokens {
      var rest := tokens[|pattern|..];
      assert tokens == pattern + rest;
      DecodedConcat(k, pattern, rest);
      ReplaceKeepsText(k, rest, pattern, token);
      assert ([token] + Replace(rest, pattern, token))[1..] == Replace(rest, pattern, token);
    } else if tokens != [] {
      var rest := Replace(tokens[1..], pattern, token);
      ReplaceKeepsText(k, tokens[1..], pattern, token);
      assert ([tokens[0]] + rest)[1..] == rest;
    }
  }

  /** A pattern with a token that does not occur is never replaced. */
  lemma {:induction false} NothingReplaced(tokens: seq<nat>, pattern: seq<nat>, token: nat, absent: nat)
    requires absent in pattern && absent !in tokens
    ensures Replace(tokens, pattern, token) == tokens
    decreases |tokens|
  {
    if tokens != [] {
      NothingReplaced(tokens[1..], pattern, token, absent);
    }
  }

  // ---------------------------------------------------------------- what a pass does

  ghost predicate OccursAt(pattern: seq<nat>, tokens: seq<nat>, i: nat) {
    i + |pattern| <= |tokens| && tokens[i..i + |pattern|] == pattern
  }

  /** The pieces with a separator between them. */
  ghost function Joined(pieces: seq<seq<nat>>, separator: seq<nat>): seq<nat>
    requires pieces != []
  {
    if |pieces| == 1 then pieces[0] else pieces[0] + separator + Joined(pieces[1..], separator)
  }

  ghost predicate Nowhere(pattern: seq<nat>, tokens: seq<nat>) { forall i :: 0 <= i <= |tokens| ==> !OccursAt(pattern, tokens, i) }

  /** The first occurrence of the pattern in the piece followed by it is the one behind the piece. */
  ghost predicate OnlyBehind(pattern: seq<nat>, piece: seq<nat>) {
    var all := piece + pattern;
    forall i :: 0 <= i < |piece| ==> !OccursAt(pattern, all, i)
  }

  /** Cut at the leftmost occurrences: behind each piece the pattern follows, and it occurs nowhere earlier; in the last piece
      it does not occur. */
  ghost predicate CutAt(pieces: seq<seq<nat>>, pattern: seq<nat>) {
    && pieces != []
    && (forall n :: 0 <= n < |pieces| - 1 ==> OnlyBehind(pattern, pieces[n]))
    && Nowhere(pattern, pieces[|pieces| - 1])
  }

  ghost predicate PassOver(pieces: seq<seq<nat>>, tokens: seq<nat>, pattern: seq<nat>, token: nat, replaced: seq<nat>) {
    CutAt(pieces, pattern) && tokens == Joined(pieces, pattern) && replaced == Joined(pieces, [token])
  }

  /** The token between all the elements, and around them. */
  ghost predicate Interleaved(tokens: seq<nat>, token: nat, replaced: seq<nat>) {
    && |replaced| == 2 * |tokens| + 1 && replaced[2 * |tokens|] == token
    && forall i {:trigger tokens[i]} :: 0 <= i < |tokens| ==> replaced[2 * i] == token && replaced[2 * i + 1] == tokens[i]
  }

  /** The pieces between the leftmost occurrences of a pattern, with the token in place of each. An empty pattern occurs
      before every element and at the end. */
  ghost predicate Pass(tokens: seq<nat>, pattern: seq<nat>, token: nat, replaced: seq<nat>) {
    if pattern == [] then Interleaved(tokens, token, replaced)
    else exists pieces :: PassOver(pieces, tokens, pattern, token, replaced)
  }

  lemma {:induction false} ReplaceIsPass(tokens: seq<nat>, pattern: seq<nat>, token: nat)
    ensures Pass(tokens, pattern, token, Replace(tokens, pattern, token))
    decreases |tokens|
  {
    if pattern == [] {
      ReplaceNothing(tokens, token);
    } else {
      var pieces := PassPieces(tokens, pattern, token);
      assert PassOver(pieces, tokens, pattern, token, Replace(tokens, pattern, token));
    }
  }

  lemma {:induction false} ReplaceNothing(tokens: seq<nat>, token: nat)
    ensures Pass(tokens, [], token, Replace(tokens, [], token))
    decreases |tokens|
  {
    if tokens != [] {
      ReplaceNothing(tokens[1..], token);
      var rest := Replace(tokens[1..], [], token);
      forall i | 0 <= i < |tokens|
        ensures ([token, tokens[0]] + rest)[2 * i] == token && ([token, tokens[0]] + rest)[2 * i + 1] == tokens[i]
      {
        if i > 0 { assert tokens[1..][i - 1] == tokens[i]; }
      }
    }
  }

  lemma {:induction false} PassPieces(tokens: seq<nat>, pattern: seq<nat>, token: nat) returns (pieces: seq<seq<nat>>)
    requires pattern != []
    ensures pieces != [] && CutAt(pieces, pattern)
    ensures tokens == Joined(pieces, pattern)
    ensures Replace(tokens, pattern, token) == Joined(pieces, [token])
    decreases |tokens|
  {
    hide Joined, CutAt;
    if pattern <= tokens {
      var rest := PassPieces(tokens[|pattern|..], pattern, token);
      pieces := [[]] + rest;
      NothingBefore(rest, pattern);
      NothingBefore(rest, [token]);
      CutBehind(rest, pattern);
    } else if tokens == [] {
      pieces := [[]];
      OnePiece(pattern, token);
    } else {
      var rest := PassPieces(tokens[1..], pattern, token);
      pieces := [[tokens[0]] + rest[0]] + rest[1..];
      JoinedLonger(rest, pattern, tokens[0]);
      JoinedLonger(rest, [token], tokens[0]);
      CutLonger(rest, pattern, tokens);
    }
  }

  lemma OnePiece(pattern: seq<nat>, token: nat)
    requires pattern != []
    ensures var pieces: seq<seq<nat>> := [[]];
      CutAt(pieces, pattern) && Joined(pieces, pattern) == [] && Joined(pieces, [token]) == []
  {
  }

  lemma NothingBefore(rest: seq<seq<nat>>, separator: seq<nat>)
    requires rest != []
    ensures Joined([[]] + rest, separator) == separator + Joined(rest, separator)
  {
    var pieces: seq<seq<nat>> := [[]] + rest;
    assert pieces[1..] == rest && [] + separator == separator;
  }

  lemma CutBehind(rest: seq<seq<nat>>, pattern: seq<nat>)
    requires CutAt(rest, pattern)
    ensures CutAt([[]] + rest, pattern)
  {
    var pieces: seq<seq<nat>> := [[]] + rest;
    hide Nowhere, OccursAt;
    forall n | 0 <= n < |pieces| - 1
      ensures OnlyBehind(pattern, pieces[n])
    {
      if n > 0 { assert pieces[n] == rest[n - 1]; }
    }
    assert pieces[|pieces| - 1] == rest[|rest| - 1];
  }

  lemma JoinedLonger(rest: seq<seq<nat>>, separator: seq<nat>, first: nat)
    requires rest != []
    ensures Joined([[first] + rest[0]] + rest[1..], separator) == [first] + Joined(rest, separator)
  {
    var pieces := [[first] + rest[0]] + rest[1..];
    assert pieces[1..] == rest[1..];
    if |rest| > 1 {
      assert [first] + rest[0] + separator + Joined(rest[1..], separator) == [first] + (rest[0] + separator + Joined(rest[1..], separator));
    }
  }

  /** The text goes on with the pattern, or ends, behind the first piece. */
  lemma CutLonger(rest: seq<seq<nat>>, pattern: seq<nat>, tokens: seq<nat>)
    requires CutAt(rest, pattern) && tokens != [] && tokens[1..] == Joined(rest, pattern) && pattern != [] && !(pattern <= tokens)
    ensures CutAt([[tokens[0]] + rest[0]] + rest[1..], pattern)
  {
    var head := [tokens[0]] + rest[0];
    var pieces := [head] + rest[1..];
    hide OccursAt, Nowhere, OnlyBehind;
    forall n | 0 < n < |pieces| ensures pieces[n] == rest[n] {}
    JoinedLonger(rest, pattern, tokens[0]);
    assert pieces[1..] == rest[1..];
    if |rest| > 1 {
      assert OnlyBehind(pattern, rest[0]);
      LongerBehind(pattern, tokens[0], rest[0], Joined(rest[1..], pattern));
    } else {
      LongerNowhere(pattern, tokens[0], rest[0]);
    }
  }

  lemma LongerBehind(pattern: seq<nat>, first: nat, piece: seq<nat>, back: seq<nat>)
    requires OnlyBehind(pattern, piece) && !(pattern <= [first] + piece + pattern + back)
    ensures OnlyBehind(pattern, [first] + piece)
  {
    var all := [first] + piece + pattern;
    assert all == [first] + (piece + pattern);
    PrefixOfMore(pattern, all, back);
    forall i | 0 <= i < |[first] + piece|
      ensures !OccursAt(pattern, all, i)
    {
      NoneEarlier(pattern, first, piece + pattern, i);
    }
  }

  lemma LongerNowhere(pattern: seq<nat>, first: nat, piece: seq<nat>)
    requires Nowhere(pattern, piece) && !(pattern <= [first] + piece)
    ensures Nowhere(pattern, [first] + piece)
  {
    forall i | 0 <= i <= |piece| + 1
      ensures !OccursAt(pattern, [first] + piece, i)
    {
      NoneEarlier(pattern, first, piece, i);
    }
  }

  lemma PrefixOfMore(pattern: seq<nat>, front: seq<nat>, back: seq<nat>)
    ensures pattern <= front ==> pattern <= front + back
  {
  }

  lemma NoneEarlier(pattern: seq<nat>, first: nat, rest: seq<nat>, i: nat)
    requires !(pattern <= [first] + rest) && (i > 0 ==> !OccursAt(pattern, rest, i - 1))
    ensures !OccursAt(pattern, [first] + rest, i)
  {
    if i > 0 && i + |pattern| <= |rest| + 1 {
      assert ([first] + rest)[i..i + |pattern|] == rest[i - 1..i - 1 + |pattern|];
    }
  }

  /** What a pass leaves in front of its first token was there before. */
  lemma {:induction false} ReplaceKeepsFront(front: seq<nat>, tokens: seq<nat>, pattern: seq<nat>, token: nat)
    requires front <= Replace(tokens, pattern, token) && token !in front
    ensures front <= tokens
    decreases |tokens|
  {
    if front != [] {
      assert front[0] == Replace(tokens, pattern, token)[0] && front[0] in front;
      if pattern != [] && !(pattern <= tokens) && tokens != [] {
        assert front[1..] <= Replace(tokens[1..], pattern, token);
        ReplaceKeepsFront(front[1..], tokens[1..], pattern, token);
      }
    }
  }

  lemma NowhereBehindToken(p: seq<nat>, token: nat, rest: seq<nat>)
    requires p != [] && token !in p && Nowhere(p, rest)
    ensures Nowhere(p, [token] + rest)
  {
    var all := [token] + rest;
    forall i | 0 <= i <= |all|
      ensures !OccursAt(p, all, i)
    {
      if i == 0 && |p| <= |all| {
        assert all[0..|p|][0] == token && p[0] in p;
      } else if i > 0 && i + |p| <= |all| {
        assert all[i..i + |p|] == rest[i - 1..i - 1 + |p|];
        assert !OccursAt(p, rest, i - 1);
      }
    }
  }

  lemma NowhereBehind(p: seq<nat>, first: nat, rest: seq<nat>)
    requires Nowhere(p, rest) && !(p <= [first] + rest)
    ensures Nowhere(p, [first] + rest)
  {
    LongerNowhere(p, first, rest);
  }

  lemma NowhereLater(p: seq<nat>, tokens: seq<nat>, n: nat)
    requires Nowhere(p, tokens) && n <= |tokens|
    ensures Nowhere(p, tokens[n..]) && !(p <= tokens)
  {
    assert !OccursAt(p, tokens, 0);
    forall i | 0 <= i <= |tokens[n..]|
      ensures !OccursAt(p, tokens[n..], i)
    {
      if i + |p| <= |tokens| - n {
        assert tokens[n..][i..i + |p|] == tokens[i + n..i + n + |p|];
        assert !OccursAt(p, tokens, i + n);
      }
    }
  }

  lemma TokenNext(p: seq<nat>, first: nat, rest: seq<nat>, token: nat)
    requires p != [] && token !in p && rest != [] && rest[0] == token && p != [first]
    ensures !(p <= [first] + rest)
  {
    assert |p| > 1 ==> p[1] in p;
    assert |p| == 1 ==> p == [p[0]];
    assert ([first] + rest)[1] == token;
  }

  /** After its own pass a pattern occurs nowhere. */
  lemma {:induction false} GoneAfterPass(tokens: seq<nat>, pattern: seq<nat>, token: nat)
    requires pattern != [] && token !in pattern
    ensures Nowhere(pattern, Replace(tokens, pattern, token))
    decreases |tokens|
  {
    if pattern <= tokens {
      GoneAfterPass(tokens[|pattern|..], pattern, token);
      hide Nowhere;
      NowhereBehindToken(pattern, token, Replace(tokens[|pattern|..], pattern, token));
    } else if tokens != [] {
      GoneAfterPass(tokens[1..], pattern, token);
      if pattern <= Replace(tokens, pattern, token) { ReplaceKeepsFront(pattern, tokens, pattern, token); }
      hide Nowhere;
      NowhereBehind(pattern, tokens[0], Replace(tokens[1..], pattern, token));
    }
  }

  /** A pass brings no other pattern into being. */
  lemma {:induction false} GoneStaysGone(p: seq<nat>, tokens: seq<nat>, pattern: seq<nat>, token: nat)
    requires p != [] && token !in p && Nowhere(p, tokens)
    ensures Nowhere(p, Replace(tokens, pattern, token))
    decreases |tokens|
  {
    var after := Replace(tokens, pattern, token);
    if pattern == [] {
      if tokens == [] {
        assert after == [token] + [];
        NowhereBehindToken(p, token, []);
      } else {
        NowhereLater(p, tokens, 1);
        GoneStaysGone(p, tokens[1..], pattern, token);
        var rest := Replace(tokens[1..], pattern, token);
        hide Nowhere;
        TokenNext(p, tokens[0], rest, token);
        NowhereBehind(p, tokens[0], rest);
        NowhereBehindToken(p, token, [tokens[0]] + rest);
        assert after == [token] + ([tokens[0]] + rest);
      }
    } else if pattern <= tokens {
      NowhereLater(p, tokens, |pattern|);
      GoneStaysGone(p, tokens[|pattern|..], pattern, token);
      hide Nowhere;
      NowhereBehindToken(p, token, Replace(tokens[|pattern|..], pattern, token));
    } else if tokens != [] {
      NowhereLater(p, tokens, 1);
      GoneStaysGone(p, tokens[1..], pattern, token);
      if p <= after { ReplaceKeepsFront(p, tokens, pattern, token); }
      hide Nowhere;
      NowhereBehind(p, tokens[0], Replace(tokens[1..], pattern, token));
    }
  }

  lemma {:induction false} NotFoundNotReplaced(tokens: seq<nat>, pattern: seq<nat>, token: nat)
    requires pattern != [] && Nowhere(pattern, tokens)
    ensures Replace(tokens, pattern, token) == tokens
    decreases |tokens|
  {
    NowhereLater(pattern, tokens, 0);
    if tokens != [] {
      NowhereLater(pattern, tokens, 1);
      NotFoundNotReplaced(tokens[1..], pattern, token);
    }
  }

  lemma AloneNowhere(p: seq<nat>, token: nat)
    requires p != [] && token !in p
    ensures Nowhere(p, [token])
  {
    assert [token] + [] == [token];
    NowhereBehindToken(p, token, []);
  }

  lemma WholeReplaced(pattern: seq<nat>, token: nat)
    requires pattern != []
    ensures Replace(pattern, pattern, token) == [token]
  {
    assert pattern[|pattern|..] == [];
    assert Replace([], pattern, token) == [];
  }

  // ---------------------------------------------------------------- the tokenizer

  /** The ordinals of the characters of a string. */
  ghost function Mangled(mangle: map<char, nat>, unknown: nat, s: string): seq<nat> {
    seq(|s|, i requires 0 <= i < |s| => if s[i] in mangle then mangle[s[i]] else unknown)
  }

  ghost predicate Seen(mangle: map<char, nat>, s: string) { forall i :: 0 <= i < |s| ==> s[i] in mangle }

  lemma MangledStays(before: map<char, nat>, after: map<char, nat>, unknown: nat, s: string)
    requires Seen(before, s) && Extends(before, after)
    ensures Seen(after, s) && Mangled(after, unknown, s) == Mangled(before, unknown, s)
  {
  }

  /** The text that the tokens of a string stand for. */
  ghost function Text(mangle: map<char, nat>, unknown: nat, s: string): string {
    if s == "" then ""
    else (if s[0] in mangle && mangle[s[0]] != unknown then [s[0]] else UNKNOWN) + Text(mangle, unknown, s[1..])
  }

  ghost predicate Known(mangle: map<char, nat>, unknown: nat, s: string) {
    forall i :: 0 <= i < |s| ==> s[i] in mangle && mangle[s[i]] != unknown
  }

  ghost predicate AllKnown(mangle: map<char, nat>, unknown: nat, strings: seq<string>) {
    forall j :: 0 <= j < |strings| ==> Known(mangle, unknown, strings[j])
  }

  /** The tokens read like the string exactly when all its characters are known. */
  lemma {:induction false} TextOfKnown(mangle: map<char, nat>, unknown: nat, s: string)
    ensures |Text(mangle, unknown, s)| >= |s|
    ensures Text(mangle, unknown, s) == s <==> Known(mangle, unknown, s)
  {
    if s != "" {
      TextOfKnown(mangle, unknown, s[1..]);
      var text := Text(mangle, unknown, s);
      if s[0] in mangle && mangle[s[0]] != unknown {
        assert text == [s[0]] + Text(mangle, unknown, s[1..]);
        assert text[1..] == Text(mangle, unknown, s[1..]);
        assert forall i :: 0 < i < |s| ==> s[i] == s[1..][i - 1];
        assert forall i :: 0 <= i < |s| - 1 ==> s[1..][i] == s[i + 1];
      } else {
        assert |text| > |s|;
      }
    }
  }

  ghost predicate Extends<K, V>(before: map<K, V>, after: map<K, V>) {
    forall x :: x in before ==> x in after && after[x] == before[x]
  }

  lemma {:induction false} DecodedExtends(k: Codes, unmangle: map<nat, string>, tokens: seq<nat>)
    requires AllReadable(k, tokens) && Extends(k.unmangle, unmangle)
    ensures AllReadable(k.(unmangle := unmangle), tokens)
    ensures Decoded(k.(unmangle := unmangle), tokens) == Decoded(k, tokens)
  {
    if tokens != [] {
      assert Readable(k, tokens[0]);
      assert forall i :: 0 <= i < |tokens| - 1 ==> tokens[1..][i] == tokens[i + 1];
      DecodedExtends(k, unmangle, tokens[1..]);
      forall i | 0 <= i < |tokens|
        ensures Readable(k.(unmangle := unmangle), tokens[i])
      {
        assert Readable(k, tokens[i]);
      }
    }
  }

  ghost predicate TextAt(part: string, s: string, i: nat) { i + |part| <= |s| && s[i..i + |part|] == part }

  ghost predicate Within(part: string, s: string) { exists i: nat :: TextAt(part, s, i) }

  lemma Difference(a: string, b: string) returns (j: nat)
    requires |a| == |b| && a != b
    ensures j < |a| && a[j] != b[j]
  {
    j :| j < |a| && a[j] != b[j];
  }

  /** The string is keyword number `k`, no keyword is empty, and no earlier one occurs in it. */
  ghost predicate IsWhole(keywords: seq<string>, k: nat, s: string) {
    && k < |keywords| && keywords[k] == s && "" !in keywords
    && forall j :: 0 <= j < k ==> !Within(keywords[j], s)
  }

  /** The keywords before number `idx` have had their pass. */
  ghost predicate Gone(keywords: seq<string>, mangle: map<char, nat>, unknown: nat, tokens: seq<nat>, idx: nat) {
    forall j :: 0 <= j < idx && j < |keywords| ==>
      Seen(mangle, keywords[j]) && (keywords[j] != "" ==> Nowhere(Mangled(mangle, unknown, keywords[j]), tokens))
  }

  /** A string that is a keyword is left alone until its pass and is a single token from then on. */
  ghost predicate Sole(k: Codes, mangle: map<char, nat>, unknown: nat, s: string, tokens: seq<nat>, idx: nat) {
    forall n :: IsWhole(k.keywords, n, s) && (n == 0 || Known(mangle, unknown, s)) ==>
      tokens == if idx <= n then Mangled(mangle, unknown, s) else [k.first + n]
  }

  class KeywordTokenizer {
    const numReservedTokens: nat
    const unknownOrdinal: nat
    const keywords: seq<string>
    var nextMangleOrd: nat
    var mangleDict: map<char, nat>
    var unmangleDict: map<nat, string>
    var frozen: bool

    function Reader(): Codes
      reads this
    {
      Codes(keywords, numReservedTokens, unmangleDict)
    }

    /** Keywords and characters have different ordinals, the two dictionaries are inverse to each other, and only a
        frozen tokenizer knows characters that it cannot tell apart. */
    ghost predicate Valid()
      reads this
    {
      && numReservedTokens == unknownOrdinal + 1
      && numReservedTokens + |keywords| <= nextMangleOrd
      && unknownOrdinal in unmangleDict && unmangleDict[unknownOrdinal] == UNKNOWN
      && (forall o: nat :: o in unmangleDict && o != unknownOrdinal ==>
           && numReservedTokens + |keywords| <= o < nextMangleOrd
           && |unmangleDict[o]| == 1 && unmangleDict[o][0] in mangleDict && mangleDict[unmangleDict[o][0]] == o)
      && (forall c :: c in mangleDict && mangleDict[c] != unknownOrdinal ==>
           mangleDict[c] in unmangleDict && unmangleDict[mangleDict[c]] == [c])
      && (!frozen ==> unknownOrdinal !in mangleDict.Values)
    }

    constructor (keywords: seq<string>, reserved: nat)
      ensures Valid() && !frozen && mangleDict == map[]
      ensures this.keywords == keywords && numReservedTokens == reserved + 1
    {
      this.numReservedTokens := reserved + 1;
      this.unknownOrdinal := reserved;
      this.keywords := keywords;
      this.nextMangleOrd := reserved + 1 + |keywords|;
      this.mangleDict := map[];
      this.unmangleDict := map[reserved := UNKNOWN];
      this.frozen := false;
    }

    method FreezeTokenList()
      requires Valid()
      modifies `frozen
      ensures Valid() && frozen
    {
      frozen := true;
    }

    /** The ordinals of the characters of a string, new ones for new characters unless the tokenizer is frozen. */
    method Mangle(s: string) returns (mangled: seq<nat>)
      requires Valid()
      modifies `mangleDict, `unmangleDict, `nextMangleOrd
      ensures Valid() && Extends(old(mangleDict), mangleDict) && Extends(old(unmangleDict), unmangleDict)
      ensures nextMangleOrd >= old(nextMangleOrd)
      ensures frozen ==> unmangleDict == old(unmangleDict) && nextMangleOrd == old(nextMangleOrd)
      ensures frozen ==> forall c :: c in mangleDict && c !in old(mangleDict) ==> mangleDict[c] == unknownOrdinal
      ensures |mangled| == |s| && forall i :: 0 <= i < |s| ==> s[i] in mangleDict && mangled[i] == mangleDict[s[i]]
    {
      for i := 0 to |s|
        modifies `mangleDict, `unmangleDict, `nextMangleOrd
        invariant Valid() && Extends(old(mangleDict), mangleDict) && Extends(old(unmangleDict), unmangleDict)
        invariant nextMangleOrd >= old(nextMangleOrd)
        invariant frozen ==> unmangleDict == old(unmangleDict) && nextMangleOrd == old(nextMangleOrd)
        invariant frozen ==> forall c :: c in mangleDict && c !in old(mangleDict) ==> mangleDict[c] == unknownOrdinal
        invariant forall j :: 0 <= j < i ==> s[j] in mangleDict
      {
        AddCharacter(s[i]);
      }
      var dict := mangleDict;
      mangled := seq(|s|, i requires 0 <= i < |s| && s[i] in dict => dict[s[i]]);
    }

    method AddCharacter(c: char)
      requires Valid()
      modifies `mangleDict, `unmangleDict, `nextMangleOrd
      ensures Valid() && c in mangleDict
      ensures c in old(mangleDict) ==>
        mangleDict == old(mangleDict) && unmangleDict == old(unmangleDict) && nextMangleOrd == old(nextMangleOrd)
      ensures c !in old(mangleDict) && frozen ==>
        mangleDict == old(mangleDict)[c := unknownOrdinal] && unmangleDict == old(unmangleDict) && nextMangleOrd == old(nextMangleOrd)
      ensures c !in old(mangleDict) && !frozen ==>
        && old(nextMangleOrd) !in old(unmangleDict)
        && mangleDict == old(mangleDict)[c := old(nextMangleOrd)]
        && unmangleDict == old(unmangleDict)[old(nextMangleOrd) := [c]]
        && nextMangleOrd == old(nextMangleOrd) + 1
    {
      if c !in mangleDict {
        if frozen {
          mangleDict := mangleDict[c := unknownOrdinal];
        } else {
          mangleDict := mangleDict[c := nextMangleOrd];
          unmangleDict := unmangleDict[nextMangleOrd := [c]];
          nextMangleOrd := nextMangleOrd + 1;
        }
      }
    }

    lemma {:induction false} DecodedMangled(s: string, mangled: seq<nat>)
      requires Valid() && |mangled| == |s| && forall i :: 0 <= i < |s| ==> s[i] in mangleDict && mangled[i] == mangleDict[s[i]]
      ensures AllReadable(Reader(), mangled)
      ensures Decoded(Reader(), mangled) == Text(mangleDict, unknownOrdinal, s)
      decreases |s|
    {
      if s != "" {
        DecodedMangled(s[1..], mangled[1..]);
        assert Reading(Reader(), mangled[0]) == if mangleDict[s[0]] != unknownOrdinal then [s[0]] else UNKNOWN;
        assert forall i :: 0 < i < |mangled| ==> mangled[i] == mangled[1..][i - 1];
      }
    }

    /** One pass of the tokenizer: the occurrences of a keyword become one token. */
    method ReplaceKeyword(tokens: seq<nat>, idx: nat) returns (replaced: seq<nat>)
      requires Valid() && idx < |keywords| && AllReadable(Reader(), tokens)
      modifies `mangleDict, `unmangleDict, `nextMangleOrd
      ensures Valid() && Extends(old(mangleDict), mangleDict) && Extends(old(unmangleDict), unmangleDict)
      ensures nextMangleOrd >= old(nextMangleOrd) && (frozen ==> nextMangleOrd == old(nextMangleOrd))
      ensures frozen ==> forall c :: c in mangleDict && c !in old(mangleDict) ==> mangleDict[c] == unknownOrdinal
      ensures AllReadable(Reader(), replaced)
      ensures Seen(mangleDict, keywords[idx])
      ensures Pass(tokens, Mangled(mangleDict, unknownOrdinal, keywords[idx]), numReservedTokens + idx, replaced)
      ensures replaced == Replace(tokens, Mangled(mangleDict, unknownOrdinal, keywords[idx]), numReservedTokens + idx)
      ensures unknownOrdinal !in tokens ==> unknownOrdinal !in replaced
      ensures !frozen || unknownOrdinal !in tokens || Known(old(mangleDict), unknownOrdinal, keywords[idx]) ==>
        Decoded(Reader(), replaced) == old(Decoded(Reader(), tokens))
    {
      var pattern := Mangle(keywords[idx]);
      var token := numReservedTokens + idx;
      DecodedExtends(old(Reader()), unmangleDict, tokens);
      assert Reader() == old(Reader()).(unmangle := unmangleDict);
      replaced := Replace(tokens, pattern, token);
      ReplaceIsPass(tokens, pattern, token);
      assert pattern == Mangled(mangleDict, unknownOrdinal, keywords[idx]);
      forall i | 0 <= i < |replaced|
        ensures Readable(Reader(), replaced[i])
      {
        if replaced[i] != token {
          var j :| 0 <= j < |tokens| && tokens[j] == replaced[i];
          assert Readable(Reader(), tokens[j]);
        }
      }
      if Known(mangleDict, unknownOrdinal, keywords[idx]) {
        DecodedMangled(keywords[idx], pattern);
        TextOfKnown(mangleDict, unknownOrdinal, keywords[idx]);
        ReplaceKeepsText(Reader(), tokens, pattern, token);
      } else if unknownOrdinal !in tokens {
        ghost var i :| 0 <= i < |keywords[idx]| && mangleDict[keywords[idx][i]] == unknownOrdinal;
        assert pattern[i] == unknownOrdinal;
        NothingReplaced(tokens, pattern, token, unknownOrdinal);
      }
    }

    lemma NoToken(s: string, idx: nat)
      requires Valid() && idx < |keywords|
      ensures numReservedTokens + idx !in Mangled(mangleDict, unknownOrdinal, s)
    {
    }

    lemma Distinct(c: char, d: char)
      requires Valid() && c in mangleDict && mangleDict[c] != unknownOrdinal && d in mangleDict && c != d
      ensures mangleDict[c] != mangleDict[d]
    {
    }

    /** Known characters have ordinals of their own, so that a text that does not occur in a string does not occur in its
        mangled form either. */
    lemma NotWithin(part: string, s: string)
      requires Valid() && Known(mangleDict, unknownOrdinal, s) && Seen(mangleDict, part) && !Within(part, s)
      ensures Nowhere(Mangled(mangleDict, unknownOrdinal, part), Mangled(mangleDict, unknownOrdinal, s))
    {
      var p, m := Mangled(mangleDict, unknownOrdinal, part), Mangled(mangleDict, unknownOrdinal, s);
      forall i | 0 <= i <= |m|
        ensures !OccursAt(p, m, i)
      {
        if i + |p| <= |m| {
          assert !TextAt(part, s, i);
          var j := Difference(part, s[i..i + |part|]);
          Distinct(s[i + j], part[j]);
          assert p[j] != m[i + j] && m[i..i + |p|][j] == m[i + j];
        }
      }
    }

    lemma GoneNext(before: map<char, nat>, tokens: seq<nat>, idx: nat, replaced: seq<nat>)
      requires Valid() && Gone(keywords, before, unknownOrdinal, tokens, idx) && Extends(before, mangleDict) && idx < |keywords| && Seen(mangleDict, keywords[idx])
      requires replaced == Replace(tokens, Mangled(mangleDict, unknownOrdinal, keywords[idx]), numReservedTokens + idx)
      ensures Gone(keywords, mangleDict, unknownOrdinal, replaced, idx + 1)
    {
      hide Replace, Nowhere;
      forall j | 0 <= j <= idx
        ensures Seen(mangleDict, keywords[j])
        ensures keywords[j] != "" ==> Nowhere(Mangled(mangleDict, unknownOrdinal, keywords[j]), replaced)
      {
        var pattern := Mangled(mangleDict, unknownOrdinal, keywords[idx]);
        NoToken(keywords[j], idx);
        if j < idx { MangledStays(before, mangleDict, unknownOrdinal, keywords[j]); }
        if keywords[j] != "" {
          if j == idx {
            GoneAfterPass(tokens, pattern, numReservedTokens + idx);
          } else {
            GoneStaysGone(Mangled(mangleDict, unknownOrdinal, keywords[j]), tokens, pattern, numReservedTokens + idx);
          }
        }
      }
    }

    lemma SoleNext(before: map<char, nat>, unmangle: map<nat, string>, s: string, tokens: seq<nat>, idx: nat, replaced: seq<nat>)
      requires Valid() && Sole(Codes(keywords, numReservedTokens, unmangle), before, unknownOrdinal, s, tokens, idx)
      requires Extends(before, mangleDict) && idx < |keywords|
      requires Seen(before, s) && Seen(mangleDict, keywords[idx])
      requires replaced == Replace(tokens, Mangled(mangleDict, unknownOrdinal, keywords[idx]), numReservedTokens + idx)
      ensures Sole(Reader(), mangleDict, unknownOrdinal, s, replaced, idx + 1)
    {
      hide Replace, Nowhere, Valid, Within;
      MangledStays(before, mangleDict, unknownOrdinal, s);
      forall k | IsWhole(keywords, k, s) && (k == 0 || Known(mangleDict, unknownOrdinal, s))
        ensures replaced == if idx < k then Mangled(mangleDict, unknownOrdinal, s) else [numReservedTokens + k]
      {
        var pattern := Mangled(mangleDict, unknownOrdinal, keywords[idx]);
        assert keywords[idx] in keywords && pattern != [];
        if idx < k {
          NotWithin(keywords[idx], s);
          NotFoundNotReplaced(tokens, pattern, numReservedTokens + idx);
        } else if idx == k {
          WholeReplaced(pattern, numReservedTokens + idx);
        } else {
          NoToken(keywords[idx], k);
          AloneNowhere(pattern, numReservedTokens + k);
          NotFoundNotReplaced(tokens, pattern, numReservedTokens + idx);
        }
      }
    }

    /** The pass of one keyword over what is left of `s`. */
    method NextPass(tokens: seq<nat>, idx: nat, ghost s: string) returns (replaced: seq<nat>)
      requires Valid() && idx < |keywords| && AllReadable(Reader(), tokens)
      requires Gone(keywords, mangleDict, unknownOrdinal, tokens, idx) && Seen(mangleDict, s)
      requires Sole(Reader(), mangleDict, unknownOrdinal, s, tokens, idx)
      modifies `mangleDict, `unmangleDict, `nextMangleOrd
      ensures Valid() && Extends(old(mangleDict), mangleDict) && Extends(old(unmangleDict), unmangleDict)
      ensures frozen ==> nextMangleOrd == old(nextMangleOrd)
      ensures frozen ==> forall c :: c in mangleDict && c !in old(mangleDict) ==> mangleDict[c] == unknownOrdinal
      ensures AllReadable(Reader(), replaced)
      ensures unknownOrdinal !in tokens ==> unknownOrdinal !in replaced
      ensures !frozen || unknownOrdinal !in tokens || Known(old(mangleDict), unknownOrdinal, keywords[idx]) ==>
        Decoded(Reader(), replaced) == old(Decoded(Reader(), tokens))
      ensures Gone(keywords, mangleDict, unknownOrdinal, replaced, idx + 1)
      ensures Sole(Reader(), mangleDict, unknownOrdinal, s, replaced, idx + 1)
    {
      ghost var before, unmangle := mangleDict, unmangleDict;
      replaced := ReplaceKeyword(tokens, idx);
      GoneNext(before, tokens, idx, replaced);
      SoleNext(before, unmangle, s, tokens, idx, replaced);
    }

    /** While the tokenizer is not frozen, and for strings of known characters, the tokens stand for the string; when
        the characters of the keywords are known, they do so only then. No keyword is left in them, and a string that is a
        keyword becomes its token. */
    method ToTokenList(s: string) returns (tokens: seq<nat>)
      requires Valid()
      modifies `mangleDict, `unmangleDict, `nextMangleOrd
      ensures Valid() && Extends(old(mangleDict), mangleDict) && Extends(old(unmangleDict), unmangleDict)
      ensures frozen ==> nextMangleOrd == old(nextMangleOrd)
      ensures AllReadable(Reader(), tokens) && forall i :: 0 <= i < |tokens| ==> tokens[i] < nextMangleOrd
      ensures !frozen ==> Decoded(Reader(), tokens) == s
      ensures frozen && Known(old(mangleDict), unknownOrdinal, s) ==> Decoded(Reader(), tokens) == s
      ensures frozen && AllKnown(old(mangleDict), unknownOrdinal, keywords) && Decoded(Reader(), tokens) == s ==>
        Known(old(mangleDict), unknownOrdinal, s)
      ensures forall j :: 0 <= j < |keywords| && keywords[j] != "" ==>
        Seen(mangleDict, keywords[j]) && Nowhere(Mangled(mangleDict, unknownOrdinal, keywords[j]), tokens)
      ensures forall k :: IsWhole(keywords, k, s) && (k == 0 || !frozen || Known(old(mangleDict), unknownOrdinal, s)) ==>
        tokens == [numReservedTokens + k]
    {
      hide Valid, AllReadable, Replace, Pass, Gone, Sole, Nowhere, Decoded, Text, IsWhole, Mangled;
      ghost var wasKnown := Known(mangleDict, unknownOrdinal, s);
      ghost var keywordsKnown := AllKnown(mangleDict, unknownOrdinal, keywords);
      tokens := Mangle(s);
      ghost var text := Text(mangleDict, unknownOrdinal, s);
      DecodedMangled(s, tokens);
      TextOfKnown(mangleDict, unknownOrdinal, s);
      BeforePasses(old(mangleDict), s, tokens);
      for idx := 0 to |keywords|
        modifies `mangleDict, `unmangleDict, `nextMangleOrd
        invariant Valid() && Extends(old(mangleDict), mangleDict) && Extends(old(unmangleDict), unmangleDict)
        invariant frozen ==> nextMangleOrd == old(nextMangleOrd)
        invariant AllReadable(Reader(), tokens)
        invariant wasKnown ==> unknownOrdinal !in tokens
        invariant !frozen || wasKnown || keywordsKnown ==> Decoded(Reader(), tokens) == text
        invariant Seen(mangleDict, s) && (!frozen || wasKnown ==> Known(mangleDict, unknownOrdinal, s))
        invariant Gone(keywords, mangleDict, unknownOrdinal, tokens, idx)
        invariant Sole(Reader(), mangleDict, unknownOrdinal, s, tokens, idx)
      {
        tokens := NextPass(tokens, idx, s);
      }
      AfterPasses(s, tokens);
      BelowNext(tokens);
    }

    lemma BelowNext(tokens: seq<nat>)
      requires Valid() && AllReadable(Reader(), tokens)
      ensures forall i :: 0 <= i < |tokens| ==> tokens[i] < nextMangleOrd
    {
      forall i | 0 <= i < |tokens| ensures tokens[i] < nextMangleOrd {
        assert Readable(Reader(), tokens[i]);
      }
    }

    lemma BeforePasses(before: map<char, nat>, s: string, tokens: seq<nat>)
      requires Valid() && Extends(before, mangleDict)
      requires |tokens| == |s| && forall i :: 0 <= i < |s| ==> s[i] in mangleDict && tokens[i] == mangleDict[s[i]]
      ensures Seen(mangleDict, s) && Gone(keywords, mangleDict, unknownOrdinal, tokens, 0)
      ensures Sole(Reader(), mangleDict, unknownOrdinal, s, tokens, 0)
      ensures Known(before, unknownOrdinal, s) ==> unknownOrdinal !in tokens
      ensures !frozen || Known(before, unknownOrdinal, s) ==> Known(mangleDict, unknownOrdinal, s)
    {
      assert tokens == Mangled(mangleDict, unknownOrdinal, s);
      hide Nowhere, IsWhole;
    }

    lemma AfterPasses(s: string, tokens: seq<nat>)
      requires Gone(keywords, mangleDict, unknownOrdinal, tokens, |keywords|)
      requires Sole(Reader(), mangleDict, unknownOrdinal, s, tokens, |keywords|)
      ensures forall j :: 0 <= j < |keywords| && keywords[j] != "" ==>
        Seen(mangleDict, keywords[j]) && Nowhere(Mangled(mangleDict, unknownOrdinal, keywords[j]), tokens)
      ensures forall k :: IsWhole(keywords, k, s) && (k == 0 || Known(mangleDict, unknownOrdinal, s)) ==> tokens == [numReservedTokens + k]
    {
      hide Nowhere, Mangled;
    }

    /** The text of the tokens; `None` for a token that has none. */
    method ToString(tokens: seq<nat>) returns (s: Option<string>)
      ensures s == if AllReadable(Reader(), tokens) then Some(Decoded(Reader(), tokens)) else None
    {
      var text := "";
      for i := 0 to |tokens|
        invariant AllReadable(Reader(), tokens[..i]) && text == Decoded(Reader(), tokens[..i])
      {
        var t := tokens[i];
        assert tokens[..i + 1] == tokens[..i] + [t];
        DecodedConcat(Reader(), tokens[..i], [t]);
        if t < |keywords| + numReservedTokens && t >= numReservedTokens {
          text := text + keywords[t - numReservedTokens];
        } else {
          if t !in unmangleDict {
            assert !Readable(Reader(), tokens[i]);
            return None;
          }
          text := text + unmangleDict[t];
        }
      }
      assert tokens[..|tokens|] == tokens;
      return Some(text);
    }

    /** How many tokens there are, once there will be no more. */
    method NumTokens() returns (n: Option<nat>)
      ensures n == if frozen then Some(nextMangleOrd) else None
    {
      n := if frozen then Some(nextMangleOrd) else None;
    }
  }
}
