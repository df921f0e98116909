/** The text of the dependency database: how names are escaped, read back, saved and loaded. */
module RemakeDatabase {
  import RemakeRules
  import opened RemakeState

  type Name = RemakeRules.Target

  type Db = map<Name, Record>

  // ---------------------------------------------------------------- escaping

  /** `strchr` also finds the terminating zero of its string. */
  const ZERO: char := '\0'

  predicate IsEscaped(c: char) { c == '"' || c == '\\' || c == '$' || c == '!' || c == ZERO }

  predicate IsQuoted(c: char) { c == ',' || c == ':' || c == ' ' || c == '\'' || c == ZERO }

  predicate NeedsQuotes(s: string) { exists i :: 0 <= i < |s| && (IsEscaped(s[i]) || IsQuoted(s[i])) }

  function EscapeChars(s: string): (r: string)
    ensures |s| <= |r| <= 2 * |s|
  {
    if s == "" then "" else (if IsEscaped(s[0]) then ['\\', s[0]] else [s[0]]) + EscapeChars(s[1..])
  }

  function Escaped(s: string): string {
    if NeedsQuotes(s) then ['"'] + EscapeChars(s) + ['"'] else s
  }

  lemma {:induction false} EscapeConcat(a: string, b: string)
    ensures EscapeChars(a + b) == EscapeChars(a) + EscapeChars(b)
  {
    if a == "" {
      assert a + b == b;
    } else {
      assert (a + b)[1..] == a[1..] + b;
      EscapeConcat(a[1..], b);
    }
  }

  lemma {:induction false} NothingToEscape(s: string)
    requires forall i :: 0 <= i < |s| ==> !IsEscaped(s[i])
    ensures EscapeChars(s) == s
  {
    if s != "" {
      NothingToEscape(s[1..]);
    }
  }

  /** Copies a stretch of plain characters and one escaped character behind it. */
  method AppendEscaped(buf: array<char>, at: nat, plain: string, c: char) returns (end: nat)
    requires at + |plain| + 2 <= buf.Length
    modifies buf
    ensures end == at + |plain| + 2 && buf[..end] == old(buf[..at]) + plain + ['\\', c]
  {
    for i := 0 to |plain|
      invariant buf[..at] == old(buf[..at]) && buf[at..at + i] == plain[..i]
    {
      buf[at + i] := plain[i];
    }
    buf[at + |plain|] := '\\';
    buf[at + |plain| + 1] := c;
    end := at + |plain| + 2;
    assert buf[..end] == buf[..at] + buf[at..at + |plain|] + ['\\', c];
  }

  /** Writes a name, copying it to a buffer of twice its length once there is a character to escape. */
  method EscapeString(s: string) returns (out: string)
    ensures out == Escaped(s)
  {
    hide NeedsQuotes, EscapeChars;
    NoQuotesYet(s);
    var needQuotes := false;
    var buf := new char[0];
    var used := false;
    var last: nat, j: nat := 0, 0;
    for i := 0 to |s|
      invariant needQuotes <==> NeedsQuotes(s[..i])
      invariant last <= i && j <= 2 * last
      invariant used ==> buf.Length == 2 * |s| && needQuotes
      invariant used || (last == 0 && j == 0)
      invariant j <= buf.Length && buf[..j] == EscapeChars(s[..last])
      invariant forall k :: last <= k < i ==> !IsEscaped(s[k])
      invariant fresh(buf)
    {
      OneMoreCharacter(s, i);
      if IsEscaped(s[i]) {
        needQuotes := true;
        if !used {
          buf := new char[2 * |s|];
          used := true;
        }
        EscapedSoFar(s, last, i);
        j := AppendEscaped(buf, j, s[last..i], s[i]);
        last := i + 1;
      }
      if !needQuotes && IsQuoted(s[i]) { needQuotes := true; }
    }
    assert s[..|s|] == s;
    if !needQuotes { return s; }
    EscapedSoFarEnds(s, last);
    if !used { return ['"'] + s + ['"']; }
    return ['"'] + (buf[..j] + s[last..]) + ['"'];
  }

  lemma NoQuotesYet(s: string)
    ensures !NeedsQuotes(s[..0]) && EscapeChars(s[..0]) == ""
  {
  }

  lemma OneMoreCharacter(s: string, i: nat)
    requires i < |s|
    ensures NeedsQuotes(s[..i + 1]) <==> NeedsQuotes(s[..i]) || IsEscaped(s[i]) || IsQuoted(s[i])
  {
    assert s[..i + 1] == s[..i] + [s[i]];
    assert forall k :: 0 <= k < i ==> s[..i + 1][k] == s[..i][k];
    assert s[..i + 1][i] == s[i];
  }

  lemma EscapedSoFarEnds(s: string, last: nat)
    requires last <= |s| && forall k :: last <= k < |s| ==> !IsEscaped(s[k])
    ensures EscapeChars(s) == EscapeChars(s[..last]) + s[last..]
    ensures last == 0 ==> EscapeChars(s) == s
  {
    hide EscapeChars;
    EscapeConcat(s[..last], s[last..]);
    NothingToEscape(s[last..]);
    assert s[..last] + s[last..] == s;
    NoQuotesYet(s);
    assert last == 0 ==> "" + s[last..] == s;
  }

  lemma EscapedSoFar(s: string, last: nat, i: nat)
    requires last <= i < |s| && IsEscaped(s[i]) && forall k :: last <= k < i ==> !IsEscaped(s[k])
    ensures EscapeChars(s[..i + 1]) == EscapeChars(s[..last]) + s[last..i] + ['\\', s[i]]
  {
    assert s[..i + 1] == s[..last] + (s[last..i] + [s[i]]);
    EscapeConcat(s[..last], s[last..i] + [s[i]]);
    EscapeConcat(s[last..i], [s[i]]);
    NothingToEscape(s[last..i]);
    assert EscapeChars([s[i]]) == ['\\', s[i]] + "";
  }

  // ---------------------------------------------------------------- the lexer

  predicate IsSpace(c: char) { c == ' ' || c == '\t' || c == ZERO }

  predicate IsEol(c: char) { c == '\r' || c == '\n' || c == ZERO }

  predicate IsSeparator(c: char) {
    c == ' ' || c == '\t' || c == '\r' || c == '\n' || c == '$' || c == '(' || c == ')' || c == ',' || c == ':' || c == ZERO
  }

  function AfterSpaces(s: string): (r: string)
    ensures |r| <= |s|
  {
    if s != "" && IsSpace(s[0]) then AfterSpaces(s[1..]) else s
  }

  function AfterEmpty(s: string): (r: string)
    ensures |r| <= |s|
  {
    if s != "" && IsEol(s[0]) then AfterEmpty(s[1..]) else s
  }

  /** What comes next where words are expected: a word, a variable or function, or neither. */
  datatype Token = Word | Variable | Other

  /** The end of a line after a backslash. Otherwise the text that is left, from which a carriage return is lost. */
  function AfterEol(s: string): (bool, string) {
    if s == "" then (true, "")
    else if s[0] == '\r' then
      if |s| == 1 then (true, "") else if s[1] == '\n' then (true, s[2..]) else (false, s[1..])
    else if s[0] == '\n' then (true, s[1..])
    else (false, s)
  }

  /** The next token and the text that is left, from the token on when it is a word. */
  function Expect(s: string): (r: (Token, string))
    ensures |r.1| <= |s| && (r.0.Word? ==> r.1 != "")
    decreases |s|
  {
    var t := AfterSpaces(s);
    if t == "" then (Other, "")
    else if t[0] in {'\r', '\n', ':', ',', '=', ')', '|', '+'} then (Other, t)
    else if t[0] == '$' then (if |t| > 1 && t[1] == '(' then Variable else Other, t[1..])
    else if t[0] == '\\' then
      var (ended, rest) := AfterEol(t[1..]);
      if ended then Expect(rest) else (Word, ['\\'] + rest)
    else (Word, t)
  }

  /** The rest of a word, and the text behind it. A backslash at the end of the text escapes the end-of-file mark. */
  function WordFrom(s: string, quoted: bool): (r: (string, string))
    ensures |r.1| <= |s|
    decreases |s|
  {
    if s == "" then ("", "")
    else if quoted then
      if s[0] == '\\' then
        var c := if |s| > 1 then s[1] else '\U{FF}';
        var (word, rest) := WordFrom(if |s| > 1 then s[2..] else "", true);
        ([c] + word, rest)
      else if s[0] == '"' then WordFrom(s[1..], false)
      else
        var (word, rest) := WordFrom(s[1..], true);
        ([s[0]] + word, rest)
    else if IsSeparator(s[0]) then ("", s)
    else
      var (word, rest) := WordFrom(s[1..], false);
      ([s[0]] + word, rest)
  }

  function WordAt(s: string): (r: (string, string))
    ensures |r.1| <= |s|
  {
    if s != "" && s[0] == '"' then WordFrom(s[1..], true) else WordFrom(s, false)
  }

  /** A list of words and the text behind it, a loop without end at an opening parenthesis, or a variable. */
  datatype Reading<+T> = Read(value: T, rest: string) | Endless | Variables

  function WordsFrom(s: string): (r: Reading<seq<string>>)
    ensures r.Read? ==> |r.rest| <= |s|
    decreases |s|
  {
    var (token, t) := Expect(s);
    match token
    case Other => Read([], t)
    case Variable => Variables
    case Word =>
      var (word, rest) := WordAt(t);
      if |rest| == |t| then Endless
      else
        match WordsFrom(rest)
        case Read(words, rest) => Read([word] + words, rest)
        case Endless => Endless
        case Variables => Variables
  }

  datatype Loading = Loaded(db: Db) | Malformed | LoadsForever | HasVariables

  function Added(db: Db, targets: seq<Name>, deps: seq<Name>): Db {
    var record := Record(targets, set d | d in deps);
    db + map t | t in targets :: record
  }

  function LoadFrom(db: Db, s: string): Loading
    decreases |s|
  {
    match WordsFrom(s)
    case Endless => LoadsForever
    case Variables => HasVariables
    case Read(targets, rest) =>
      if rest == "" then Loaded(db)
      else if targets == [] || rest[0] != ':' then Malformed
      else
        match WordsFrom(rest[1..])
        case Endless => LoadsForever
        case Variables => HasVariables
        case Read(deps, rest) => LoadFrom(Added(db, targets, deps), AfterEmpty(rest))
  }

  // ---------------------------------------------------------------- reading the stream

  /** The characters of a stream that are not read yet. */
  class Input {
    var rest: string

    constructor (text: string)
      ensures rest == text
    {
      rest := text;
    }

    method SkipSpaces()
      modifies this
      ensures rest == AfterSpaces(old(rest))
    {
      while rest != "" && IsSpace(rest[0])
        invariant AfterSpaces(rest) == AfterSpaces(old(rest))
        decreases |rest|
      {
        rest := rest[1..];
      }
    }

    method SkipEmpty()
      modifies this
      ensures rest == AfterEmpty(old(rest))
    {
      while rest != "" && IsEol(rest[0])
        invariant AfterEmpty(rest) == AfterEmpty(old(rest))
        decreases |rest|
      {
        rest := rest[1..];
      }
    }

    method SkipEol() returns (ended: bool)
      modifies this
      ensures (ended, rest) == AfterEol(old(rest))
    {
      if rest == "" { return true; }
      if rest[0] == '\r' {
        rest := rest[1..];
        if rest == "" { return true; }
        if rest[0] != '\n' { return false; }
        rest := rest[1..];
        return true;
      }
      if rest[0] != '\n' { return false; }
      rest := rest[1..];
      return true;
    }

    method ExpectToken() returns (token: Token)
      modifies this
      ensures (token, rest) == Expect(old(rest))
    {
      while true
        invariant Expect(rest) == Expect(old(rest))
        decreases |rest|
      {
        SkipSpaces();
        if rest == "" { return Other; }
        if rest[0] in {'\r', '\n', ':', ',', '=', ')', '|', '+'} { return Other; }
        if rest[0] == '$' {
          rest := rest[1..];
          return if rest != "" && rest[0] == '(' then Variable else Other;
        }
        if rest[0] != '\\' { return Word; }
        rest := rest[1..];
        var ended := SkipEol();
        if !ended {
          rest := ['\\'] + rest;
          return Word;
        }
      }
      return Other;
    }

    method ReadWord() returns (word: string)
      modifies this
      ensures (word, rest) == WordAt(old(rest))
    {
      hide IsSeparator, WordFrom;
      word := "";
      if rest == "" {
        WordStep(rest, false);
        return;
      }
      var quoted := rest[0] == '"';
      if quoted { rest := rest[1..]; }
      ghost var whole := WordFrom(rest, quoted);
      assert "" + whole.0 == whole.0;
      while rest != "" && (quoted || !IsSeparator(rest[0]))
        invariant whole == (word + WordFrom(rest, quoted).0, WordFrom(rest, quoted).1)
        decreases |rest|
      {
        WordStep(rest, quoted);
        var c := rest[0];
        rest := rest[1..];
        if quoted && c == '\\' {
          var d := if rest == "" then '\U{FF}' else rest[0];
          if rest != "" { rest := rest[1..]; }
          OneMore(word, d, WordFrom(rest, true).0);
          word := word + [d];
        } else if quoted && c == '"' {
          quoted := false;
        } else {
          OneMore(word, c, WordFrom(rest, quoted).0);
          word := word + [c];
        }
      }
      WordStep(rest, quoted);
      assert word + "" == word;
    }

    /** Reads words up to what is none. */
    method ReadWords() returns (r: Reading<seq<string>>)
      modifies this
      ensures r == WordsFrom(old(rest))
      ensures r.Read? ==> r.rest == rest
    {
      var words: seq<string> := [];
      PrefixedNothing(WordsFrom(rest));
      while true
        invariant WordsFrom(old(rest)) == Prefixed(words, WordsFrom(rest))
        decreases |rest|
      {
        var token := ExpectToken();
        assert words + [] == words;
        if token == Other { return Read(words, rest); }
        if token == Variable { return Variables; }
        var before := rest;
        var word := ReadWord();
        if |rest| == |before| { return Endless; }
        PrefixedTwice(words, [word], WordsFrom(rest));
        words := words + [word];
      }
    }
  }

  lemma OneMore(word: string, c: char, rest: string)
    ensures word + ([c] + rest) == word + [c] + rest
  {
  }

  /** What the reading of a word does with the next character. */
  lemma WordStep(s: string, quoted: bool)
    ensures WordFrom(s, quoted)
            == if s == "" then ("", "")
               else if quoted && s[0] == '\\' then
                 var rest := WordFrom(if |s| > 1 then s[1..][1..] else s[1..], true);
                 ([if |s| > 1 then s[1..][0] else '\U{FF}'] + rest.0, rest.1)
               else if quoted && s[0] == '"' then WordFrom(s[1..], false)
               else if !quoted && IsSeparator(s[0]) then ("", s)
               else ([s[0]] + WordFrom(s[1..], quoted).0, WordFrom(s[1..], quoted).1)
  {
    hide IsSeparator;
    if |s| > 1 { assert s[1..][1..] == s[2..]; }
  }

  ghost function Prefixed(words: seq<string>, r: Reading<seq<string>>): Reading<seq<string>> {
    if r.Read? then Read(words + r.value, r.rest) else r
  }

  lemma PrefixedNothing(r: Reading<seq<string>>)
    ensures Prefixed([], r) == r
  {
    if r.Read? {
      assert [] + r.value == r.value;
    }
  }

  lemma PrefixedTwice(a: seq<string>, b: seq<string>, r: Reading<seq<string>>)
    ensures Prefixed(a, Prefixed(b, r)) == Prefixed(a + b, r)
  {
    if r.Read? {
      assert a + (b + r.value) == a + b + r.value;
    }
  }

  // ---------------------------------------------------------------- names that are read back

  /** Not empty, and either quoted or without a character that ends a word or starts another token. */
  predicate WellNamed(w: Name) {
    w != "" && (NeedsQuotes(w) || (w[0] !in {'=', '+', '|'} && forall i :: 0 <= i < |w| ==> !IsSeparator(w[i])))
  }

  lemma {:induction false} QuotedBack(w: string, rest: string)
    requires rest != "" && IsSeparator(rest[0])
    ensures WordFrom(EscapeChars(w) + (['"'] + rest), true) == (w, rest)
  {
    if w == "" {
      assert EscapeChars(w) + (['"'] + rest) == ['"'] + rest && (['"'] + rest)[1..] == rest;
    } else {
      var tail := EscapeChars(w[1..]) + (['"'] + rest);
      QuotedBack(w[1..], rest);
      assert w == [w[0]] + w[1..];
      if IsEscaped(w[0]) {
        assert EscapeChars(w) + (['"'] + rest) == ['\\', w[0]] + tail && (['\\', w[0]] + tail)[2..] == tail;
      } else {
        assert EscapeChars(w) + (['"'] + rest) == [w[0]] + tail && ([w[0]] + tail)[1..] == tail;
      }
    }
  }

  lemma {:induction false} RawBack(w: string, rest: string)
    requires rest != "" && IsSeparator(rest[0]) && forall i :: 0 <= i < |w| ==> !IsSeparator(w[i])
    ensures WordFrom(w + rest, false) == (w, rest)
  {
    if w == "" {
      assert w + rest == rest;
    } else {
      RawBack(w[1..], rest);
      assert (w + rest)[0] == w[0] && (w + rest)[1..] == w[1..] + rest && w == [w[0]] + w[1..];
    }
  }

  lemma ExpectName(w: Name, rest: string)
    requires WellNamed(w)
    ensures Expect(Escaped(w) + rest) == (Word, Escaped(w) + rest)
  {
    hide NeedsQuotes;
    if !NeedsQuotes(w) { RawStart(w); }
    assert (Escaped(w) + rest)[0] == Escaped(w)[0];
  }

  lemma RawStart(w: Name)
    requires !NeedsQuotes(w)
    ensures forall i :: 0 <= i < |w| ==> !IsEscaped(w[i]) && !IsQuoted(w[i])
  {
  }

  /** A well named word is read back, whatever separator follows. */
  lemma NameBack(w: Name, rest: string)
    requires WellNamed(w) && rest != "" && IsSeparator(rest[0])
    ensures WordsFrom(Escaped(w) + rest) == Prefixed([w], WordsFrom(rest))
  {
    hide NeedsQuotes, Expect, WordFrom, EscapeChars;
    ExpectName(w, rest);
    if NeedsQuotes(w) {
      QuotedBack(w, rest);
      assert Escaped(w) + rest == ['"'] + (EscapeChars(w) + (['"'] + rest));
      assert (['"'] + (EscapeChars(w) + (['"'] + rest)))[1..] == EscapeChars(w) + (['"'] + rest);
    } else {
      RawStart(w);
      RawBack(w, rest);
    }
  }

  lemma SpaceSkipped(s: string)
    ensures WordsFrom([' '] + s) == WordsFrom(s)
  {
    assert ([' '] + s)[1..] == s;
    assert Expect([' '] + s) == Expect(s);
  }

  lemma {:induction false} NoWords(s: string)
    requires s != "" && (s[0] == ':' || s[0] == '\n')
    ensures WordsFrom(s) == Read([], s)
  {
  }

  /** A word that is not quoted has no separator in it. */
  lemma {:induction false} RawWordIsPlain(s: string)
    ensures forall i :: 0 <= i < |WordFrom(s, false).0| ==> !IsSeparator(WordFrom(s, false).0[i])
  {
    if s != "" && !IsSeparator(s[0]) {
      RawWordIsPlain(s[1..]);
    }
  }

  lemma {:induction false} SpacesKeep(s: string)
    ensures forall c :: c in AfterSpaces(s) ==> c in s
  {
    if s != "" && IsSpace(s[0]) {
      SpacesKeep(s[1..]);
    }
  }

  /** Exactly the well named words are read back as they were written. */
  lemma NameReadsBack(w: Name)
    ensures WordsFrom(Escaped(w) + " :") == Read([w], ":") <==> WellNamed(w)
  {
    NoWords(":");
    assert " :" == [' '] + ":";
    SpaceSkipped(":");
    if WellNamed(w) {
      NameBack(w, " :");
      assert [w] + [] == [w];
    } else if w == "" {
      assert Escaped(w) + " :" == " :";
    } else {
      BadNameLost(w);
    }
  }

  lemma BadNameLost(w: Name)
    requires w != "" && !WellNamed(w)
    ensures WordsFrom(w + " :") != Read([w], ":") && Escaped(w) == w
  {
    var s := w + " :";
    RawStart(w);
    var (token, t) := Expect(s);
    if !IsSpace(w[0]) && w[0] in {'=', '+', '|'} {
      assert AfterSpaces(s) == s;
    } else {
      SpacesKeep(s);
      var start := AfterSpaces(s);
      if start != "" {
        assert start[0] in start;
        var i :| 0 <= i < |s| && s[i] == start[0];
        assert i < |w| ==> s[i] == w[i] && !IsEscaped(w[i]);
        assert !IsEscaped(start[0]);
      }
      RawWordIsPlain(start);
      assert WordsFrom(s).Read? && WordsFrom(s).value != [] ==> WordsFrom(s).value[0] == WordFrom(start, false).0;
    }
  }

  // ---------------------------------------------------------------- saving

  ghost function TargetsText(targets: seq<Name>): string {
    if targets == [] then "" else Escaped(targets[0]) + [' '] + TargetsText(targets[1..])
  }

  ghost function DepsText(deps: seq<Name>): string {
    if deps == [] then "" else [' '] + Escaped(deps[0]) + DepsText(deps[1..])
  }

  datatype Line = Line(targets: seq<Name>, deps: seq<Name>)

  ghost function LineText(line: Line): string { TargetsText(line.targets) + [':'] + DepsText(line.deps) + ['\n'] }

  ghost function Text(lines: seq<Line>): string {
    if lines == [] then "" else LineText(lines[0]) + Text(lines[1..])
  }

  ghost function AddedAll(db: Db, lines: seq<Line>): Db {
    if lines == [] then db
    else
      var before := AddedAll(db, lines[..|lines| - 1]);
      Added(before, lines[|lines| - 1].targets, lines[|lines| - 1].deps)
  }

  ghost predicate AllWellNamed(names: seq<Name>) { forall i :: 0 <= i < |names| ==> WellNamed(names[i]) }

  ghost predicate LinesOK(lines: seq<Line>) {
    forall i :: 0 <= i < |lines| ==> lines[i].targets != [] && AllWellNamed(lines[i].targets) && AllWellNamed(lines[i].deps)
  }

  lemma TargetsTextFirst(targets: seq<Name>, rest: string)
    requires targets != []
    ensures TargetsText(targets) + rest == Escaped(targets[0]) + ([' '] + (TargetsText(targets[1..]) + rest))
  {
    hide Escaped;
  }

  lemma DepsTextFirst(deps: seq<Name>, rest: string)
    requires deps != []
    ensures DepsText(deps) + rest == [' '] + (Escaped(deps[0]) + (DepsText(deps[1..]) + rest))
  {
    hide Escaped;
  }

  lemma NoNames(rest: string)
    ensures TargetsText([]) + rest == rest && DepsText([]) + rest == rest
  {
  }

  lemma PrefixedName(names: seq<Name>, rest: string)
    requires names != []
    ensures Prefixed([names[0]], Read(names[1..], rest)) == Read(names, rest)
  {
    assert [names[0]] + names[1..] == names;
  }

  lemma NameOf(names: seq<Name>)
    requires AllWellNamed(names) && names != []
    ensures WellNamed(names[0]) && AllWellNamed(names[1..])
  {
  }

  lemma {:induction false} TargetsBack(targets: seq<Name>, rest: string)
    requires AllWellNamed(targets) && rest != "" && rest[0] == ':'
    ensures WordsFrom(TargetsText(targets) + rest) == Read(targets, rest)
  {
    NoNames(rest);
    NoWords(rest);
    hide *;
    if targets != [] {
      var tail := TargetsText(targets[1..]) + rest;
      NameOf(targets);
      TargetsBack(targets[1..], rest);
      TargetsTextFirst(targets, rest);
      SeparatorFirst(' ', tail);
      NameBack(targets[0], [' '] + tail);
      SpaceSkipped(tail);
      PrefixedName(targets, rest);
    }
  }

  lemma SeparatorFirst(c: char, rest: string)
    requires c == ' ' || c == '\n'
    ensures [c] + rest != "" && IsSeparator(([c] + rest)[0])
  {
  }

  lemma {:induction false} DepsBack(deps: seq<Name>, rest: string)
    requires AllWellNamed(deps) && rest != "" && rest[0] == '\n'
    ensures WordsFrom(DepsText(deps) + rest) == Read(deps, rest)
  {
    NoNames(rest);
    NoWords(rest);
    DepsTextStart(deps, rest);
    hide *;
    if deps != [] {
      var tail := DepsText(deps[1..]) + rest;
      NameOf(deps);
      DepsBack(deps[1..], rest);
      DepsTextFirst(deps, rest);
      DepsTextStart(deps[1..], rest);
      SpaceSkipped(Escaped(deps[0]) + tail);
      NameBack(deps[0], tail);
      PrefixedName(deps, rest);
    }
  }

  lemma DepsTextStart(deps: seq<Name>, rest: string)
    requires rest != "" && rest[0] == '\n'
    ensures DepsText(deps) + rest != "" && IsSeparator((DepsText(deps) + rest)[0])
  {
    if deps != [] {
      DepsTextFirst(deps, rest);
    } else {
      NoNames(rest);
    }
  }

  lemma LineBack(db: Db, line: Line, rest: string)
    requires line.targets != [] && AllWellNamed(line.targets) && AllWellNamed(line.deps)
    ensures LoadFrom(db, LineText(line) + rest) == LoadFrom(Added(db, line.targets, line.deps), AfterEmpty(rest))
  {
    hide WordsFrom, TargetsText, DepsText, Added;
    var deps := DepsText(line.deps) + (['\n'] + rest);
    assert LineText(line) + rest == TargetsText(line.targets) + ([':'] + deps);
    TargetsBack(line.targets, [':'] + deps);
    assert ([':'] + deps)[1..] == deps;
    DepsBack(line.deps, ['\n'] + rest);
    assert (['\n'] + rest)[1..] == rest;
  }

  lemma NoEmptyLine(lines: seq<Line>)
    requires LinesOK(lines)
    ensures AfterEmpty(Text(lines)) == Text(lines)
  {
    if lines != [] {
      var w := lines[0].targets[0];
      assert WellNamed(w);
      if !NeedsQuotes(w) { RawStart(w); }
      assert Text(lines)[0] == LineText(lines[0])[0] == TargetsText(lines[0].targets)[0] == Escaped(w)[0];
    }
  }

  /** Loading what was written gives the records back, later ones over earlier ones. */
  lemma {:induction false} LinesBack(db: Db, lines: seq<Line>)
    requires LinesOK(lines)
    ensures LoadFrom(db, Text(lines)) == Loaded(AddedAll(db, lines))
    decreases |lines|
  {
    if lines == [] {
      assert Expect("") == (Other, "");
    } else {
      var rest := lines[1..];
      assert LinesOK(rest);
      LineBack(db, lines[0], Text(rest));
      NoEmptyLine(rest);
      LinesBack(Added(db, lines[0].targets, lines[0].deps), rest);
      AddedFirst(db, lines);
    }
  }

  lemma {:induction false} AddedFirst(db: Db, lines: seq<Line>)
    requires lines != []
    ensures AddedAll(db, lines) == AddedAll(Added(db, lines[0].targets, lines[0].deps), lines[1..])
    decreases |lines|
  {
    hide Added;
    if |lines| > 1 {
      AddedFirst(db, lines[..|lines| - 1]);
      assert lines[..|lines| - 1][1..] == lines[1..][..|lines| - 2];
    }
  }

  lemma {:induction false} TextAppend(lines: seq<Line>, line: Line)
    ensures Text(lines + [line]) == Text(lines) + LineText(line)
  {
    if lines == [] {
      assert lines + [line] == [line] && Text([line]) == LineText(line) + "";
    } else {
      TextAppend(lines[1..], line);
      assert (lines + [line])[1..] == lines[1..] + [line];
    }
  }

  // ---------------------------------------------------------------- the database

  /** Every target of a record has that record. */
  ghost predicate SharedRecords(db: Db) {
    forall k, t :: k in db && t in db[k].targets ==> t in db && db[t] == db[k]
  }

  /** Every key is a target of its own record. */
  ghost predicate OwnRecords(db: Db) { forall k :: k in db ==> k in db[k].targets }

  ghost predicate NamesOK(db: Db) {
    forall k :: k in db ==> AllWellNamed(db[k].targets) && forall d :: d in db[k].deps ==> WellNamed(d)
  }

  ghost function Less(db: Db, targets: seq<Name>): Db { map t | t in db && t !in targets :: db[t] }

  /** What is written already and what is still there make up the database. */
  ghost predicate Saving(all: Db, lines: seq<Line>, left: Db) {
    && OwnRecords(left) && SharedRecords(left) && NamesOK(left) && LinesOK(lines)
    && all == AddedAll(map[], lines) + left
  }

  lemma RecordSaved(all: Db, lines: seq<Line>, left: Db, key: Name, deps: seq<Name>)
    requires Saving(all, lines, left) && key in left
    requires left[key].deps == set d | d in deps
    ensures Saving(all, lines + [Line(left[key].targets, deps)], Less(left, left[key].targets))
  {
    hide AddedAll, WellNamed, Less;
    var record := left[key];
    AddedLast(map[], lines, Line(record.targets, deps));
    LessKeeps(left, key);
    assert key in record.targets;
    RecordNamed(left, key, deps);
    RecordMoves(AddedAll(map[], lines), left, key, deps);
    hide OwnRecords, SharedRecords, NamesOK, AllWellNamed;
  }

  lemma LessKeeps(left: Db, key: Name)
    requires OwnRecords(left) && SharedRecords(left) && NamesOK(left) && key in left
    ensures var less := Less(left, left[key].targets); OwnRecords(less) && SharedRecords(less) && NamesOK(less)
  {
    hide AllWellNamed, WellNamed;
    var less := Less(left, left[key].targets);
    assert forall t :: t in left[key].targets ==> t in left && left[t] == left[key];
    forall k, t | k in less && t in less[k].targets
      ensures t in less && less[t] == less[k]
    {
      assert t in left && left[t] == left[k];
    }
  }

  lemma RecordNamed(left: Db, key: Name, deps: seq<Name>)
    requires NamesOK(left) && key in left && left[key].deps == set d | d in deps
    ensures AllWellNamed(left[key].targets) && AllWellNamed(deps)
  {
    hide WellNamed;
    forall i | 0 <= i < |deps|
      ensures WellNamed(deps[i])
    {
      assert deps[i] in left[key].deps;
    }
  }

  lemma RecordMoves(written: Db, left: Db, key: Name, deps: seq<Name>)
    requires SharedRecords(left) && key in left && left[key].deps == set d | d in deps
    ensures written + left == Added(written, left[key].targets, deps) + Less(left, left[key].targets)
  {
    assert Record(left[key].targets, set d | d in deps) == left[key];
    assert forall t :: t in left[key].targets ==> t in left && left[t] == left[key];
  }

  lemma AddedLast(db: Db, lines: seq<Line>, line: Line)
    ensures AddedAll(db, lines + [line]) == Added(AddedAll(db, lines), line.targets, line.deps)
  {
    assert (lines + [line])[..|lines|] == lines;
  }

  lemma {:induction false} TargetsAppend(targets: seq<Name>, t: Name)
    ensures TargetsText(targets + [t]) == TargetsText(targets) + Escaped(t) + [' ']
  {
    hide Escaped;
    if targets == [] {
      assert targets + [t] == [t] && TargetsText([t]) == Escaped(t) + [' '] + "";
    } else {
      TargetsAppend(targets[1..], t);
      assert (targets + [t])[1..] == targets[1..] + [t];
    }
  }

  lemma {:induction false} DepsAppend(deps: seq<Name>, d: Name)
    ensures DepsText(deps + [d]) == DepsText(deps) + [' '] + Escaped(d)
  {
    hide Escaped;
    if deps == [] {
      assert deps + [d] == [d] && DepsText([d]) == [' '] + Escaped(d) + "";
    } else {
      DepsAppend(deps[1..], d);
      assert (deps + [d])[1..] == deps[1..] + [d];
    }
  }

  // ---------------------------------------------------------------- the loop of the saving

  /** The order of the keys of the map. */
  predicate Before(a: Name, b: Name) {
    b != "" && (a == "" || a[0] < b[0] || (a[0] == b[0] && Before(a[1..], b[1..])))
  }

  lemma {:induction false} BeforeTotal(a: Name, b: Name)
    ensures a == b || Before(a, b) || Before(b, a)
    ensures !(Before(a, b) && Before(b, a)) && !Before(a, a)
  {
    if a != "" && b != "" && a[0] == b[0] {
      BeforeTotal(a[1..], b[1..]);
      assert a == [a[0]] + a[1..] && b == [b[0]] + b[1..];
    }
    if a != "" { BeforeTotal(a[1..], a[1..]); }
  }

  lemma {:induction false} BeforeTransitive(a: Name, b: Name, c: Name)
    requires Before(a, b) && Before(b, c)
    ensures Before(a, c)
  {
    if a != "" && a[0] == b[0] && b[0] == c[0] {
      BeforeTransitive(a[1..], b[1..], c[1..]);
    }
  }

  ghost predicate IsSmallest(db: Db, key: Name) { key in db && forall k :: k in db ==> k == key || Before(key, k) }

  /** One round: the record of the smallest key is written and all its targets are forgotten. */
  ghost predicate Round(db: Db, next: Db) { exists key :: IsSmallest(db, key) && next == Less(db, db[key].targets) }

  /** The loop ends after so many rounds. */
  ghost predicate EndsIn(db: Db, n: nat) {
    db == map[] || (n > 0 && exists next :: Round(db, next) && EndsIn(next, n - 1))
  }

  ghost predicate SavingEnds(db: Db) { exists n: nat :: EndsIn(db, n) }

  /** The key is not among the targets of a smaller key that is the smallest one at some time. */
  ghost predicate Picked(db: Db, key: Name)
    decreases |Smaller(db, key)|
  {
    forall k :: k in Smaller(db, key) && key in db[k].targets ==> (FewerSmaller(db, k, key); !Picked(db, k))
  }

  ghost function Smaller(db: Db, key: Name): set<Name> { set k | k in db && Before(k, key) }

  lemma FewerSmaller(db: Db, k: Name, key: Name)
    requires k in Smaller(db, key)
    ensures |Smaller(db, k)| < |Smaller(db, key)|
  {
    BeforeTotal(k, k);
    forall l | l in Smaller(db, k)
      ensures l in Smaller(db, key)
    {
      BeforeTransitive(l, k, key);
    }
    assert Smaller(db, k) < Smaller(db, key);
    FewerKeys(Smaller(db, k), Smaller(db, key));
  }

  lemma {:induction false} SmallestExists(keys: set<Name>) returns (key: Name)
    requires keys != {}
    ensures key in keys && forall k :: k in keys ==> k == key || Before(key, k)
  {
    if some :| some in keys {
      key := some;
      if keys != {some} {
        var rest := SmallestExists(keys - {some});
        BeforeTotal(some, rest);
        if Before(rest, some) {
          key := rest;
        } else {
          forall k | k in keys
            ensures k == some || Before(some, k)
          {
            if k != some && k != rest { BeforeTransitive(some, rest, k); }
          }
        }
      }
    }
  }

  lemma SmallestUnique(db: Db, a: Name, b: Name)
    requires IsSmallest(db, a) && IsSmallest(db, b)
    ensures a == b
  {
    BeforeTotal(a, b);
  }

  /** The keys that the rest of the loop picks are the ones it would pick anyway. */
  lemma {:induction false} PickedLater(db: Db, key: Name, k: Name)
    requires IsSmallest(db, key) && key in db[key].targets && k in Less(db, db[key].targets)
    ensures Picked(Less(db, db[key].targets), k) <==> Picked(db, k)
    decreases |Smaller(db, k)|
  {
    var less := Less(db, db[key].targets);
    SmallestPicked(db, key);
    forall l | l in Smaller(db, k) && k in db[l].targets
      ensures Picked(db, l) <==> (l in less && Picked(less, l))
    {
      FewerSmaller(db, l, k);
      if l in less {
        PickedLater(db, key, l);
      } else if l != key {
        assert key in Smaller(db, l) && l in db[key].targets;
      } else {
        assert false;
      }
    }
    assert forall l :: l in Smaller(less, k) ==> l in Smaller(db, k);
  }

  lemma SmallestPicked(db: Db, key: Name)
    requires IsSmallest(db, key)
    ensures Picked(db, key)
  {
    forall k | k in Smaller(db, key)
      ensures false
    {
      BeforeTotal(k, key);
    }
  }

  /** The loop ends exactly when every key that it picks is a target of its own record. */
  lemma {:induction false} SavingEndsExactly(db: Db)
    ensures SavingEnds(db) <==> forall k :: k in db && Picked(db, k) ==> k in db[k].targets
    decreases |db|
  {
    if db == map[] {
      assert EndsIn(db, 0);
    } else {
      assert db.Keys != {};
      var key := SmallestExists(db.Keys);
      var less := Less(db, db[key].targets);
      SmallestPicked(db, key);
      if key in db[key].targets {
        Forgotten(db, db[key].targets, key);
        SavingEndsExactly(less);
        OneRound(db, key);
        PickedKeys(db, key);
      } else {
        forall n: nat
          ensures !EndsIn(db, n)
        {
          NeverEnds(db, key, n);
        }
      }
    }
  }

  lemma OneRound(db: Db, key: Name)
    requires IsSmallest(db, key)
    ensures SavingEnds(Less(db, db[key].targets)) <==> SavingEnds(db)
  {
    var less := Less(db, db[key].targets);
    assert Round(db, less);
    if n: nat :| EndsIn(less, n) {
      assert EndsIn(db, n + 1);
    }
    if n: nat :| EndsIn(db, n) {
      var next :| Round(db, next) && EndsIn(next, n - 1);
      var other :| IsSmallest(db, other) && next == Less(db, db[other].targets);
      SmallestUnique(db, key, other);
    }
  }

  lemma PickedKeys(db: Db, key: Name)
    requires IsSmallest(db, key) && key in db[key].targets
    ensures var less := Less(db, db[key].targets);
      (forall k :: k in db && Picked(db, k) ==> k in db[k].targets) <==> (forall k :: k in less && Picked(less, k) ==> k in less[k].targets)
  {
    var less := Less(db, db[key].targets);
    forall k | k in db
      ensures if k in less then Picked(less, k) <==> Picked(db, k) else k in db[k].targets || !Picked(db, k)
    {
      if k in less {
        PickedLater(db, key, k);
      } else if k != key {
        SmallestPicked(db, key);
        assert key in Smaller(db, k) && k in db[key].targets;
      }
    }
  }

  /** A smallest key that is not in its own record stays the smallest one for ever. */
  lemma {:induction false} NeverEnds(db: Db, key: Name, n: nat)
    requires IsSmallest(db, key) && key !in db[key].targets
    ensures !EndsIn(db, n)
    decreases n
  {
    if EndsIn(db, n) {
      var next :| Round(db, next) && EndsIn(next, n - 1);
      var other :| IsSmallest(db, other) && next == Less(db, db[other].targets);
      SmallestUnique(db, key, other);
      assert IsSmallest(next, key) && next[key] == db[key];
      NeverEnds(next, key, n - 1);
    }
  }

  class Database {
    var dependencies: Db

    constructor ()
      ensures dependencies == map[]
    {
      dependencies := map[];
    }

    method AddRecord(targets: seq<Name>, deps: seq<Name>)
      modifies this
      ensures dependencies == Added(old(dependencies), targets, deps)
    {
      var record := Record(targets, set d | d in deps);
      for i := 0 to |targets|
        invariant dependencies == old(dependencies) + map t | t in targets[..i] :: record
      {
        assert targets[..i + 1] == targets[..i] + [targets[i]];
        dependencies := dependencies[targets[i] := record];
      }
      assert targets[..|targets|] == targets;
    }

    /** Loads records until the end of the file. */
    method LoadDependencies(text: string) returns (r: Loading)
      modifies this
      ensures r == LoadFrom(old(dependencies), text)
      ensures r.Loaded? ==> dependencies == r.db
    {
      hide WordsFrom, Added, AfterEmpty;
      var input := new Input(text);
      while true
        invariant fresh(input)
        invariant LoadFrom(dependencies, input.rest) == LoadFrom(old(dependencies), text)
        decreases |input.rest|
      {
        var targets := input.ReadWords();
        if targets.Endless? { return LoadsForever; }
        if targets.Variables? { return HasVariables; }
        if input.rest == "" { return Loaded(dependencies); }
        if targets.value == [] { return Malformed; }
        if input.rest[0] != ':' { return Malformed; }
        input.rest := input.rest[1..];
        var deps := input.ReadWords();
        if deps.Endless? { return LoadsForever; }
        if deps.Variables? { return HasVariables; }
        AddRecord(targets.value, deps.value);
        input.SkipEmpty();
      }
    }

    /** Writes the targets of a record and forgets them. */
    method SaveTargets(targets: seq<Name>) returns (out: string)
      modifies this
      ensures out == TargetsText(targets) && dependencies == Less(old(dependencies), targets)
    {
      out := "";
      for i := 0 to |targets|
        invariant out == TargetsText(targets[..i]) && dependencies == Less(old(dependencies), targets[..i])
      {
        var name := EscapeString(targets[i]);
        TargetsAppend(targets[..i], targets[i]);
        assert targets[..i + 1] == targets[..i] + [targets[i]];
        out := out + name + [' '];
        dependencies := dependencies - {targets[i]};
      }
      assert targets[..|targets|] == targets;
    }

    static method SaveDeps(deps: set<Name>) returns (out: string, ghost order: seq<Name>)
      ensures out == DepsText(order) && deps == set d | d in order
    {
      out, order := "", [];
      var left := deps;
      while left != {}
        invariant out == DepsText(order) && deps == left + set d | d in order
        decreases left
      {
        var d :| d in left;
        var name := EscapeString(d);
        DepsAppend(order, d);
        out, order, left := out + [' '] + name, order + [d], left - {d};
      }
    }

    /** The first key of the map. */
    method FirstKey() returns (key: Name)
      requires dependencies != map[]
      ensures IsSmallest(dependencies, key)
    {
      assert dependencies.Keys != {};
      key :| key in dependencies;
      var left := dependencies.Keys - {key};
      while left != {}
        invariant left <= dependencies.Keys && key in dependencies.Keys - left
        invariant forall k :: k in dependencies && k !in left ==> k == key || Before(key, k)
        decreases left
      {
        var k :| k in left;
        left := left - {k};
        NotBefore(dependencies, left + {k}, key, k);
        if Before(k, key) { key := k; }
      }
    }

    /** Saves the record of the first key, until there is none. */
    method SaveDependencies() returns (out: string)
      requires SavingEnds(dependencies)
      modifies this
      ensures dependencies == map[]
      ensures old(SharedRecords(dependencies) && NamesOK(dependencies)) ==> LoadFrom(map[], out) == Loaded(old(dependencies))
    {
      hide TargetsText, DepsText, WellNamed, LoadFrom, AddedAll, Saving, EndsIn, IsSmallest;
      out := "";
      ghost var lines: seq<Line> := [];
      ghost var sound := SharedRecords(dependencies) && NamesOK(dependencies);
      ghost var rounds: nat :| EndsIn(dependencies, rounds);
      if sound {
        SharedEnds(dependencies);
        NothingSaved(dependencies);
      }
      while dependencies != map[]
        invariant EndsIn(dependencies, rounds) && out == Text(lines)
        invariant sound ==> Saving(old(dependencies), lines, dependencies)
        decreases rounds
      {
        var key := FirstKey();
        rounds := RoundsLeft(dependencies, key, rounds);
        var record := dependencies[key];
        ghost var before := dependencies;
        var targets := SaveTargets(record.targets);
        var deps, order := SaveDeps(record.deps);
        if sound { RecordSaved(old(dependencies), lines, before, key, order); }
        TextAppend(lines, Line(record.targets, order));
        out := out + (targets + [':'] + deps + ['\n']);
        lines := lines + [Line(record.targets, order)];
      }
      if sound {
        AllSaved(old(dependencies), lines);
      }
    }
  }

  lemma NotBefore(db: Db, left: set<Name>, key: Name, k: Name)
    requires left <= db.Keys && k in left && key in db && forall l :: l in db && l !in left ==> l == key || Before(key, l)
    ensures var best := if Before(k, key) then k else key;
      forall l :: l in db && (l !in left || l == k) ==> l == best || Before(best, l)
  {
    BeforeTotal(k, key);
    forall l | l in db && l !in left && Before(k, key)
      ensures l == k || Before(k, l)
    {
      if l != key { BeforeTransitive(k, key, l); }
    }
  }

  lemma RoundsLeft(db: Db, key: Name, n: nat) returns (rest: nat)
    requires db != map[] && IsSmallest(db, key) && EndsIn(db, n)
    ensures key in db && key in db[key].targets && rest < n && EndsIn(Less(db, db[key].targets), rest)
  {
    if key !in db[key].targets { NeverEnds(db, key, n); }
    var next :| Round(db, next) && EndsIn(next, n - 1);
    var other :| IsSmallest(db, other) && next == Less(db, db[other].targets);
    SmallestUnique(db, key, other);
    rest := n - 1;
  }

  /** Where the targets of a record share it, the loop ends exactly when every key is in its own record. */
  lemma SharedEnds(db: Db)
    requires SharedRecords(db)
    ensures SavingEnds(db) <==> OwnRecords(db)
  {
    SavingEndsExactly(db);
    forall k | k in db && k !in db[k].targets
      ensures Picked(db, k)
    {
      assert forall j :: j in db && k in db[j].targets ==> db[k] == db[j];
    }
    hide Picked, SavingEnds;
  }

  /** The records of the server by target. */
  ghost function Flattened(deps: map<Name, nat>, recs: seq<Record>): Db
    requires forall t :: t in deps ==> deps[t] < |recs|
  {
    map t | t in deps :: recs[deps[t]]
  }

  /** What the server keeps about its records is what saving needs: after any run the loop of the saving ends, and
      with readable names nothing is lost. */
  lemma ServerRecordsCanBeSaved(c: Config, deps: map<Name, nat>, recs: seq<Record>)
    requires DbOK(c, deps, recs)
    ensures SavingEnds(Flattened(deps, recs)) && SharedRecords(Flattened(deps, recs))
  {
    var db := Flattened(deps, recs);
    forall k, t | k in db && t in db[k].targets
      ensures t in db && db[t] == db[k]
    {
      assert t in recs[deps[k]].targets;
    }
    OwnRecordsOf(c, deps, recs);
    SharedEnds(db);
    hide *;
  }

  lemma OwnRecordsOf(c: Config, deps: map<Name, nat>, recs: seq<Record>)
    requires DbOK(c, deps, recs)
    ensures OwnRecords(Flattened(deps, recs))
  {
  }

  lemma NothingSaved(db: Db)
    requires OwnRecords(db) && SharedRecords(db) && NamesOK(db)
    ensures Saving(db, [], db)
  {
    assert AddedAll(map[], []) + db == db;
  }

  lemma Forgotten(db: Db, targets: seq<Name>, key: Name)
    requires key in db && key in targets
    ensures |Less(db, targets)| < |db|
  {
    var less := Less(db, targets);
    assert less.Keys < db.Keys;
    FewerKeys(less.Keys, db.Keys);
    assert |less.Keys| == |less| && |db.Keys| == |db|;
  }

  lemma {:induction false} FewerKeys(a: set<Name>, b: set<Name>)
    requires a < b
    ensures |a| < |b|
  {
    if x :| x in a {
      FewerKeys(a - {x}, b - {x});
    } else {
      assert a == {};
      var y :| y in b;
    }
  }

  lemma AllSaved(all: Db, lines: seq<Line>)
    requires Saving(all, lines, map[])
    ensures LoadFrom(map[], Text(lines)) == Loaded(all)
  {
    LinesBack(map[], lines);
    assert AddedAll(map[], lines) + map[] == AddedAll(map[], lines);
  }
}
