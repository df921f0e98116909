/** Escaping of file names: three substitutions one way, three the other way. */
module FilenameEscape {
  /** Replaces every occurrence of a character. */
  function SubChar(s: string, c: char, text: string): string {
    if s == "" then "" else (if s[0] == c then text else [s[0]]) + SubChar(s[1..], c, text)
  }

  /** Replaces the occurrences of a two-character pattern from left to right. */
  function SubPair(s: string, a: char, b: char, c: char): string {
    if s == "" then ""
    else if |s| >= 2 && s[0] == a && s[1] == b then [c] + SubPair(s[2..], a, b, c)
    else [s[0]] + SubPair(s[1..], a, b, c)
  }

  function EscapeFilename(name: string): string {
    SubChar(SubChar(SubChar(name, 'Z', "ZZ"), '.', "Zd"), '/', "Zs")
  }

  function EscapeLemmaName(name: string): string {
    SubChar(SubChar(SubChar(name, 'Z', "ZZ"), '/', "Zs"), '.', "Zd")
  }

  function UnescapeFilename(name: string): string {
    SubPair(SubPair(SubPair(name, 'Z', 'Z', 'Z'), 'Z', 'd', '.'), 'Z', 's', '/')
  }

  ghost predicate Contains(s: string, a: char, b: char) { exists i :: 0 <= i < |s| - 1 && s[i] == a && s[i + 1] == b }

  // ---------------------------------------------------------------- escaping, one character at a time

  function Code(c: char): string {
    if c == 'Z' then "ZZ" else if c == '.' then "Zd" else if c == '/' then "Zs" else [c]
  }

  function Encoded(name: string): string {
    if name == "" then "" else Code(name[0]) + Encoded(name[1..])
  }

  lemma {:induction false} SubCharConcat(s: string, t: string, c: char, text: string)
    ensures SubChar(s + t, c, text) == SubChar(s, c, text) + SubChar(t, c, text)
  {
    if s == "" {
      assert s + t == t;
    } else {
      assert (s + t)[1..] == s[1..] + t;
      SubCharConcat(s[1..], t, c, text);
    }
  }

  lemma SubCharOne(c: char, d: char, text: string)
    ensures SubChar([c], d, text) == if c == d then text else [c]
  {
    assert SubChar([c], d, text) == (if c == d then text else [c]) + "";
  }

  lemma SubCharTwo(c1: char, c2: char, d: char, text: string)
    requires c1 != d && c2 != d
    ensures SubChar([c1, c2], d, text) == [c1, c2]
  {
    assert [c1, c2] == [c1] + [c2];
    SubCharConcat([c1], [c2], d, text);
    SubCharOne(c1, d, text);
    SubCharOne(c2, d, text);
  }

  /** The order of the last two substitutions does not matter: each character has its own code. */
  lemma {:induction false} EscapesByCharacter(name: string)
    ensures EscapeFilename(name) == Encoded(name) && EscapeLemmaName(name) == Encoded(name)
  {
    if name != "" {
      var c, rest := name[0], name[1..];
      EscapesByCharacter(rest);
      var first := if c == 'Z' then "ZZ" else [c];
      var others := SubChar(rest, 'Z', "ZZ");
      SubCharConcat(first, others, '.', "Zd");
      SubCharConcat(first, others, '/', "Zs");
      SubCharConcat(SubChar(first, '.', "Zd"), SubChar(others, '.', "Zd"), '/', "Zs");
      SubCharConcat(SubChar(first, '/', "Zs"), SubChar(others, '/', "Zs"), '.', "Zd");
      OneCode(c);
    }
  }

  lemma OneCode(c: char)
    ensures var first := if c == 'Z' then "ZZ" else [c];
      SubChar(SubChar(first, '.', "Zd"), '/', "Zs") == Code(c) && SubChar(SubChar(first, '/', "Zs"), '.', "Zd") == Code(c)
  {
    SubCharOne(c, '.', "Zd");
    SubCharOne(c, '/', "Zs");
    SubCharTwo('Z', 'Z', '.', "Zd");
    SubCharTwo('Z', 'Z', '/', "Zs");
    SubCharTwo('Z', 'd', '/', "Zs");
    SubCharTwo('Z', 's', '.', "Zd");
  }

  /** Different names never get the same escaped name. */
  lemma {:induction false} EscapeInjective(f: string, g: string)
    requires EscapeFilename(f) == EscapeFilename(g)
    ensures f == g
  {
    EscapesByCharacter(f);
    EscapesByCharacter(g);
    EncodedInjective(f, g);
  }

  lemma {:induction false} EncodedInjective(f: string, g: string)
    requires Encoded(f) == Encoded(g)
    ensures f == g
  {
    if f != "" && g != "" {
      CodesDiffer(f[0], g[0], Encoded(f[1..]), Encoded(g[1..]));
      EncodedInjective(f[1..], g[1..]);
      assert f == [f[0]] + f[1..] && g == [g[0]] + g[1..];
    }
  }

  lemma CodesDiffer(c: char, d: char, s: string, t: string)
    requires Code(c) + s == Code(d) + t
    ensures c == d && s == t
  {
    var whole := Code(c) + s;
    assert whole[0] == Code(c)[0] == Code(d)[0];
    if whole[0] == 'Z' {
      assert whole[1] == Code(c)[1] && (Code(d) + t)[1] == Code(d)[1];
      assert whole[2..] == s && (Code(d) + t)[2..] == t;
    } else {
      assert whole[1..] == s && (Code(d) + t)[1..] == t;
    }
  }

  // ---------------------------------------------------------------- unescaping an escaped name

  /** The codes after the first substitution, and after the second. */
  function Code1(c: char): string { if c == '.' then "Zd" else Code2(c) }

  function Encoded1(name: string): string {
    if name == "" then "" else Code1(name[0]) + Encoded1(name[1..])
  }

  function Code2(c: char): string { if c == '/' then "Zs" else [c] }

  function Encoded2(name: string): string {
    if name == "" then "" else Code2(name[0]) + Encoded2(name[1..])
  }

  lemma SubPairHit(s: string, a: char, b: char, c: char)
    ensures SubPair([a, b] + s, a, b, c) == [c] + SubPair(s, a, b, c)
  {
    assert ([a, b] + s)[2..] == s;
  }

  lemma SubPairMiss(s: string, a: char, b: char, c: char, first: char)
    requires first != a || s == "" || s[0] != b
    ensures SubPair([first] + s, a, b, c) == [first] + SubPair(s, a, b, c)
  {
    assert ([first] + s)[1..] == s;
  }

  lemma SubPairMissTwo(s: string, a: char, b: char, c: char, mark: char)
    requires b != mark && mark != a
    ensures SubPair([a, mark] + s, a, b, c) == [a, mark] + SubPair(s, a, b, c)
  {
    assert [a, mark] + s == [a] + ([mark] + s);
    SubPairMiss([mark] + s, a, b, c, a);
    SubPairMiss(s, a, b, c, mark);
    assert [a] + ([mark] + SubPair(s, a, b, c)) == [a, mark] + SubPair(s, a, b, c);
  }

  /** The doubled letters are told apart from the others, however many stand in a row. */
  lemma {:induction false} FirstPass(name: string)
    ensures SubPair(Encoded(name), 'Z', 'Z', 'Z') == Encoded1(name)
  {
    if name != "" {
      hide SubPair;
      var c, rest := name[0], Encoded(name[1..]);
      FirstPass(name[1..]);
      if c == 'Z' {
        SubPairHit(rest, 'Z', 'Z', 'Z');
      } else if c == '.' || c == '/' {
        SubPairMissTwo(rest, 'Z', 'Z', 'Z', if c == '.' then 'd' else 's');
      } else {
        SubPairMiss(rest, 'Z', 'Z', 'Z', c);
      }
    }
  }

  /** The second pass also takes a `Zd` of the name for a dot. */
  lemma {:induction false} SecondPass(name: string)
    ensures SubPair(Encoded1(name), 'Z', 'd', '.') == Encoded2(SubPair(name, 'Z', 'd', '.'))
    decreases |name|
  {
    if name != "" {
      hide SubPair, Encoded1, Encoded2;
      var c, rest := name[0], name[1..];
      Encoded1First(name);
      if rest != "" && c == 'Z' && rest[0] == 'd' {
        Encoded1First(rest);
        SecondPass(name[2..]);
        assert Code1('Z') + (Code1('d') + Encoded1(name[2..])) == ['Z', 'd'] + Encoded1(name[2..]);
        SubPairHit(Encoded1(name[2..]), 'Z', 'd', '.');
        assert name == ['Z', 'd'] + name[2..];
        SubPairHit(name[2..], 'Z', 'd', '.');
        Encoded2First('.', SubPair(name[2..], 'Z', 'd', '.'));
      } else {
        SecondPass(rest);
        assert name == [c] + rest;
        SubPairMiss(rest, 'Z', 'd', '.', c);
        Encoded2First(c, SubPair(rest, 'Z', 'd', '.'));
        Encoded1Head(rest);
        if c == '.' {
          SubPairHit(Encoded1(rest), 'Z', 'd', '.');
        } else if c == '/' {
          SubPairMissTwo(Encoded1(rest), 'Z', 'd', '.', 's');
        } else {
          SubPairMiss(Encoded1(rest), 'Z', 'd', '.', c);
        }
      }
    }
  }

  lemma Encoded1First(name: string)
    requires name != ""
    ensures Encoded1(name) == Code1(name[0]) + Encoded1(name[1..])
  {
  }

  /** A code starts with the letter that the character stands for, or with a `Z`. */
  lemma Encoded1Head(name: string)
    ensures Encoded1(name) == "" <==> name == ""
    ensures name != "" ==> Encoded1(name)[0] == 'Z' || Encoded1(name)[0] == name[0]
  {
  }

  lemma Encoded2Head(name: string)
    ensures Encoded2(name) == "" <==> name == ""
    ensures name != "" ==> Encoded2(name)[0] == 'Z' || Encoded2(name)[0] == name[0]
  {
  }

  lemma Encoded2First(c: char, rest: string)
    ensures Encoded2([c] + rest) == Code2(c) + Encoded2(rest)
  {
    assert ([c] + rest)[1..] == rest;
  }

  /** The third pass also takes a `Zs` of the name for a slash. */
  lemma {:induction false} ThirdPass(name: string)
    ensures SubPair(Encoded2(name), 'Z', 's', '/') == SubPair(name, 'Z', 's', '/')
    decreases |name|
  {
    if name != "" {
      hide SubPair, Encoded2;
      var c, rest := name[0], name[1..];
      assert name == [c] + rest;
      Encoded2First(c, rest);
      if rest != "" && c == 'Z' && rest[0] == 's' {
        ThirdPass(name[2..]);
        assert rest == ['s'] + name[2..] && name == ['Z', 's'] + name[2..];
        Encoded2First('s', name[2..]);
        assert Code2('Z') + (Code2('s') + Encoded2(name[2..])) == ['Z', 's'] + Encoded2(name[2..]);
        SubPairHit(Encoded2(name[2..]), 'Z', 's', '/');
        SubPairHit(name[2..], 'Z', 's', '/');
      } else {
        ThirdPass(rest);
        Encoded2Head(rest);
        SubPairMiss(rest, 'Z', 's', '/', c);
        if c == '/' {
          SubPairHit(Encoded2(rest), 'Z', 's', '/');
        } else {
          SubPairMiss(Encoded2(rest), 'Z', 's', '/', c);
        }
      }
    }
  }

  lemma {:induction false} SubPairShortens(s: string, a: char, b: char, c: char)
    ensures |SubPair(s, a, b, c)| <= |s|
    ensures Contains(s, a, b) <==> |SubPair(s, a, b, c)| < |s|
    ensures !Contains(s, a, b) ==> SubPair(s, a, b, c) == s
    decreases |s|
  {
    if s != "" {
      SubPairShortens(s[1..], a, b, c);
      if |s| >= 2 && s[0] == a && s[1] == b {
        SubPairShortens(s[2..], a, b, c);
        assert Contains(s, a, b);
      } else {
        assert s == [s[0]] + s[1..];
        if i :| 0 <= i < |s| - 1 && s[i] == a && s[i + 1] == b {
          assert s[1..][i - 1] == a && s[1..][i] == b;
          assert s[1..][i - 1 + 1] == b;
        }
        if i :| 0 <= i < |s[1..]| - 1 && s[1..][i] == a && s[1..][i + 1] == b {
          assert s[i + 1] == a && s[i + 1 + 1] == b;
        }
      }
    }
  }

  /** Unescaping undoes escaping, except that it turns every `Zd` and `Zs` that the name had into a dot or a slash. */
  lemma UnescapeEscape(name: string)
    ensures UnescapeFilename(EscapeFilename(name)) == SubPair(SubPair(name, 'Z', 'd', '.'), 'Z', 's', '/')
  {
    EscapesByCharacter(name);
    FirstPass(name);
    SecondPass(name);
    ThirdPass(SubPair(name, 'Z', 'd', '.'));
  }

  /** The round trip gives the name back exactly when it contains neither `Zd` nor `Zs`. */
  lemma RoundTrip(name: string)
    ensures UnescapeFilename(EscapeFilename(name)) == name <==> !Contains(name, 'Z', 'd') && !Contains(name, 'Z', 's')
  {
    UnescapeEscape(name);
    SubPairShortens(name, 'Z', 'd', '.');
    SubPairShortens(SubPair(name, 'Z', 'd', '.'), 'Z', 's', '/');
  }
}
