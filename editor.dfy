/**
 * The pure text functions of the code editor panel: the HTML escaping that
 * runs before highlighting, and the line/column figures of the gutter and
 * the status bar.
 */
module Editor {

  /** Number of occurrences of `c` in `s`. */
  function Count(s: string, c: char): (n: nat)
    ensures n <= |s|
    ensures n == 0 <==> c !in s
  {
    if s == [] then 0 else (if s[0] == c then 1 else 0) + Count(s[1..], c)
  }

  // ---------------------------------------------------------------------
  // escapeHtml
  // ---------------------------------------------------------------------

  /** `s.replace(/c/g, rep)`: every occurrence of the single character `c` replaced by `rep`. */
  function ReplaceAll(s: string, c: char, rep: string): (r: string)
  {
    if s == [] then [] else (if s[0] == c then rep else [s[0]]) + ReplaceAll(s[1..], c, rep)
  }

  /** A global single-character replacement works piece by piece. */
  lemma {:induction false} ReplaceAllAppend(a: string, b: string, c: char, rep: string)
    ensures ReplaceAll(a + b, c, rep) == ReplaceAll(a, c, rep) + ReplaceAll(b, c, rep)
  {
    if a == [] {
      assert a + b == b;
    } else {
      assert (a + b)[0] == a[0];
      assert (a + b)[1..] == a[1..] + b;
      ReplaceAllAppend(a[1..], b, c, rep);
    }
  }

  /** Replacing a character that does not occur changes nothing. */
  lemma {:induction false} ReplaceAllAbsent(s: string, c: char, rep: string)
    requires c !in s
    ensures ReplaceAll(s, c, rep) == s
  {
    if s != [] {
      assert s[0] != c && c !in s[1..];
      ReplaceAllAbsent(s[1..], c, rep);
      assert s == [s[0]] + s[1..];
    }
  }

  /**
   * `escapeHtml`: three global replacements in this order, `&` first, so
   * that the `&` of the entities introduced for `<` and `>` is not escaped
   * again.
   */
  function EscapeHtml(text: string): string
  {
    ReplaceAll(ReplaceAll(ReplaceAll(text, '&', "&amp;"), '<', "&lt;"), '>', "&gt;")
  }

  /** Reference definition: the entity for one character. */
  function EscapeChar(c: char): string
  {
    if c == '&' then "&amp;" else if c == '<' then "&lt;" else if c == '>' then "&gt;" else [c]
  }

  /** Reference definition: escaping character by character. */
  function Escaped(s: string): string
  {
    if s == [] then [] else EscapeChar(s[0]) + Escaped(s[1..])
  }

  lemma EscapeHtmlOneChar(c: char)
    ensures EscapeHtml([c]) == EscapeChar(c)
  {
    ReplaceAllOne(c, '&', "&amp;");
    if c == '&' {
      ReplaceAllAbsent("&amp;", '<', "&lt;");
      ReplaceAllAbsent("&amp;", '>', "&gt;");
    } else {
      ReplaceAllOne(c, '<', "&lt;");
      if c == '<' {
        ReplaceAllAbsent("&lt;", '>', "&gt;");
      } else {
        ReplaceAllOne(c, '>', "&gt;");
      }
    }
  }

  /** Escaping distributes over concatenation. */
  lemma {:induction false} EscapeHtmlAppend(a: string, b: string)
    ensures EscapeHtml(a + b) == EscapeHtml(a) + EscapeHtml(b)
  {
    ReplaceAllAppend(a, b, '&', "&amp;");
    var a1, b1 := ReplaceAll(a, '&', "&amp;"), ReplaceAll(b, '&', "&amp;");
    ReplaceAllAppend(a1, b1, '<', "&lt;");
    var a2, b2 := ReplaceAll(a1, '<', "&lt;"), ReplaceAll(b1, '<', "&lt;");
    ReplaceAllAppend(a2, b2, '>', "&gt;");
  }

  /** The chain of replacements is exactly per-character escaping. */
  lemma {:induction false} EscapeHtmlIsPerCharacter(s: string)
    ensures EscapeHtml(s) == Escaped(s)
  {
    if s == [] {
    } else {
      assert s == [s[0]] + s[1..];
      EscapeHtmlAppend([s[0]], s[1..]);
      EscapeHtmlOneChar(s[0]);
      EscapeHtmlIsPerCharacter(s[1..]);
    }
  }

  lemma {:induction false} EscapedHasNoAngles(s: string)
    ensures '<' !in Escaped(s) && '>' !in Escaped(s)
  {
    if s != [] {
      EscapedHasNoAngles(s[1..]);
    }
  }

  /** The escaped text contains no raw angle bracket. */
  lemma NoRawAngleBrackets(s: string)
    ensures '<' !in EscapeHtml(s) && '>' !in EscapeHtml(s)
  {
    EscapeHtmlIsPerCharacter(s);
    EscapedHasNoAngles(s);
  }

  lemma {:induction false} EscapedLength(s: string)
    ensures |Escaped(s)| == |s| + 4 * Count(s, '&') + 3 * Count(s, '<') + 3 * Count(s, '>')
  {
    if s != [] {
      EscapedLength(s[1..]);
    }
  }

  /** Each `&` grows by four characters, each `<` and `>` by three. */
  lemma EscapeHtmlLength(s: string)
    ensures |EscapeHtml(s)| == |s| + 4 * Count(s, '&') + 3 * Count(s, '<') + 3 * Count(s, '>')
  {
    EscapeHtmlIsPerCharacter(s);
    EscapedLength(s);
  }

  /** Text without `&`, `<` and `>` is left as it is. */
  lemma EscapeHtmlIdentity(s: string)
    requires '&' !in s && '<' !in s && '>' !in s
    ensures EscapeHtml(s) == s
  {
    ReplaceAllAbsent(s, '&', "&amp;");
    ReplaceAllAbsent(s, '<', "&lt;");
    ReplaceAllAbsent(s, '>', "&gt;");
  }

  lemma ReplaceAllOne(x: char, c: char, rep: string)
    ensures ReplaceAll([x], c, rep) == if x == c then rep else [x]
  {
    assert [x][1..] == [];
  }

  /** Had `&` been replaced last, the entity for `<` would be escaped twice. */
  lemma AmpersandFirstMatters()
    ensures EscapeHtml("<") == "&lt;"
    ensures ReplaceAll(ReplaceAll(ReplaceAll("<", '<', "&lt;"), '>', "&gt;"), '&', "&amp;") == "&amp;lt;"
  {
    EscapeHtmlOneChar('<');
    ReplaceAllOne('<', '<', "&lt;");
    ReplaceAllAbsent("&lt;", '>', "&gt;");
    assert "&lt;" == "&" + "lt;";
    ReplaceAllAppend("&", "lt;", '&', "&amp;");
    ReplaceAllOne('&', '&', "&amp;");
    ReplaceAllAbsent("lt;", '&', "&amp;");
    assert "&amp;" + "lt;" == "&amp;lt;";
  }

  /** Inverse of escaping: the three entities are turned back into their characters. */
  function Unescape(s: string): string
    decreases |s|
  {
    if s == [] then []
    else if |s| >= 5 && s[..5] == "&amp;" then "&" + Unescape(s[5..])
    else if |s| >= 4 && s[..4] == "&lt;" then "<" + Unescape(s[4..])
    else if |s| >= 4 && s[..4] == "&gt;" then ">" + Unescape(s[4..])
    else [s[0]] + Unescape(s[1..])
  }

  lemma UnescapeEntity(c: char, rest: string)
    ensures Unescape(EscapeChar(c) + rest) == [c] + Unescape(rest)
  {
    if c == '&' {
      AmpEntity(rest);
    } else if c == '<' {
      LessThanEntity(rest);
    } else if c == '>' {
      GreaterThanEntity(rest);
    } else {
      PlainChar(c, rest);
    }
  }

  lemma AmpEntity(rest: string)
    ensures Unescape("&amp;" + rest) == "&" + Unescape(rest)
  {
    var e := "&amp;" + rest;
    assert e[..5] == "&amp;" && e[5..] == rest;
  }

  lemma LessThanEntity(rest: string)
    ensures Unescape("&lt;" + rest) == "<" + Unescape(rest)
  {
    var e := "&lt;" + rest;
    assert e[1] == 'l';
    assert !(|e| >= 5 && e[..5] == "&amp;");
    assert e[..4] == "&lt;" && e[4..] == rest;
  }

  lemma GreaterThanEntity(rest: string)
    ensures Unescape("&gt;" + rest) == ">" + Unescape(rest)
  {
    var e := "&gt;" + rest;
    assert e[1] == 'g';
    assert !(|e| >= 5 && e[..5] == "&amp;");
    assert e[..4] != "&lt;";
    assert e[..4] == "&gt;" && e[4..] == rest;
  }

  lemma PlainChar(c: char, rest: string)
    requires c != '&'
    ensures Unescape([c] + rest) == [c] + Unescape(rest)
  {
    var e := [c] + rest;
    assert e[0] == c && e[1..] == rest;
  }

  /** Escaping loses nothing: unescaping the result gives the original text back. */
  lemma {:induction false} UnescapeEscapeHtml(s: string)
    ensures Unescape(EscapeHtml(s)) == s
  {
    EscapeHtmlIsPerCharacter(s);
    UnescapeEscaped(s);
  }

  lemma {:induction false} UnescapeEscaped(s: string)
    ensures Unescape(Escaped(s)) == s
  {
    if s != [] {
      UnescapeEntity(s[0], Escaped(s[1..]));
      UnescapeEscaped(s[1..]);
      assert s == [s[0]] + s[1..];
    }
  }

  // ---------------------------------------------------------------------
  // Line numbers and the "Ln, Col" status bar
  // ---------------------------------------------------------------------

  /** `code.split('\n')`: the pieces between newlines, always at least one. */
  function Lines(s: string): (r: seq<string>)
    ensures |r| >= 1
    ensures forall i :: 0 <= i < |r| ==> '\n' !in r[i]
  {
    if s == [] then [""]
    else if s[0] == '\n' then [""] + Lines(s[1..])
    else
      var rest := Lines(s[1..]);
      [[s[0]] + rest[0]] + rest[1..]
  }

  /** `parts.join('\n')`. */
  function Join(parts: seq<string>): string
    requires |parts| >= 1
  {
    if |parts| == 1 then parts[0] else parts[0] + "\n" + Join(parts[1..])
  }

  /** Splitting at newlines and joining with newlines gives the text back. */
  lemma {:induction false} JoinLines(s: string)
    ensures Join(Lines(s)) == s
  {
    if s == [] {
    } else if s[0] == '\n' {
      var rest := Lines(s[1..]);
      JoinLines(s[1..]);
      assert ([""] + rest)[1..] == rest;
      assert s == "\n" + s[1..];
    } else {
      var rest := Lines(s[1..]);
      JoinLines(s[1..]);
      var r := [[s[0]] + rest[0]] + rest[1..];
      assert r[1..] == rest[1..];
      if |rest| == 1 {
        assert s == [s[0]] + rest[0];
      } else {
        assert Join(rest) == rest[0] + "\n" + Join(rest[1..]);
        assert s == [s[0]] + s[1..];
      }
    }
  }

  /** The number of gutter rows, which is also the status bar's "Ln". */
  function LineCount(code: string): (n: nat)
    ensures n >= 1
  {
    |Lines(code)|
  }

  /** The status bar's "Col": the length of the last piece of the split. */
  function Column(code: string): nat
  {
    var lines := Lines(code);
    |lines[|lines| - 1]|
  }

  /** One row per newline, plus one. */
  lemma {:induction false} LineCountIsNewlinesPlusOne(code: string)
    ensures LineCount(code) == 1 + Count(code, '\n')
  {
    if code != [] {
      LineCountIsNewlinesPlusOne(code[1..]);
    }
  }

  lemma {:induction false} LastLineIsTail(s: string)
    ensures var lines := Lines(s); var t := lines[|lines| - 1];
      |t| <= |s| && t == s[|s| - |t|..] && (|t| == |s| || s[|s| - |t| - 1] == '\n')
  {
    if s != [] {
      var tail := s[1..];
      LastLineIsTail(tail);
      var rest := Lines(tail);
      var t := rest[|rest| - 1];
      assert tail[|tail| - |t|..] == s[|s| - |t|..];
      if s[0] == '\n' {
        assert Lines(s) == [""] + rest;
        assert Lines(s)[|Lines(s)| - 1] == t;
        if |t| == |tail| {
          assert s[|s| - |t| - 1] == s[0];
        } else {
          assert s[|s| - |t| - 1] == tail[|tail| - |t| - 1];
        }
      } else if |rest| == 1 {
        assert Lines(s) == [[s[0]] + t];
        JoinLines(tail);
        assert [s[0]] + t == s;
      } else {
        assert Lines(s) == [[s[0]] + rest[0]] + rest[1..];
        assert Lines(s)[|Lines(s)| - 1] == t;
        LineCountIsNewlinesPlusOne(tail);
        assert '\n' in tail && '\n' !in t;
        assert |t| < |tail|;
        assert s[|s| - |t| - 1] == tail[|tail| - |t| - 1];
      }
    }
  }

  /**
   * "Col" counts the characters after the last newline, or the whole text
   * when it has none.
   */
  lemma ColumnIsTextAfterLastNewline(code: string)
    ensures Column(code) <= |code|
    ensures '\n' !in code[|code| - Column(code)..]
    ensures Column(code) == |code| || code[|code| - Column(code) - 1] == '\n'
  {
    LastLineIsTail(code);
  }
}
