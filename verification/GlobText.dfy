/** What a KEYS pattern selects, on the text of the pattern itself: for patterns whose meaning compilation
    keeps, the compiled expression matches what the text says, sign by sign. */
module GlobText {
  import opened Base
  import opened Regexp
  import opened Glob
  import opened GlobMeaning

  /** A pattern whose meaning compilation keeps: ASCII, simple classes, and no literal backslash right
      before a literal E. */
  predicate Sound(k: string) {
    Ascii(k) && (Tokens(k).Some? ==> QuoteSafe(Tokens(k).value) && SimpleClasses(Tokens(k).value))
  }

  /** The compiled pattern matches. */
  predicate CompiledMatches(k: string, s: string) { Compiled(k).Read? && Hit(Compiled(k).value, s) }

  /** What a pattern text stands for. A lone backslash at the end and an empty class match nothing; a class
      without its bracket ends with the pattern. */
  predicate TextMatches(k: string, s: string)
    decreases |k|
  {
    if k == "" then s == ""
    else match k[0]
      case '?' => s != "" && TextMatches(k[1..], s[1..])
      case '*' => exists n :: 0 <= n <= |s| && TextMatches(k[1..], s[n..])
      case '\\' => |k| > 1 && s != "" && s[0] == k[1] && TextMatches(k[2..], s[1..])
      case '[' =>
        (match ScanClass(k[1..])
         case None => false
         case Some((body, rest)) => body != "" && s != "" && InClass(body, s[0]) && TextMatches(rest, s[1..]))
      case c => s != "" && s[0] == c && TextMatches(k[1..], s[1..])
  }

  lemma {:induction false} TokensMatchText(k: string, s: string)
    ensures TextMatches(k, s) <==> Tokens(k).Some? && GlobMatch(Tokens(k).value, s)
    decreases |k|
  {
    if k != "" && FirstToken(k).Some? {
      var (t, rest) := FirstToken(k).value;
      TokensOn(k);
      if t.Many? {
        forall n | 0 <= n <= |s|
          ensures TextMatches(rest, s[n..]) <==> Tokens(rest).Some? && GlobMatch(Tokens(rest).value, s[n..])
        {
          TokensMatchText(rest, s[n..]);
        }
      } else if s != "" {
        TokensMatchText(rest, s[1..]);
      }
    }
  }

  lemma TokensOn(k: string)
    requires k != "" && FirstToken(k).Some?
    ensures
      var (t, rest) := FirstToken(k).value;
      && Tokens(k).Some? == Tokens(rest).Some?
      && (Tokens(k).Some? ==>
            Tokens(k).value != [] && Tokens(k).value[0] == t && Tokens(k).value[1..] == Tokens(rest).value)
  {
  }

  /** Compilation keeps the meaning of the text. */
  lemma CompiledText(k: string, s: string)
    requires Sound(k) && '\n' !in s
    ensures Compiled(k).Read? && (CompiledMatches(k, s) <==> TextMatches(k, s))
  {
    hide QuoteSafe, SimpleClasses, ReadItems, Emit, MatchString, GlobMatch, TextMatches;
    TokensMatchText(k, s);
    if Tokens(k).Some? {
      CompiledMeaning(Tokens(k).value, s);
    }
  }

  // ---------- Sign by sign ----------

  /** What follows the first sign of a sound pattern is sound. */
  lemma SoundRest(k: string, t: Token, rest: string)
    requires k != "" && FirstToken(k) == Some((t, rest)) && Sound(k) && Ascii(rest)
    ensures Sound(rest)
  {
    hide FirstToken, SimpleClass;
    TokensOn(k);
    if Tokens(rest).Some? {
      SafeTail(Tokens(k).value);
    }
  }

  lemma SafeTail(ts: seq<Token>)
    requires ts != [] && QuoteSafe(ts) && SimpleClasses(ts)
    ensures QuoteSafe(ts[1..]) && SimpleClasses(ts[1..])
  {
    hide SimpleClass;
    forall i | 0 <= i < |ts| - 1
      ensures ts[1..][i] == ts[i + 1]
    {
    }
  }

  lemma AsciiTail(a: string, k: string)
    requires Ascii(a + k)
    ensures Ascii(k)
  {
    forall c | c in k
      ensures c in a + k
    {
    }
  }

  /** The empty pattern matches only the empty key. */
  lemma EmptyLaw(s: string)
    requires '\n' !in s
    ensures Sound("") && (CompiledMatches("", s) <==> s == "")
  {
    CompiledText("", s);
  }

  /** `?` stands for one character. */
  lemma OneLaw(k: string, s: string)
    requires Sound("?" + k) && '\n' !in s
    ensures Sound(k) && (CompiledMatches("?" + k, s) <==> s != "" && CompiledMatches(k, s[1..]))
  {
    hide Sound, CompiledMatches;
    assert ("?" + k)[1..] == k;
    AsciiOf("?" + k);
    AsciiTail("?", k);
    SoundRest("?" + k, One, k);
    CompiledText("?" + k, s);
    if s != "" {
      CompiledText(k, s[1..]);
    }
  }

  /** `*` stands for any number of characters. */
  lemma ManyLaw(k: string, s: string)
    requires Sound("*" + k) && '\n' !in s
    ensures Sound(k) && (CompiledMatches("*" + k, s) <==> exists n :: 0 <= n <= |s| && CompiledMatches(k, s[n..]))
  {
    hide Sound, CompiledMatches;
    assert ("*" + k)[1..] == k;
    AsciiOf("*" + k);
    AsciiTail("*", k);
    SoundRest("*" + k, Many, k);
    CompiledText("*" + k, s);
    forall n | 0 <= n <= |s|
      ensures CompiledMatches(k, s[n..]) <==> TextMatches(k, s[n..])
    {
      CompiledText(k, s[n..]);
    }
  }

  /** An escaped character stands for itself. */
  lemma EscapeLaw(c: char, k: string, s: string)
    requires Sound("\\" + [c] + k) && '\n' !in s
    ensures Sound(k) && (CompiledMatches("\\" + [c] + k, s) <==> s != "" && s[0] == c && CompiledMatches(k, s[1..]))
  {
    hide Sound, CompiledMatches;
    var p := "\\" + [c] + k;
    assert p[1] == c && p[2..] == k;
    AsciiOf(p);
    AsciiTail("\\" + [c], k);
    SoundRest(p, Lit(c), k);
    CompiledText(p, s);
    if s != "" {
      CompiledText(k, s[1..]);
    }
  }

  /** So does any character but the four signs. */
  lemma PlainLaw(c: char, k: string, s: string)
    requires c != '?' && c != '*' && c != '[' && c != '\\' && Sound([c] + k) && '\n' !in s
    ensures Sound(k) && (CompiledMatches([c] + k, s) <==> s != "" && s[0] == c && CompiledMatches(k, s[1..]))
  {
    hide Sound, CompiledMatches;
    var p := [c] + k;
    assert p[0] == c && p[1..] == k;
    AsciiOf(p);
    AsciiTail([c], k);
    SoundRest(p, Lit(c), k);
    CompiledText(p, s);
    if s != "" {
      CompiledText(k, s[1..]);
    }
  }

  predicate Unmarked(body: string) { body != "" && '[' !in body && ']' !in body && '\\' !in body }

  /** A class stands for one of its characters. */
  lemma ClassLaw(body: string, k: string, s: string)
    requires Unmarked(body) && Sound("[" + body + "]" + k) && '\n' !in s
    ensures Sound(k)
    ensures CompiledMatches("[" + body + "]" + k, s) <==> s != "" && InClass(body, s[0]) && CompiledMatches(k, s[1..])
  {
    hide Sound, CompiledMatches, InClass;
    var p := "[" + body + "]" + k;
    assert p[1..] == body + "]" + k;
    ScanBody(body, k);
    AsciiOf(p);
    AsciiTail("[" + body + "]", k);
    SoundRest(p, Class(body), k);
    CompiledText(p, s);
    if s != "" {
      CompiledText(k, s[1..]);
    }
  }

  /** A class without its bracket ends with the pattern. */
  lemma OpenClassLaw(body: string, s: string)
    requires Unmarked(body) && Sound("[" + body) && '\n' !in s
    ensures CompiledMatches("[" + body, s) <==> |s| == 1 && InClass(body, s[0])
  {
    hide Sound, CompiledMatches, InClass;
    var p := "[" + body;
    assert p[1..] == body;
    ScanOpen(body);
    CompiledText(p, s);
    assert s != "" ==> (s[1..] == "" <==> |s| == 1);
  }

  /** A lone backslash at the end and an empty class match nothing. */
  lemma NothingLaw(k: string, s: string)
    ensures !CompiledMatches("\\", s) && !CompiledMatches("[]" + k, s)
  {
    var p := "[]" + k;
    assert p[1..][0] == ']' && p[1..][1..] == k;
  }

  lemma AsciiOf(k: string)
    requires Sound(k)
    ensures Ascii(k)
  {
  }

  lemma {:induction false} ScanBody(body: string, k: string)
    requires ']' !in body && '\\' !in body
    ensures ScanClass(body + "]" + k) == Some((body, k))
  {
    var t := body + "]" + k;
    if body == "" {
      assert t[1..] == k;
    } else {
      assert t[0] == body[0] && t[1..] == body[1..] + "]" + k;
      ScanBody(body[1..], k);
      assert t[..1] + body[1..] == body;
    }
  }

  lemma {:induction false} ScanOpen(body: string)
    requires ']' !in body && '\\' !in body
    ensures ScanClass(body) == Some((body, ""))
  {
    if body != "" {
      ScanOpen(body[1..]);
      assert body[..1] + body[1..] == body;
    }
  }

  // ---------- What a class text lists ----------

  /** A list of characters. */
  lemma {:induction false} ListedClass(body: string, c: char)
    requires Unmarked(body) && '-' !in body && body[0] != '^'
    ensures InClass(body, c) <==> c in body
  {
    ListedSet(body, c);
  }

  lemma {:induction false} ListedSet(body: string, c: char)
    requires '-' !in body && '\\' !in body
    ensures c in SetOf(body) <==> c in body
  {
    if body != "" {
      ListedSet(body[1..], c);
      assert body == [body[0]] + body[1..];
    }
  }

  /** A range, and whatever else the class lists. */
  lemma RangeClass(lo: char, hi: char, more: string, c: char)
    requires lo != '\\' && hi != '\\' && lo != '^' && (more == "" || more[0] != '^')
    ensures InClass([lo, '-', hi] + more, c) <==> lo <= c <= hi || (more != "" && InClass(more, c))
  {
    var body := [lo, '-', hi] + more;
    assert body[1..][1..][0] == hi && body[1..][1..][1..] == more && body[1..][0] == '-';
    assert body[0] == lo && HeadChar(body) == (lo, body[1..]);
    assert RangeFollows(body[1..]) && HeadChar(body[1..][1..]) == (hi, more);
    assert SetOf(body) == Range(lo, hi) + SetOf(more);
    assert c in Range(lo, hi) <==> Between(lo, c, hi);
  }

  /** A leading caret means any other character. */
  lemma NegatedClass(body: string, c: char)
    requires body != "" && body[0] != '^'
    ensures InClass("^" + body, c) <==> !InClass(body, c)
  {
    assert ("^" + body)[1..] == body;
  }
}
