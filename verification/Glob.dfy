/** The KEYS pattern compiler (keys.go): glob patterns become regular expressions whose literal parts
    stand between \Q and \E. */
module Glob {
  import opened Base
  import opened Regexp

  // ---------- Glob patterns ----------

  /** A class keeps the text between its brackets, escapes included. */
  datatype Token = Lit(c: char) | One | Many | Class(body: string)

  /** The text of a class up to its bracket, or up to the end of an unclosed one, and what follows.
      None: the text ends in the middle of an escape. */
  function ScanClass(k: string): (r: Option<(string, string)>)
    ensures r.Some? ==> |r.value.0| + |r.value.1| <= |k|
  {
    if k == "" then Some(("", ""))
    else if k[0] == ']' then Some(("", k[1..]))
    else if k[0] == '\\' then
      if |k| == 1 then None
      else
        match ScanClass(k[2..])
        case None => None
        case Some((body, rest)) => Some((k[..2] + body, rest))
    else
      match ScanClass(k[1..])
      case None => None
      case Some((body, rest)) => Some((k[..1] + body, rest))
  }

  /** The first token of a pattern and what follows it. None: a lone backslash at the end, inside or
      outside a class, or an empty class. */
  function FirstToken(k: string): (r: Option<(Token, string)>)
    requires k != ""
    ensures r.Some? ==> |r.value.1| < |k|
  {
    match k[0]
    case '*' => Some((Many, k[1..]))
    case '?' => Some((One, k[1..]))
    case '[' =>
      (match ScanClass(k[1..])
       case None => None
       case Some((body, rest)) => if body == "" then None else Some((Class(body), rest)))
    case '\\' => if |k| == 1 then None else Some((Lit(k[1]), k[2..]))
    case c => Some((Lit(c), k[1..]))
  }

  function Tokens(k: string): (r: Option<seq<Token>>)
    decreases |k|
  {
    if k == "" then Some([])
    else
      match FirstToken(k)
      case None => None
      case Some((t, rest)) => Prepend([t], Tokens(rest))
  }

  function Prepend(done: seq<Token>, r: Option<seq<Token>>): (q: Option<seq<Token>>) {
    match r
    case None => None
    case Some(ts) => Some(done + ts)
  }

  /** The first character that a class text stands for, and what follows it. */
  function HeadChar(body: string): (r: (char, string))
    requires body != ""
    ensures |r.1| < |body|
  {
    if body[0] == '\\' && |body| > 1 then (body[1], body[2..]) else (body[0], body[1..])
  }

  /** A range follows: a hyphen with something behind it. */
  predicate RangeFollows(body: string) { |body| >= 2 && body[0] == '-' }

  /** The characters and ranges listed in a class text. */
  function SetOf(body: string): (r: set<char>)
    decreases |body|
  {
    if body == "" then {}
    else
      var (lo, more) := HeadChar(body);
      if RangeFollows(more) then
        var (hi, rest) := HeadChar(more[1..]);
        Range(lo, hi) + SetOf(rest)
      else {lo} + SetOf(more)
  }

  predicate Negated(body: string) { body != "" && body[0] == '^' }

  /** What a class stands for. */
  predicate InClass(body: string, c: char) {
    (c in SetOf(if Negated(body) then body[1..] else body)) != Negated(body)
  }

  /** Glob matching, straight from the tokens. */
  predicate GlobMatch(ts: seq<Token>, s: string)
    decreases |ts|
  {
    if ts == [] then s == ""
    else match ts[0]
      case Lit(c) => s != "" && s[0] == c && GlobMatch(ts[1..], s[1..])
      case One => s != "" && GlobMatch(ts[1..], s[1..])
      case Many => exists n :: 0 <= n <= |s| && GlobMatch(ts[1..], s[n..])
      case Class(body) => s != "" && InClass(body, s[0]) && GlobMatch(ts[1..], s[1..])
  }

  // ---------- patternRE ----------

  function EmitToken(t: Token): (r: string) {
    match t
    case Lit(c) => [c]
    case One => "\\E.\\Q"
    case Many => "\\E.*\\Q"
    case Class(body) => "\\E[" + body + "]\\Q"
  }

  function EmitAll(ts: seq<Token>): (r: string) {
    if ts == [] then "" else EmitToken(ts[0]) + EmitAll(ts[1..])
  }

  lemma {:induction false} EmitSnoc(ts: seq<Token>, t: Token)
    ensures EmitAll(ts + [t]) == EmitAll(ts) + EmitToken(t)
  {
    hide EmitToken;
    if ts == [] {
      assert [] + [t] == [t];
      assert EmitAll([t]) == EmitToken(t) + EmitAll([]);
    } else {
      var rest := ts[1..];
      EmitSnoc(rest, t);
      assert (ts + [t])[1..] == rest + [t];
      assert EmitToken(ts[0]) + (EmitAll(rest) + EmitToken(t)) == EmitToken(ts[0]) + EmitAll(rest) + EmitToken(t);
    }
  }

  /** The regular expression for a pattern. */
  function Emit(ts: seq<Token>): (r: string) { "^\\Q" + EmitAll(ts) + "\\E$" }

  /** `patternRE` up to the call of the regexp compiler: nil exactly for a backslash at the end or an
      empty class, else the text for the pattern's tokens. */
  method PatternRE(k: string) returns (text: Option<string>)
    ensures text == match Tokens(k) case None => None case Some(ts) => Some(Emit(ts))
  {
    TokensEnd(k);
    hide FirstToken, EmitToken, EmitAll, Tokens;
    var re := "^\\Q";
    var i := 0;
    ghost var done := [];
    Whole(k);
    while i < |k|
      invariant i <= |k|
      invariant re == "^\\Q" + EmitAll(done)
      invariant Tokens(k) == Prepend(done, Tokens(k[i..]))
    {
      TokensHead(k[i..]);
      var piece, next := EmitAt(k, i);
      if piece.None? {
        return None;
      }
      ghost var t := FirstToken(k[i..]).value.0;
      EmitSnoc(done, t);
      PrependSnoc(done, t, Tokens(k[next..]));
      re := re + piece.value;
      done := done + [t];
      i := next;
    }
    re := re + "\\E$";
    assert Tokens(k[i..]) == Some([]) && done + [] == done;
    text := Some(re);
  }

  /** The switch in the loop of `patternRE`: what is written for the token at `i`, and where the next
      one starts. */
  method EmitAt(k: string, i: nat) returns (piece: Option<string>, next: nat)
    requires i < |k|
    ensures i < next <= |k|
    ensures match FirstToken(k[i..])
      case None => piece == None
      case Some((t, rest)) => piece == Some(EmitToken(t)) && rest == k[next..]
  {
    assert k[i..][1..] == k[i + 1..] && k[i..][0] == k[i];
    next := i + 1;
    match k[i] {
      case '*' => piece := Some("\\E.*\\Q");
      case '?' => piece := Some("\\E.\\Q");
      case '[' =>
        var charClass;
        charClass, next := ClassBody(k, i + 1);
        next := if next < |k| then next + 1 else next;
        if charClass.None? || charClass.value == "" {
          return None, next;
        }
        piece := Some("\\E[" + charClass.value + "]\\Q");
      case '\\' =>
        if i == |k| - 1 {
          return None, next;
        }
        assert k[i..][1] == k[i + 1] && k[i..][2..] == k[i + 2..];
        piece, next := Some([k[i + 1]]), i + 2;
      case p => piece := Some([p]);
    }
  }

  lemma TokensHead(k: string)
    requires k != ""
    ensures Tokens(k) ==
      match FirstToken(k)
      case None => None
      case Some((t, rest)) => Prepend([t], Tokens(rest))
  {
  }

  lemma TokensEnd(k: string)
    ensures Tokens(k[|k|..]) == Some([]) && EmitAll([]) == ""
  {
  }

  lemma Whole(k: string)
    ensures Prepend([], Tokens(k[0..])) == Tokens(k)
  {
    assert k[0..] == k;
    if Tokens(k).Some? {
      assert [] + Tokens(k).value == Tokens(k).value;
    }
  }

  lemma PrependSnoc(done: seq<Token>, t: Token, r: Option<seq<Token>>)
    ensures Prepend(done, Prepend([t], r)) == Prepend(done + [t], r)
  {
    if r.Some? {
      assert done + ([t] + r.value) == done + [t] + r.value;
    }
  }

  /** The inner loop of `patternRE`: stops at the closing bracket or at the end of the pattern. */
  method ClassBody(k: string, start: nat) returns (body: Option<string>, i: nat)
    requires start <= |k|
    ensures start <= i <= |k|
    ensures match ScanClass(k[start..])
      case None => body == None
      case Some((b, rest)) => body == Some(b) && rest == k[(if i < |k| then i + 1 else i)..]
  {
    var buf := "";
    i := start;
    assert ScanOnto("", ScanClass(k[start..])) == ScanClass(k[start..]) by { OntoNothing(ScanClass(k[start..])); }
    while i < |k| && k[i] != ']'
      invariant start <= i <= |k|
      invariant ScanClass(k[start..]) == ScanOnto(buf, ScanClass(k[i..]))
    {
      if k[i] == '\\' {
        if i == |k| - 1 {
          return None, i;
        }
        OntoMore(buf, k[i..][..2], ScanClass(k[i..][2..]));
        assert k[i..][..2] == [k[i]] + [k[i + 1]] && k[i..][2..] == k[i + 2..];
        assert buf + ([k[i]] + [k[i + 1]]) == buf + [k[i]] + [k[i + 1]];
        buf := buf + [k[i]];
        i := i + 1;
        buf := buf + [k[i]];
        i := i + 1;
      } else {
        OntoMore(buf, k[i..][..1], ScanClass(k[i..][1..]));
        assert k[i..][..1] == [k[i]] && k[i..][1..] == k[i + 1..];
        buf := buf + [k[i]];
        i := i + 1;
      }
    }
    assert buf + "" == buf;
    body := Some(buf);
  }

  function ScanOnto(buf: string, r: Option<(string, string)>): (q: Option<(string, string)>) {
    match r
    case None => None
    case Some((body, rest)) => Some((buf + body, rest))
  }

  lemma OntoNothing(r: Option<(string, string)>)
    ensures ScanOnto("", r) == r
  {
    if r.Some? {
      assert "" + r.value.0 == r.value.0;
    }
  }

  lemma OntoMore(buf: string, piece: string, r: Option<(string, string)>)
    ensures ScanOnto(buf, ScanOnto(piece, r)) == ScanOnto(buf + piece, r)
  {
    if r.Some? {
      assert buf + (piece + r.value.0) == buf + piece + r.value.0;
    }
  }

  // ---------- The call of the regexp compiler, and matchKeys ----------

  predicate Ascii(s: string) { forall c :: c in s ==> c < 128 as char }

  /** What becomes of a pattern: None is the nil expression, which matches nothing. */
  function Compiled(pattern: string): (r: Reading<Option<seq<Item>>>) {
    match Tokens(pattern)
    case None => Read(None)
    case Some(ts) =>
      if !Ascii(pattern) then Beyond
      else match ReadItems(Emit(ts))
        case Read(items) => Read(Some(items))
        case Refused => Refused
        case Beyond => Beyond
  }

  /** A pattern as a command meets it. `refusedBeyond` says what Go's parser does with an expression
      that `Regexp` does not decide. */
  datatype Pattern = Pattern(text: string, refusedBeyond: bool)

  /** `regexp.MustCompile` panics. */
  predicate CompilePanics(p: Pattern) {
    Compiled(p.text).Refused? || (Compiled(p.text).Beyond? && p.refusedBeyond)
  }

  predicate Hit(re: Option<seq<Item>>, k: string) { re.Some? && MatchString(re.value, k) }

  /** `chosen` can be what `matchKeys` selects: decided for ASCII names and decided expressions. */
  predicate MaySelect(p: Pattern, names: set<string>, chosen: set<string>) {
    && chosen <= names
    && (Compiled(p.text).Read? ==>
          forall k :: k in names && Ascii(k) ==> (k in chosen <==> Hit(Compiled(p.text).value, k)))
  }

  /** `matchKeys`: no name for a pattern that compiles to nil, a panic for one that Go refuses, else the
      names that the compiled expression matches, in order. */
  method MatchKeys(names: seq<string>, pattern: string) returns (res: Reading<seq<string>>)
    ensures match Compiled(pattern)
      case Refused => res == Refused
      case Beyond => res == Beyond
      case Read(re) =>
        res == if re.Some? && exists k :: k in names && !Ascii(k) then Beyond else Read(Filtered(names, re))
  {
    var text := PatternRE(pattern);
    if text.None? {
      NothingFiltered(names);
      return Read([]);
    }
    if !Ascii(pattern) {
      return Beyond;
    }
    var items := ReadItems(text.value);
    match items {
      case Refused => return Refused;
      case Beyond => return Beyond;
      case Read(value) =>
        if exists k :: k in names && !Ascii(k) {
          return Beyond;
        }
        var found := Search(names, value);
        res := Read(found);
    }
  }

  method Search(names: seq<string>, items: seq<Item>) returns (found: seq<string>)
    ensures found == Filtered(names, Some(items))
  {
    found := [];
    var i := 0;
    while i < |names|
      invariant i <= |names| && found == Filtered(names[..i], Some(items))
    {
      var k := names[i];
      FilteredSnoc(names[..i], k, Some(items));
      assert names[..i + 1] == names[..i] + [k];
      i := i + 1;
      if !MatchString(items, k) {
        continue;
      }
      found := found + [k];
    }
    assert names[..|names|] == names;
  }

  function Filtered(names: seq<string>, re: Option<seq<Item>>): (r: seq<string>) {
    if names == [] then []
    else (if Hit(re, names[0]) then [names[0]] else []) + Filtered(names[1..], re)
  }

  lemma {:induction false} NothingFiltered(names: seq<string>)
    ensures Filtered(names, None) == []
  {
    if names != [] {
      NothingFiltered(names[1..]);
    }
  }

  lemma {:induction false} FilteredSnoc(names: seq<string>, k: string, re: Option<seq<Item>>)
    ensures Filtered(names + [k], re) == Filtered(names, re) + (if Hit(re, k) then [k] else [])
  {
    if names == [] {
      assert names + [k] == [k];
      assert Filtered([k], re) == (if Hit(re, k) then [k] else []) + Filtered([], re);
    } else {
      FilteredSnoc(names[1..], k, re);
      assert (names + [k])[1..] == names[1..] + [k];
    }
  }
}
