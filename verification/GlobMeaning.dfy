/** Compiling a KEYS pattern preserves its meaning: when it does, when it does not, and when the compiler
    panics. */
module GlobMeaning {
  import opened Base
  import opened Regexp
  import opened Glob

  // ---------- Conditions ----------

  /** No literal backslash stands right before a literal E. */
  predicate QuoteSafe(ts: seq<Token>) {
    forall i :: 0 <= i < |ts| - 1 && ts[i] == Lit('\\') ==> ts[i + 1] != Lit('E')
  }

  /** A class text starts with a character that stands for itself or is an escaped non-alphanumeric. */
  predicate SimpleHead(body: string) {
    body != "" &&
    if body[0] == '\\' then |body| > 1 && Escapable(body[1]) else body[0] != '[' && body[0] != ']'
  }

  /** Such characters and ascending ranges of them. */
  predicate SimpleSet(body: string)
    decreases |body|
  {
    body == "" ||
    (SimpleHead(body) &&
     var (lo, more) := HeadChar(body);
     if RangeFollows(more) then
       SimpleHead(more[1..]) && lo <= HeadChar(more[1..]).0 && SimpleSet(HeadChar(more[1..]).1)
     else SimpleSet(more))
  }

  predicate SimpleClass(body: string) {
    if Negated(body) then |body| > 1 && SimpleSet(body[1..]) else body != "" && SimpleSet(body)
  }

  predicate SimpleClasses(ts: seq<Token>) {
    forall i :: 0 <= i < |ts| && ts[i].Class? ==> SimpleClass(ts[i].body)
  }

  /** The item that a token is meant to become. */
  function ItemOf(t: Token): (r: Item) {
    match t
    case Lit(c) => Char(c)
    case One => Dot
    case Many => DotStar
    case Class(body) => OneOf(SetOf(if Negated(body) then body[1..] else body), Negated(body))
  }

  function ItemsOf(ts: seq<Token>): (r: seq<Item>)
    ensures |r| == |ts|
  {
    if ts == [] then [] else [ItemOf(ts[0])] + ItemsOf(ts[1..])
  }

  // ---------- Reading back what was emitted ----------

  predicate Breaks(lit: string) { exists i :: 0 <= i < |lit| - 1 && lit[i] == '\\' && lit[i + 1] == 'E' }

  /** A quoted text is read back as itself exactly when it does not contain the closing mark. */
  lemma {:induction false} QuoteExact(lit: string, rest: string)
    ensures Cut(lit + "\\E" + rest) == (lit, rest) <==> !Breaks(lit)
  {
    var t := lit + "\\E" + rest;
    if lit == "" {
      assert t[0] == '\\' && t[1] == 'E' && t[2..] == rest;
    } else if lit[0] == '\\' && |lit| > 1 && lit[1] == 'E' {
      assert t[1] == 'E' && Cut(t).0 == "";
      assert Breaks(lit);
    } else {
      var more := lit[1..];
      assert t[1..] == more + "\\E" + rest;
      assert |lit| == 1 ==> t[1] == '\\';
      assert |lit| > 1 ==> t[1] == lit[1];
      QuoteExact(more, rest);
      BreaksTail(lit);
      assert lit == [lit[0]] + more;
    }
  }

  lemma BreaksTail(lit: string)
    requires lit != "" && !(lit[0] == '\\' && |lit| > 1 && lit[1] == 'E')
    ensures Breaks(lit) <==> Breaks(lit[1..])
  {
    if Breaks(lit) {
      var i :| 0 <= i < |lit| - 1 && lit[i] == '\\' && lit[i + 1] == 'E';
      assert lit[1..][i - 1] == '\\' && lit[1..][i] == 'E';
    }
    if Breaks(lit[1..]) {
      var i :| 0 <= i < |lit[1..]| - 1 && lit[1..][i] == '\\' && lit[1..][i + 1] == 'E';
      assert lit[i + 1] == '\\' && lit[i + 1 + 1] == 'E';
    }
  }

  lemma {:induction false} ReadSetBack(body: string, rest: string, first: bool)
    requires SimpleSet(body) && (body != "" || !first)
    ensures ReadSet(body + "]" + rest, first) == Read((SetOf(body), rest))
    decreases |body|
  {
    var t := body + "]" + rest;
    if body == "" {
      assert t[0] == ']' && t[1..] == rest;
    } else {
      var (lo, more) := HeadChar(body);
      HeadBack(body, rest);
      if RangeFollows(more) {
        var (hi, end) := HeadChar(more[1..]);
        assert (more + "]" + rest)[1..] == more[1..] + "]" + rest;
        HeadBack(more[1..], rest);
        ReadSetBack(end, rest, false);
      } else {
        ReadSetBack(more, rest, false);
      }
    }
  }

  lemma HeadBack(body: string, rest: string)
    requires SimpleHead(body)
    ensures
      var t := body + "]" + rest;
      var (c, more) := HeadChar(body);
      && t[0] == body[0] && ClassChar(t) == Read((c, more + "]" + rest))
      && (SimpleSet(body) ==> (StartsRange(more + "]" + rest) <==> RangeFollows(more)))
  {
    var t := body + "]" + rest;
    var (c, more) := HeadChar(body);
    assert more + "]" + rest == t[|body| - |more|..];
    if more != "" {
      assert (more + "]" + rest)[0] == more[0];
      assert |more| > 1 ==> (more + "]" + rest)[1] == more[1];
    }
  }

  lemma ReadClassBack(body: string, rest: string)
    requires SimpleClass(body)
    ensures ReadClass(body + "]" + rest) == Read((ItemOf(Class(body)), rest))
  {
    var t := body + "]" + rest;
    assert t[0] == body[0];
    if Negated(body) {
      assert t[1..] == body[1..] + "]" + rest;
      ReadSetBack(body[1..], rest, true);
    } else {
      ReadSetBack(body, rest, true);
    }
  }

  /** Reading on in the middle of a quoted part. */
  function ReadQuoted(t: string): (r: Reading<seq<Item>>) { Then(Chars(Cut(t).0), ReadItems(Cut(t).1)) }

  lemma ReadOpen(t: string)
    ensures ReadItems("\\Q" + t) == ReadQuoted(t)
  {
    assert ("\\Q" + t)[2..] == t;
  }

  lemma ReadClosed(t: string)
    ensures ReadQuoted("\\E" + t) == ReadItems(t)
  {
    assert ("\\E" + t)[2..] == t;
    assert Cut("\\E" + t) == ("", t);
    if ReadItems(t).Read? {
      assert [] + ReadItems(t).value == ReadItems(t).value;
    }
  }

  /** The text that the tokens emit is read back as those tokens. */
  lemma {:induction false} ReadBack(ts: seq<Token>)
    requires QuoteSafe(ts) && SimpleClasses(ts)
    ensures ReadQuoted(EmitAll(ts) + "\\E$") == Read(ItemsOf(ts) + [End])
  {
    if ts == [] {
      assert EmitAll(ts) + "\\E$" == "\\E" + "$";
      ReadClosed("$");
      assert "$"[1..] == "";
      assert ReadItems("$") == Read([End] + []) && [End] + [] == [End];
      assert ItemsOf(ts) + [End] == [End];
    } else {
      var more := EmitAll(ts[1..]) + "\\E$";
      assert EmitAll(ts) + "\\E$" == EmitToken(ts[0]) + more;
      ReadBack(ts[1..]);
      ReadToken(ts, more);
      assert [ItemOf(ts[0])] + (ItemsOf(ts[1..]) + [End]) == ItemsOf(ts) + [End];
    }
  }

  lemma ReadToken(ts: seq<Token>, more: string)
    requires ts != [] && (ts[0].Class? ==> SimpleClass(ts[0].body)) && more == EmitAll(ts[1..]) + "\\E$"
    requires !(|ts| > 1 && ts[0] == Lit('\\') && ts[1] == Lit('E'))
    ensures ReadQuoted(EmitToken(ts[0]) + more) == Then([ItemOf(ts[0])], ReadQuoted(more))
  {
    hide ReadQuoted, EmitAll, EmitToken;
    EmitText(ts[0], more);
    match ts[0] {
      case Lit(c) => ReadLiteral(ts, c, more);
      case One => ReadDot(more);
      case Many => ReadDotStar(more);
      case Class(body) => ReadBracket(body, more);
    }
  }

  lemma EmitText(t: Token, more: string)
    ensures EmitToken(t) + more ==
      match t
      case Lit(c) => [c] + more
      case One => "\\E" + (".\\Q" + more)
      case Many => "\\E" + (".*\\Q" + more)
      case Class(body) => "\\E" + ("[" + body + "]\\Q" + more)
  {
  }

  lemma ReadDot(more: string)
    ensures ReadQuoted("\\E" + (".\\Q" + more)) == Then([Dot], ReadQuoted(more))
  {
    var t := ".\\Q" + more;
    ReadClosed(t);
    assert t[1..] == "\\Q" + more;
    ReadOpen(more);
  }

  lemma ReadDotStar(more: string)
    ensures ReadQuoted("\\E" + (".*\\Q" + more)) == Then([DotStar], ReadQuoted(more))
  {
    var t := ".*\\Q" + more;
    ReadClosed(t);
    assert t[2..] == "\\Q" + more;
    ReadOpen(more);
  }

  lemma ReadBracket(body: string, more: string)
    requires SimpleClass(body)
    ensures ReadQuoted("\\E" + ("[" + body + "]\\Q" + more)) == Then([ItemOf(Class(body))], ReadQuoted(more))
  {
    var t := "[" + body + "]\\Q" + more;
    ReadClosed(t);
    assert t[1..] == body + "]" + ("\\Q" + more);
    ReadClassBack(body, "\\Q" + more);
    ReadOpen(more);
  }

  lemma ReadLiteral(ts: seq<Token>, c: char, more: string)
    requires ts != [] && ts[0] == Lit(c) && !(|ts| > 1 && ts[0] == Lit('\\') && ts[1] == Lit('E'))
    requires more == EmitAll(ts[1..]) + "\\E$"
    ensures ReadQuoted([c] + more) == Then([Char(c)], ReadQuoted(more))
  {
    var t := [c] + more;
    assert t[1..] == more && t[1] == more[0];
    assert !(c == '\\' && more[0] == 'E') by {
      assert |ts| > 1 ==> more[0] == EmitToken(ts[1])[0];
    }
    assert Cut(t) == ([c] + Cut(more).0, Cut(more).1);
    CharsOn(c, Cut(more).0, ReadItems(Cut(more).1));
  }

  lemma CharsOn(c: char, lit: string, r: Reading<seq<Item>>)
    ensures Then(Chars([c] + lit), r) == Then([Char(c)], Then(Chars(lit), r))
  {
    assert ([c] + lit)[1..] == lit;
    if r.Read? {
      assert [Char(c)] + Chars(lit) + r.value == [Char(c)] + (Chars(lit) + r.value);
    }
  }

  lemma EmitReadsBack(ts: seq<Token>)
    requires QuoteSafe(ts) && SimpleClasses(ts)
    ensures ReadItems(Emit(ts)) == Read([Begin] + (ItemsOf(ts) + [End]))
  {
    var t := EmitAll(ts) + "\\E$";
    assert Emit(ts)[1..] == "\\Q" + t;
    ReadOpen(t);
    ReadBack(ts);
  }

  // ---------- A broken quote loses two characters, and nothing makes up for them ----------

  function Rest(ts: seq<Token>): (r: string) { EmitAll(ts) + "\\E$" }

  lemma RestHead(ts: seq<Token>)
    ensures |Rest(ts)| >= 2
    ensures ts == [] || !ts[0].Lit? ==> Rest(ts)[0] == '\\' && Rest(ts)[1] == 'E'
    ensures ts != [] && ts[0].Lit? ==> Rest(ts) == [ts[0].c] + Rest(ts[1..])
  {
  }

  /** A class character read where literal text was meant: it comes from one literal or from an escaped
      one, or its backslash swallows that of a closing mark. */
  lemma CharWithin(ts: seq<Token>) returns (n: nat)
    requires ClassChar(Rest(ts)).Read?
    ensures 1 <= n <= |ts|
    ensures
      var rest := ClassChar(Rest(ts)).value.1;
      rest == Rest(ts[n..]) || ((n == |ts| || !ts[n].Lit?) && rest == Rest(ts[n..])[1..])
  {
    RestHead(ts);
    assert ts != [] && ts[0].Lit?;
    assert Rest(ts)[1..] == Rest(ts[1..]);
    n := 1;
    if ts[0].c == '\\' {
      RestHead(ts[1..]);
      assert Rest(ts)[2..] == Rest(ts[1..])[1..];
      if |ts| > 1 && ts[1].Lit? {
        assert ts[1..][1..] == ts[2..];
        n := 2;
      }
    }
  }

  /** Reading a set goes on behind its first character or range. */
  lemma SetStep(t: string, first: bool)
    requires ReadSet(t, first).Read? && !(t[0] == ']' && !first)
    ensures ClassChar(t).Read?
    ensures
      var rest := ClassChar(t).value.1;
      var next := if StartsRange(rest) then rest[1..] else t;
      && ClassChar(next).Read? && ReadSet(ClassChar(next).value.1, false).Read?
      && ReadSet(t, first).value.1 == ReadSet(ClassChar(next).value.1, false).value.1
  {
  }

  /** Behind a character that was read from literal text, if a set can still be read there. */
  lemma BehindChar(ts: seq<Token>) returns (n: nat)
    requires ClassChar(Rest(ts)).Read?
    requires
      var rest := ClassChar(Rest(ts)).value.1;
      ReadSet(rest, false).Read? || StartsRange(rest)
    ensures 1 <= n <= |ts| && ClassChar(Rest(ts)).value.1 == Rest(ts[n..])
  {
    hide ClassChar, ReadSet, StartsRange, Rest;
    n := CharWithin(ts);
    if n == |ts| || !ts[n].Lit? {
      NoSetAtMark(ts[n..]);
    }
  }

  lemma Drop(ts: seq<Token>, m: nat, n: nat)
    requires m + n <= |ts|
    ensures ts[m..][n..] == ts[m + n..]
  {
  }

  /** Behind the first character or range of a set. */
  lemma BehindFirst(ts: seq<Token>, first: bool) returns (n: nat)
    requires ReadSet(Rest(ts), first).Read? && !(Rest(ts)[0] == ']' && !first)
    ensures 1 <= n <= |ts| && ReadSet(Rest(ts[n..]), false).Read?
    ensures ReadSet(Rest(ts), first).value.1 == ReadSet(Rest(ts[n..]), false).value.1
  {
    hide ReadSet, ClassChar, StartsRange, Rest;
    SetStep(Rest(ts), first);
    n := BehindChar(ts);
    if StartsRange(ClassChar(Rest(ts)).value.1) {
      HyphenWithin(ts[n..]);
      Drop(ts, n, 1);
      var k := BehindChar(ts[n + 1..]);
      Drop(ts, n + 1, k);
      n := n + 1 + k;
    }
  }

  /** A class that is opened by mistake ends inside the literal text it began in. */
  lemma {:induction false} SetWithin(ts: seq<Token>, first: bool) returns (n: nat)
    requires ReadSet(Rest(ts), first).Read?
    ensures n <= |ts| && ReadSet(Rest(ts), first).value.1 == Rest(ts[n..])
    decreases |ts|
  {
    hide ReadSet, Rest;
    RestHead(ts);
    if Rest(ts)[0] == ']' && !first {
      EndsSet(ts);
      n := 1;
    } else {
      n := BehindFirst(ts, first);
      var m := SetWithin(ts[n..], false);
      Drop(ts, n, m);
      n := n + m;
    }
  }

  lemma EndsSet(ts: seq<Token>)
    requires Rest(ts)[0] == ']'
    ensures ts != [] && ReadSet(Rest(ts), false).Read? && ReadSet(Rest(ts), false).value.1 == Rest(ts[1..])
  {
    RestHead(ts);
  }

  lemma HyphenWithin(ts: seq<Token>)
    requires StartsRange(Rest(ts))
    ensures ts != [] && Rest(ts)[1..] == Rest(ts[1..])
  {
    RestHead(ts);
  }

  lemma ClassWithin(ts: seq<Token>) returns (n: nat)
    requires ReadClass(Rest(ts)).Read?
    ensures n <= |ts| && ReadClass(Rest(ts)).value.1 == Rest(ts[n..])
  {
    RestHead(ts);
    if Rest(ts)[0] == '^' {
      assert Rest(ts)[1..] == Rest(ts[1..]);
      n := SetWithin(ts[1..], true);
      assert ts[1..][n..] == ts[1 + n..];
      n := 1 + n;
    } else {
      n := SetWithin(ts, true);
    }
  }

  /** No class can be read across a closing mark whose backslash is taken as escaped. */
  lemma NoSetAtMark(ts: seq<Token>)
    requires ts == [] || !ts[0].Lit?
    ensures !ReadSet(Rest(ts)[1..], false).Read? && !StartsRange(Rest(ts)[1..])
  {
    if ts == [] {
      assert Rest(ts)[1..] == ['E'] + (['$'] + "");
      PlainOn('$', "");
      PlainOn('E', ['$'] + "");
    } else {
      MarkTail(ts[0], EmitAll(ts[1..]) + "\\E$");
      assert Rest(ts) == EmitToken(ts[0]) + (EmitAll(ts[1..]) + "\\E$");
    }
  }

  lemma OneText(more: string)
    ensures (EmitToken(One) + more)[1..] == ['E'] + (['.'] + ("\\Q" + more))
  {
    assert EmitToken(One) + more == "\\E.\\Q" + more;
  }

  lemma ManyText(more: string)
    ensures (EmitToken(Many) + more)[1..] == ['E'] + (['.'] + (['*'] + ("\\Q" + more)))
  {
    assert EmitToken(Many) + more == "\\E.*\\Q" + more;
  }

  lemma MarkTail(t: Token, more: string)
    requires !t.Lit?
    ensures
      var text := (EmitToken(t) + more)[1..];
      !ReadSet(text, false).Read? && !StartsRange(text)
  {
    hide ReadSet, StartsRange;
    var q := "\\Q" + more;
    NoSet(q);
    match t {
      case One =>
        OneText(more);
        PlainOn('.', q);
        PlainOn('E', ['.'] + q);
      case Many =>
        ManyText(more);
        PlainOn('*', q);
        PlainOn('.', ['*'] + q);
        PlainOn('E', ['.'] + (['*'] + q));
      case Class(body) =>
        var rest := ['['] + (body + "]\\Q" + more);
        assert (EmitToken(t) + more)[1..] == ['E'] + rest;
        NoSet(rest);
        PlainOn('E', rest);
    }
  }

  lemma NoSet(t: string)
    requires t != "" && (t[0] == '[' || (t[0] == '\\' && |t| > 1 && t[1] == 'Q'))
    ensures !ReadSet(t, false).Read? && !StartsRange(t)
  {
  }

  /** A plain character does not help a set that cannot be read, as long as no hyphen follows. */
  lemma PlainOn(c: char, t: string)
    requires c != '\\' && c != '[' && c != ']' && !ReadSet(t, false).Read? && !StartsRange(t)
    ensures !ReadSet([c] + t, false).Read? && (c != '-' ==> !StartsRange([c] + t))
  {
    assert ([c] + t)[1..] == t;
  }

  /** The least length of what a pattern matches. */
  function Weight(ts: seq<Token>): (n: nat) {
    if ts == [] then 0 else (if ts[0].Many? then 0 else 1) + Weight(ts[1..])
  }

  lemma {:induction false} WeightFrom(ts: seq<Token>, n: nat)
    requires n <= |ts|
    ensures Weight(ts[n..]) <= Weight(ts)
  {
    if n > 0 {
      WeightFrom(ts[1..], n - 1);
      assert ts[1..][n - 1..] == ts[n..];
    } else {
      assert ts[0..] == ts;
    }
  }

  lemma {:induction false} WeightOfItems(ts: seq<Token>)
    ensures MinLen(ItemsOf(ts) + [End]) == Weight(ts)
  {
    MinLenAppend(ItemsOf(ts), [End]);
    if ts != [] {
      WeightOfItems(ts[1..]);
      MinLenAppend(ItemsOf(ts[1..]), [End]);
    }
  }

  lemma MinLenThen(item: Item, r: Reading<seq<Item>>)
    requires r.Read?
    ensures MinLen(Then([item], r).value) == MinLen([item]) + MinLen(r.value)
  {
    MinLenAppend([item], r.value);
  }

  /** What is read inside a quote is no longer than the tokens, and as long only without a broken quote. */
  lemma {:induction false} QuotedLength(ts: seq<Token>)
    requires SimpleClasses(ts) && ReadQuoted(Rest(ts)).Read?
    ensures MinLen(ReadQuoted(Rest(ts)).value) <= Weight(ts)
    ensures MinLen(ReadQuoted(Rest(ts)).value) == Weight(ts) ==> QuoteSafe(ts)
    decreases |ts|
  {
    hide ReadQuoted, Rest;
    if |ts| > 1 && ts[0] == Lit('\\') && ts[1] == Lit('E') {
      RestHead(ts);
      RestHead(ts[1..]);
      assert ts[1..][1..] == ts[2..];
      assert Rest(ts) == "\\E" + Rest(ts[2..]);
      ReadClosed(Rest(ts[2..]));
      OpenLength(ts[2..]);
    } else if ts == [] {
      QuotedEnd();
    } else {
      QuotedStep(ts);
      QuotedLength(ts[1..]);
      MinLenThen(ItemOf(ts[0]), ReadQuoted(Rest(ts[1..])));
      SafeStep(ts);
    }
  }

  lemma SafeStep(ts: seq<Token>)
    requires ts != [] && !(|ts| > 1 && ts[0] == Lit('\\') && ts[1] == Lit('E'))
    ensures QuoteSafe(ts[1..]) ==> QuoteSafe(ts)
  {
    if QuoteSafe(ts[1..]) {
      forall i | 0 <= i < |ts| - 1 && ts[i] == Lit('\\')
        ensures ts[i + 1] != Lit('E')
      {
        assert i > 0 ==> ts[1..][i - 1] == ts[i] && ts[1..][i] == ts[i + 1];
      }
    }
  }

  lemma QuotedEnd()
    ensures ReadQuoted(Rest([])).Read? && MinLen(ReadQuoted(Rest([])).value) == 0
  {
    ReadBack([]);
    assert ItemsOf([]) + [End] == [End] && [End][1..] == [];
  }

  lemma QuotedStep(ts: seq<Token>)
    requires ts != [] && SimpleClasses(ts) && ReadQuoted(Rest(ts)).Read?
    requires !(|ts| > 1 && ts[0] == Lit('\\') && ts[1] == Lit('E'))
    ensures ReadQuoted(Rest(ts)) == Then([ItemOf(ts[0])], ReadQuoted(Rest(ts[1..])))
  {
    assert Rest(ts) == EmitToken(ts[0]) + Rest(ts[1..]);
    ReadToken(ts, Rest(ts[1..]));
  }

  /** The same for literal text that is read outside quotes. */
  lemma {:induction false} OpenLength(ts: seq<Token>)
    requires SimpleClasses(ts) && ReadItems(Rest(ts)).Read?
    ensures MinLen(ReadItems(Rest(ts)).value) <= Weight(ts)
    decreases |ts|
  {
    var n := OpenStep(ts);
    WeightFrom(ts[1..], n - 1);
    assert ts[1..][n - 1..] == ts[n..];
    if Rest(ts)[0] == '\\' {
      QuotedLength(ts[n..]);
    } else {
      OpenLength(ts[n..]);
    }
  }

  /** How reading a text outside quotes goes on behind its first item. */
  lemma BehindItem(t: string)
    requires t != "" && t[0] != '[' && ReadItems(t).Read?
    ensures t[0] == '\\' ==> |t| > 1 && t[1] == 'Q' && ReadItems(t) == ReadQuoted(t[2..])
    ensures t[0] != '\\' ==>
      var rest := if t[0] == '.' && |t| > 1 && t[1] == '*' then t[2..] else t[1..];
      ReadItems(rest).Read? && MinLen(ReadItems(t).value) <= 1 + MinLen(ReadItems(rest).value)
  {
    hide Cut, Chars;
    if t[0] == '.' && |t| > 1 && t[1] == '*' {
      MinLenThen(DotStar, ReadItems(t[2..]));
    } else if t[0] != '\\' {
      MinLenThen(if t[0] == '^' then Begin else if t[0] == '$' then End else Dot, ReadItems(t[1..]));
    }
  }

  lemma BehindClass(t: string)
    requires t != "" && t[0] == '[' && ReadItems(t).Read?
    ensures ReadClass(t[1..]).Read? && ReadItems(ReadClass(t[1..]).value.1).Read?
    ensures MinLen(ReadItems(t).value) <= 1 + MinLen(ReadItems(ReadClass(t[1..]).value.1).value)
  {
    hide ReadClass;
    MinLenThen(ReadClass(t[1..]).value.0, ReadItems(ReadClass(t[1..]).value.1));
  }

  /** One item, made of one literal or more, or the opening mark of a quote, made of two. */
  lemma OpenStep(ts: seq<Token>) returns (n: nat)
    requires ReadItems(Rest(ts)).Read?
    ensures 1 <= n <= |ts| && ts[0].Lit?
    ensures if Rest(ts)[0] == '\\' then
        ReadQuoted(Rest(ts[n..])).Read? && MinLen(ReadItems(Rest(ts)).value) == MinLen(ReadQuoted(Rest(ts[n..])).value)
      else
        ReadItems(Rest(ts[n..])).Read? &&
        MinLen(ReadItems(Rest(ts)).value) <= 1 + MinLen(ReadItems(Rest(ts[n..])).value)
  {
    hide ReadItems, ReadQuoted, ReadClass, MinLen, Rest;
    var t := Rest(ts);
    RestHead(ts);
    n := 1;
    if t[0] == '[' {
      BehindClass(t);
      assert t[1..] == Rest(ts[1..]);
      n := ClassWithin(ts[1..]);
      assert ts[1..][n..] == ts[1 + n..];
      n := 1 + n;
    } else {
      BehindItem(t);
      assert t[1..] == Rest(ts[1..]);
      RestHead(ts[1..]);
      if t[0] == '\\' || (t[0] == '.' && t[1] == '*') {
        assert ts[1..][1..] == ts[2..] && t[2..] == Rest(ts[2..]);
        n := 2;
      }
    }
  }

  /** With simple classes, the emitted text is read back as the pattern's own tokens exactly when no
      literal backslash stands right before a literal E; else what is read is shorter. */
  lemma ReadBackExact(ts: seq<Token>)
    requires SimpleClasses(ts)
    ensures ReadItems(Emit(ts)) == Read([Begin] + (ItemsOf(ts) + [End])) <==> QuoteSafe(ts)
    ensures !QuoteSafe(ts) && ReadItems(Emit(ts)).Read? ==> MinLen(ReadItems(Emit(ts)).value) < Weight(ts)
  {
    if QuoteSafe(ts) {
      EmitReadsBack(ts);
    }
    EmittedLength(ts);
    MinLenThen(Begin, Read(ItemsOf(ts) + [End]));
    WeightOfItems(ts);
  }

  lemma EmittedLength(ts: seq<Token>)
    requires SimpleClasses(ts)
    ensures ReadItems(Emit(ts)).Read? ==>
      MinLen(ReadItems(Emit(ts)).value) <= Weight(ts) &&
      (MinLen(ReadItems(Emit(ts)).value) == Weight(ts) ==> QuoteSafe(ts))
  {
    EmittedReads(ts);
    if ReadQuoted(Rest(ts)).Read? {
      QuotedLength(ts);
      MinLenThen(Begin, ReadQuoted(Rest(ts)));
    }
  }

  // ---------- Meaning ----------

  /** Items and tokens match the same newline-free texts. */
  lemma {:induction false} ItemsMatch(ts: seq<Token>, s: string, i: nat)
    requires i <= |s| && '\n' !in s
    ensures MatchFrom(ItemsOf(ts) + [End], s, i) <==> GlobMatch(ts, s[i..])
    decreases |ts|
  {
    var items := ItemsOf(ts) + [End];
    if ts == [] {
      assert items == [End];
    } else {
      assert items[0] == ItemOf(ts[0]) && items[1..] == ItemsOf(ts[1..]) + [End];
      if ts[0].Many? {
        ManyMatch(ts, s, i);
      } else if i < |s| {
        ItemsMatch(ts[1..], s, i + 1);
        assert s[i..][1..] == s[i + 1..] && s[i] in s;
      }
    }
  }

  lemma {:induction false} ManyMatch(ts: seq<Token>, s: string, i: nat)
    requires ts != [] && ts[0].Many? && i <= |s| && '\n' !in s
    ensures MatchFrom(ItemsOf(ts) + [End], s, i) <==> GlobMatch(ts, s[i..])
    decreases |ts|, 0
  {
    var rest := ItemsOf(ts[1..]) + [End];
    assert (ItemsOf(ts) + [End])[1..] == rest;
    forall j | i <= j <= |s|
      ensures MatchFrom(rest, s, j) <==> GlobMatch(ts[1..], s[i..][j - i..])
    {
      ItemsMatch(ts[1..], s, j);
      assert s[i..][j - i..] == s[j..];
    }
    if GlobMatch(ts, s[i..]) {
      var n :| 0 <= n <= |s[i..]| && GlobMatch(ts[1..], s[i..][n..]);
      assert MatchFrom(rest, s, i + n);
    }
  }

  /** Glob compilation preserves meaning: when no literal backslash stands right before a literal E and
      the classes are lists of characters, escaped non-alphanumerics and ascending ranges, negated or
      not, the emitted text compiles, and it matches the same newline-free keys as the pattern itself. */
  lemma CompiledMeaning(ts: seq<Token>, s: string)
    requires QuoteSafe(ts) && SimpleClasses(ts) && '\n' !in s
    ensures ReadItems(Emit(ts)).Read?
    ensures MatchString(ReadItems(Emit(ts)).value, s) <==> GlobMatch(ts, s)
  {
    EmitReadsBack(ts);
    var mid := ItemsOf(ts) + [End];
    var items := [Begin] + mid;
    assert items[1..] == mid;
    ItemsMatch(ts, s, 0);
    assert s[0..] == s;
    assert MatchFrom(items, s, 0) <==> MatchFrom(mid, s, 0);
    assert forall i :: 0 <= i <= |s| && MatchFrom(items, s, i) ==> i == 0;
  }

  /** What a pattern matches is at least as long as its weight, and it also matches a key that long. */
  lemma {:induction false} ShortKey(ts: seq<Token>, s: string) returns (t: string)
    requires GlobMatch(ts, s) && '\n' !in s
    ensures |t| == Weight(ts) <= |s| && '\n' !in t && GlobMatch(ts, t)
    decreases |ts|
  {
    if ts == [] {
      t := "";
    } else if ts[0].Many? {
      var n :| 0 <= n <= |s| && GlobMatch(ts[1..], s[n..]);
      t := ShortKey(ts[1..], s[n..]);
      assert t[0..] == t;
    } else {
      assert s[0] in s;
      t := ShortKey(ts[1..], s[1..]);
      assert ([s[0]] + t)[1..] == t;
      t := [s[0]] + t;
    }
  }

  /** The compiled expression exists and matches the same newline-free keys as the pattern. */
  ghost predicate KeepsMeaning(ts: seq<Token>) {
    ReadItems(Emit(ts)).Read? &&
    forall s :: '\n' !in s ==> (MatchString(ReadItems(Emit(ts)).value, s) <==> GlobMatch(ts, s))
  }

  /** The condition on quotes is exact: for simple classes, and a pattern that matches some newline-free
      key at all, compilation keeps the meaning exactly when no literal backslash stands right before a
      literal E. */
  lemma MeaningExact(ts: seq<Token>)
    requires SimpleClasses(ts) && exists s :: '\n' !in s && GlobMatch(ts, s)
    ensures KeepsMeaning(ts) <==> QuoteSafe(ts)
  {
    if QuoteSafe(ts) {
      EmitReadsBack(ts);
      forall s | '\n' !in s
        ensures MatchString(ReadItems(Emit(ts)).value, s) <==> GlobMatch(ts, s)
      {
        CompiledMeaning(ts, s);
      }
    } else if KeepsMeaning(ts) {
      var s :| '\n' !in s && GlobMatch(ts, s);
      var items := ReadItems(Emit(ts)).value;
      ReadBackExact(ts);
      StartsAnchored(ts);
      assert MatchFrom(items, s, 0);
      var t := ShortMatch(items, s, 0, "");
      assert "" + t == t;
      assert MatchString(items, t);
      var u := ShortKey(ts, t);
    }
  }

  lemma StartsAnchored(ts: seq<Token>)
    requires ReadItems(Emit(ts)).Read?
    ensures
      var items := ReadItems(Emit(ts)).value;
      forall s :: MatchString(items, s) ==> MatchFrom(items, s, 0)
  {
    assert Emit(ts)[0] == '^';
  }

  /** Without the condition on quotes the meaning is lost: the pattern of the seven characters
      `\\E\\Qx`, which stands for the text `\E\Qx`, compiles to an expression that matches `x`. */
  lemma BrokenQuote()
    ensures
      var ts := [Lit('\\'), Lit('E'), Lit('\\'), Lit('Q'), Lit('x')];
      Tokens("\\\\E\\\\Qx") == Some(ts) && !QuoteSafe(ts) && SimpleClasses(ts) &&
      ReadItems(Emit(ts)) == Read([Begin, Char('x'), End]) && !GlobMatch(ts, "x")
  {
    BrokenTokens();
    BrokenText();
    BrokenItems();
    var ts := BROKEN;
    assert ts[0] == Lit('\\') && ts[1] == Lit('E');
  }

  const BROKEN: seq<Token> := [Lit('\\'), Lit('E'), Lit('\\'), Lit('Q'), Lit('x')]

  lemma BrokenText()
    ensures Emit(BROKEN) == "^\\Q\\E\\Qx\\E$"
  {
    assert BROKEN[4..] == [Lit('x')] && EmitAll(BROKEN[5..]) == "";
    assert BROKEN[3..][1..] == BROKEN[4..] && BROKEN[2..][1..] == BROKEN[3..] && BROKEN[1..][1..] == BROKEN[2..];
    assert EmitAll(BROKEN[4..]) == "x";
    assert EmitAll(BROKEN[3..]) == "Q" + "x";
    assert EmitAll(BROKEN[2..]) == "\\" + ("Q" + "x");
    assert EmitAll(BROKEN[1..]) == "E" + ("\\" + ("Q" + "x"));
  }

  lemma BrokenItems()
    ensures ReadItems("^\\Q\\E\\Qx\\E$") == Read([Begin, Char('x'), End])
  {
    var t := "^\\Q\\E\\Qx\\E$";
    assert t[1..] == "\\Q" + ("\\E" + ("\\Q" + "x\\E$"));
    ReadOpen("\\E" + ("\\Q" + "x\\E$"));
    ReadClosed("\\Q" + "x\\E$");
    ReadOpen("x\\E$");
    BrokenEnd();
    assert ReadItems(t) == Then([Begin], Read([Char('x'), End]));
    assert [Begin] + [Char('x'), End] == [Begin, Char('x'), End];
  }

  lemma BrokenEnd()
    ensures ReadQuoted("x\\E$") == Read([Char('x'), End])
  {
    assert "x\\E$" == EmitAll([Lit('x')]) + "\\E$" by { assert [Lit('x')][1..] == [] && EmitAll([]) == ""; }
    ReadBack([Lit('x')]);
    assert [Lit('x')][1..] == [];
    assert ItemsOf([Lit('x')]) == [Char('x')] + ItemsOf([]);
    assert [Char('x')] + [] + [End] == [Char('x'), End];
  }

  lemma TokensStep(k: string, ts: seq<Token>, all: seq<Token>)
    requires k != "" && FirstToken(k).Some? && Tokens(FirstToken(k).value.1) == Some(ts)
    requires all == [FirstToken(k).value.0] + ts
    ensures Tokens(k) == Some(all)
  {
  }

  lemma BrokenTokens()
    ensures Tokens("\\\\E\\\\Qx") == Some(BROKEN)
  {
    assert "\\\\E\\\\Qx"[2..] == "E\\\\Qx" && "E\\\\Qx"[1..] == "\\\\Qx" && "\\\\Qx"[2..] == "Qx";
    assert "Qx"[1..] == "x" && "x"[1..] == "";
    TokensStep("x", [], [Lit('x')]);
    TokensStep("Qx", [Lit('x')], [Lit('Q'), Lit('x')]);
    TokensStep("\\\\Qx", [Lit('Q'), Lit('x')], BROKEN[2..]);
    TokensStep("E\\\\Qx", BROKEN[2..], BROKEN[1..]);
    TokensStep("\\\\E\\\\Qx", BROKEN[1..], BROKEN);
  }

  // ---------- Panics of the compiler ----------

  /** The compiler does not panic on a pattern whose classes are simple and whose quotes are not broken. */
  lemma SafeCompiles(p: Pattern)
    requires Ascii(p.text)
    requires Tokens(p.text).Some? ==> QuoteSafe(Tokens(p.text).value) && SimpleClasses(Tokens(p.text).value)
    ensures Compiled(p.text).Read? && !CompilePanics(p)
  {
    if Tokens(p.text).Some? {
      EmitReadsBack(Tokens(p.text).value);
    }
  }

  /** A class that Go refuses makes the compiler panic, whatever stands around it, if nothing in front of
      it has already ended the expression differently. */
  lemma {:induction false} RefusedClass(ts: seq<Token>, i: nat)
    requires i < |ts| && QuoteSafe(ts[..i]) && SimpleClasses(ts[..i]) && ts[i].Class?
    requires ReadClass(ts[i].body + "]" + ("\\Q" + Rest(ts[i + 1..]))).Refused?
    ensures ReadQuoted(Rest(ts)).Refused?
  {
    hide ReadQuoted, ReadClass, Rest;
    if i == 0 {
      RefusedHere(ts);
    } else {
      assert ts[0] == ts[..i][0] && (i > 1 ==> ts[1] == ts[..i][1]);
      assert ts[1..][..i - 1] == ts[..i][1..] && ts[1..][i - 1 + 1..] == ts[i + 1..];
      RestToken(ts);
      ReadToken(ts, Rest(ts[1..]));
      RefusedClass(ts[1..], i - 1);
    }
  }

  lemma RestToken(ts: seq<Token>)
    requires ts != []
    ensures Rest(ts) == EmitToken(ts[0]) + Rest(ts[1..]) && Rest(ts[1..]) == EmitAll(ts[1..]) + "\\E$"
  {
  }

  lemma RefusedHere(ts: seq<Token>)
    requires ts != [] && ts[0].Class?
    requires ReadClass(ts[0].body + "]" + ("\\Q" + Rest(ts[1..]))).Refused?
    ensures ReadQuoted(Rest(ts)).Refused?
  {
    hide Rest, EmitToken, ReadQuoted, ReadClass;
    var q := ts[0].body + "]" + ("\\Q" + Rest(ts[1..]));
    RestToken(ts);
    ClassText(ts[0].body, Rest(ts[1..]));
    BracketRefused(q);
    ReadClosed("[" + q);
  }

  lemma ClassText(body: string, more: string)
    ensures EmitToken(Class(body)) + more == "\\E" + ("[" + (body + "]" + ("\\Q" + more)))
  {
  }

  lemma BracketRefused(t: string)
    requires ReadClass(t).Refused?
    ensures ReadItems("[" + t).Refused?
  {
    assert ("[" + t)[1..] == t;
  }

  lemma RefusedPattern(p: Pattern, i: nat)
    requires Ascii(p.text) && Tokens(p.text).Some?
    requires
      var ts := Tokens(p.text).value;
      && i < |ts| && QuoteSafe(ts[..i]) && SimpleClasses(ts[..i]) && ts[i].Class?
      && ReadClass(ts[i].body + "]" + ("\\Q" + Rest(ts[i + 1..]))).Refused?
    ensures CompilePanics(p)
  {
    var ts := Tokens(p.text).value;
    RefusedClass(ts, i);
    EmittedReads(ts);
  }

  lemma EmittedReads(ts: seq<Token>)
    ensures ReadItems(Emit(ts)) == Then([Begin], ReadQuoted(Rest(ts)))
  {
    assert Emit(ts)[1..] == "\\Q" + Rest(ts);
    ReadOpen(Rest(ts));
  }

  /** `KEYS [b-a]` panics: a range must not descend. */
  lemma DescendingRange(beyond: bool)
    ensures CompilePanics(Pattern("[b-a]", beyond))
  {
    hide CompilePanics, ReadClass, Rest;
    BackwardsRange("\\Q" + Rest([]));
    OnlyClass(Pattern("[b-a]", beyond), "b-a");
  }

  lemma BackwardsRange(more: string)
    ensures ReadClass("b-a" + "]" + more).Refused?
  {
    var t := "b-a" + "]" + more;
    assert t[1..][1..][0] == 'a' && StartsRange(t[1..]);
    assert ClassChar(t) == Read(('b', t[1..]));
  }

  /** `KEYS [^]` panics: the bracket is a member of the class, which then never ends. */
  lemma NegatedNothing(beyond: bool)
    ensures CompilePanics(Pattern("[^]", beyond))
  {
    hide CompilePanics, ReadClass;
    EndlessClass();
    OnlyClass(Pattern("[^]", beyond), "^");
  }

  lemma EndlessClass()
    ensures ReadClass("^" + "]" + ("\\Q" + Rest([]))).Refused?
  {
    var t := "]" + ("\\Q" + Rest([]));
    assert t[1..] == "\\Q" + Rest([]) && !StartsRange(t[1..]);
    assert ReadSet(t[1..], false) == Refused;
    assert ReadSet(t, true) == Refused;
    assert ("^" + "]" + ("\\Q" + Rest([])))[1..] == t;
  }

  lemma OnlyClass(p: Pattern, body: string)
    requires p.text == "[" + body + "]" && body != "" && ']' !in body && '\\' !in body && Ascii(body)
    requires ReadClass(body + "]" + ("\\Q" + Rest([]))).Refused?
    ensures CompilePanics(p)
  {
    hide CompilePanics, ReadClass, Rest;
    OneClass(body);
    RefusedPattern(p, 0);
  }

  /** The pattern that is one class without escapes. */
  lemma OneClass(body: string)
    requires body != "" && ']' !in body && '\\' !in body
    ensures Tokens("[" + body + "]") == Some([Class(body)])
    ensures [Class(body)][..0] == [] && [Class(body)][1..] == []
  {
    var k := "[" + body + "]";
    assert k[1..] == body + "]";
    ScanPlain(body);
    assert [Class(body)] + [] == [Class(body)];
  }

  lemma {:induction false} ScanPlain(body: string)
    requires ']' !in body && '\\' !in body
    ensures ScanClass(body + "]") == Some((body, ""))
  {
    var t := body + "]";
    if body == "" {
      assert t[1..] == "";
    } else {
      assert t[0] == body[0] && t[1..] == body[1..] + "]";
      ScanPlain(body[1..]);
      assert t[..1] + body[1..] == body;
    }
  }

  /** `KEYS \\E` panics: the quote ends early and leaves a closing mark behind. */
  lemma LoneMark(beyond: bool)
    ensures CompilePanics(Pattern("\\\\E", beyond))
  {
    MarkTokens();
    MarkItems();
    hide Tokens, ReadItems, Emit;
  }

  lemma MarkTokens()
    ensures Tokens("\\\\E") == Some([Lit('\\'), Lit('E')])
  {
    var ts := [Lit('\\'), Lit('E')];
    assert "\\\\E"[2..] == "E" && "E"[1..] == "";
    TokensStep("E", [], [Lit('E')]);
    TokensStep("\\\\E", [Lit('E')], ts);
  }

  lemma MarkItems()
    ensures ReadItems(Emit([Lit('\\'), Lit('E')])).Refused?
  {
    var ts := [Lit('\\'), Lit('E')];
    RestHead(ts);
    RestHead(ts[1..]);
    assert ts[1..][1..] == [] && Rest([]) == "\\E$";
    hide Rest, Emit;
    assert Rest(ts) == "\\E" + "\\E$";
    ReadClosed("\\E$");
    EmittedReads(ts);
  }
}
