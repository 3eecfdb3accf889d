/** The reply side of the Redis serialization protocol: what the `Peer` writers emit
    (server/server.go) and how a client reads it back. A byte is one `char`. */
module Resp {
  import opened Base

  /** One call of a `Peer` writer. */
  datatype Tok =
    | Len(n: int)        // WriteLen: starts an array
    | Bulk(s: string)    // WriteBulk
    | Number(i: int)     // WriteInt
    | Null               // WriteNull
    | Inline(t: string)  // WriteInline, WriteOK
    | Error(e: string)   // WriteError

  /** A complete protocol value. */
  datatype Value = Leaf(tok: Tok) | Array(elems: seq<Value>)

  predicate WellFormed(v: Value) {
    match v
    case Leaf(t) => !t.Len?
    case Array(es) => forall e :: e in es ==> WellFormed(e)
  }

  /** The writer calls that send `v`. */
  function Flatten(v: Value): (ts: seq<Tok>)
    ensures ts != []
    decreases v, 0
  {
    match v
    case Leaf(t) => [t]
    case Array(es) => [Len(|es|)] + FlattenAll(es)
  }

  function FlattenAll(vs: seq<Value>): (ts: seq<Tok>)
    decreases vs, 1
  {
    if vs == [] then [] else Flatten(vs[0]) + FlattenAll(vs[1..])
  }

  lemma {:induction false} FlattenAppend(vs: seq<Value>, ws: seq<Value>)
    ensures FlattenAll(vs + ws) == FlattenAll(vs) + FlattenAll(ws)
  {
    hide Flatten;
    if vs == [] {
      assert vs + ws == ws;
    } else {
      var rest := vs[1..];
      FlattenAppend(rest, ws);
      assert (vs + ws)[0] == vs[0] && (vs + ws)[1..] == rest + ws;
      Regroup(Flatten(vs[0]), FlattenAll(rest), FlattenAll(ws));
    }
  }

  /** The writer calls of one command are those of exactly one complete value. */
  ghost predicate IsReply(ts: seq<Tok>) {
    exists v :: WellFormed(v) && Flatten(v) == ts
  }

  /** The writer calls of `n` commands in a row are those of exactly `n` complete values. */
  ghost predicate AreReplies(ts: seq<Tok>, n: nat) {
    exists vs: seq<Value> :: |vs| == n && (forall v :: v in vs ==> WellFormed(v)) && FlattenAll(vs) == ts
  }

  lemma RepliesNone()
    ensures AreReplies([], 0)
  {
    assert FlattenAll([]) == [];
  }

  lemma RepliesSnoc(ts: seq<Tok>, n: nat, r: seq<Tok>)
    requires AreReplies(ts, n) && IsReply(r)
    ensures AreReplies(ts + r, n + 1)
  {
    var vs: seq<Value> :| |vs| == n && (forall v :: v in vs ==> WellFormed(v)) && FlattenAll(vs) == ts;
    var v :| WellFormed(v) && Flatten(v) == r;
    FlattenAppend(vs, [v]);
    assert FlattenAll([v]) == r + FlattenAll([]);
    assert FlattenAll(vs + [v]) == ts + r;
  }

  /** An array header of length `n` followed by `n` values is one value. */
  lemma RepliesArray(ts: seq<Tok>, n: nat)
    requires AreReplies(ts, n)
    ensures IsReply([Len(n)] + ts)
  {
    var vs: seq<Value> :| |vs| == n && (forall v :: v in vs ==> WellFormed(v)) && FlattenAll(vs) == ts;
    assert WellFormed(Array(vs)) && Flatten(Array(vs)) == [Len(n)] + ts;
  }

  lemma LeafReply(t: Tok)
    requires !t.Len?
    ensures IsReply([t])
  {
    assert WellFormed(Leaf(t)) && Flatten(Leaf(t)) == [t];
  }

  function Bulks(xs: seq<string>): (ts: seq<Tok>)
    ensures |ts| == |xs|
  {
    seq(|xs|, i requires 0 <= i < |xs| => Bulk(xs[i]))
  }

  lemma {:induction false} BulksReplies(xs: seq<string>)
    ensures AreReplies(Bulks(xs), |xs|)
  {
    if xs == [] {
      RepliesNone();
      assert Bulks(xs) == [];
    } else {
      var n := |xs| - 1;
      BulksReplies(xs[..n]);
      LeafReply(Bulk(xs[n]));
      RepliesSnoc(Bulks(xs[..n]), n, [Bulk(xs[n])]);
      assert Bulks(xs) == Bulks(xs[..n]) + [Bulk(xs[n])];
    }
  }

  lemma BulkArrayReply(xs: seq<string>)
    ensures IsReply([Len(|xs|)] + Bulks(xs))
  {
    BulksReplies(xs);
    RepliesArray(Bulks(xs), |xs|);
  }

  /** The SCAN and SSCAN shape: a two-element array of the cursor "0" and an array of keys. */
  lemma ScanReply(xs: seq<string>)
    ensures IsReply([Len(2), Bulk("0"), Len(|xs|)] + Bulks(xs))
  {
    BulkArrayReply(xs);
    LeafReply(Bulk("0"));
    RepliesNone();
    RepliesSnoc([], 0, [Bulk("0")]);
    RepliesSnoc([] + [Bulk("0")], 1, [Len(|xs|)] + Bulks(xs));
    RepliesArray([] + [Bulk("0")] + ([Len(|xs|)] + Bulks(xs)), 2);
    assert [Len(2)] + ([] + [Bulk("0")] + ([Len(|xs|)] + Bulks(xs))) == [Len(2), Bulk("0"), Len(|xs|)] + Bulks(xs);
  }

  // ---------- Reading values back ----------

  /** A client's reader: the first value of a writer-call stream, and what follows it. */
  function ReadValue(ts: seq<Tok>): (r: Option<(Value, seq<Tok>)>)
    ensures r.Some? ==> |r.value.1| < |ts|
    decreases |ts|, 0
  {
    if ts == [] then None
    else if !ts[0].Len? then Some((Leaf(ts[0]), ts[1..]))
    else if ts[0].n < 0 then None
    else
      match ReadN(ts[0].n, ts[1..])
      case None => None
      case Some((vs, rest)) => Some((Array(vs), rest))
  }

  function ReadN(n: nat, ts: seq<Tok>): (r: Option<(seq<Value>, seq<Tok>)>)
    ensures r.Some? ==> |r.value.1| <= |ts| && |r.value.0| == n
    decreases |ts|, n + 1
  {
    if n == 0 then Some(([], ts))
    else
      match ReadValue(ts)
      case None => None
      case Some((v, rest)) =>
        match ReadN(n - 1, rest)
        case None => None
        case Some((vs, rest')) => Some(([v] + vs, rest'))
  }

  lemma {:induction false} ReadBack(v: Value, rest: seq<Tok>)
    requires WellFormed(v)
    ensures ReadValue(Flatten(v) + rest) == Some((v, rest))
    decreases v, 0
  {
    match v
    case Leaf(t) =>
      assert (Flatten(v) + rest)[1..] == rest;
    case Array(es) =>
      ReadBackAll(es, rest);
      assert (Flatten(v) + rest)[1..] == FlattenAll(es) + rest;
  }

  /** Reading is the inverse of writing: the next `|vs|` values are exactly `vs`. */
  lemma {:induction false} ReadBackAll(vs: seq<Value>, rest: seq<Tok>)
    requires forall v :: v in vs ==> WellFormed(v)
    ensures ReadN(|vs|, FlattenAll(vs) + rest) == Some((vs, rest))
    decreases vs, 1
  {
    if vs == [] {
      assert FlattenAll(vs) + rest == rest;
    } else {
      assert FlattenAll(vs) + rest == Flatten(vs[0]) + (FlattenAll(vs[1..]) + rest);
      ReadBack(vs[0], FlattenAll(vs[1..]) + rest);
      ReadBackAll(vs[1..], rest);
      assert [vs[0]] + vs[1..] == vs;
    }
  }

  // ---------- Decimal numbers (strconv.Itoa and strconv.Atoi) ----------

  predicate IsDigit(c: char) { '0' <= c <= '9' }

  function DigitChar(d: nat): (c: char)
    requires d < 10
    ensures IsDigit(c) && DigitValue(c) == d
  {
    (d + '0' as int) as char
  }

  function Digits(n: nat): (s: string)
    ensures s != [] && forall c :: c in s ==> IsDigit(c)
  {
    if n < 10 then [DigitChar(n)] else Digits(n / 10) + [DigitChar(n % 10)]
  }

  function Itoa(n: int): (s: string)
    ensures s != [] && forall c :: c in s ==> IsDigit(c) || c == '-'
  {
    if n < 0 then "-" + Digits(-n) else Digits(n)
  }

  function DigitValue(c: char): (d: nat)
    requires IsDigit(c)
    ensures d < 10
  {
    c as int - '0' as int
  }

  function DigitsValue(s: string): (r: nat)
    requires forall c :: c in s ==> IsDigit(c)
  {
    if s == [] then 0
    else
      assert s[|s| - 1] in s;
      DigitsValue(s[..|s| - 1]) * 10 + DigitValue(s[|s| - 1])
  }

  /** Go's decimal parser: optional sign, at least one digit, nothing else, and in range. */
  function Atoi(s: string): (r: Option<int>)
    ensures r.Some? ==> MIN_INT <= r.value <= MAX_INT
  {
    var signed := s != [] && (s[0] == '-' || s[0] == '+');
    var body := if signed then s[1..] else s;
    if body == [] || !(forall c :: c in body ==> IsDigit(c)) then None
    else
      var n: int := if signed && s[0] == '-' then 0 - DigitsValue(body) else DigitsValue(body);
      if MIN_INT <= n <= MAX_INT then Some(n) else None
  }

  lemma {:induction false} DigitsRoundTrip(n: nat)
    ensures DigitsValue(Digits(n)) == n
  {
    if n < 10 {
      assert Digits(n)[..0] == [];
    } else {
      DigitsRoundTrip(n / 10);
      assert Digits(n)[..|Digits(n)| - 1] == Digits(n / 10);
    }
  }

  /** Printing and parsing a machine integer undo each other. */
  lemma AtoiItoa(n: int)
    requires MIN_INT <= n <= MAX_INT
    ensures Atoi(Itoa(n)) == Some(n)
  {
    if n < 0 {
      DigitsRoundTrip(-n);
      assert Itoa(n)[1..] == Digits(-n);
    } else {
      DigitsRoundTrip(n);
      assert Itoa(n)[0] in Itoa(n);
    }
  }

  // ---------- Bytes ----------

  const CRLF: string := "\r\n"

  /** The bytes one writer call sends. */
  function Print(t: Tok): (b: string)
    ensures |b| > 0
  {
    match t
    case Len(n) => "*" + Itoa(n) + CRLF
    case Bulk(s) => "$" + Itoa(|s|) + CRLF + s + CRLF
    case Number(i) => ":" + Itoa(i) + CRLF
    case Null => "$-1" + CRLF
    case Inline(s) => "+" + s + CRLF
    case Error(e) => "-" + e + CRLF
  }

  function PrintAll(ts: seq<Tok>): (b: string) {
    if ts == [] then [] else Print(ts[0]) + PrintAll(ts[1..])
  }

  /** Splits the bytes at the first CRLF. */
  function SplitLine(b: string): (r: Option<(string, string)>)
    ensures r.Some? ==> |r.value.1| + 2 <= |b|
  {
    if |b| < 2 then None
    else if b[..2] == CRLF then Some(([], b[2..]))
    else
      match SplitLine(b[1..])
      case None => None
      case Some((line, rest)) => Some(([b[0]] + line, rest))
  }

  /** A line break inside. */
  predicate Broken(line: string) {
    exists i :: 0 <= i < |line| - 1 && line[i] == '\r' && line[i + 1] == '\n'
  }

  /** A line is split off whole exactly when there is no line break inside. */
  lemma {:induction false} SplitLineExact(line: string, rest: string)
    ensures SplitLine(line + CRLF + rest) == Some((line, rest)) <==> !Broken(line)
    ensures SplitLine(line + CRLF + rest).Some?
    ensures Broken(line) ==> |SplitLine(line + CRLF + rest).value.0| < |line|
  {
    var b := line + CRLF + rest;
    if line == [] {
      assert b[..2] == CRLF && b[2..] == rest;
    } else if |line| > 1 && line[0] == '\r' && line[1] == '\n' {
      assert b[..2] == CRLF;
    } else {
      assert b[..2][0] == line[0] && b[..2][1] == if |line| > 1 then line[1] else '\r';
      assert b[1..] == line[1..] + CRLF + rest;
      SplitLineExact(line[1..], rest);
      BrokenTail(line);
      assert [line[0]] + line[1..] == line;
    }
  }

  lemma BrokenTail(line: string)
    requires line != "" && !(|line| > 1 && line[0] == '\r' && line[1] == '\n')
    ensures Broken(line) <==> Broken(line[1..])
  {
    if Broken(line) {
      var i :| 0 <= i < |line| - 1 && line[i] == '\r' && line[i + 1] == '\n';
      assert line[1..][i - 1] == '\r' && line[1..][i] == '\n';
    }
    if Broken(line[1..]) {
      var i :| 0 <= i < |line[1..]| - 1 && line[1..][i] == '\r' && line[1..][i + 1] == '\n';
      assert line[i + 1] == '\r' && line[i + 1 + 1] == '\n';
    }
  }

  function TakeBulk(n: int, b: string): (r: Option<(Tok, string)>)
    ensures r.Some? ==> |r.value.1| <= |b|
  {
    if n < 0 || |b| < n + 2 || b[n..n + 2] != CRLF then None
    else Some((Bulk(b[..n]), b[n + 2..]))
  }

  lemma TakeBulkBack(s: string, rest: string)
    ensures TakeBulk(|s|, s + CRLF + rest) == Some((Bulk(s), rest))
  {
    var tail := s + CRLF + rest;
    assert tail[|s|..|s| + 2] == CRLF && tail[..|s|] == s && tail[|s| + 2..] == rest;
  }

  /** A client's byte-level reader for one writer call. */
  function Scan(b: string): (r: Option<(Tok, string)>)
    ensures r.Some? ==> |r.value.1| < |b|
  {
    if b == [] then None
    else
      match SplitLine(b[1..])
      case None => None
      case Some((line, rest)) =>
        match b[0]
        case '+' => Some((Inline(line), rest))
        case '-' => Some((Error(line), rest))
        case ':' => (match Atoi(line) case None => None case Some(i) => Some((Number(i), rest)))
        case '*' => (match Atoi(line) case None => None case Some(i) => Some((Len(i), rest)))
        case '$' =>
          (match Atoi(line)
           case None => None
           case Some(n) =>
             if n == -1 then Some((Null, rest)) else TakeBulk(n, rest))
        case _ => None
  }

  /** Sizes and numbers fit the integers of a client. */
  predicate Fits(t: Tok) {
    match t
    case Len(n) => MIN_INT <= n <= MAX_INT
    case Bulk(s) => |s| <= MAX_INT
    case Number(i) => MIN_INT <= i <= MAX_INT
    case _ => true
  }

  /** No line break in a one-line answer. */
  predicate OneLine(t: Tok) {
    match t
    case Inline(s) => !Broken(s)
    case Error(e) => !Broken(e)
    case _ => true
  }

  predicate Printable(t: Tok) { Fits(t) && OneLine(t) }

  /** After its type byte, a line is split off whole exactly when it is one line. */
  lemma TypedLine(kind: char, line: string, rest: string)
    ensures SplitLine(([kind] + line + CRLF + rest)[1..]).Some?
    ensures SplitLine(([kind] + line + CRLF + rest)[1..]) == Some((line, rest)) <==> !Broken(line)
    ensures Broken(line) ==> SplitLine(([kind] + line + CRLF + rest)[1..]).value.0 != line
  {
    SplitLineExact(line, rest);
    assert ([kind] + line + CRLF + rest)[1..] == line + CRLF + rest;
  }

  /** What a client makes of a line that holds a number. */
  lemma NumberLine(kind: char, n: int, rest: string)
    requires MIN_INT <= n <= MAX_INT
    ensures
      var b := [kind] + Itoa(n) + CRLF + rest;
      SplitLine(b[1..]) == Some((Itoa(n), rest)) && Atoi(Itoa(n)) == Some(n)
  {
    AtoiItoa(n);
    hide Itoa, Atoi, SplitLine;
    TypedLine(kind, Itoa(n), rest);
    assert '\r' !in Itoa(n);
  }

  lemma ScanBulkBack(s: string, rest: string)
    requires |s| <= MAX_INT
    ensures Scan(Print(Bulk(s)) + rest) == Some((Bulk(s), rest))
  {
    hide Itoa, Atoi, SplitLine, TakeBulk;
    var tail := s + CRLF + rest;
    NumberLine('$', |s|, tail);
    assert Print(Bulk(s)) + rest == ['$'] + Itoa(|s|) + CRLF + tail;
    TakeBulkBack(s, rest);
  }

  lemma ScanNumberBack(t: Tok, rest: string)
    requires Fits(t) && (t.Len? || t.Number? || t.Null?)
    ensures Scan(Print(t) + rest) == Some((t, rest))
  {
    hide Itoa, Scan, Print;
    var n := if t.Len? then t.n else if t.Number? then t.i else -1;
    var kind := if t.Len? then '*' else if t.Number? then ':' else '$';
    NumberText(t, kind, n);
    ScanNumberLine(t, kind, n, rest);
  }

  /** A writer call that is one line with a number. */
  predicate HasNumber(t: Tok, kind: char, n: int) {
    match t
    case Len(i) => kind == '*' && n == i
    case Number(i) => kind == ':' && n == i
    case Null => kind == '$' && n == -1
    case _ => false
  }

  lemma NumberText(t: Tok, kind: char, n: int)
    requires HasNumber(t, kind, n)
    ensures Print(t) == [kind] + Itoa(n) + CRLF
  {
    if t.Null? {
      assert Digits(1) == "1";
      assert Itoa(n) == "-1";
    } else {
      hide Itoa;
    }
  }

  lemma ScanNumberLine(t: Tok, kind: char, n: int, rest: string)
    requires HasNumber(t, kind, n) && MIN_INT <= n <= MAX_INT
    ensures Scan([kind] + Itoa(n) + CRLF + rest) == Some((t, rest))
  {
    hide Itoa, Atoi, SplitLine, TakeBulk;
    NumberLine(kind, n, rest);
  }

  /** A writer call is read back, whatever follows it, exactly when a one-line answer is one line. */
  lemma ScanBack(t: Tok, rest: string)
    requires Fits(t)
    ensures Scan(Print(t) + rest) == Some((t, rest)) <==> OneLine(t)
    ensures Scan(Print(t) + rest).Some? && Scan(Print(t) + rest).value.0 == t ==> OneLine(t)
  {
    match t {
      case Bulk(s) => ScanBulkBack(s, rest);
      case Inline(s) =>
        TypedLine('+', s, rest);
        assert Print(t) + rest == ['+'] + s + CRLF + rest;
      case Error(s) =>
        TypedLine('-', s, rest);
        assert Print(t) + rest == ['-'] + s + CRLF + rest;
      case _ => ScanNumberBack(t, rest);
    }
  }

  /** The writer calls behind a whole byte stream, if it splits into complete ones. */
  function ScanAll(b: string): (r: Option<seq<Tok>>)
    decreases |b|
  {
    if b == [] then Some([])
    else
      match Scan(b)
      case None => None
      case Some((t, rest)) => (match ScanAll(rest) case None => None case Some(ts) => Some([t] + ts))
  }

  /** The bytes of a sequence of writer calls scan back to those calls exactly when each is one line. */
  lemma {:induction false} ScanAllExact(ts: seq<Tok>)
    requires forall t :: t in ts ==> Fits(t)
    ensures ScanAll(PrintAll(ts)) == Some(ts) <==> forall t :: t in ts ==> OneLine(t)
  {
    if ts != [] {
      var b := PrintAll(ts[1..]);
      assert ts == [ts[0]] + ts[1..];
      ScanBack(ts[0], b);
      ScanAllExact(ts[1..]);
      if OneLine(ts[0]) {
        assert ScanAll(PrintAll(ts)) == Some(ts) ==> ScanAll(b).Some? && ScanAll(b).value == ts[1..];
      }
    }
  }

  /** Reply framing on the wire: if the writer calls of `n` commands are `n` values, then a client
      that reads the bytes gets exactly those calls if and only if no one-line answer has a line break,
      and these are exactly `n` values with nothing left over. */
  lemma {:induction false} WireFraming(ts: seq<Tok>, n: nat)
    requires AreReplies(ts, n)
    requires forall t :: t in ts ==> Fits(t)
    ensures ScanAll(PrintAll(ts)) == Some(ts) <==> forall t :: t in ts ==> OneLine(t)
    ensures ReadN(n, ts).Some? && ReadN(n, ts).value.1 == []
    ensures FlattenAll(ReadN(n, ts).value.0) == ts
  {
    ScanAllExact(ts);
    var vs: seq<Value> :| |vs| == n && (forall v :: v in vs ==> WellFormed(v)) && FlattenAll(vs) == ts;
    ReadBackAll(vs, []);
    assert ts + [] == ts;
  }
}
