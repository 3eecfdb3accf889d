/** The request side of the protocol (server/proto.go): a reader that consumes a byte stream piece by
    piece, against a specification on the whole stream, and the round trip with the writers. */
module Proto {
  import opened Base
  import opened Resp

  /** What reading from the front of a stream comes to. `Crash` is the panic of a buffer size that
      does not fit an integer. */
  datatype Reading<+T> = Got(value: T, rest: string) | Failed | Crash

  /** Splits off the first line, with its newline. */
  function SplitNewline(b: string): (r: Option<(string, string)>)
    ensures r.Some? ==> r.value.0 != [] && r.value.0 + r.value.1 == b
  {
    if b == [] then None
    else if b[0] == '\n' then Some((b[..1], b[1..]))
    else
      match SplitNewline(b[1..])
      case None => None
      case Some((line, rest)) =>
        assert b == [b[0]] + (line + rest);
        Some(([b[0]] + line, rest))
  }

  /** The number or text of a line between its type byte and its last two bytes. */
  function Payload(line: string): (p: string)
    requires |line| >= 3
  {
    line[1..|line| - 2]
  }

  /** `readString`: the last two bytes of lines and bulk strings are dropped without looking. */
  function ReadStringSpec(b: string): (r: Reading<string>)
    ensures r.Got? ==> |r.rest| < |b|
  {
    match SplitNewline(b)
    case None => Failed
    case Some((line, rest)) =>
      if |line| < 3 then Failed
      else if line[0] == '+' || line[0] == '-' || line[0] == ':' then Got(Payload(line), rest)
      else if line[0] == '$' then
        (match Atoi(Payload(line))
         case None => Failed
         case Some(n) => ReadBulkSpec(n, rest))
      else Failed
  }

  function ReadBulkSpec(n: int, b: string): (r: Reading<string>)
    ensures r.Got? ==> |r.rest| <= |b|
  {
    if n < 0 then Got("", b)
    else if n + 2 > MAX_INT then Crash
    else if |b| < n + 2 then Failed
    else Got(b[..n], b[n + 2..])
  }

  function ReadFieldsSpec(n: int, b: string): (r: Reading<seq<string>>)
    ensures r.Got? ==> |r.rest| <= |b|
    decreases |b|
  {
    if n <= 0 then Got([], b)
    else
      match ReadStringSpec(b)
      case Failed => Failed
      case Crash => Crash
      case Got(s, rest) =>
        match ReadFieldsSpec(n - 1, rest)
        case Failed => Failed
        case Crash => Crash
        case Got(fields, rest') => Got([s] + fields, rest')
  }

  /** `readArray` */
  function ReadArraySpec(b: string): (r: Reading<seq<string>>)
    ensures r.Got? ==> |r.rest| < |b|
  {
    match SplitNewline(b)
    case None => Failed
    case Some((line, rest)) =>
      if |line| < 3 || line[0] != '*' then Failed
      else
        match Atoi(Payload(line))
        case None => Failed
        case Some(n) => ReadFieldsSpec(n, rest)
  }

  // ---------- The reader ----------

  /** A buffered reader: `rest` is every byte the peer will still send before it closes. */
  class Reader {
    var rest: string

    constructor (b: string)
      ensures rest == b
    {
      rest := b;
    }

    /** `ReadString('\n')`; None is the end of the stream before a newline. */
    method ReadLine() returns (r: Option<string>)
      modifies this
      ensures r.None? <==> SplitNewline(old(rest)).None?
      ensures r.Some? ==> SplitNewline(old(rest)) == Some((r.value, rest))
    {
      match SplitNewline(rest)
      case None =>
        rest := [];
        r := None;
      case Some((line, after)) =>
        rest := after;
        r := Some(line);
    }

    /** `Read`: fills any number of the cells from `pos` on, at least one; None at the end of the
        stream. */
    method Read(buf: array<char>, pos: nat) returns (n: Option<nat>)
      requires pos < buf.Length
      modifies this, buf
      ensures n.None? <==> old(rest) == []
      ensures n.Some? ==> 0 < n.value <= buf.Length - pos && n.value <= |old(rest)|
      ensures n.Some? ==> buf[..pos] == old(buf[..pos]) && buf[pos..pos + n.value] == old(rest)[..n.value]
      ensures n.Some? ==> rest == old(rest)[n.value..]
    {
      if rest == [] {
        return None;
      }
      var got: nat :| 0 < got <= buf.Length - pos && got <= |rest|;
      forall i | pos <= i < pos + got {
        buf[i] := rest[i - pos];
      }
      rest := rest[got..];
      n := Some(got);
    }

    /** The loop of `readString` that fills the buffer of a bulk string. */
    method ReadFull(buf: array<char>) returns (ok: bool)
      modifies this, buf
      ensures ok <==> |old(rest)| >= buf.Length
      ensures ok ==> buf[..] == old(rest)[..buf.Length] && rest == old(rest)[buf.Length..]
    {
      var pos := 0;
      while pos < buf.Length
        invariant pos <= buf.Length && buf[..pos] + rest == old(rest)
      {
        var n := Read(buf, pos);
        if n.None? {
          return false;
        }
        assert buf[..pos + n.value] == buf[..pos] + buf[pos..pos + n.value];
        pos := pos + n.value;
      }
      ok := true;
    }

    /** `readString` */
    method ReadString() returns (r: Reading<string>)
      modifies this
      ensures r.Got? ==> r.rest == rest
      ensures r == ReadStringSpec(old(rest))
    {
      var line := ReadLine();
      if line.None? || |line.value| < 3 {
        return Failed;
      }
      match line.value[0] {
        case '+' => return Got(Payload(line.value), rest);
        case '-' => return Got(Payload(line.value), rest);
        case ':' => return Got(Payload(line.value), rest);
        case '$' =>
          var n := Atoi(Payload(line.value));
          if n.None? {
            return Failed;
          }
          if n.value < 0 {
            return Got("", rest);
          }
          if n.value + 2 > MAX_INT {
            return Crash;
          }
          var buf := new char[n.value + 2];
          ghost var body := rest;
          var ok := ReadFull(buf);
          if !ok {
            return Failed;
          }
          assert buf[..n.value] == buf[..][..n.value] == body[..n.value];
          return Got(buf[..n.value], rest);
        case _ => return Failed;
      }
    }

    /** `readArray` */
    method ReadArray() returns (r: Reading<seq<string>>)
      modifies this
      ensures r.Got? ==> r.rest == rest
      ensures r == ReadArraySpec(old(rest))
    {
      var line := ReadLine();
      if line.None? || |line.value| < 3 || line.value[0] != '*' {
        return Failed;
      }
      var n := Atoi(Payload(line.value));
      if n.None? {
        return Failed;
      }
      ghost var target := ReadFieldsSpec(n.value, rest);
      var l: int := n.value;
      var fields := [];
      PrependNothing(target);
      while l > 0
        invariant Prepend(fields, ReadFieldsSpec(l, rest)) == target
        decreases l
      {
        var s := ReadString();
        match s {
          case Failed => return Failed;
          case Crash => return Crash;
          case Got(field, _) =>
            PrependSnoc(fields, field, ReadFieldsSpec(l - 1, rest));
            fields := fields + [field];
        }
        l := l - 1;
      }
      r := Got(fields, rest);
      assert fields + [] == fields;
    }
  }

  function Prepend(fields: seq<string>, r: Reading<seq<string>>): (q: Reading<seq<string>>) {
    match r
    case Got(more, rest) => Got(fields + more, rest)
    case _ => r
  }

  lemma PrependNothing(r: Reading<seq<string>>)
    ensures Prepend([], r) == r
  {
    if r.Got? {
      assert [] + r.value == r.value;
    }
  }

  lemma PrependSnoc(fields: seq<string>, s: string, r: Reading<seq<string>>)
    ensures Prepend(fields + [s], r) == Prepend(fields, Prepend([s], r))
  {
    if r.Got? {
      assert fields + [s] + r.value == fields + ([s] + r.value);
    }
  }

  // ---------- The round trip ----------

  /** A request as a client sends it: an array header and one bulk string per argument. */
  function EncodeRequest(args: seq<string>): (b: string) {
    Print(Len(|args|)) + EncodeFields(args)
  }

  function EncodeFields(args: seq<string>): (b: string) {
    if args == [] then [] else Print(Bulk(args[0])) + EncodeFields(args[1..])
  }

  /** The sizes fit the integers of the reader. */
  predicate Sendable(args: seq<string>) {
    |args| <= MAX_INT && forall a :: a in args ==> |a| + 2 <= MAX_INT
  }

  lemma {:induction false} SplitNewlineBack(line: string, rest: string)
    requires '\n' !in line
    ensures SplitNewline(line + CRLF + rest) == Some((line + CRLF, rest))
  {
    var b := line + CRLF + rest;
    if line == [] {
      assert b[0] == '\r' && b[1..][0] == '\n' && b[1..][1..] == rest && b[1..][..1] == ['\n'];
      assert ['\r'] + ['\n'] == CRLF && line + CRLF == CRLF;
    } else {
      assert b[0] == line[0] && line[0] in line;
      assert b[1..] == line[1..] + CRLF + rest;
      SplitNewlineBack(line[1..], rest);
      assert [line[0]] + (line[1..] + CRLF) == line + CRLF;
    }
  }

  /** A line of a type byte and a number is read back as that number. */
  lemma NumberLine(kind: char, n: int, rest: string)
    requires kind != '\n' && MIN_INT <= n <= MAX_INT
    ensures
      var line := [kind] + Itoa(n) + CRLF;
      SplitNewline(line + rest) == Some((line, rest)) && |line| >= 3 && Atoi(Payload(line)) == Some(n)
  {
    AtoiItoa(n);
    var line := [kind] + Itoa(n) + CRLF;
    assert '\n' !in Itoa(n);
    SplitNewlineBack([kind] + Itoa(n), rest);
    assert Payload(line) == Itoa(n);
  }

  lemma ReadStringBack(s: string, rest: string)
    requires |s| + 2 <= MAX_INT
    ensures ReadStringSpec(Print(Bulk(s)) + rest) == Got(s, rest)
  {
    var tail := s + CRLF + rest;
    NumberLine('$', |s|, tail);
    assert Print(Bulk(s)) + rest == (['$'] + Itoa(|s|) + CRLF) + tail;
    assert tail[..|s|] == s && tail[|s| + 2..] == rest;
  }

  lemma {:induction false} ReadFieldsBack(args: seq<string>, rest: string)
    requires forall a :: a in args ==> |a| + 2 <= MAX_INT
    ensures ReadFieldsSpec(|args|, EncodeFields(args) + rest) == Got(args, rest)
  {
    if args == [] {
      assert EncodeFields(args) + rest == rest;
    } else {
      var b := EncodeFields(args[1..]) + rest;
      assert EncodeFields(args) + rest == Print(Bulk(args[0])) + b;
      assert args[0] in args;
      ReadStringBack(args[0], b);
      ReadFieldsBack(args[1..], rest);
      ReadFieldsStep(|args|, Print(Bulk(args[0])) + b, args[0], b, args[1..], rest);
      assert [args[0]] + args[1..] == args;
    }
  }

  lemma ReadFieldsStep(n: int, b: string, s: string, mid: string, more: seq<string>, rest: string)
    requires n > 0 && ReadStringSpec(b) == Got(s, mid) && ReadFieldsSpec(n - 1, mid) == Got(more, rest)
    ensures ReadFieldsSpec(n, b) == Got([s] + more, rest)
  {
  }

  lemma ReadArrayBack(args: seq<string>, rest: string)
    requires Sendable(args)
    ensures ReadArraySpec(EncodeRequest(args) + rest) == Got(args, rest)
  {
    NumberLine('*', |args|, EncodeFields(args) + rest);
    assert EncodeRequest(args) + rest == (['*'] + Itoa(|args|) + CRLF) + (EncodeFields(args) + rest);
    ReadFieldsBack(args, rest);
  }

  function EncodeAll(requests: seq<seq<string>>): (b: string) {
    if requests == [] then [] else EncodeRequest(requests[0]) + EncodeAll(requests[1..])
  }

  /** The loop of `servePeer` with the first step of `dispatch`, which indexes the first argument: the
      requests dispatched, and how it ended. */
  method Serve(rd: Reader) returns (requests: seq<seq<string>>, crashed: bool)
    modifies rd
    ensures ServeSpec(old(rd.rest)) == (requests, crashed)
  {
    hide ServeSpec, ReadArraySpec;
    requests, crashed := [], false;
    ghost var was := rd.rest;
    assert [] + ServeSpec(was).0 == ServeSpec(was).0;
    while true
      invariant ServeSpec(was) == (requests + ServeSpec(rd.rest).0, ServeSpec(rd.rest).1)
      decreases |rd.rest|
    {
      ServeStep(requests, rd.rest);
      var args := rd.ReadArray();
      if !args.Got? {
        return requests, args.Crash?;
      }
      if args.value == [] {
        return requests, true;
      }
      requests := requests + [args.value];
    }
  }

  /** What a peer that sends `b` and closes gets dispatched, and whether the server panics. */
  function ServeSpec(b: string): (r: (seq<seq<string>>, bool))
    decreases |b|
  {
    match ReadArraySpec(b)
    case Failed => ([], false)
    case Crash => ([], true)
    case Got(args, rest) => if args == [] then ([], true) else ([args] + ServeSpec(rest).0, ServeSpec(rest).1)
  }

  lemma ServeStep(done: seq<seq<string>>, b: string)
    ensures
      match ReadArraySpec(b)
      case Failed => done + ServeSpec(b).0 == done && !ServeSpec(b).1
      case Crash => done + ServeSpec(b).0 == done && ServeSpec(b).1
      case Got(args, rest) =>
        if args == [] then done + ServeSpec(b).0 == done && ServeSpec(b).1
        else done + ServeSpec(b).0 == (done + [args]) + ServeSpec(rest).0 && ServeSpec(b).1 == ServeSpec(rest).1
  {
  }

  /** The requests in front of the first one without any argument. */
  function UpToEmpty(requests: seq<seq<string>>): (r: seq<seq<string>>) {
    if requests == [] || requests[0] == [] then [] else [requests[0]] + UpToEmpty(requests[1..])
  }

  /** Request round trip: for every sequence of argument vectors of arbitrary bytes, the server
      dispatches exactly those vectors, in order, with nothing left over, if none of them is empty;
      an empty vector is read back too and then panics in `dispatch`. `Serve` meets this however the
      reads are split. */
  lemma {:induction false} RequestRoundTrip(requests: seq<seq<string>>)
    requires forall r :: r in requests ==> Sendable(r)
    ensures ServeSpec(EncodeAll(requests)) == (UpToEmpty(requests), [] in requests)
    ensures UpToEmpty(requests) == requests <==> [] !in requests
  {
    if requests != [] {
      assert requests == [requests[0]] + requests[1..];
      ReadArrayBack(requests[0], EncodeAll(requests[1..]));
      RequestRoundTrip(requests[1..]);
    }
  }
}
