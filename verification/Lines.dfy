/** One-line answers and line breaks: the only text of a client that can break the lines of its output
    is the name of an unknown command. */
module Lines {
  import opened Base
  import opened Store
  import opened Resp
  import opened Commands
  import opened Machine
  import opened LockSafety
  import opened Watching
  import opened Transactions
  import opened Framing

  lemma NoReturn(s: string)
    requires '\r' !in s
    ensures !Broken(s)
  {
    forall i | 0 <= i < |s| - 1
      ensures s[i] != '\r'
    {
      assert s[i] in s;
    }
  }

  lemma TwoParts(front: string, back: string)
    requires '\r' !in front && '\r' !in back
    ensures !Broken(front + back)
  {
    NoReturn(front + back);
  }

  lemma FixedAnswers()
    ensures OneLine(WRONG_TYPE) && OneLine(NO_KEY) && OneLine(OUT_OF_RANGE) && OneLine(INVALID_INT)
    ensures OneLine(SAME_DB) && OneLine(OK)
    ensures !Broken("none") && !Broken("list") && !Broken("set")
  {
    hide Broken;
    FixedErrors();
    FixedWords();
  }

  lemma FixedErrors()
    ensures OneLine(WRONG_TYPE) && OneLine(NO_KEY) && OneLine(OUT_OF_RANGE) && OneLine(INVALID_INT) && OneLine(SAME_DB)
  {
    hide OneLine;
    WrongTypeLine();
    NoKeyLine();
    OutOfRangeLine();
    InvalidIntLine();
    SameDbLine();
  }

  lemma NoKeyLine()
    ensures OneLine(NO_KEY)
  {
    NoReturn(NO_KEY.e);
  }

  lemma OutOfRangeLine()
    ensures OneLine(OUT_OF_RANGE)
  {
    NoReturn(OUT_OF_RANGE.e);
  }

  lemma InvalidIntLine()
    ensures OneLine(INVALID_INT)
  {
    TwoParts("ERR value is not an integer ", "or out of range");
  }

  lemma SameDbLine()
    ensures OneLine(SAME_DB)
  {
    TwoParts("ERR source and destination ", "objects are the same");
  }

  lemma WrongTypeLine()
    ensures OneLine(WRONG_TYPE)
  {
    TwoParts("WRONGTYPE Operation against a key ", "holding the wrong kind of value");
  }

  lemma FixedWords()
    ensures OneLine(OK) && OneLine(QUEUED) && !Broken("none") && !Broken("list") && !Broken("set")
  {
    hide Broken;
    NoReturn("OK");
    NoReturn("QUEUED");
    NoReturn("none");
    NoReturn("list");
    NoReturn("set");
  }

  lemma FixedHandlerAnswers()
    ensures OneLine(OK) && OneLine(QUEUED) && OneLine(NESTED) && OneLine(EXEC_ALONE) && OneLine(DISCARD_ALONE)
    ensures OneLine(EXEC_ABORT) && OneLine(WATCH_IN_MULTI)
  {
    FixedWords();
    hide OneLine;
    NestedLine();
    ExecAloneLine();
    DiscardAloneLine();
    ExecAbortLine();
    WatchInMultiLine();
  }

  lemma NestedLine()
    ensures OneLine(NESTED)
  {
    NoReturn(NESTED.e);
  }

  lemma ExecAloneLine()
    ensures OneLine(EXEC_ALONE)
  {
    NoReturn(EXEC_ALONE.e);
  }

  lemma DiscardAloneLine()
    ensures OneLine(DISCARD_ALONE)
  {
    NoReturn(DISCARD_ALONE.e);
  }

  lemma ExecAbortLine()
    ensures OneLine(EXEC_ABORT)
  {
    TwoParts("EXECABORT Transaction discarded ", "because of previous errors.");
  }

  lemma WatchInMultiLine()
    ensures OneLine(WATCH_IN_MULTI)
  {
    NoReturn(WATCH_IN_MULTI.e);
  }

  predicate AllOneLine(ts: seq<Tok>) { forall t :: t in ts ==> OneLine(t) }

  // ---------- Callbacks ----------

  lemma ListLines(db: DB, c: ListCmd)
    requires RunList(db, c).Done?
    ensures AllOneLine(RunList(db, c).reply)
  {
    FixedAnswers();
    hide Broken;
  }

  lemma {:induction false} TryPopLines(db: DB, keys: seq<string>, side: Side)
    requires TryPop(db, keys, side).Some? && TryPop(db, keys, side).value.Done?
    ensures AllOneLine(TryPop(db, keys, side).value.reply)
    decreases |keys|
  {
    FixedAnswers();
    hide Broken;
    if !(Exists(db, keys[0]) && (!IsList(db, keys[0]) || ListAt(db, keys[0]) != [])) {
      TryPopLines(db, keys[1..], side);
    }
  }

  lemma TryLines(db: DB, b: BlockCmd)
    requires RunTry(db, b).Some? && RunTry(db, b).value.Done?
    ensures AllOneLine(RunTry(db, b).value.reply)
  {
    FixedAnswers();
    hide Broken;
    match b
    case BPop(keys, side) => TryPopLines(db, keys, side);
    case BRPopLPush(src, dst) =>
  }

  lemma SetLines(db: DB, c: SetCmd, choice: seq<string>)
    requires RunSet(db, c, choice).Done?
    ensures AllOneLine(RunSet(db, c, choice).reply)
  {
    FixedAnswers();
    hide Broken;
  }

  lemma KeyLines(db: DB, c: KeyCmd, choice: seq<string>)
    requires RunKey(db, c, choice).Done?
    ensures AllOneLine(RunKey(db, c, choice).reply)
  {
    FixedAnswers();
    hide Broken;
  }

  /** No callback writes a line break into a one-line answer. */
  lemma RunLines(dbs: Dbs, sel: int, c: Cmd, choice: seq<string>)
    requires Run(dbs, sel, c, choice).Done?
    ensures AllOneLine(Run(dbs, sel, c, choice).reply)
  {
    FixedAnswers();
    hide Broken, RunList, RunSet, RunKey, RunTry;
    match c {
      case L(l) => ListLines(Get(dbs, sel), l);
      case S(s) => SetLines(Get(dbs, sel), s, choice);
      case K(g) => KeyLines(Get(dbs, sel), g, choice);
      case Try(b) =>
        if RunTry(Get(dbs, sel), b).Some? {
          TryLines(Get(dbs, sel), b);
        }
      case _ =>
    }
  }

  // ---------- Runs ----------

  /** The event is a request by `c` that is rejected with the answer `t`. */
  predicate Rejects(e: Event, c: Id, t: Tok) {
    e.c == c && e.act.Submit? && e.act.req.Rejected? && t == Error(e.act.req.text)
  }

  /** What an event adds to the output of `c` is one-line, but for the text of a rejected request. */
  ghost predicate AddsLines(x: Conn, y: Conn, e: Event, c: Id) {
    forall t :: t in y.out ==> t in x.out || OneLine(t) || Rejects(e, c, t)
  }

  lemma StepLines(s: State, e: Event, c: Id)
    requires LockInv(s) && Step(s, e).Some? && !Step(s, e).value.crashed && c in s.conns
    ensures c in Step(s, e).value.conns && AddsLines(s.conns[c], Step(s, e).value.conns[c], e, c)
  {
    if e.c != c {
      OthersFrame(s, e, c);
    } else if Executed(s, e).Some? {
      ExecutedOut(s, e);
      RunLines(s.dbs, s.conns[c].ctx.sel, Executed(s, e).value, e.act.choice);
    } else if e.act.Go? && s.conns[c].pc.BlockTry? {
      TryOut(s, e);
      var db := Get(s.dbs, s.conns[c].ctx.sel);
      if RunTry(db, s.conns[c].pc.block).Some? {
        TryLines(db, s.conns[c].pc.block);
      }
    } else if e.act.Go? {
      MainLines(s, e);
    } else {
      AsideLines(s, e);
    }
  }

  lemma MainLines(s: State, e: Event)
    requires Step(s, e).Some? && !Step(s, e).value.crashed && e.act.Go? && Executed(s, e).None?
    requires !s.conns[e.c].pc.BlockTry?
    ensures e.c in Step(s, e).value.conns && AddsLines(s.conns[e.c], Step(s, e).value.conns[e.c], e, e.c)
  {
    FixedHandlerAnswers();
    hide Broken, WatchKeys, WatchHolds, StopTx, Call, CallTry;
  }

  lemma AsideLines(s: State, e: Event)
    requires Step(s, e).Some? && !Step(s, e).value.crashed && !e.act.Go?
    ensures e.c in Step(s, e).value.conns && AddsLines(s.conns[e.c], Step(s, e).value.conns[e.c], e, e.c)
  {
    FixedHandlerAnswers();
    hide Broken;
  }

  /** The output of a connection over any run is one-line, but for the texts of its rejected requests. */
  lemma {:induction false} RunOutput(ids: set<Id>, es: seq<Event>, j: nat, c: Id)
    requires IsRun(ids, es) && j <= |es| && !At(ids, es, j).crashed && c in At(ids, es, j).conns
    ensures forall t :: t in At(ids, es, j).conns[c].out ==>
      OneLine(t) || exists i :: 0 <= i < j && Rejects(es[i], c, t)
    decreases j
  {
    if j > 0 {
      BeforeEvent(ids, es, j - 1);
      ConnsStay(At(ids, es, j - 1), es[j - 1], c);
      hide At, IsRun, Step, LockInv, OneLine;
      RunOutput(ids, es, j - 1, c);
      StepLines(At(ids, es, j - 1), es[j - 1], c);
    }
  }

  /** Framing on the wire, exactly: with sizes that fit, a client that reads the bytes of an idle
      connection gets exactly its output, one value per request, if and only if none of its own requests
      was rejected with a text that holds a line break. */
  lemma WireOutput(ids: set<Id>, es: seq<Event>, c: Id)
    requires IsRun(ids, es) && !After(ids, es).value.crashed && c in After(ids, es).value.conns
    requires forall i :: 0 <= i < |es| && es[i].c == c ==> !WritesBadHeader(At(ids, es, i), es[i])
    requires After(ids, es).value.conns[c].pc.Idle? && forall t :: t in After(ids, es).value.conns[c].out ==> Fits(t)
    ensures
      var x := After(ids, es).value.conns[c];
      && ReadN(x.handled, x.out).Some? && ReadN(x.handled, x.out).value.1 == []
      && (ScanAll(PrintAll(x.out)) == Some(x.out) <==>
          !exists i, t :: 0 <= i < |es| && t in x.out && Rejects(es[i], c, t) && !OneLine(t))
  {
    assert es[..|es|] == es;
    ReplyFraming(ids, es, c);
    RunOutput(ids, es, |es|, c);
  }

  /** The failing input: the answer to an unknown command whose name holds a line break reads as two
      values. */
  lemma SplitAnswer(ids: set<Id>, c: Id) returns (es: seq<Event>)
    requires c in ids
    ensures IsRun(ids, es) && c in After(ids, es).value.conns
    ensures
      var x := After(ids, es).value.conns[c];
      && x.pc.Idle? && x.handled == 1
      && ScanAll(PrintAll(x.out)) == Some([Error("ERR unknown command 'a"), Inline("b'")])
  {
    var first, second := "ERR unknown command 'a", "b'";
    var text := first + CRLF + "+" + second;
    es := OneRejection(ids, c, text);
    SplitsInTwo(first, second);
  }

  lemma OneRejection(ids: set<Id>, c: Id, text: string) returns (es: seq<Event>)
    requires c in ids
    ensures IsRun(ids, es) && c in After(ids, es).value.conns
    ensures
      var x := After(ids, es).value.conns[c];
      x.pc.Idle? && x.handled == 1 && x.out == [Error(text)]
  {
    es := [Event(c, Submit(Rejected(false, text)))];
    assert es[..0] == [];
    assert [] + [Error(text)] == [Error(text)];
  }

  lemma SplitsInTwo(first: string, second: string)
    requires '\r' !in first && '\r' !in second
    ensures ScanAll(PrintAll([Error(first + CRLF + "+" + second)])) == Some([Error(first), Inline(second)])
  {
    var whole := Error(first + CRLF + "+" + second);
    var rest := Print(Inline(second));
    assert [whole][1..] == [] && PrintAll([]) == "" && Print(whole) + "" == Print(whole);
    assert Print(whole) == Print(Error(first)) + rest;
    assert rest + "" == rest;
    NoReturn(first);
    NoReturn(second);
    ScanBack(Error(first), rest);
    ScanBack(Inline(second), "");
    hide Scan, Print, PrintAll;
    ScanTwo(Print(whole), Error(first), rest, Inline(second));
  }

  lemma ScanTwo(b: string, t: Tok, rest: string, u: Tok)
    requires b != [] && rest != [] && Scan(b) == Some((t, rest)) && Scan(rest) == Some((u, ""))
    ensures ScanAll(b) == Some([t, u])
  {
    assert ScanAll("") == Some([]);
    assert ScanAll(rest) == Some([u] + []);
    assert [t] + ([u] + []) == [t, u];
  }
}
