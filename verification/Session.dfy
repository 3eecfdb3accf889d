/** `connCtx` and `Peer` (rediqueue.go, server/server.go) as objects that are changed in place, and the
    handlers that need no database (cmd_transactions.go): each does what `Machine.Dispatch` says. */
module Session {
  import opened Base
  import opened Resp
  import opened Commands
  import opened Machine
  import opened Store

  /** State of one connection; `Value` is the machine's view of it. */
  class ConnCtx {
    var selectedDB: int
    var transaction: Option<seq<Cmd>>
    var dirtyTransaction: bool
    var watch: map<(int, string), nat>

    constructor ()
      ensures Value() == FreshCtx
    {
      selectedDB, transaction, dirtyTransaction, watch := 0, None, false, map[];
    }

    function Value(): (x: Ctx)
      reads this
    {
      Ctx(selectedDB, transaction, dirtyTransaction, watch)
    }

    method StartTx()
      modifies this
      ensures Value() == Machine.StartTx(old(Value()))
      ensures transaction == Some([]) && !dirtyTransaction
    {
      transaction := Some([]);
      dirtyTransaction := false;
    }

    method StopTx()
      modifies this
      ensures Value() == Machine.StopTx(old(Value()))
      ensures transaction == None && watch == map[]
    {
      transaction := None;
      Unwatch();
    }

    method AddTxCmd(cmd: Cmd)
      requires transaction.Some?
      modifies this
      ensures Value() == Machine.AddTxCmd(old(Value()), cmd)
      ensures transaction == Some(old(transaction.value) + [cmd])
    {
      transaction := Some(transaction.value + [cmd]);
    }

    /** `watch`: a second WATCH of a key overwrites the version recorded first. */
    method Watch(db: int, key: string, version: nat)
      modifies this
      ensures Value() == old(Value()).(watch := old(watch)[(db, key) := Uint(version)])
    {
      watch := watch[(db, key) := Uint(version)];
    }

    method Unwatch()
      modifies this`watch
      ensures watch == map[]
    {
      watch := map[];
    }

    method SetDirty()
      modifies this
      ensures Value() == old(Value()).(dirty := true)
    {
      dirtyTransaction := true;
    }
  }

  /** What is written to a connection. */
  class Peer {
    var w: string

    constructor ()
      ensures w == ""
    {
      w := "";
    }

    method WriteError(e: string)
      modifies this
      ensures w == old(w) + Print(Tok.Error(e))
    {
      w := w + "-" + e + CRLF;
    }

    method WriteInline(s: string)
      modifies this
      ensures w == old(w) + Print(Inline(s))
    {
      w := w + "+" + s + CRLF;
    }

    method WriteOK()
      modifies this
      ensures w == old(w) + Print(OK)
    {
      WriteInline("OK");
    }

    method WriteBulk(s: string)
      modifies this
      ensures w == old(w) + Print(Bulk(s))
    {
      w := w + "$" + Itoa(|s|) + CRLF + s + CRLF;
    }

    method WriteNull()
      modifies this
      ensures w == old(w) + Print(Null)
    {
      w := w + "$-1" + CRLF;
    }

    method WriteLen(n: int)
      modifies this
      ensures w == old(w) + Print(Len(n))
    {
      w := w + "*" + Itoa(n) + CRLF;
    }

    method WriteInt(i: int)
      modifies this
      ensures w == old(w) + Print(Number(i))
    {
      w := w + ":" + Itoa(i) + CRLF;
    }

    /** The loop that answers with a list of strings. */
    method WriteBulks(l: seq<string>)
      modifies this
      ensures w == old(w) + PrintAll([Len(|l|)] + Bulks(l))
    {
      hide Print, PrintAll, Bulks;
      WriteLen(|l|);
      HeaderOnly(Len(|l|));
      var i := 0;
      while i < |l|
        invariant i <= |l|
        invariant w == old(w) + PrintAll([Len(|l|)] + Bulks(l[..i]))
      {
        WriteBulk(l[i]);
        assert l[..i + 1] == l[..i] + [l[i]];
        BulksSnoc([Len(|l|)], l[..i], l[i]);
        i := i + 1;
      }
      assert l[..|l|] == l;
    }
  }

  lemma HeaderOnly(t: Tok)
    ensures PrintAll([t] + Bulks([])) == Print(t)
  {
    assert [t] + Bulks([]) == [t] && [t][1..] == [] && PrintAll([]) == "";
  }

  lemma {:induction false} PrintAppend(ts: seq<Tok>, us: seq<Tok>)
    ensures PrintAll(ts + us) == PrintAll(ts) + PrintAll(us)
  {
    hide Print;
    if ts == [] {
      assert ts + us == us;
    } else {
      var rest := ts[1..];
      PrintAppend(rest, us);
      assert (ts + us)[0] == ts[0] && (ts + us)[1..] == rest + us;
      Regroup(Print(ts[0]), PrintAll(rest), PrintAll(us));
    }
  }

  lemma {:induction false} BulksSnoc(front: seq<Tok>, l: seq<string>, s: string)
    ensures Bulks(l + [s]) == Bulks(l) + [Bulk(s)]
    ensures PrintAll(front + Bulks(l + [s])) == PrintAll(front + Bulks(l)) + Print(Bulk(s))
  {
    assert Bulks(l + [s]) == Bulks(l) + [Bulk(s)];
    PrintAppend(front + Bulks(l), [Bulk(s)]);
    assert [Bulk(s)][1..] == [] && PrintAll([Bulk(s)]) == Print(Bulk(s)) + PrintAll([]);
    assert front + Bulks(l) + [Bulk(s)] == front + (Bulks(l) + [Bulk(s)]);
  }

  // ---------- Handlers ----------

  /** A request answered without the lock: the new connection state and the reply are those of the
      machine. */
  ghost predicate AnswersLike(before: Ctx, req: Request, after: Ctx, reply: string) {
    var r := Dispatch(Conn(before, Idle, [], 0), req);
    r.pc == Idle && r.ctx == after && |r.out| == 1 && reply == Print(r.out[0])
  }

  method CmdMulti(ctx: ConnCtx, c: Peer)
    modifies ctx, c
    ensures exists reply :: c.w == old(c.w) + reply && AnswersLike(old(ctx.Value()), Multi, ctx.Value(), reply)
    ensures ctx.transaction == if old(ctx.transaction).Some? then old(ctx.transaction) else Some([])
    ensures old(ctx.transaction).None? ==> !ctx.dirtyTransaction
  {
    ghost var tok := if ctx.transaction.Some? then NESTED else OK;
    if ctx.transaction.Some? {
      c.WriteError("ERR MULTI calls can not be nested");
    } else {
      ctx.StartTx();
      c.WriteOK();
    }
    assert AnswersLike(old(ctx.Value()), Multi, ctx.Value(), Print(tok));
  }

  method CmdDiscard(ctx: ConnCtx, c: Peer)
    modifies ctx, c
    ensures exists reply :: c.w == old(c.w) + reply && AnswersLike(old(ctx.Value()), Discard, ctx.Value(), reply)
    ensures ctx.transaction == None && ctx.watch == if old(ctx.transaction).Some? then map[] else old(ctx.watch)
  {
    ghost var tok := if ctx.transaction.Some? then OK else DISCARD_ALONE;
    if ctx.transaction.None? {
      c.WriteError("ERR DISCARD without MULTI");
    } else {
      ctx.StopTx();
      c.WriteOK();
    }
    assert AnswersLike(old(ctx.Value()), Discard, ctx.Value(), Print(tok));
  }

  /** The front of `withTx`: inside MULTI the callback is queued and nothing runs. */
  method Enqueue(ctx: ConnCtx, c: Peer, cmd: Cmd) returns (queued: bool)
    modifies ctx, c
    ensures queued <==> old(InTx(ctx.Value()))
    ensures !queued ==> ctx.Value() == old(ctx.Value()) && c.w == old(c.w)
    ensures queued ==>
      exists reply :: c.w == old(c.w) + reply && AnswersLike(old(ctx.Value()), Command(cmd), ctx.Value(), reply)
    ensures queued ==> ctx.transaction == Some(old(ctx.transaction.value) + [cmd])
  {
    queued := ctx.transaction.Some?;
    if queued {
      ctx.AddTxCmd(cmd);
      c.WriteInline("QUEUED");
      assert AnswersLike(old(ctx.Value()), Command(cmd), ctx.Value(), Print(QUEUED));
    }
  }
}
