/** Reply framing: every request is answered by exactly one complete protocol value. */
module Framing {
  import opened Base
  import opened Store
  import opened Resp
  import opened Commands
  import opened CommandLaws
  import opened Machine
  import opened LockSafety
  import opened Watching
  import opened Transactions
  import Ranges
  import Lists

  /** SRANDMEMBER with the smallest integer as count: negating it for the array header overflows. */
  predicate Overflows(db: DB, c: SetCmd) {
    c.SRandMember? && c.number == Some(MIN_INT) && IsSet(db, c.key)
  }

  lemma ListFramed(db: DB, c: ListCmd)
    requires Agree(db)
    ensures RunList(db, c).Done? && IsReply(RunList(db, c).reply)
  {
    ListLawful(db, c);
    var t := RunList(db, c).reply;
    if c.LRange? && !IsSet(db, c.key) {
      var l := ListAt(db, c.key);
      if l == [] {
        BulkArrayReply([]);
        assert t == [Len(0)] + Bulks([]);
      } else {
        var (rs, re) := Ranges.RedisRange(|l|, c.start, c.end, false);
        Ranges.RangeBounds(|l|, c.start, c.end, false);
        BulkArrayReply(l[rs..re]);
      }
    } else {
      LeafReply(t[0]);
      assert t == [t[0]];
    }
  }

  lemma TryFramed(db: DB, b: BlockCmd)
    requires Agree(db) && RunTry(db, b).Some?
    ensures RunTry(db, b).value.Done? && IsReply(RunTry(db, b).value.reply)
  {
    TryLawful(db, b);
    var t := RunTry(db, b).value.reply;
    LeafReply(WRONG_TYPE);
    match b
    case BPop(keys, side) =>
      TryPopDone(db, keys, side);
      if t != [WRONG_TYPE] {
        BulkArrayReply([t[1].s, t[2].s]);
        assert t == [Len(2)] + Bulks([t[1].s, t[2].s]);
      }
    case BRPopLPush(src, dst) =>
      LeafReply(t[0]);
      assert t == [t[0]];
  }

  lemma NegativeHeader(n: int, ts: seq<Tok>)
    requires n < 0
    ensures !IsReply([Len(n)] + ts)
  {
    forall v | WellFormed(v)
      ensures Flatten(v) != [Len(n)] + ts
    {
      assert ([Len(n)] + ts)[0] == Len(n);
      match v
      case Leaf(t) => assert Flatten(v)[0] == t;
      case Array(es) => assert Flatten(v)[0] == Len(|es|);
    }
  }

  lemma SetFramed(db: DB, c: SetCmd, choice: seq<string>)
    requires Agree(db) && ValidSetChoice(db, c, choice) && RunSet(db, c, choice).Done?
    ensures IsReply(RunSet(db, c, choice).reply) <==> !Overflows(db, c)
  {
    var t := RunSet(db, c, choice).reply;
    BulkArrayReply([]);
    assert [Len(0)] + Bulks([]) == [Len(0)];
    if |t| == 1 && !t[0].Len? {
      LeafReply(t[0]);
      assert t == [t[0]];
    }
    if c.SScan? {
      ScanReply(choice);
      ScanReply([]);
      assert [Len(2), Bulk("0"), Len(0)] + Bulks([]) == [Len(2), Bulk("0"), Len(0)];
    } else if c.SRandMember? && c.number.Some? && c.number.value < 0 && IsSet(db, c.key) {
      Lists.WrapNegate(c.number.value);
      if c.number.value == MIN_INT {
        NegativeHeader(MIN_INT, Bulks(choice));
      } else {
        BulkArrayReply(choice);
      }
    } else {
      BulkArrayReply(choice);
    }
  }

  lemma KeyFramed(db: DB, c: KeyCmd, choice: seq<string>)
    requires RunKey(db, c, choice).Done?
    ensures IsReply(RunKey(db, c, choice).reply)
  {
    var t := RunKey(db, c, choice).reply;
    if c.ScanAllKeys? {
      ScanReply(choice);
      ScanReply([]);
      assert [Len(2), Bulk("0"), Len(0)] + Bulks([]) == [Len(2), Bulk("0"), Len(0)];
    } else if c.Keys? {
      BulkArrayReply(choice);
    } else {
      LeafReply(t[0]);
      assert t == [t[0]];
    }
  }

  predicate BadHeader(dbs: Dbs, sel: int, c: Cmd) { c.S? && Overflows(Get(dbs, sel), c.sets) }

  /** Every callback writes exactly one complete value, with one exception: SRANDMEMBER of an existing
      set with the smallest integer as count. */
  lemma RunFramed(dbs: Dbs, sel: int, c: Cmd, choice: seq<string>)
    requires AgreeAll(dbs) && ValidChoice(dbs, sel, c, choice) && Run(dbs, sel, c, choice).Done?
    ensures IsReply(Run(dbs, sel, c, choice).reply) <==> !BadHeader(dbs, sel, c)
  {
    EmptyAgrees(dbs, sel);
    var db := Get(dbs, sel);
    match c {
      case L(l) => ListFramed(db, l);
      case S(s) => SetFramed(db, s, choice);
      case K(g) => KeyFramed(db, g, choice);
      case Try(b) =>
        if RunTry(db, b).Some? {
          TryFramed(db, b);
        } else {
          LeafReply(Null);
        }
      case MoveTo(k, target) =>
        LeafReply(SAME_DB);
        LeafReply(Number(0));
        LeafReply(Number(1));
      case FlushAll => LeafReply(OK);
    }
  }

  // ---------- The output of a connection ----------

  /** Inside EXEC: finished replies, then the array header, then one value per callback so far. */
  ghost predicate InArray(out: seq<Tok>, handled: nat, len: nat, done: nat) {
    exists before, inside ::
      out == before + [Len(len)] + inside && AreReplies(before, handled) && AreReplies(inside, done)
  }

  /** How many values a connection has written: the current request may already be answered. */
  function Written(x: Conn): (n: nat) {
    match x.pc
    case TxBroadcast => x.handled + 1
    case ExecStop => x.handled + 1
    case Unlocking => x.handled + 1
    case BlockWait(_, _, phase, _) => if phase.TimedOut? || phase.Joining? then x.handled + 1 else x.handled
    case _ => x.handled
  }

  ghost predicate Framed(x: Conn) {
    if x.pc.ExecCall? then InTx(x.ctx) && InArray(x.out, x.handled, |x.ctx.tx.value|, x.pc.next)
    else AreReplies(x.out, Written(x))
  }

  lemma OneMore(out: seq<Tok>, n: nat, t: Tok)
    requires AreReplies(out, n) && !t.Len?
    ensures AreReplies(out + [t], n + 1)
  {
    LeafReply(t);
    RepliesSnoc(out, n, [t]);
  }

  lemma EmptyArray(out: seq<Tok>, n: nat)
    requires AreReplies(out, n)
    ensures AreReplies(out + [Len(0)], n + 1)
  {
    RepliesNone();
    RepliesArray([], 0);
    assert [Len(0)] + [] == [Len(0)];
    RepliesSnoc(out, n, [Len(0)]);
  }

  lemma ArrayStarts(out: seq<Tok>, n: nat, len: nat)
    requires AreReplies(out, n)
    ensures InArray(out + [Len(len)], n, len, 0)
  {
    RepliesNone();
    assert out + [Len(len)] == out + [Len(len)] + [];
  }

  lemma ArrayGrows(out: seq<Tok>, n: nat, len: nat, done: nat, reply: seq<Tok>)
    requires InArray(out, n, len, done) && IsReply(reply)
    ensures InArray(out + reply, n, len, done + 1)
  {
    var before, inside :| out == before + [Len(len)] + inside && AreReplies(before, n) && AreReplies(inside, done);
    RepliesSnoc(inside, done, reply);
    assert out + reply == before + [Len(len)] + (inside + reply);
  }

  lemma ArrayCloses(out: seq<Tok>, n: nat, len: nat)
    requires InArray(out, n, len, len)
    ensures AreReplies(out, n + 1)
  {
    var before, inside :| out == before + [Len(len)] + inside && AreReplies(before, n) && AreReplies(inside, len);
    RepliesArray(inside, len);
    RepliesSnoc(before, n, [Len(len)] + inside);
    assert out == before + ([Len(len)] + inside);
  }

  /** A step that writes nothing, or one value, outside of EXEC's queue. */
  predicate PlainMove(x: Conn, y: Conn) {
    !x.pc.ExecCall? && !y.pc.ExecCall? &&
    ((y.out == x.out && Written(y) == Written(x)) ||
     (|y.out| == |x.out| + 1 && y.out == x.out + [y.out[|x.out|]] && !y.out[|x.out|].Len? &&
      Written(y) == Written(x) + 1))
  }

  /** EXEC's check: an empty array for an abort, the header of the queue otherwise. */
  predicate CheckMove(x: Conn, y: Conn) {
    x.pc.ExecCheck? &&
    ((y.out == x.out + [Len(0)] && !y.pc.ExecCall? && Written(y) == x.handled + 1) ||
     (InTx(x.ctx) && y.ctx == x.ctx && y.out == x.out + [Len(|x.ctx.tx.value|)] && y.pc == ExecCall(0) &&
      y.handled == x.handled))
  }

  /** The broadcast after the last callback of the queue. */
  predicate QueueEndMove(x: Conn, y: Conn) {
    && x.pc.ExecCall? && InTx(x.ctx) && x.pc.next == |x.ctx.tx.value|
    && y.out == x.out && y.pc == ExecStop && y.handled == x.handled
  }

  lemma MovesFramed(x: Conn, y: Conn)
    requires Framed(x) && (PlainMove(x, y) || CheckMove(x, y) || QueueEndMove(x, y))
    ensures Framed(y)
  {
    if x.pc.ExecCheck? {
      EmptyArray(x.out, x.handled);
      if InTx(x.ctx) {
        ArrayStarts(x.out, x.handled, |x.ctx.tx.value|);
      }
    }
    if x.pc.ExecCall? {
      ArrayCloses(x.out, x.handled, |x.ctx.tx.value|);
    } else if PlainMove(x, y) && y.out != x.out {
      OneMore(x.out, Written(x), y.out[|x.out|]);
    }
  }

  lemma DispatchMoves(x: Conn, req: Request)
    requires x.pc.Idle?
    ensures PlainMove(x, Dispatch(x, req))
  {
  }

  /** The event runs a callback whose array header overflows. */
  predicate WritesBadHeader(s: State, e: Event) {
    Executed(s, e).Some? && BadHeader(s.dbs, s.conns[e.c].ctx.sel, Executed(s, e).value)
  }

  /** How a callback with a complete reply moves a connection along. */
  lemma ReplyFramed(x: Conn, y: Conn, reply: seq<Tok>)
    requires Framed(x) && IsReply(reply) && y.out == x.out + reply && y.handled == x.handled && y.ctx.tx == x.ctx.tx
    requires x.pc.TxCall? || x.pc.ExecCall? || x.pc.BlockTry?
    requires y.pc == if x.pc.TxCall? then TxBroadcast else if x.pc.BlockTry? then Unlocking else ExecCall(x.pc.next + 1)
    ensures Framed(y)
  {
    if x.pc.ExecCall? {
      ArrayGrows(x.out, x.handled, |x.ctx.tx.value|, x.pc.next, reply);
    } else {
      RepliesSnoc(x.out, x.handled, reply);
    }
  }

  lemma CallFramed(s: State, e: Event)
    requires LockInv(s) && AgreeAll(s.dbs) && Step(s, e).Some? && !Step(s, e).value.crashed
    requires Executed(s, e).Some? && !WritesBadHeader(s, e) && Framed(s.conns[e.c])
    ensures e.c in Step(s, e).value.conns && Framed(Step(s, e).value.conns[e.c])
  {
    var x := s.conns[e.c];
    ExecutedOut(s, e);
    RunFramed(s.dbs, x.ctx.sel, Executed(s, e).value, e.act.choice);
    ReplyFramed(x, Step(s, e).value.conns[e.c], Run(s.dbs, x.ctx.sel, Executed(s, e).value, e.act.choice).reply);
  }

  lemma ExecutedOut(s: State, e: Event)
    requires Step(s, e).Some? && !Step(s, e).value.crashed && Executed(s, e).Some?
    ensures
      var x := s.conns[e.c];
      var o := Run(s.dbs, x.ctx.sel, Executed(s, e).value, e.act.choice);
      && o.Done? && ValidChoice(s.dbs, x.ctx.sel, Executed(s, e).value, e.act.choice)
      && e.c in Step(s, e).value.conns
      && var y := Step(s, e).value.conns[e.c];
      && y.out == x.out + o.reply && y.handled == x.handled && y.ctx.tx == x.ctx.tx
      && y.pc == if x.pc.TxCall? then TxBroadcast else ExecCall(x.pc.next + 1)
  {
  }

  lemma TryOut(s: State, e: Event)
    requires Step(s, e).Some? && !Step(s, e).value.crashed && e.act.Go? && s.conns[e.c].pc.BlockTry?
    ensures
      var x := s.conns[e.c];
      var o := RunTry(Get(s.dbs, x.ctx.sel), x.pc.block);
      && e.c in Step(s, e).value.conns
      && var y := Step(s, e).value.conns[e.c];
      && y.handled == x.handled && y.ctx == x.ctx
      && (o.None? ==> y.out == x.out && y.pc == BlockWait(x.pc.block, x.pc.timed, Selecting, Spawned))
      && (o.Some? ==> o.value.Done? && y.out == x.out + o.value.reply && y.pc == Unlocking)
  {
  }

  lemma TryStepFramed(s: State, e: Event)
    requires LockInv(s) && AgreeAll(s.dbs) && Step(s, e).Some? && !Step(s, e).value.crashed
    requires e.act.Go? && s.conns[e.c].pc.BlockTry? && Framed(s.conns[e.c])
    ensures e.c in Step(s, e).value.conns && Framed(Step(s, e).value.conns[e.c])
  {
    var x := s.conns[e.c];
    EmptyAgrees(s.dbs, x.ctx.sel);
    TryOut(s, e);
    TryMoves(Get(s.dbs, x.ctx.sel), x, Step(s, e).value.conns[e.c]);
  }

  lemma TryMoves(db: DB, x: Conn, y: Conn)
    requires Agree(db) && x.pc.BlockTry? && Framed(x) && y.handled == x.handled && y.ctx == x.ctx
    requires
      var o := RunTry(db, x.pc.block);
      && (o.None? ==> y.out == x.out && y.pc == BlockWait(x.pc.block, x.pc.timed, Selecting, Spawned))
      && (o.Some? ==> o.value.Done? && y.out == x.out + o.value.reply && y.pc == Unlocking)
    ensures Framed(y)
  {
    var o := RunTry(db, x.pc.block);
    if o.Some? {
      TryFramed(db, x.pc.block);
      ReplyFramed(x, y, o.value.reply);
    }
  }

  lemma ExecMoves(s: State, e: Event)
    requires LockInv(s) && Step(s, e).Some? && e.act.Go? && Executed(s, e).None?
    requires s.conns[e.c].pc.ExecCheck? || s.conns[e.c].pc.ExecCall?
    ensures e.c in Step(s, e).value.conns
    ensures
      var y := Step(s, e).value.conns[e.c];
      CheckMove(s.conns[e.c], y) || QueueEndMove(s.conns[e.c], y)
  {
  }

  lemma WaitMoves(s: State, e: Event)
    requires Step(s, e).Some? && e.act.Go? && s.conns[e.c].pc.BlockWait?
    ensures e.c in Step(s, e).value.conns && PlainMove(s.conns[e.c], Step(s, e).value.conns[e.c])
  {
    hide Call, CallTry, WatchKeys, WatchHolds, StopTx;
  }

  lemma PlainMoves(s: State, e: Event)
    requires Step(s, e).Some? && !Step(s, e).value.crashed && e.act.Go?
    requires var pc := s.conns[e.c].pc; !InCallback(pc) && !pc.ExecCheck? && !pc.BlockWait?
    ensures e.c in Step(s, e).value.conns && PlainMove(s.conns[e.c], Step(s, e).value.conns[e.c])
  {
    hide WatchKeys, WatchHolds, Call, CallTry;
  }

  lemma MainFramed(s: State, e: Event)
    requires LockInv(s) && Step(s, e).Some? && !Step(s, e).value.crashed
    requires e.act.Go? && Executed(s, e).None? && !s.conns[e.c].pc.BlockTry? && Framed(s.conns[e.c])
    ensures e.c in Step(s, e).value.conns && Framed(Step(s, e).value.conns[e.c])
  {
    var x := s.conns[e.c];
    if x.pc.ExecCheck? || x.pc.ExecCall? {
      ExecMoves(s, e);
    } else if x.pc.BlockWait? {
      WaitMoves(s, e);
    } else {
      PlainMoves(s, e);
    }
    MovesFramed(x, Step(s, e).value.conns[e.c]);
  }

  lemma StepFramed(s: State, e: Event)
    requires LockInv(s) && AgreeAll(s.dbs) && Step(s, e).Some? && !Step(s, e).value.crashed
    requires !WritesBadHeader(s, e) && Framed(s.conns[e.c])
    ensures e.c in Step(s, e).value.conns && Framed(Step(s, e).value.conns[e.c])
  {
    if e.act.Go? {
      if Executed(s, e).Some? {
        CallFramed(s, e);
      } else if s.conns[e.c].pc.BlockTry? {
        TryStepFramed(s, e);
      } else {
        MainFramed(s, e);
      }
    } else {
      LocalFramed(s, e);
    }
  }

  /** Submitting a request, the select statement, and the helper goroutine. */
  lemma LocalFramed(s: State, e: Event)
    requires Step(s, e).Some? && !Step(s, e).value.crashed && !e.act.Go? && Framed(s.conns[e.c])
    ensures e.c in Step(s, e).value.conns && Framed(Step(s, e).value.conns[e.c])
  {
    if e.act.Submit? {
      DispatchMoves(s.conns[e.c], e.act.req);
    } else {
      WaitingMoves(s, e);
    }
    MovesFramed(s.conns[e.c], Step(s, e).value.conns[e.c]);
  }

  lemma WaitingMoves(s: State, e: Event)
    requires Step(s, e).Some? && !Step(s, e).value.crashed && !e.act.Go? && !e.act.Submit?
    ensures e.c in Step(s, e).value.conns && PlainMove(s.conns[e.c], Step(s, e).value.conns[e.c])
  {
    hide MainStep, Dispatch;
  }

  lemma NotifyFramed(x: Conn)
    ensures Framed(Notify(x)) == Framed(x)
  {
  }

  lemma FramedNext(s: State, e: Event, c: Id)
    requires LockInv(s) && AgreeAll(s.dbs) && Step(s, e).Some? && !Step(s, e).value.crashed
    requires (e.c == c ==> !WritesBadHeader(s, e)) && c in s.conns && Framed(s.conns[c])
    ensures c in Step(s, e).value.conns && Framed(Step(s, e).value.conns[c])
  {
    if e.c == c {
      StepFramed(s, e);
    } else {
      OthersFrame(s, e, c);
      NotifyFramed(s.conns[c]);
    }
  }

  lemma {:induction false} RunIsFramed(ids: set<Id>, es: seq<Event>, j: nat, c: Id)
    requires IsRun(ids, es) && j <= |es| && !At(ids, es, j).crashed && c in At(ids, es, j).conns
    requires forall i :: 0 <= i < j && es[i].c == c ==> !WritesBadHeader(At(ids, es, i), es[i])
    ensures Framed(At(ids, es, j).conns[c])
    decreases j
  {
    if j == 0 {
      RepliesNone();
    } else {
      var k := j - 1;
      AtNext(ids, es, k);
      RunPrefix(ids, es, k);
      RunInv(ids, es[..k]);
      ConnsStay(At(ids, es, k), es[k], c);
      RunIsFramed(ids, es, k, c);
      FramedNext(At(ids, es, k), es[k], c);
    }
  }

  /** Reply framing over whole runs: whatever requests a connection has sent, queued or not, blocked
      or timed out, run or aborted, once it is idle its output is exactly one complete value per
      request with nothing left over, and a client that reads the bytes gets exactly that output if and
      only if no one-line answer has a line break. */
  lemma ReplyFraming(ids: set<Id>, es: seq<Event>, c: Id)
    requires IsRun(ids, es) && !After(ids, es).value.crashed && c in After(ids, es).value.conns
    requires forall i :: 0 <= i < |es| && es[i].c == c ==> !WritesBadHeader(At(ids, es, i), es[i])
    requires After(ids, es).value.conns[c].pc.Idle?
    ensures
      var x := After(ids, es).value.conns[c];
      && AreReplies(x.out, x.handled)
      && ((forall t :: t in x.out ==> Fits(t)) ==>
            ((ScanAll(PrintAll(x.out)) == Some(x.out) <==> forall t :: t in x.out ==> OneLine(t)) &&
             ReadN(x.handled, x.out).Some? && ReadN(x.handled, x.out).value.1 == []))
  {
    assert es[..|es|] == es;
    RunIsFramed(ids, es, |es|, c);
    var x := After(ids, es).value.conns[c];
    if forall t :: t in x.out ==> Fits(t) {
      WireFraming(x.out, x.handled);
    }
  }
}
