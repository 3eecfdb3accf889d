/** A list key used as a queue: what LPUSH puts in comes out of RPOP and BRPOP in the same order. */
module Fifo {
  import opened Base
  import opened Store
  import opened Resp
  import opened Commands
  import opened CommandLaws
  import opened Machine
  import opened LockSafety
  import opened Watching
  import Ledger

  /** A command that uses `k` of the selected database only as the queue's two ends do. */
  predicate QueueCmd(c: Cmd, k: string) {
    match c
    case L(l) => (l.Push? && l.side.Left? && l.key == k) || (l.Pop? && l.side.Right? && l.key == k)
    case Try(b) => b.BPop? && b.side.Right?
    case _ => false
  }

  /** The event leaves (d, k) to the queue operations. */
  predicate Disciplined(s: State, e: Event, d: int, k: string) {
    && !FlushesDb(s, e, d)
    && (Executed(s, e).Some? ==>
          var sel := s.conns[e.c].ctx.sel;
          var c := Executed(s, e).value;
          (d, k) in Writes(sel, c) ==> sel == d && QueueCmd(c, k))
    && (e.c in s.conns && e.act.Go? && s.conns[e.c].pc.BlockTry? ==>
          var x := s.conns[e.c];
          x.ctx.sel == d && k in TryWrites(x.pc.block) ==> QueueCmd(Try(x.pc.block), k))
  }

  /** The elements an event pushes to (d, k), in order. */
  function PushedTo(s: State, e: Event, d: int, k: string): (r: seq<string>) {
    if Executed(s, e).Some? && s.conns[e.c].ctx.sel == d && Executed(s, e).value.L? &&
       Executed(s, e).value.list.Push? && Executed(s, e).value.list.key == k
    then Executed(s, e).value.list.values else []
  }

  /** The element that a reply hands over from key `k`. */
  function FromReply(c: Cmd, reply: seq<Tok>, k: string): (r: seq<string>) {
    match c
    case L(l) => if l.Pop? && l.key == k then Ledger.ListTaken(l, reply) else []
    case Try(b) => if b.BPop? && |reply| == 3 && reply[1] == Bulk(k) then Ledger.TryTaken(b, reply) else []
    case _ => []
  }

  /** The elements an event delivers to a client from (d, k). */
  function DeliveredFrom(s: State, e: Event, d: int, k: string): (r: seq<string>) {
    if e.c !in s.conns || s.conns[e.c].ctx.sel != d then []
    else if Executed(s, e).Some? then
      var o := Run(s.dbs, d, Executed(s, e).value, e.act.choice);
      if o.Done? then FromReply(Executed(s, e).value, o.reply, k) else []
    else if e.act.Go? && s.conns[e.c].pc.BlockTry? then
      var o := RunTry(Get(s.dbs, d), s.conns[e.c].pc.block);
      if o.Some? && o.value.Done? then FromReply(Try(s.conns[e.c].pc.block), o.value.reply, k) else []
    else []
  }

  function AllPushed(ids: set<Id>, es: seq<Event>, d: int, k: string): (r: seq<string>)
    requires IsRun(ids, es)
    decreases |es|
  {
    if es == [] then []
    else AllPushed(ids, es[..|es| - 1], d, k) + PushedTo(After(ids, es[..|es| - 1]).value, es[|es| - 1], d, k)
  }

  function AllDelivered(ids: set<Id>, es: seq<Event>, d: int, k: string): (r: seq<string>)
    requires IsRun(ids, es)
    decreases |es|
  {
    if es == [] then []
    else AllDelivered(ids, es[..|es| - 1], d, k) + DeliveredFrom(After(ids, es[..|es| - 1]).value, es[|es| - 1], d, k)
  }

  /** The queue, oldest element first. */
  function Queue(dbs: Dbs, d: int, k: string): (r: seq<string>) { Reverse(ListAt(Get(dbs, d), k)) }

  // ---------- The queue operations ----------

  lemma {:induction false} PushAllQueue(db: DB, k: string, values: seq<string>)
    ensures Reverse(ListAt(PushAll(db, k, values, Left), k)) == Reverse(ListAt(db, k)) + values
    decreases |values|
  {
    if values != [] {
      var l := ListAt(db, k);
      PushAllQueue(ListLpush(db, k, values[0]), k, values[1..]);
      ReverseAppend([values[0]], l);
      assert Reverse([values[0]]) == [values[0]];
      assert Reverse(l) + [values[0]] + values[1..] == Reverse(l) + values;
    }
  }

  /** A right pop takes the oldest element. */
  lemma PopQueue(db: DB, k: string)
    requires Agree(db) && k in db.lists
    ensures Reverse(ListAt(db, k)) == [PopValue(ListAt(db, k), Right)] + Reverse(ListAt(PopOne(db, k, Right), k))
  {
    var l := ListAt(db, k);
    var n := |l| - 1;
    ReverseAppend(l[..n], [l[n]]);
    assert l == l[..n] + [l[n]];
    assert Reverse([l[n]]) == [l[n]];
    assert ListAt(PopOne(db, k, Right), k) == l[..n];
  }

  lemma PopElsewhere(db: DB, k: string, j: string, side: Side)
    requires Agree(db) && j in db.lists && j != k
    ensures ListAt(PopOne(db, j, side), k) == ListAt(db, k) && (k in PopOne(db, j, side).sets <==> k in db.sets)
  {
  }

  /** One BRPOP callback, finished: the queue loses its oldest element exactly if the reply names it. */
  lemma TryPopQueue(db: DB, b: BlockCmd, k: string)
    requires Agree(db) && b.BPop? && b.side.Right? && RunTry(db, b).Some?
    ensures
      var o := RunTry(db, b).value;
      o.Done? && (k in o.state.sets <==> k in db.sets) &&
      Reverse(ListAt(db, k)) == FromReply(Try(b), o.reply, k) + Reverse(ListAt(o.state, k))
  {
    TryPopDone(db, b.keys, Right);
    var o := TryPop(db, b.keys, Right).value;
    if o != Done(db, [WRONG_TYPE]) {
      var j :| j in b.keys && j in db.lists &&
        o == Done(PopOne(db, j, Right), [Len(2), Bulk(j), Bulk(PopValue(ListAt(db, j), Right))]);
      if j == k {
        PopQueue(db, k);
        assert k !in db.sets && k !in o.state.sets;
      } else {
        PopElsewhere(db, k, j, Right);
      }
    }
  }

  /** What a callback does to the queue. */
  ghost predicate QueueMove(a: Dbs, b: Dbs, d: int, k: string, delivered: seq<string>, pushed: seq<string>) {
    Queue(a, d, k) + pushed == delivered + Queue(b, d, k) && k !in Get(b, d).sets
  }

  lemma TryNotListed(db: DB, b: BlockCmd, k: string)
    requires Agree(db) && RunTry(db, b).Some? && RunTry(db, b).value.Done? && k !in TryWrites(b)
    ensures FromReply(Try(b), RunTry(db, b).value.reply, k) == []
  {
    if b.BPop? {
      TryPopDone(db, b.keys, b.side);
    }
  }

  /** A callback that does not name the key delivers nothing from it. */
  lemma NothingDelivered(dbs: Dbs, d: int, c: Cmd, choice: seq<string>, k: string)
    requires AgreeAll(dbs) && (d, k) !in Writes(d, c) && Run(dbs, d, c, choice).Done?
    ensures FromReply(c, Run(dbs, d, c, choice).reply, k) == []
  {
    EmptyAgrees(dbs, d);
    match c {
      case L(l) =>
        if l.Pop? {
          assert l.key in ListWrites(l);
        }
      case Try(b) =>
        if RunTry(Get(dbs, d), b).Some? {
          TryLawful(Get(dbs, d), b);
          TryNotListed(Get(dbs, d), b, k);
        }
      case _ =>
    }
  }

  lemma RunQueue(dbs: Dbs, sel: int, c: Cmd, choice: seq<string>, d: int, k: string)
    requires AgreeAll(dbs) && ValidChoice(dbs, sel, c, choice) && Run(dbs, sel, c, choice).Done?
    requires k !in Get(dbs, d).sets && c != FlushAll && !(c == K(FlushDb) && sel == d)
    requires (d, k) in Writes(sel, c) ==> sel == d && QueueCmd(c, k)
    ensures
      var o := Run(dbs, sel, c, choice);
      QueueMove(dbs, o.state, d, k,
        if sel == d then FromReply(c, o.reply, k) else [],
        if sel == d && c.L? && c.list.Push? && c.list.key == k then c.list.values else [])
  {
    hide Agree, AgreeAll, ValidChoice;
    var o := Run(dbs, sel, c, choice);
    var db := Get(dbs, d);
    if c == K(FlushDb) {
      FlushVersions(dbs, sel, c, choice, d, k);
    } else if (d, k) !in Writes(sel, c) {
      hide Run, FromReply;
      RunLawful(dbs, sel, c, choice);
      assert EvolvesAt(db, Get(o.state, d), k);
      if sel == d {
        NothingDelivered(dbs, d, c, choice, k);
        assert c.L? && c.list.Push? ==> c.list.key in ListWrites(c.list);
      }
    } else {
      hide Run, FromReply;
      QueueCmdMoves(dbs, c, choice, d, k);
    }
  }

  lemma QueueCmdMoves(dbs: Dbs, c: Cmd, choice: seq<string>, d: int, k: string)
    requires AgreeAll(dbs) && Run(dbs, d, c, choice).Done? && k !in Get(dbs, d).sets && QueueCmd(c, k)
    ensures
      var o := Run(dbs, d, c, choice);
      QueueMove(dbs, o.state, d, k, FromReply(c, o.reply, k),
        if c.L? && c.list.Push? && c.list.key == k then c.list.values else [])
  {
    EmptyAgrees(dbs, d);
    if c.Try? {
      if RunTry(Get(dbs, d), c.block).Some? {
        TryPopQueue(Get(dbs, d), c.block, k);
      }
    } else {
      EndMoves(Get(dbs, d), c.list, k);
    }
  }

  /** LPUSH at one end, RPOP at the other. */
  lemma EndMoves(db: DB, l: ListCmd, k: string)
    requires Agree(db) && k !in db.sets && QueueCmd(L(l), k)
    ensures
      var o := RunList(db, l);
      o.Done? && k !in o.state.sets &&
      Reverse(ListAt(db, k)) + (if l.Push? then l.values else []) ==
        FromReply(L(l), o.reply, k) + Reverse(ListAt(o.state, k))
  {
    if l.Push? {
      PushAllQueue(db, k, l.values);
      PushAllNoSet(db, k, l.values);
    } else if IsList(db, k) {
      PopQueue(db, k);
    }
  }

  lemma {:induction false} PushAllNoSet(db: DB, k: string, values: seq<string>)
    ensures PushAll(db, k, values, Left).sets == db.sets
    decreases |values|
  {
    if values != [] {
      PushAllNoSet(ListLpush(db, k, values[0]), k, values[1..]);
    }
  }

  lemma StepQueue(s: State, e: Event, d: int, k: string)
    requires LockInv(s) && AgreeAll(s.dbs) && Step(s, e).Some? && !Step(s, e).value.crashed
    requires Disciplined(s, e, d, k) && k !in Get(s.dbs, d).sets
    ensures QueueMove(s.dbs, Step(s, e).value.dbs, d, k, DeliveredFrom(s, e, d, k), PushedTo(s, e, d, k))
  {
    var x := s.conns[e.c];
    if Executed(s, e).Some? {
      ExecutedValid(s, e);
      RunQueue(s.dbs, x.ctx.sel, Executed(s, e).value, e.act.choice, d, k);
    } else if e.act.Go? && x.pc.BlockTry? {
      TryStepQueue(s, e, d, k);
    } else {
      OtherStepKeepsDbs(s, e);
    }
  }

  lemma TryStepQueue(s: State, e: Event, d: int, k: string)
    requires LockInv(s) && AgreeAll(s.dbs) && Step(s, e).Some? && !Step(s, e).value.crashed
    requires e.c in s.conns && e.act.Go? && s.conns[e.c].pc.BlockTry?
    requires Disciplined(s, e, d, k) && k !in Get(s.dbs, d).sets
    ensures QueueMove(s.dbs, Step(s, e).value.dbs, d, k, DeliveredFrom(s, e, d, k), PushedTo(s, e, d, k))
  {
    hide Step, LockInv, RunTry, TryWrites, Agree, FromReply;
    TryStep(s, e);
    var x := s.conns[e.c];
    var db := Get(s.dbs, x.ctx.sel);
    EmptyAgrees(s.dbs, x.ctx.sel);
    if RunTry(db, x.pc.block).Some? && x.ctx.sel == d {
      if k in TryWrites(x.pc.block) {
        TryPopQueue(db, x.pc.block, k);
      } else {
        TryLawful(db, x.pc.block);
        TryNotListed(db, x.pc.block, k);
        assert EvolvesAt(db, RunTry(db, x.pc.block).value.state, k);
      }
    }
  }

  /** First in, first out, over every run and across every deletion and re-creation of the key: if
      (d, k) is touched only by LPUSH and by RPOP and BRPOP, from any connections, inside or outside
      MULTI, then what has been delivered, followed by what is still queued, is what was pushed, in
      order. */
  lemma {:induction false} FirstInFirstOut(ids: set<Id>, es: seq<Event>, j: nat, d: int, k: string)
    requires IsRun(ids, es) && j <= |es| && !At(ids, es, j).crashed
    requires forall i :: 0 <= i < j ==> Disciplined(At(ids, es, i), es[i], d, k)
    ensures IsRun(ids, es[..j])
    ensures AllDelivered(ids, es[..j], d, k) + Queue(At(ids, es, j).dbs, d, k) == AllPushed(ids, es[..j], d, k)
    ensures k !in Get(At(ids, es, j).dbs, d).sets
    decreases j
  {
    RunPrefix(ids, es, j);
    if j == 0 {
      assert es[..0] == [];
    } else {
      var t := j - 1;
      AtNext(ids, es, t);
      RunPrefix(ids, es, t);
      RunInv(ids, es[..t]);
      FirstInFirstOut(ids, es, t, d, k);
      StepQueue(At(ids, es, t), es[t], d, k);
      assert es[..j][..|es[..j]| - 1] == es[..t] && es[..j][|es[..j]| - 1] == es[t];
      FifoAppend(AllDelivered(ids, es[..t], d, k), Queue(At(ids, es, t).dbs, d, k), AllPushed(ids, es[..t], d, k),
        DeliveredFrom(At(ids, es, t), es[t], d, k), Queue(At(ids, es, j).dbs, d, k),
        PushedTo(At(ids, es, t), es[t], d, k));
    }
  }

  lemma FifoAppend(delivered: seq<string>, queue: seq<string>, pushed: seq<string>,
                   more: seq<string>, queue': seq<string>, extra: seq<string>)
    requires delivered + queue == pushed && queue + extra == more + queue'
    ensures (delivered + more) + queue' == pushed + extra
  {
    assert (delivered + more) + queue' == delivered + (more + queue');
    assert delivered + (queue + extra) == (delivered + queue) + extra;
  }
}
