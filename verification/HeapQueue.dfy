/** `RediQueue` (rediqueue.go) as an object that is changed in place, with the callbacks that reach
    across databases. The numbered databases share nothing: no two (database, key) pairs ever use one
    backing array or table. */
module HeapQueue {
  import opened Base
  import opened Store
  import opened Resp
  import opened Commands
  import opened CommandLaws
  import opened Machine
  import opened Heap
  import opened Session
  import opened Transactions
  import opened Watching
  import HeapCallbacks

  class RediQueue {
    var dbs: map<int, RedisDB>

    /** Every object reachable from here. */
    ghost var Repr: set<object>

    ghost predicate Valid()
      reads this, Repr
    {
      && this !in Repr
      && (forall i :: i in dbs ==> Holds(dbs[i]))
      && (forall i, j :: i in dbs && j in dbs && i != j ==> dbs[i].Apart(dbs[j]))
    }

    ghost predicate Holds(db: RedisDB)
      reads this, Repr
    {
      db in Repr && db.Owner.Keys <= Repr && db.Valid()
    }

    /** The immutable databases these stand for. */
    ghost function Value(): (v: Dbs)
      requires Valid()
      reads this, Repr
    {
      map i | i in dbs :: dbs[i].Contents
    }

    constructor ()
      ensures Valid() && Value() == map[] && Repr == {}
    {
      dbs := map[];
      Repr := {};
    }

    /** What `Valid` says about one database. */
    lemma DbFacts(i: int)
      requires Valid() && i in dbs
      ensures dbs[i] in Repr && dbs[i].Owner.Keys <= Repr && dbs[i].Valid() && this !in Repr
      ensures i in Value() && Value()[i] == dbs[i].Contents == Get(Value(), i)
    {
    }

    /** `db`: looks a database up, or creates it. */
    method Db(i: int) returns (db: RedisDB)
      requires Valid()
      modifies this
      ensures Valid() && i in dbs && db == dbs[i] && fresh(Repr - old(Repr))
      ensures Value() == old(Value())[i := Get(old(Value()), i)]
      ensures forall j :: j in old(dbs) ==> j in dbs && dbs[j] == old(dbs)[j]
    {
      hide RedisDB.Valid;
      if i in dbs {
        return dbs[i];
      }
      db := new RedisDB();
      dbs := dbs[i := db];
      Repr := Repr + {db};
    }

    /** All is well but for what database `i` has allocated lately. */
    ghost predicate ValidBut(i: int)
      reads this, Repr
    {
      && this !in Repr && i in dbs && dbs[i] in Repr
      && (forall j :: j in dbs && j != i ==> Holds(dbs[j]) && dbs[j].Apart(dbs[i]) && dbs[i].Apart(dbs[j]))
      && (forall j, k :: j in dbs && k in dbs && j != k && j != i && k != i ==> dbs[j].Apart(dbs[k]))
    }

    /** One database has been changed in place, with new arrays and tables only: the others are as
        they were, and still nothing is shared. */
    twostate lemma OthersKept(i: int)
      requires old(Valid()) && i in old(dbs) && unchanged(this)
      requires dbs[i].Valid() && fresh(dbs[i].Owner.Keys - old(dbs[i].Owner.Keys))
      requires forall o :: o in old(Repr) && o != dbs[i] && o !in old(dbs[i].Owner) ==> unchanged(o)
      ensures ValidBut(i)
      ensures forall j :: j in dbs && j != i ==> dbs[j].Contents == old(Value())[j]
    {
      hide RedisDB.Valid;
    }

    /** Takes over what database `i` has allocated since `Valid` last held in `was`. */
    ghost method Absorb(i: int, was: Dbs)
      requires ValidBut(i) && dbs[i].Valid() && this !in dbs[i].Owner
      requires was.Keys == dbs.Keys && forall j :: j in dbs && j != i ==> dbs[j].Contents == was[j]
      modifies this`Repr
      ensures Valid() && Repr == old(Repr) + dbs[i].Owner.Keys
      ensures Value() == was[i := dbs[i].Contents]
    {
      hide RedisDB.Valid;
      Repr := Repr + dbs[i].Owner.Keys;
      assert forall j :: j in dbs ==> Holds(dbs[j]);
      assert Valid();
      var now := was[i := dbs[i].Contents];
      assert Value().Keys == now.Keys;
      forall j | j in dbs
        ensures Value()[j] == now[j]
      {
        assert Value()[j] == dbs[j].Contents;
      }
    }

    /** `flushAll`: every database there is, in any order. */
    method FlushAllCallback() returns (reply: seq<Tok>)
      requires Valid()
      modifies this, Repr
      ensures Valid() && Repr == old(Repr) && Run(old(Value()), 0, FlushAll, []) == Done(Value(), reply)
    {
      hide RediQueue.Valid;
      var todo := dbs.Keys;
      ghost var was := Value();
      ValueKeys();
      while todo != {}
        invariant todo <= dbs.Keys && Valid() && dbs == old(dbs) && Repr == old(Repr)
        invariant Value() == FlushedBut(was, todo)
        decreases todo
      {
        ghost var some := Element(todo);
        var i :| i in todo;
        FlushOne(i);
        FlushedNext(was, todo, i);
        todo := todo - {i};
      }
      assert FlushedBut(was, {}) == map d | d in was :: Flush(was[d]);
      reply := [OK];
    }

    method FlushOne(i: int)
      requires Valid() && i in dbs
      modifies this, Repr
      ensures Valid() && dbs == old(dbs) && Repr == old(Repr)
      ensures i in old(Value()) && Value() == old(Value())[i := Flush(old(Value())[i])]
    {
      hide RediQueue.Valid, RedisDB.Valid, RediQueue.ValidBut;
      DbFacts(i);
      ghost var was := Value();
      dbs[i].FlushDb();
      OthersKept(i);
      Absorb(i, was);
    }

    lemma ValueKeys()
      requires Valid()
      ensures Value().Keys == dbs.Keys
    {
    }

    /** The WATCH loop under the lock. */
    method WatchCallback(ctx: ConnCtx, keys: seq<string>)
      requires Valid() && ctx !in Repr
      modifies this, ctx
      ensures Valid() && ctx.Value() == WatchKeys(old(ctx.Value()), old(Value()), keys)
      ensures Value() == old(Value())[ctx.selectedDB := Get(old(Value()), ctx.selectedDB)]
    {
      hide RediQueue.Valid, RedisDB.Valid;
      ghost var x := ctx.Value();
      ghost var was := Value();
      var db := Db(ctx.selectedDB);
      DbFacts(ctx.selectedDB);
      var i := 0;
      WatchNothing(x, was);
      while i < |keys|
        invariant i <= |keys| && Valid() && ctx !in Repr && Value() == was[x.sel := Get(was, x.sel)]
        invariant ctx.Value() == WatchKeys(x, was, keys[..i])
      {
        UpdateTwice(was, x.sel, Get(was, x.sel), Get(was, x.sel));
        var version := VersionOf(ctx.selectedDB, keys[i]);
        WatchSnoc(x, was, keys[..i], keys[i]);
        assert keys[..i + 1] == keys[..i] + [keys[i]];
        ctx.Watch(ctx.selectedDB, keys[i], version);
        i := i + 1;
      }
      assert keys[..|keys|] == keys;
    }

    /** `m.db(i).keyVersion[key]` */
    method VersionOf(i: int, key: string) returns (version: nat)
      requires Valid()
      modifies this
      ensures Valid() && version == Ver(Get(old(Value()), i), key)
      ensures Value() == old(Value())[i := Get(old(Value()), i)] && fresh(Repr - old(Repr))
      ensures forall j :: Get(Value(), j) == Get(old(Value()), j)
    {
      hide RediQueue.Valid;
      var db := Db(i);
      DbFacts(i);
      version := if key in db.keyVersion then db.keyVersion[key] else 0;
    }

    static lemma WatchNothing(x: Ctx, v: Dbs)
      ensures WatchKeys(x, v, []) == x
    {
      assert WatchKeys(x, v, []).watch == x.watch;
    }

    static lemma WatchAt(x: Ctx, v: Dbs, keys: seq<string>, p: (int, string))
      ensures
        var w := WatchKeys(x, v, keys).watch;
        if p.0 == x.sel && p.1 in keys then p in w && w[p] == Uint(Ver(Get(v, x.sel), p.1))
        else (p in w <==> p in x.watch) && (p in w ==> w[p] == x.watch[p])
    {
    }

    static lemma WatchSnoc(x: Ctx, v: Dbs, keys: seq<string>, k: string)
      ensures WatchKeys(x, v, keys + [k]) ==
        WatchKeys(x, v, keys).(watch := WatchKeys(x, v, keys).watch[(x.sel, k) := Uint(Ver(Get(v, x.sel), k))])
    {
      var a := WatchKeys(x, v, keys + [k]).watch;
      var b := WatchKeys(x, v, keys).watch[(x.sel, k) := Uint(Ver(Get(v, x.sel), k))];
      forall p
        ensures p in a <==> p in b
        ensures p in a ==> a[p] == b[p]
      {
        WatchAt(x, v, keys + [k], p);
        WatchAt(x, v, keys, p);
      }
    }

    /** EXEC's loop over the watched keys, in any order. */
    method WatchedKeysUnchanged(ctx: ConnCtx) returns (ok: bool)
      requires Valid()
      modifies this
      ensures Valid() && ok == WatchHolds(ctx.Value(), old(Value())) && fresh(Repr - old(Repr))
      ensures forall i :: Get(Value(), i) == Get(old(Value()), i)
    {
      hide RediQueue.Valid, Ver, Get;
      var todo := ctx.watch.Keys;
      while todo != {}
        invariant todo <= ctx.watch.Keys && Valid() && fresh(Repr - old(Repr))
        invariant forall i :: Get(Value(), i) == Get(old(Value()), i)
        invariant forall p :: p in ctx.watch && p !in todo ==> Uint(Ver(Get(old(Value()), p.0), p.1)) <= ctx.watch[p]
        decreases todo
      {
        ghost var some := Element(todo);
        var p :| p in todo;
        var version := VersionOf(p.0, p.1);
        assert version == Ver(Get(old(Value()), p.0), p.1);
        if Uint(version) > ctx.watch[p] {
          return false;
        }
        todo := todo - {p};
      }
      ok := true;
    }

    static ghost predicate ExecRuns(x: Ctx, v: Dbs) { InTx(x) && !x.dirty && WatchHolds(x, v) }

    /** A failed check ends the transaction, a dirty one stays open. */
    static ghost function ExecCtx(x: Ctx, v: Dbs): Ctx {
      if InTx(x) && !x.dirty && !WatchHolds(x, v) then Machine.StopTx(x) else x
    }

    static ghost function ExecReply(x: Ctx, v: Dbs): Tok {
      if !InTx(x) then EXEC_ALONE
      else if x.dirty then EXEC_ABORT
      else if !WatchHolds(x, v) then Len(0)
      else Len(|x.tx.value|)
    }

    /** The machine's check decides, answers and ends the transaction in the same way. */
    static lemma CheckLikeMachine(s: State, e: Event)
      requires e.c in s.conns && s.conns[e.c].pc.ExecCheck? && !s.conns[e.c].ctx.dirty && Step(s, e).Some?
      ensures
        var x := s.conns[e.c];
        && e.c in Step(s, e).value.conns
        && var y := Step(s, e).value.conns[e.c];
           (y.pc.ExecCall? <==> ExecRuns(x.ctx, s.dbs)) &&
           y.ctx == ExecCtx(x.ctx, s.dbs) && y.out == x.out + [ExecReply(x.ctx, s.dbs)]
    {
      CheckStep(s, e);
      hide Step, WatchHolds;
    }

    /** EXEC up to its first callback: `go` says that the queue is run. */
    method ExecStart(ctx: ConnCtx, c: Peer) returns (go: bool)
      requires Valid() && ctx !in Repr && c !in Repr
      modifies this, ctx, c
      ensures Valid() && forall i :: Get(Value(), i) == Get(old(Value()), i)
      ensures go == ExecRuns(old(ctx.Value()), old(Value()))
      ensures ctx.Value() == ExecCtx(old(ctx.Value()), old(Value()))
      ensures c.w == old(c.w) + Print(ExecReply(old(ctx.Value()), old(Value())))
      ensures go ==> ctx.Value() == old(ctx.Value())
      ensures !go && old(ctx.transaction).Some? && !old(ctx.dirtyTransaction) ==>
        ctx.transaction == None && ctx.watch == map[]
    {
      hide RediQueue.Valid, Print, Get;
      if ctx.transaction.None? {
        c.WriteError(EXEC_ALONE.e);
        return false;
      }
      if ctx.dirtyTransaction {
        c.WriteError(EXEC_ABORT.e);
        return false;
      }
      go := WatchedKeysUnchanged(ctx);
      var length := if go then |ctx.transaction.value| else 0;
      if !go {
        ctx.StopTx();
      }
      c.WriteLen(length);
    }

    /** MOVE: the array or table changes its database, and nothing is shared afterwards. */
    method MoveCallback(sel: int, key: string, target: Int64) returns (reply: seq<Tok>)
      requires Valid() && Agree(Get(Value(), sel)) && Agree(Get(Value(), target))
      modifies this, Repr
      ensures Valid() && fresh(Repr - old(Repr))
      ensures Run(old(Value()), sel, MoveTo(key, target), []) == Done(Value(), reply)
    {
      hide RediQueue.Valid, Move, Agree;
      if sel == target {
        return [SAME_DB];
      }
      var ok := MoveBetween(sel, key, target);
      reply := [Number(if ok then 1 else 0)];
    }

    method MoveBetween(sel: int, key: string, target: Int64) returns (ok: bool)
      requires Valid() && Agree(Get(Value(), sel)) && Agree(Get(Value(), target)) && sel != target
      modifies this, Repr
      ensures Valid() && fresh(Repr - old(Repr)) && Value() == Moved(old(Value()), sel, key, target)
      ensures ok == Move(Get(old(Value()), sel), Get(old(Value()), target), key).Some?
    {
      hide RediQueue.Valid, RedisDB.Valid, Move, Agree;
      ghost var v := Value();
      var db := Db(sel);
      var to := Db(target);
      DbFacts(sel);
      DbFacts(target);
      Different(sel, target);
      label Before:
      ghost var was := Value();
      ok := db.MoveKey(key, to);
      PairKept@Before((sel, target));
      UpdatePair(v, sel, target, Get(v, sel), Get(v, target), db.Contents, to.Contents);
    }

    static ghost function Moved(v: Dbs, sel: int, key: string, target: int): Dbs {
      match Move(Get(v, sel), Get(v, target), key)
      case None => v[sel := Get(v, sel)][target := Get(v, target)]
      case Some((a, b)) => v[sel := a][target := b]
    }

    static lemma UpdatePair(v: Dbs, i: int, j: int, a: DB, b: DB, c: DB, d: DB)
      requires i != j
      ensures v[i := a][j := b][i := c][j := d] == v[i := c][j := d]
    {
    }

    /** A list callback on the selected database, down to the cells of the arrays. */
    method ListCallback(sel: int, c: ListCmd) returns (reply: seq<Tok>)
      requires Valid() && Agree(Get(Value(), sel))
      modifies this, Repr
      ensures Valid() && fresh(Repr - old(Repr))
      ensures Run(old(Value()), sel, L(c), []) == Done(Value(), reply)
    {
      hide RediQueue.Valid, RedisDB.Valid, RediQueue.ValidBut, RunList, Agree;
      ghost var v := Value();
      var db := Db(sel);
      DbFacts(sel);
      label Before:
      ghost var was := Value();
      reply := HeapCallbacks.RunListCallback(db, c);
      OthersKept@Before(sel);
      Absorb(sel, was);
      UpdateTwice(v, sel, Get(v, sel), db.Contents);
    }

    method SetCallback(sel: int, c: SetCmd) returns (crashed: bool, reply: seq<Tok>, choice: seq<string>)
      requires Valid() && Agree(Get(Value(), sel))
      modifies this, Repr
      ensures Valid() && fresh(Repr - old(Repr)) && ValidChoice(old(Value()), sel, S(c), choice)
      ensures Run(old(Value()), sel, S(c), choice) == if crashed then Panic else Done(Value(), reply)
    {
      hide RediQueue.Valid, RedisDB.Valid, RediQueue.ValidBut, RunSet, ValidSetChoice, Agree;
      ghost var v := Value();
      var db := Db(sel);
      DbFacts(sel);
      label Before:
      ghost var was := Value();
      crashed, reply, choice := HeapCallbacks.RunSetCallback(db, c);
      OthersKept@Before(sel);
      Absorb(sel, was);
      UpdateTwice(v, sel, Get(v, sel), db.Contents);
    }

    method KeyCallback(sel: int, c: KeyCmd) returns (crashed: bool, reply: seq<Tok>, choice: seq<string>)
      requires Valid() && Agree(Get(Value(), sel))
      modifies this, Repr
      ensures Valid() && fresh(Repr - old(Repr)) && ValidChoice(old(Value()), sel, K(c), choice)
      ensures Run(old(Value()), sel, K(c), choice) == if crashed then Panic else Done(Value(), reply)
    {
      hide RediQueue.Valid, RedisDB.Valid, RediQueue.ValidBut, RunKey, ValidKeyChoice, Agree;
      ghost var v := Value();
      var db := Db(sel);
      DbFacts(sel);
      label Before:
      ghost var was := Value();
      crashed, reply, choice := HeapCallbacks.RunKeyCallback(db, c);
      OthersKept@Before(sel);
      Absorb(sel, was);
      UpdateTwice(v, sel, Get(v, sel), db.Contents);
    }

    /** One call of a blocking callback; inside EXEC a failed one answers null. */
    method TryCallback(sel: int, b: BlockCmd) returns (done: bool, reply: seq<Tok>)
      requires Valid() && Agree(Get(Value(), sel))
      modifies this, Repr
      ensures Valid() && fresh(Repr - old(Repr))
      ensures Run(old(Value()), sel, Try(b), []) == Done(Value(), if done then reply else [Null])
      ensures done <==> RunTry(Get(old(Value()), sel), b).Some?
    {
      hide RediQueue.Valid, RedisDB.Valid, RediQueue.ValidBut, RunTry, Agree;
      ghost var v := Value();
      var db := Db(sel);
      DbFacts(sel);
      label Before:
      ghost var was := Value();
      done, reply := HeapCallbacks.RunTryCallback(db, b);
      OthersKept@Before(sel);
      Absorb(sel, was);
      UpdateTwice(v, sel, Get(v, sel), db.Contents);
    }

    /** Any callback, in any state: what it does to the objects is what `Run` says, for random outcomes
        that can happen, and afterwards still nothing is shared. */
    method Callback(sel: int, cmd: Cmd) returns (crashed: bool, reply: seq<Tok>, choice: seq<string>)
      requires Valid() && AgreeAll(Value())
      modifies this, Repr
      ensures Valid() && fresh(Repr - old(Repr)) && ValidChoice(old(Value()), sel, cmd, choice)
      ensures Run(old(Value()), sel, cmd, choice) == if crashed then Panic else Done(Value(), reply)
      ensures !crashed ==> AgreeAll(Value())
    {
      hide RediQueue.Valid, RunList, RunSet, RunKey, RunTry, Agree, Move;
      ghost var v := Value();
      crashed, choice := false, [];
      EmptyAgrees(v, sel);
      match cmd {
        case L(c) => reply := ListCallback(sel, c);
        case S(c) => crashed, reply, choice := SetCallback(sel, c);
        case K(c) => crashed, reply, choice := KeyCallback(sel, c);
        case Try(b) =>
          var done;
          done, reply := TryCallback(sel, b);
          reply := if done then reply else [Null];
        case MoveTo(k, target) =>
          EmptyAgrees(v, target);
          reply := MoveCallback(sel, k, target);
        case FlushAll => reply := FlushAllCallback();
      }
      RunLawful(v, sel, cmd, choice);
    }

    /** EXEC's loop over the queue, on the heap: the callbacks run one after the other; `choices` are
        the random outcomes they met. */
    method ExecQueue(ctx: ConnCtx, c: Peer) returns (crashed: bool, ghost choices: seq<seq<string>>)
      requires Valid() && AgreeAll(Value()) && ctx.transaction.Some? && ctx !in Repr && c !in Repr
      modifies this, Repr, ctx, c
      ensures Valid() && fresh(Repr - old(Repr)) && |choices| <= |old(ctx.transaction.value)|
      ensures ValidAll(old(Value()), ctx.selectedDB, old(ctx.transaction.value)[..|choices|], choices)
      ensures crashed ==>
        (|choices| > 0 &&
         RunAll(old(Value()), ctx.selectedDB, old(ctx.transaction.value)[..|choices|], choices) == Panic)
      ensures !crashed ==>
        (|choices| == |old(ctx.transaction.value)| && exists replies ::
           (RunAll(old(Value()), ctx.selectedDB, old(ctx.transaction.value), choices) == Done(Value(), replies) &&
            c.w == old(c.w) + PrintAll(replies)))
      ensures ctx.Value() == old(ctx.Value()).(dirty := ctx.dirtyTransaction)
      ensures !crashed ==> (ctx.dirtyTransaction <==>
        old(ctx.dirtyTransaction) || exists cmd :: cmd in ctx.transaction.value && SetsDirty(cmd))
    {
      hide RediQueue.Valid, Run, RunAll, ValidAll, ValidChoice, Print, PrintAll, AgreeAll;
      var queue, sel := ctx.transaction.value, ctx.selectedDB;
      ghost var v, replies := Value(), [];
      choices := [];
      crashed := false;
      NoneYet(v, sel, queue);
      var i := 0;
      while i < |queue|
        invariant i <= |queue| && Valid() && AgreeAll(Value()) && fresh(Repr - old(Repr))
        invariant ctx !in Repr && c !in Repr && |choices| == i && c.w == old(c.w) + PrintAll(replies)
        invariant ctx.Value() == old(ctx.Value()).(dirty := ctx.dirtyTransaction)
        invariant ctx.dirtyTransaction <==>
          old(ctx.dirtyTransaction) || exists j :: 0 <= j < i && SetsDirty(queue[j])
        invariant RunAll(v, sel, queue[..i], choices) == Done(Value(), replies)
        invariant ValidAll(v, sel, queue[..i], choices)
      {
        ghost var mid := Value();
        var reply, choice;
        crashed, reply, choice := Callback(sel, queue[i]);
        OneMore(v, sel, queue, choices, choice, mid, replies);
        choices := choices + [choice];
        if crashed {
          return;
        }
        if SetsDirty(queue[i]) {
          ctx.SetDirty();
        }
        PrintAppend(replies, reply);
        c.w := c.w + PrintAll(reply);
        replies := replies + reply;
        i := i + 1;
      }
      assert queue[..i] == queue;
    }

    static lemma NoneYet(v: Dbs, sel: int, queue: seq<Cmd>)
      ensures RunAll(v, sel, queue[..0], []) == Done(v, []) && ValidAll(v, sel, queue[..0], [])
      ensures PrintAll([]) == ""
    {
    }

    static lemma OneMore(v: Dbs, sel: int, queue: seq<Cmd>, choices: seq<seq<string>>, choice: seq<string>,
                         mid: Dbs, replies: seq<Tok>)
      requires |choices| < |queue| && RunAll(v, sel, queue[..|choices|], choices) == Done(mid, replies)
      requires ValidAll(v, sel, queue[..|choices|], choices) && ValidChoice(mid, sel, queue[|choices|], choice)
      ensures ValidAll(v, sel, queue[..|choices| + 1], choices + [choice])
      ensures RunAll(v, sel, queue[..|choices| + 1], choices + [choice]) ==
        match Run(mid, sel, queue[|choices|], choice)
        case Panic => Panic
        case Done(end, reply) => Done(end, replies + reply)
    {
      var n := |choices|;
      assert queue[..n + 1][..n] == queue[..n] && queue[..n + 1][..n + 1] == queue[..n + 1];
      assert (choices + [choice])[..n] == choices && (choices + [choice])[..n + 1] == choices + [choice];
      RunAllNext(v, sel, queue[..n + 1], choices + [choice], n);
    }

    lemma Different(i: int, j: int)
      requires Valid() && i in dbs && j in dbs && i != j
      ensures dbs[i].Apart(dbs[j])
    {
    }

    /** Two databases have exchanged arrays and tables: the others are as they were, and still nothing
        is shared. */
    twostate lemma PairKept(pair: (int, int))
      requires old(Valid()) && unchanged(this)
      requires pair.0 in old(dbs) && pair.1 in old(dbs) && pair.0 != pair.1
      requires dbs[pair.0].Valid() && dbs[pair.1].Valid() && dbs[pair.0].Apart(dbs[pair.1])
      requires dbs[pair.0].Owner.Keys + dbs[pair.1].Owner.Keys
        == old(dbs[pair.0].Owner.Keys + dbs[pair.1].Owner.Keys)
      requires unchanged(old(Repr) - {dbs[pair.0], dbs[pair.1]} - old(dbs[pair.0].Owner.Keys + dbs[pair.1].Owner.Keys))
      ensures Valid()
      ensures Value() == old(Value())[pair.0 := dbs[pair.0].Contents][pair.1 := dbs[pair.1].Contents]
    {
      hide RedisDB.Valid;
      forall k | k in dbs && k != pair.0 && k != pair.1
        ensures Holds(dbs[k]) && dbs[k].Contents == old(dbs[k].Contents) && dbs[k].Owner == old(dbs[k].Owner)
      {
        assert old(dbs[k].Apart(dbs[pair.0])) && old(dbs[k].Apart(dbs[pair.1]));
        assert old(Holds(dbs[k]));
        assert unchanged(dbs[k]);
        assert unchanged(dbs[k].Owner.Keys);
      }
      forall k | k in dbs && (k == pair.0 || k == pair.1)
        ensures Holds(dbs[k])
      {
        assert old(Holds(dbs[k]));
      }
    }

    static lemma UpdateTwice(v: Dbs, i: int, a: DB, b: DB)
      ensures v[i := a][i := b] == v[i := b]
    {
    }

    static lemma FlushedNext(v: Dbs, todo: set<int>, i: int)
      requires i in v && i in todo
      ensures FlushedBut(v, todo)[i] == v[i]
      ensures FlushedBut(v, todo)[i := Flush(v[i])] == FlushedBut(v, todo - {i})
    {
    }

    static ghost function FlushedBut(dbs: Dbs, todo: set<int>): Dbs {
      map i | i in dbs :: if i in todo then dbs[i] else Flush(dbs[i])
    }
  }
}
