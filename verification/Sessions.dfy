/** The state of a connection in every run, from the requests it has sent and nothing else: the open
    transaction with its queue, the selected database, the watched keys, and the request being served. */
module Sessions {
  import opened Base
  import opened Commands
  import opened History
  import opened LockSafety
  import opened Machine

  /** The context is what the requests say, but for the mark of a spoilt transaction. */
  ghost predicate Reflects(x: Ctx, rs: seq<Request>) {
    && x.sel == SelectedDb(rs) && x.tx == Pending(rs)
    && forall p :: p in x.watch <==> Watched(rs, p)
  }

  ghost predicate Settled(x: Ctx, rs: seq<Request>) {
    Reflects(x, rs) && (InTransaction(rs) ==> (x.dirty <==> Doomed(rs)))
  }

  /** EXEC of a transaction that is not spoilt. */
  predicate Executes(before: seq<Request>, r: Request) { r.Exec? && InTransaction(before) && !Doomed(before) }

  /** The connection is serving request `r`, sent after the requests `before`. */
  ghost predicate Serves(x: Conn, before: seq<Request>, r: Request) {
    match x.pc
    case Idle => false
    case TxLock(cmd) => Direct(before, r, cmd) && Settled(x.ctx, before + [r])
    case TxCall(cmd) => Direct(before, r, cmd) && Settled(x.ctx, before + [r])
    case TxBroadcast => (r.Command? || r.Unwatch?) && !InTransaction(before) && Settled(x.ctx, before + [r])
    case ExecLock => Executes(before, r) && Settled(x.ctx, before)
    case ExecCheck => Executes(before, r) && Settled(x.ctx, before)
    case ExecCall(_) => Executes(before, r) && Reflects(x.ctx, before)
    case ExecStop => Executes(before, r) && Reflects(x.ctx, before)
    case WatchLock(keys) => r == Request.Watch(keys) && !InTransaction(before) && Settled(x.ctx, before)
    case WatchRecord(keys) => r == Request.Watch(keys) && !InTransaction(before) && Settled(x.ctx, before)
    case SelectLock(id) => r == Select(id) && Settled(x.ctx, before)
    case SelectSet(id) => r == Select(id) && Settled(x.ctx, before)
    case BlockLock(b, timed) => r == Block(b, timed) && !InTransaction(before) && Settled(x.ctx, before + [r])
    case BlockTry(b, timed) => r == Block(b, timed) && !InTransaction(before) && Settled(x.ctx, before + [r])
    case BlockWait(b, timed, _, _) => r == Block(b, timed) && !InTransaction(before) && Settled(x.ctx, before + [r])
    case Unlocking => Settled(x.ctx, before + [r])
  }

  /** `cmd` is what the request runs at once. */
  predicate Direct(before: seq<Request>, r: Request, cmd: Cmd) {
    !InTransaction(before) && (r == Command(cmd) || (r == Unwatch && cmd == K(Ok)))
  }

  ghost predicate Follows(x: Conn, rs: seq<Request>) {
    if x.pc.Idle? then x.handled == |rs| && Settled(x.ctx, rs)
    else rs != [] && x.handled == |rs| - 1 && Serves(x, rs[..|rs| - 1], rs[|rs| - 1])
  }

  lemma FollowsServing(x: Conn, before: seq<Request>, r: Request)
    requires !x.pc.Idle?
    ensures Follows(x, before + [r]) <==> x.handled == |before| && Serves(x, before, r)
  {
    assert (before + [r])[..|before + [r]| - 1] == before;
  }

  // ---------- What the requests say after one more ----------

  lemma AfterRequest(rs: seq<Request>, r: Request)
    ensures SelectedDb(rs + [r]) == if r.Select? then r.id else SelectedDb(rs)
    ensures Pending(rs + [r]) ==
      if InTransaction(rs) then
        if r.Discard? || (r.Exec? && !Doomed(rs)) then None else Some(Pending(rs).value + Queued(r))
      else if r.Multi? then Some([]) else None
    ensures InTransaction(rs + [r]) == Pending(rs + [r]).Some?
    ensures Doomed(rs + [r]) <==>
      InTransaction(rs + [r]) && InTransaction(rs) && (Doomed(rs) || (r.Rejected? && r.dirties))
    ensures forall p :: Watched(rs + [r], p) <==>
      (r.Watch? && !InTransaction(rs) && p.0 == SelectedDb(rs) && p.1 in r.keys) ||
      (Watched(rs, p) && !r.Unwatch? && !(InTransaction(rs) && (r.Discard? || (r.Exec? && !Doomed(rs)))))
  {
    SelectedNext(rs, r);
    PendingNext(rs, r);
    DoomedNext(rs, r);
    hide SelectedDb, InTransaction, Doomed, Watched, Queued;
    forall p
      ensures Watched(rs + [r], p) <==>
        (r.Watch? && !InTransaction(rs) && p.0 == SelectedDb(rs) && p.1 in r.keys) ||
        (Watched(rs, p) && !r.Unwatch? && !(InTransaction(rs) && (r.Discard? || (r.Exec? && !Doomed(rs)))))
    {
      WatchedNext(rs, r, p);
    }
    assert InTransaction(rs + [r]) == Pending(rs + [r]).Some? by { OpenIsPending(rs + [r]); }
  }

  lemma OpenIsPending(rs: seq<Request>)
    ensures InTransaction(rs) == Pending(rs).Some?
  {
  }

  /** A transaction has ended. */
  lemma AfterEnd(x: Ctx, before: seq<Request>, r: Request)
    requires Reflects(x, before) && InTransaction(before) && (r.Discard? || (r.Exec? && !Doomed(before)))
    ensures Settled(StopTx(x), before + [r])
  {
    hide SelectedDb, Pending, InTransaction, Doomed, Watched;
    AfterRequest(before, r);
  }

  lemma AfterWatch(x: Ctx, dbs: Dbs, before: seq<Request>, keys: seq<string>)
    requires Settled(x, before) && !InTransaction(before)
    ensures Settled(WatchKeys(x, dbs, keys), before + [Request.Watch(keys)])
  {
    hide SelectedDb, Pending, InTransaction, Doomed, Watched;
    AfterRequest(before, Request.Watch(keys));
    OpenIsPending(before);
  }

  lemma AfterSelect(x: Ctx, before: seq<Request>, id: Int64)
    requires Settled(x, before)
    ensures Settled(x.(sel := id), before + [Select(id)])
  {
    hide SelectedDb, Pending, InTransaction, Doomed, Watched;
    AfterRequest(before, Select(id));
    OpenIsPending(before);
    NothingQueued(Pending(before));
  }

  lemma NothingQueued(q: Option<seq<Cmd>>)
    ensures q.Some? ==> q.value + [] == q.value
  {
  }

  /** A request that is answered on the spot or starts waiting for the lock. */
  lemma DispatchFollows(x: Conn, rs: seq<Request>, r: Request)
    requires x.pc.Idle? && Follows(x, rs)
    ensures Follows(Dispatch(x, r), rs + [r])
  {
    var y := Dispatch(x, r);
    AfterRequest(rs, r);
    OpenIsPending(rs);
    NothingQueued(Pending(rs));
    hide SelectedDb, Pending, InTransaction, Doomed, Watched;
    if y.pc.Idle? {
      assert Settled(y.ctx, rs + [r]);
    } else {
      FollowsServing(y, rs, r);
    }
  }

  // ---------- The steps of the two goroutines ----------

  /** Where a step of the main goroutine leaves the connection. */
  ghost predicate Goes(x: Conn, y: Conn, before: seq<Request>, r: Request) {
    if y.pc.Idle? then y.handled == x.handled + 1 && Settled(y.ctx, before + [r])
    else y.handled == x.handled && Serves(y, before, r)
  }

  lemma CallbackGoes(s: State, c: Id, choice: seq<string>, before: seq<Request>, r: Request)
    requires c in s.conns && Serves(s.conns[c], before, r) && ConnInv(s.conns[c]) && InCallback(s.conns[c].pc)
    requires MainStep(s, c, s.conns[c], choice).Some? && !MainStep(s, c, s.conns[c], choice).value.crashed
    ensures c in MainStep(s, c, s.conns[c], choice).value.conns
    ensures Goes(s.conns[c], MainStep(s, c, s.conns[c], choice).value.conns[c], before, r)
  {
    hide SelectedDb, Pending, InTransaction, Doomed, Watched, Run, RunTry, ValidChoice;
    AfterRequest(before, r);
    if s.conns[c].pc.TxCall? {
      OpenIsPending(before);
    }
  }

  lemma EndGoes(s: State, c: Id, choice: seq<string>, before: seq<Request>, r: Request)
    requires c in s.conns && Serves(s.conns[c], before, r) && ConnInv(s.conns[c])
    requires s.conns[c].pc.ExecCheck? || s.conns[c].pc.ExecStop?
    requires MainStep(s, c, s.conns[c], choice).Some? && !MainStep(s, c, s.conns[c], choice).value.crashed
    ensures c in MainStep(s, c, s.conns[c], choice).value.conns
    ensures Goes(s.conns[c], MainStep(s, c, s.conns[c], choice).value.conns[c], before, r)
  {
    hide SelectedDb, Pending, InTransaction, Doomed, Watched, WatchHolds, StopTx;
    AfterEnd(s.conns[c].ctx, before, r);
  }

  lemma PlainGoes(s: State, c: Id, choice: seq<string>, before: seq<Request>, r: Request)
    requires c in s.conns && Serves(s.conns[c], before, r) && ConnInv(s.conns[c])
    requires !InCallback(s.conns[c].pc) && !s.conns[c].pc.ExecCheck? && !s.conns[c].pc.ExecStop?
    requires MainStep(s, c, s.conns[c], choice).Some? && !MainStep(s, c, s.conns[c], choice).value.crashed
    ensures c in MainStep(s, c, s.conns[c], choice).value.conns
    ensures Goes(s.conns[c], MainStep(s, c, s.conns[c], choice).value.conns[c], before, r)
  {
    hide Settled, Reflects, WatchKeys, Executes, Direct;
    var x := s.conns[c];
    if x.pc.WatchRecord? {
      AfterWatch(x.ctx, s.dbs, before, x.pc.keys);
    } else if x.pc.SelectSet? {
      AfterSelect(x.ctx, before, x.pc.id);
    } else if x.pc.BlockWait? {
      WaitGoes(s, c, choice, before, r);
    } else if x.pc.TxBroadcast? || x.pc.Unlocking? {
      LastGoes(s, c, choice, before, r);
    } else {
      LockGoes(s, c, choice, before, r);
    }
  }

  /** The steps that take the lock. */
  lemma LockGoes(s: State, c: Id, choice: seq<string>, before: seq<Request>, r: Request)
    requires c in s.conns && Serves(s.conns[c], before, r)
    requires
      var pc := s.conns[c].pc;
      pc.TxLock? || pc.ExecLock? || pc.WatchLock? || pc.SelectLock? || pc.BlockLock?
    requires MainStep(s, c, s.conns[c], choice).Some?
    ensures c in MainStep(s, c, s.conns[c], choice).value.conns
    ensures Goes(s.conns[c], MainStep(s, c, s.conns[c], choice).value.conns[c], before, r)
  {
    hide Settled, Reflects, Executes, Direct;
  }

  lemma LastGoes(s: State, c: Id, choice: seq<string>, before: seq<Request>, r: Request)
    requires c in s.conns && Serves(s.conns[c], before, r) && (s.conns[c].pc.TxBroadcast? || s.conns[c].pc.Unlocking?)
    requires MainStep(s, c, s.conns[c], choice).Some? && !MainStep(s, c, s.conns[c], choice).value.crashed
    ensures c in MainStep(s, c, s.conns[c], choice).value.conns
    ensures Goes(s.conns[c], MainStep(s, c, s.conns[c], choice).value.conns[c], before, r)
  {
    hide Settled, Reflects, Executes, Direct;
  }

  lemma WaitGoes(s: State, c: Id, choice: seq<string>, before: seq<Request>, r: Request)
    requires c in s.conns && Serves(s.conns[c], before, r) && s.conns[c].pc.BlockWait?
    requires MainStep(s, c, s.conns[c], choice).Some?
    ensures c in MainStep(s, c, s.conns[c], choice).value.conns
    ensures Goes(s.conns[c], MainStep(s, c, s.conns[c], choice).value.conns[c], before, r)
  {
    hide Settled, Reflects, Executes, Direct, MainStep;
    WaitShape(s, c, choice);
  }

  lemma WaitShape(s: State, c: Id, choice: seq<string>)
    requires c in s.conns && s.conns[c].pc.BlockWait? && MainStep(s, c, s.conns[c], choice).Some?
    ensures c in MainStep(s, c, s.conns[c], choice).value.conns
    ensures
      var x, y := s.conns[c], MainStep(s, c, s.conns[c], choice).value.conns[c];
      && y.ctx == x.ctx && y.handled == x.handled
      && (y.pc == BlockTry(x.pc.block, x.pc.timed) || y.pc.Unlocking? ||
          (y.pc.BlockWait? && y.pc.block == x.pc.block && y.pc.timed == x.pc.timed))
  {
    hide Call, CallTry, WatchKeys, WatchHolds, StopTx;
  }

  /** An event of another connection, or a step of the helper goroutine, moves only the helper. */
  predicate HelperMoves(x: Conn, y: Conn) {
    y == x || (x.pc.BlockWait? && y.pc.BlockWait? && y == x.(pc := x.pc.(phase := y.pc.phase, helper := y.pc.helper)))
  }

  lemma HelperFollows(x: Conn, y: Conn, rs: seq<Request>)
    requires Follows(x, rs) && HelperMoves(x, y)
    ensures Follows(y, rs)
  {
    hide Settled;
  }

  lemma AsideMoves(s: State, e: Event)
    requires Step(s, e).Some? && !Step(s, e).value.crashed && !e.act.Go? && !e.act.Submit?
    ensures e.c in Step(s, e).value.conns && HelperMoves(s.conns[e.c], Step(s, e).value.conns[e.c])
  {
    hide MainStep, Dispatch;
  }

  lemma StepFollows(s: State, e: Event, c: Id, rs: seq<Request>)
    requires LockInv(s) && Step(s, e).Some? && !Step(s, e).value.crashed && c in s.conns && Follows(s.conns[c], rs)
    ensures c in Step(s, e).value.conns
    ensures Follows(Step(s, e).value.conns[c], if e.c == c && e.act.Submit? then rs + [e.act.req] else rs)
  {
    hide Settled, Reflects, Serves;
    var x := s.conns[c];
    OwnPart(s, c);
    if e.c != c {
      OthersFrame(s, e, c);
      HelperFollows(x, Step(s, e).value.conns[c], rs);
    } else if e.act.Submit? {
      DispatchFollows(x, rs, e.act.req);
    } else if e.act.Go? {
      var before, r := rs[..|rs| - 1], rs[|rs| - 1];
      if InCallback(x.pc) {
        CallbackGoes(s, c, e.act.choice, before, r);
      } else if x.pc.ExecCheck? || x.pc.ExecStop? {
        EndGoes(s, c, e.act.choice, before, r);
      } else {
        PlainGoes(s, c, e.act.choice, before, r);
      }
      assert before + [r] == rs;
    } else {
      AsideMoves(s, e);
      HelperFollows(x, Step(s, e).value.conns[c], rs);
    }
  }

  /** Every state of every run reflects the requests of each connection. */
  lemma {:induction false} RunFollows(ids: set<Id>, es: seq<Event>, j: nat, c: Id)
    requires IsRun(ids, es) && j <= |es| && !At(ids, es, j).crashed && c in At(ids, es, j).conns
    ensures Follows(At(ids, es, j).conns[c], Requests(es[..j], c))
    decreases j
  {
    if j == 0 {
      Fresh(ids, es, c);
    } else {
      var k := j - 1;
      BeforeEvent(ids, es, k);
      ConnsStay(At(ids, es, k), es[k], c);
      hide At, IsRun, Follows, Step, LockInv;
      RunFollows(ids, es, k, c);
      RequestsNext(es, k, c);
      StepFollows(At(ids, es, k), es[k], c, Requests(es[..k], c));
    }
  }

  lemma Fresh(ids: set<Id>, es: seq<Event>, c: Id)
    requires IsRun(ids, es) && c in At(ids, es, 0).conns
    ensures Follows(At(ids, es, 0).conns[c], Requests(es[..0], c))
  {
    assert es[..0] == [];
    assert At(ids, es, 0).conns[c] == Conn(FreshCtx, Idle, [], 0);
  }

  lemma RequestsNext(es: seq<Event>, k: nat, c: Id)
    requires k < |es|
    ensures Requests(es[..k + 1], c) ==
      if es[k].c == c && es[k].act.Submit? then Requests(es[..k], c) + [es[k].act.req] else Requests(es[..k], c)
  {
    assert es[..k + 1][..k] == es[..k] && es[..k + 1][k] == es[k];
  }

  // ---------- What the requests decide ----------

  /** A session, exactly, for every run: an idle connection has had all its requests handled; it is in a
      transaction if and only if an accepted MULTI came after its last DISCARD and its last EXEC that ran
      or aborted; the queue is what it has sent since that MULTI; the selected database is the argument of
      its latest SELECT; and it watches a pair if and only if a WATCH of it came after its last UNWATCH and
      its last end of a transaction. */
  lemma SessionExact(ids: set<Id>, es: seq<Event>, j: nat, c: Id)
    requires IsRun(ids, es) && j <= |es| && !At(ids, es, j).crashed && c in At(ids, es, j).conns
    requires At(ids, es, j).conns[c].pc.Idle?
    ensures
      var rs, x := Requests(es[..j], c), At(ids, es, j).conns[c];
      && x.handled == |rs|
      && (InTx(x.ctx) <==>
            exists i: nat :: i < |rs| && Accepted(rs, i) && forall k :: i < k < |rs| ==> !Ends(rs, k))
      && (InTx(x.ctx) ==> x.ctx.tx.value == Backlog(rs) && (x.ctx.dirty <==> Doomed(rs)))
      && x.ctx.sel == SelectedDb(rs)
      && forall p :: p in x.ctx.watch <==> Watched(rs, p)
  {
    hide At, IsRun, Watched, SelectedDb, Backlog, Doomed, Accepted, Ends;
    RunFollows(ids, es, j, c);
    InTransactionExact(Requests(es[..j], c));
  }

  /** The latest request. */
  predicate Latest(rs: seq<Request>, r: Request) { rs != [] && rs[|rs| - 1] == r }

  /** While a connection blocks, over any number of rounds, the callback it retries and its timeout flag are
      those of its latest request. */
  lemma BlockingOwn(ids: set<Id>, es: seq<Event>, j: nat, c: Id)
    requires IsRun(ids, es) && j <= |es| && !At(ids, es, j).crashed && c in At(ids, es, j).conns
    requires
      var pc := At(ids, es, j).conns[c].pc;
      pc.BlockLock? || pc.BlockTry? || pc.BlockWait?
    ensures
      var rs, x := Requests(es[..j], c), At(ids, es, j).conns[c];
      && Latest(rs, Block(x.pc.block, x.pc.timed)) && !InTransaction(rs[..|rs| - 1])
      && x.ctx.sel == SelectedDb(rs[..|rs| - 1]) && x.handled == |rs| - 1
  {
    hide At, IsRun, Watched, SelectedDb, InTransaction, Requests;
    RunFollows(ids, es, j, c);
    var rs := Requests(es[..j], c);
    SameSelection(rs);
  }

  lemma SameSelection(rs: seq<Request>)
    ensures rs != [] && rs[|rs| - 1].Block? ==> SelectedDb(rs) == SelectedDb(rs[..|rs| - 1])
    ensures rs != [] ==> rs[..|rs| - 1] + [rs[|rs| - 1]] == rs
  {
  }

  /** A timer fires only for a client whose latest request is a blocking command with a timeout. */
  lemma TimerAsked(ids: set<Id>, es: seq<Event>, i: nat, c: Id)
    requires IsRun(ids, es) && i < |es| && !At(ids, es, i + 1).crashed && es[i] == Event(c, Timer)
    ensures exists b :: Latest(Requests(es[..i], c), Block(b, true))
  {
    hide At, IsRun, LockInv, Requests, SelectedDb, InTransaction;
    BeforeEvent(ids, es, i);
    BlockingOwn(ids, es, i, c);
    assert Latest(Requests(es[..i], c), Block(At(ids, es, i).conns[c].pc.block, true));
  }
}
