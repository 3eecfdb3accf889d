/** The mutex and the condition variable: mutual exclusion over every run, including the handoff
    between a main goroutine and its helper. */
module LockSafety {
  import opened Base
  import opened Store
  import opened Resp
  import opened Commands
  import opened CommandLaws
  import opened Machine

  /** By their positions, the main or helper goroutine of this connection owns the mutex. */
  predicate Holds(pc: PC) {
    match pc
    case Idle => false
    case TxLock(_) => false
    case ExecLock => false
    case WatchLock(_) => false
    case SelectLock(_) => false
    case BlockLock(_, _) => false
    case BlockWait(_, _, _, helper) => !helper.Parked?
    case _ => true
  }

  /** The main goroutine is about to run a callback. */
  predicate InCallback(pc: PC) { pc.TxCall? || pc.ExecCall? || pc.BlockTry? }

  /** The next step of one of the two goroutines is an Unlock. */
  predicate AtUnlock(pc: PC) { pc.Unlocking? || (pc.BlockWait? && pc.helper.Listed?) }

  /** What the position of a connection says about its transaction state and its helper. */
  predicate ConnInv(x: Conn) {
    match x.pc
    case Idle => true
    case ExecLock => InTx(x.ctx) && !x.ctx.dirty
    case ExecCheck => InTx(x.ctx) && !x.ctx.dirty
    case ExecCall(i) => InTx(x.ctx) && i <= |x.ctx.tx.value|
    case ExecStop => InTx(x.ctx)
    case SelectLock(_) => true
    case SelectSet(_) => true
    case Unlocking => true
    case BlockWait(_, timed, phase, helper) =>
      && !InTx(x.ctx)
      && (phase.Woken? ==> helper.Sent? || helper.Finished?)
      && (phase.Expired? || phase.TimedOut? || phase.Joining? ==> timed)
    case _ => !InTx(x.ctx)
  }

  ghost predicate LockInv(s: State) {
    && (forall c :: c in s.conns ==> (Holds(s.conns[c].pc) <==> s.mutex == Some(c)))
    && (s.mutex.Some? ==> s.mutex.value in s.conns)
    && (forall c :: c in s.conns ==> ConnInv(s.conns[c]))
  }

  /** A step that changes only connection `c`, with the mutex following its position. */
  lemma PutKeeps(s: State, r: State, c: Id, x: Conn)
    requires LockInv(s) && c in s.conns && r.conns == s.conns[c := x] && ConnInv(x)
    requires
      || (Holds(x.pc) == Holds(s.conns[c].pc) && r.mutex == s.mutex)
      || (Holds(x.pc) && !Holds(s.conns[c].pc) && s.mutex.None? && r.mutex == Some(c))
      || (!Holds(x.pc) && Holds(s.conns[c].pc) && r.mutex == None)
    ensures LockInv(r)
  {
  }

  lemma BroadcastKeeps(s: State)
    requires LockInv(s)
    ensures LockInv(Broadcast(s))
  {
    var r := Broadcast(s);
    forall c | c in r.conns
      ensures ConnInv(r.conns[c]) && Holds(r.conns[c].pc) == Holds(s.conns[c].pc)
    {
      assert r.conns[c] == Notify(s.conns[c]);
    }
  }

  /** A broadcast by `c` on its way to another position that keeps the mutex as it is. */
  lemma SignalKeeps(s: State, c: Id, x: Conn)
    requires LockInv(s) && c in s.conns && ConnInv(x) && Holds(x.pc) == Holds(s.conns[c].pc)
    ensures LockInv(Broadcast(Put(s, c, x)))
  {
    PutKeeps(s, Put(s, c, x), c, x);
    BroadcastKeeps(Put(s, c, x));
  }

  lemma BlockKeeps(s: State, c: Id, choice: seq<string>)
    requires LockInv(s) && c in s.conns && s.conns[c].pc.BlockWait?
    requires MainStep(s, c, s.conns[c], choice).Some?
    ensures LockInv(MainStep(s, c, s.conns[c], choice).value)
  {
    var x := s.conns[c];
    var r := MainStep(s, c, x, choice).value;
    OwnPart(s, c);
    if x.pc.phase.TimedOut? {
      SignalKeeps(s, c, x.(pc := x.pc.(phase := Joining)));
    } else {
      hide LockInv;
      PutKeeps(s, r, c, r.conns[c]);
    }
  }

  lemma ExecKeeps(s: State, c: Id, choice: seq<string>)
    requires LockInv(s) && c in s.conns && s.conns[c].pc.ExecCall?
    requires MainStep(s, c, s.conns[c], choice).Some? && !MainStep(s, c, s.conns[c], choice).value.crashed
    ensures LockInv(MainStep(s, c, s.conns[c], choice).value)
  {
    var x := s.conns[c];
    var r := MainStep(s, c, x, choice).value;
    if x.pc.next == |x.ctx.tx.value| {
      SignalKeeps(s, c, x.(pc := ExecStop));
    } else {
      PutKeeps(s, r, c, r.conns[c]);
    }
  }

  /** A step that takes the mutex. */
  lemma AcquireKeeps(s: State, c: Id, x: Conn)
    requires LockInv(s) && c in s.conns && ConnInv(x) && Holds(x.pc) && Lock(s, c, x).Some?
    ensures LockInv(Lock(s, c, x).value)
  {
    PutKeeps(s, Lock(s, c, x).value, c, x);
  }

  lemma CallKeeps(s: State, c: Id, choice: seq<string>)
    requires LockInv(s) && c in s.conns && (s.conns[c].pc.TxCall? || s.conns[c].pc.BlockTry?)
    requires MainStep(s, c, s.conns[c], choice).Some? && !MainStep(s, c, s.conns[c], choice).value.crashed
    ensures LockInv(MainStep(s, c, s.conns[c], choice).value)
  {
    var r := MainStep(s, c, s.conns[c], choice).value;
    PutKeeps(s, r, c, r.conns[c]);
  }

  lemma MainKeeps(s: State, c: Id, choice: seq<string>)
    requires LockInv(s) && c in s.conns
    requires MainStep(s, c, s.conns[c], choice).Some? && !MainStep(s, c, s.conns[c], choice).value.crashed
    ensures LockInv(MainStep(s, c, s.conns[c], choice).value)
  {
    var x := s.conns[c];
    match x.pc {
      case Idle =>
      case TxLock(cmd) => AcquireKeeps(s, c, x.(pc := TxCall(cmd)));
      case ExecLock => AcquireKeeps(s, c, x.(pc := ExecCheck));
      case WatchLock(keys) => AcquireKeeps(s, c, x.(pc := WatchRecord(keys)));
      case SelectLock(id) => AcquireKeeps(s, c, x.(pc := SelectSet(id)));
      case BlockLock(b, timed) => AcquireKeeps(s, c, x.(pc := BlockTry(b, timed)));
      case TxBroadcast => SignalKeeps(s, c, x.(pc := Unlocking));
      case BlockWait(_, _, _, _) => BlockKeeps(s, c, choice);
      case ExecCall(_) => ExecKeeps(s, c, choice);
      case TxCall(_) => CallKeeps(s, c, choice);
      case BlockTry(_, _) => CallKeeps(s, c, choice);
      case _ => PlainKeeps(s, c, choice);
    }
  }

  lemma PlainKeeps(s: State, c: Id, choice: seq<string>)
    requires LockInv(s) && c in s.conns
    requires
      var pc := s.conns[c].pc;
      pc.ExecCheck? || pc.ExecStop? || pc.WatchRecord? || pc.SelectSet? || pc.Unlocking?
    requires MainStep(s, c, s.conns[c], choice).Some? && !MainStep(s, c, s.conns[c], choice).value.crashed
    ensures LockInv(MainStep(s, c, s.conns[c], choice).value)
  {
    OwnPart(s, c);
    hide LockInv, WatchHolds, WatchKeys;
    var r := MainStep(s, c, s.conns[c], choice).value;
    PutKeeps(s, r, c, r.conns[c]);
  }

  lemma StepKeeps(s: State, e: Event)
    requires LockInv(s) && Step(s, e).Some? && !Step(s, e).value.crashed
    ensures LockInv(Step(s, e).value)
  {
    var r := Step(s, e).value;
    if e.act.Go? {
      MainKeeps(s, e.c, e.act.choice);
    } else {
      OwnPart(s, e.c);
      AsideShape(s, e);
      hide LockInv, Step;
      PutKeeps(s, r, e.c, r.conns[e.c]);
    }
  }

  lemma OwnPart(s: State, c: Id)
    requires LockInv(s) && c in s.conns
    ensures ConnInv(s.conns[c]) && (Holds(s.conns[c].pc) <==> s.mutex == Some(c))
  {
  }

  /** A submission, a select branch, or a step of the helper. */
  lemma AsideShape(s: State, e: Event)
    requires Step(s, e).Some? && !Step(s, e).value.crashed && !e.act.Go?
    requires ConnInv(s.conns[e.c]) && (Holds(s.conns[e.c].pc) <==> s.mutex == Some(e.c))
    ensures
      var r := Step(s, e).value;
      && e.c in r.conns && r.conns == s.conns[e.c := r.conns[e.c]] && ConnInv(r.conns[e.c])
      && (|| (Holds(r.conns[e.c].pc) == Holds(s.conns[e.c].pc) && r.mutex == s.mutex)
          || (Holds(r.conns[e.c].pc) && !Holds(s.conns[e.c].pc) && s.mutex.None? && r.mutex == Some(e.c))
          || (!Holds(r.conns[e.c].pc) && Holds(s.conns[e.c].pc) && r.mutex == None))
  {
    if e.act.Submit? {
      DispatchShape(s.conns[e.c], e.act.req);
      hide Dispatch;
    } else if e.act.Help? {
      HelperShape(s, e);
    }
  }

  lemma HelperShape(s: State, e: Event)
    requires Step(s, e).Some? && !Step(s, e).value.crashed && e.act.Help?
    requires ConnInv(s.conns[e.c]) && (Holds(s.conns[e.c].pc) <==> s.mutex == Some(e.c))
    ensures
      var r := Step(s, e).value;
      && e.c in r.conns && r.conns == s.conns[e.c := r.conns[e.c]] && ConnInv(r.conns[e.c])
      && (|| (Holds(r.conns[e.c].pc) == Holds(s.conns[e.c].pc) && r.mutex == s.mutex)
          || (Holds(r.conns[e.c].pc) && !Holds(s.conns[e.c].pc) && s.mutex.None? && r.mutex == Some(e.c))
          || (!Holds(r.conns[e.c].pc) && Holds(s.conns[e.c].pc) && r.mutex == None))
  {
    hide MainStep, Dispatch;
  }

  lemma DispatchShape(x: Conn, req: Request)
    requires x.pc.Idle? && ConnInv(x)
    ensures ConnInv(Dispatch(x, req)) && !Holds(Dispatch(x, req).pc)
  {
  }

  // ---------- What an event leaves alone ----------

  lemma ConnsStay(s: State, e: Event, c: Id)
    requires Step(s, e).Some?
    ensures c in Step(s, e).value.conns <==> c in s.conns
  {
  }

  /** An event of another connection leaves `c` alone, up to a notification of its helper. */
  lemma OthersFrame(s: State, e: Event, c: Id)
    requires Step(s, e).Some? && c in s.conns && e.c != c
    ensures c in Step(s, e).value.conns
    ensures Step(s, e).value.conns[c] == s.conns[c] || Step(s, e).value.conns[c] == Notify(s.conns[c])
  {
    if e.act.Go? && InCallback(s.conns[e.c].pc) {
      CallbackFrame(s, e, c);
    }
  }

  lemma CallbackFrame(s: State, e: Event, c: Id)
    requires Step(s, e).Some? && c in s.conns && e.c != c && e.act.Go? && InCallback(s.conns[e.c].pc)
    ensures c in Step(s, e).value.conns
    ensures Step(s, e).value.conns[c] == s.conns[c] || Step(s, e).value.conns[c] == Notify(s.conns[c])
  {
  }

  // ---------- Crashes ----------

  /** A callback that is about to run would panic. */
  predicate AboutToPanic(s: State, c: Id)
    requires c in s.conns
  {
    var x := s.conns[c];
    match x.pc
    case TxCall(cmd) => Panics(s.dbs, x.ctx.sel, cmd)
    case ExecCall(i) => InTx(x.ctx) && i < |x.ctx.tx.value| && Panics(s.dbs, x.ctx.sel, x.ctx.tx.value[i])
    case _ => false
  }

  lemma CallOutcome(s: State, c: Id, x: Conn, cmd: Cmd, choice: seq<string>, pc: PC)
    requires AgreeAll(s.dbs) && Call(s, c, x, cmd, choice, pc).Some? && !s.crashed
    ensures Call(s, c, x, cmd, choice, pc).value.crashed <==> Panics(s.dbs, x.ctx.sel, cmd)
    ensures !Call(s, c, x, cmd, choice, pc).value.crashed ==> AgreeAll(Call(s, c, x, cmd, choice, pc).value.dbs)
  {
    RunLawful(s.dbs, x.ctx.sel, cmd, choice);
  }

  lemma TryOutcome(s: State, c: Id, x: Conn, b: BlockCmd, timed: bool)
    requires AgreeAll(s.dbs) && !s.crashed
    ensures !CallTry(s, c, x, b, timed).crashed && AgreeAll(CallTry(s, c, x, b, timed).dbs)
  {
    EmptyAgrees(s.dbs, x.ctx.sel);
    if RunTry(Get(s.dbs, x.ctx.sel), b).Some? {
      TryLawful(Get(s.dbs, x.ctx.sel), b);
    }
  }

  /** What one call of a blocking callback does to the databases. */
  lemma TryStep(s: State, e: Event)
    requires Step(s, e).Some? && !Step(s, e).value.crashed && e.act.Go? && s.conns[e.c].pc.BlockTry?
    ensures
      var x := s.conns[e.c];
      var db := Get(s.dbs, x.ctx.sel);
      var o := RunTry(db, x.pc.block);
      && (o.Some? ==> o.value.Done?)
      && Step(s, e).value.dbs == s.dbs[x.ctx.sel := if o.Some? then o.value.state else db]
  {
  }

  /** Apart from a panicking callback nothing brings the server down: in particular no Unlock ever
      finds the mutex free. The index maps keep agreeing. */
  lemma StepSafe(s: State, e: Event)
    requires LockInv(s) && AgreeAll(s.dbs) && Step(s, e).Some?
    ensures Step(s, e).value.crashed <==> e.act.Go? && AboutToPanic(s, e.c)
    ensures !Step(s, e).value.crashed ==> AgreeAll(Step(s, e).value.dbs)
  {
    var x := s.conns[e.c];
    OwnPart(s, e.c);
    hide LockInv, AgreeAll, Panics, Call, CallTry, WatchHolds, WatchKeys, Dispatch;
    if e.act.Go? {
      match x.pc {
        case TxCall(cmd) => CallOutcome(s, e.c, x, cmd, e.act.choice, TxBroadcast);
        case ExecCall(i) =>
          if i < |x.ctx.tx.value| {
            CallOutcome(s, e.c, x, x.ctx.tx.value[i], e.act.choice, ExecCall(i + 1));
          }
        case BlockTry(b, timed) => TryOutcome(s, e.c, x, b, timed);
        case _ =>
      }
    }
  }

  // ---------- All runs ----------

  ghost predicate Inv(s: State) { !s.crashed ==> LockInv(s) && AgreeAll(s.dbs) }

  lemma {:induction false} RunInv(ids: set<Id>, es: seq<Event>)
    requires IsRun(ids, es)
    ensures Inv(After(ids, es).value)
    decreases |es|
  {
    if es != [] {
      var k := |es| - 1;
      RunInv(ids, es[..k]);
      var s := After(ids, es[..k]).value;
      StepSafe(s, es[k]);
      if !Step(s, es[k]).value.crashed {
        StepKeeps(s, es[k]);
      }
    }
  }

  /** Lock handoff is safe. In every state of every run: at most one connection is about to run a
      callback, that connection's own pair of goroutines owns the mutex, every Unlock about to
      happen finds the mutex held by its own pair, and the mutex is held by exactly the pair that is
      positioned between its Lock and Unlock. */
  lemma {:induction false} MutualExclusion(ids: set<Id>, es: seq<Event>, c: Id, d: Id)
    requires IsRun(ids, es)
    requires var s := After(ids, es).value; !s.crashed && c in s.conns && d in s.conns
    ensures
      var s := After(ids, es).value;
      && (InCallback(s.conns[c].pc) && InCallback(s.conns[d].pc) ==> c == d)
      && (InCallback(s.conns[c].pc) || AtUnlock(s.conns[c].pc) ==> s.mutex == Some(c))
      && (Holds(s.conns[c].pc) <==> s.mutex == Some(c))
  {
    RunInv(ids, es);
  }

  /** Index agreement: in every reachable state the maps of every database agree, and the next event
      brings the server down exactly when it runs RENAME of an existing key onto itself, SRANDMEMBER,
      without a count or with a negative one, of an empty set, or KEYS, SCAN or SSCAN with a pattern
      that Go refuses to compile. No pop meets an empty list, no "unhandled key type" branch is reached,
      and no Unlock meets a free mutex. */
  lemma IndexAgreement(ids: set<Id>, es: seq<Event>, e: Event)
    requires IsRun(ids, es + [e]) && !After(ids, es).value.crashed
    ensures IsRun(ids, es) && AgreeAll(After(ids, es).value.dbs)
    ensures After(ids, es + [e]).value.crashed <==> e.act.Go? && AboutToPanic(After(ids, es).value, e.c)
  {
    assert (es + [e])[..|es|] == es;
    RunPrefix(ids, es + [e], |es|);
    RunInv(ids, es);
    StepSafe(After(ids, es).value, e);
  }

  /** What holds before an event of a run that has not crashed after it. */
  lemma BeforeEvent(ids: set<Id>, es: seq<Event>, t: nat)
    requires IsRun(ids, es) && t < |es| && !At(ids, es, t + 1).crashed
    ensures Step(At(ids, es, t), es[t]) == Some(At(ids, es, t + 1)) && !At(ids, es, t).crashed
    ensures LockInv(At(ids, es, t)) && AgreeAll(At(ids, es, t).dbs)
  {
    AtNext(ids, es, t);
    RunPrefix(ids, es, t);
    RunInv(ids, es[..t]);
  }
}
