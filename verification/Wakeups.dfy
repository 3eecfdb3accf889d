/** Waiting and waking up: which parked clients a run can leave behind. */
module Wakeups {
  import opened Base
  import opened Store
  import opened Resp
  import opened Commands
  import opened CommandLaws
  import opened Machine
  import opened LockSafety

  /** The event broadcasts on the condition variable. */
  predicate Broadcasts(s: State, e: Event) {
    e.c in s.conns && e.act.Go? &&
    var x := s.conns[e.c];
    match x.pc
    case TxBroadcast => true
    case ExecCall(i) => InTx(x.ctx) && i == |x.ctx.tx.value|
    case BlockWait(_, _, phase, _) => phase.TimedOut?
    case _ => false
  }

  /** The key that one call of a blocking callback pushes to: that of a completing BRPOPLPUSH. */
  function TryPush(dbs: Dbs, sel: int, b: BlockCmd): (r: set<(int, string)>) {
    match b
    case BPop(_, _) => {}
    case BRPopLPush(src, dst) =>
      var o := RunTry(Get(dbs, sel), b);
      if o.Some? && o.value.Done? && o.value.reply != [WRONG_TYPE] then {(sel, dst)} else {}
  }

  /** The key a BRPOPLPUSH outside MULTI pushes to when it completes in this event. */
  function SilentPush(s: State, e: Event): (r: set<(int, string)>) {
    if e.c in s.conns && e.act.Go? && s.conns[e.c].pc.BlockTry?
    then TryPush(s.dbs, s.conns[e.c].ctx.sel, s.conns[e.c].pc.block) else {}
  }

  /** The keys that BRPOPLPUSH commands outside MULTI pushed to since the last broadcast. */
  function Silent(ids: set<Id>, es: seq<Event>): (r: set<(int, string)>)
    requires IsRun(ids, es)
    decreases |es|
  {
    if es == [] then {}
    else
      var k := |es| - 1;
      var s := After(ids, es[..k]).value;
      if Broadcasts(s, es[k]) then {} else Silent(ids, es[..k]) + SilentPush(s, es[k])
  }

  predicate Unlisted(pc: PC) {
    pc.BlockWait? && (pc.helper.Spawned? || pc.helper == Listed(false))
  }

  /** Waiting at the select with a helper that sleeps and has not been notified. */
  predicate Asleep(pc: PC) { AtSelect(pc) && pc.helper == Parked(false) }

  /** Somebody is between a callback and the broadcast that follows it. */
  ghost predicate BroadcastDue(s: State) {
    exists d :: d in s.conns && (s.conns[d].pc.TxBroadcast? || s.conns[d].pc.ExecCall?)
  }

  /** Every awaited key of `x` that exists is in `silent`. */
  ghost predicate OnlySilent(dbs: Dbs, x: Conn, silent: set<(int, string)>)
    requires x.pc.BlockWait?
  {
    forall k :: k in Awaits(x.pc.block) && Exists(Get(dbs, x.ctx.sel), k) ==> (x.ctx.sel, k) in silent
  }

  ghost predicate WaitInv(s: State, silent: set<(int, string)>) {
    && (forall c :: c in s.conns && AtSelect(s.conns[c].pc) && Unlisted(s.conns[c].pc) ==>
          OnlySilent(s.dbs, s.conns[c], {}))
    && (BroadcastDue(s) || forall c :: c in s.conns && Asleep(s.conns[c].pc) ==>
          OnlySilent(s.dbs, s.conns[c], silent))
  }

  lemma BroadcastWaits(s: State, silent: set<(int, string)>)
    requires forall c :: c in s.conns && AtSelect(s.conns[c].pc) && Unlisted(s.conns[c].pc) ==>
          OnlySilent(s.dbs, s.conns[c], {})
    ensures WaitInv(Broadcast(s), silent)
  {
    var r := Broadcast(s);
    forall c | c in r.conns
      ensures !Asleep(r.conns[c].pc)
      ensures AtSelect(r.conns[c].pc) && Unlisted(r.conns[c].pc) ==> r.conns[c] == s.conns[c]
    {
      assert r.conns[c] == Notify(s.conns[c]);
    }
  }

  /** A step of `c` that leaves the databases alone, wakes nobody, and does not put `c` itself into
      the waiting positions the invariant speaks of. */
  lemma QuietWaits(s: State, r: State, c: Id, x: Conn, silent: set<(int, string)>)
    requires WaitInv(s, silent) && c in s.conns && r.conns == s.conns[c := x] && r.dbs == s.dbs
    requires !s.conns[c].pc.TxBroadcast? && !s.conns[c].pc.ExecCall?
    requires AtSelect(x.pc) && (Unlisted(x.pc) || Asleep(x.pc)) ==>
      AtSelect(s.conns[c].pc) && Unlisted(s.conns[c].pc) && x.ctx == s.conns[c].ctx && x.pc.block == s.conns[c].pc.block
    ensures WaitInv(r, silent)
  {
    if BroadcastDue(s) {
      var d :| d in s.conns && (s.conns[d].pc.TxBroadcast? || s.conns[d].pc.ExecCall?);
      assert r.conns[d] == s.conns[d];
    }
  }

  /** A callback of `c`: nobody else is between helper start and park, or about to broadcast. */
  lemma CallbackWaits(s: State, r: State, c: Id, x: Conn, silent: set<(int, string)>)
    requires LockInv(s) && c in s.conns && s.mutex == Some(c) && r.conns == s.conns[c := x]
    requires !AtSelect(x.pc) && (x.pc.TxBroadcast? || x.pc.ExecCall?)
    ensures WaitInv(r, silent)
  {
    assert r.conns[c] == x;
    forall d | d in r.conns && AtSelect(r.conns[d].pc) && Unlisted(r.conns[d].pc)
      ensures false
    {
      assert d != c && Holds(s.conns[d].pc);
    }
  }

  /** A broadcast is due only while the mutex is held by the one who owes it. */
  lemma NothingDue(s: State)
    requires LockInv(s)
    requires s.mutex.Some? ==> !s.conns[s.mutex.value].pc.TxBroadcast? && !s.conns[s.mutex.value].pc.ExecCall?
    ensures !BroadcastDue(s)
  {
    forall d | d in s.conns
      ensures !s.conns[d].pc.TxBroadcast? && !s.conns[d].pc.ExecCall?
    {
      assert Holds(s.conns[d].pc) <==> s.mutex == Some(d);
    }
  }

  /** What a completed blocking callback adds to the existing keys: at most the silent push. */
  lemma TryAdds(db: DB, b: BlockCmd, k: string)
    requires Agree(db) && RunTry(db, b).Some?
    ensures
      var o := RunTry(db, b).value;
      o.Done? && (Exists(o.state, k) ==> Exists(db, k) || (b.BRPopLPush? && k == b.dst && o.reply != [WRONG_TYPE]))
  {
    if b.BPop? {
      TryPopDone(db, b.keys, b.side);
    }
  }

  /** The connections after one call of a blocking callback. */
  lemma TryConns(s: State, e: Event)
    requires LockInv(s) && Step(s, e).Some? && !Step(s, e).value.crashed
    requires e.act.Go? && s.conns[e.c].pc.BlockTry?
    ensures
      var r := Step(s, e).value;
      var x := s.conns[e.c];
      && s.mutex == Some(e.c) && e.c in r.conns && r.conns == s.conns[e.c := r.conns[e.c]]
      && r.conns[e.c].ctx == x.ctx
      && r.conns[e.c].pc == if RunTry(Get(s.dbs, x.ctx.sel), x.pc.block).None?
           then BlockWait(x.pc.block, x.pc.timed, Selecting, Spawned) else Unlocking
  {
  }

  /** One call of a blocking callback makes no awaited key exist but the one it pushes to silently. */
  lemma StaysSilent(dbs: Dbs, sel: int, b: BlockCmd, other: Conn, silent: set<(int, string)>)
    requires AgreeAll(dbs) && other.pc.BlockWait? && OnlySilent(dbs, other, silent)
    ensures
      var o := RunTry(Get(dbs, sel), b);
      (o.Some? ==> o.value.Done?) &&
      OnlySilent(dbs[sel := if o.Some? then o.value.state else Get(dbs, sel)], other, silent + TryPush(dbs, sel, b))
  {
    hide RunTry, Agree;
    var db := Get(dbs, sel);
    EmptyAgrees(dbs, sel);
    if RunTry(db, b).Some? {
      TryAdds(db, b, "");
      forall k | k in Awaits(other.pc.block)
        ensures Exists(RunTry(db, b).value.state, k) ==>
          Exists(db, k) || (b.BRPopLPush? && k == b.dst && RunTry(db, b).value.reply != [WRONG_TYPE])
      {
        TryAdds(db, b, k);
      }
    }
  }

  /** A client that has just found none of its keys waits for none that exists. */
  lemma NothingAwaited(dbs: Dbs, sel: int, y: Conn)
    requires AgreeAll(dbs) && y.pc.BlockWait? && y.ctx.sel == sel && RunTry(Get(dbs, sel), y.pc.block).None?
    ensures OnlySilent(dbs[sel := Get(dbs, sel)], y, {})
  {
    EmptyAgrees(dbs, sel);
    TryWaits(Get(dbs, sel), y.pc.block);
  }

  lemma TryStepWaits(s: State, e: Event, silent: set<(int, string)>)
    requires LockInv(s) && AgreeAll(s.dbs) && WaitInv(s, silent)
    requires Step(s, e).Some? && !s.crashed && !Step(s, e).value.crashed
    requires e.act.Go? && s.conns[e.c].pc.BlockTry?
    ensures WaitInv(Step(s, e).value, silent + SilentPush(s, e))
  {
    TryStep(s, e);
    TryConns(s, e);
    NothingDue(s);
    hide Step, LockInv, Agree, AgreeAll, RunTry, TryPush, OnlySilent;
    var r := Step(s, e).value;
    var x := s.conns[e.c];
    if RunTry(Get(s.dbs, x.ctx.sel), x.pc.block).None? {
      NothingAwaited(s.dbs, x.ctx.sel, r.conns[e.c]);
    }
    forall c | c in r.conns && c != e.c && AtSelect(r.conns[c].pc)
      ensures r.conns[c] == s.conns[c] && !Unlisted(r.conns[c].pc)
      ensures Asleep(r.conns[c].pc) ==> OnlySilent(r.dbs, r.conns[c], silent + SilentPush(s, e))
    {
      OwnPart(s, c);
      if Asleep(r.conns[c].pc) {
        StaysSilent(s.dbs, x.ctx.sel, x.pc.block, s.conns[c], silent);
      }
    }
  }

  lemma StepWaits(s: State, e: Event, silent: set<(int, string)>)
    requires LockInv(s) && AgreeAll(s.dbs) && WaitInv(s, silent)
    requires Step(s, e).Some? && !s.crashed && !Step(s, e).value.crashed
    ensures WaitInv(Step(s, e).value, if Broadcasts(s, e) then {} else silent + SilentPush(s, e))
  {
    var r := Step(s, e).value;
    var x := s.conns[e.c];
    if Broadcasts(s, e) {
      BroadcastStepWaits(s, e, silent);
    } else if e.act.Go? && x.pc.BlockTry? {
      TryStepWaits(s, e, silent);
    } else if e.act.Go? && (x.pc.TxCall? || x.pc.ExecCall?) {
      CallbackWaits(s, r, e.c, r.conns[e.c], silent);
    } else {
      assert SilentPush(s, e) == {};
      assert silent + SilentPush(s, e) == silent;
      QuietStep(s, e);
      QuietWaits(s, r, e.c, r.conns[e.c], silent);
    }
  }

  lemma BroadcastStepWaits(s: State, e: Event, silent: set<(int, string)>)
    requires WaitInv(s, silent) && Step(s, e).Some? && Broadcasts(s, e)
    ensures WaitInv(Step(s, e).value, {})
  {
    var x := s.conns[e.c];
    var y := if x.pc.TxBroadcast? then x.(pc := Unlocking)
      else if x.pc.ExecCall? then x.(pc := ExecStop)
      else x.(pc := x.pc.(phase := Joining));
    BroadcastWaits(Put(s, e.c, y), {});
  }

  /** Every event that is neither a callback nor a broadcast only moves its own connection along. */
  lemma {:induction false} QuietStep(s: State, e: Event)
    requires LockInv(s) && Step(s, e).Some? && !s.crashed && !Step(s, e).value.crashed && !Broadcasts(s, e)
    requires e.act.Go? ==> !InCallback(s.conns[e.c].pc)
    ensures
      var r := Step(s, e).value;
      var x := s.conns[e.c];
      && e.c in r.conns
      && r.conns == s.conns[e.c := r.conns[e.c]] && r.dbs == s.dbs
      && !x.pc.TxBroadcast? && !x.pc.ExecCall?
      && (AtSelect(r.conns[e.c].pc) && (Unlisted(r.conns[e.c].pc) || Asleep(r.conns[e.c].pc)) ==>
            AtSelect(x.pc) && Unlisted(x.pc) && r.conns[e.c].ctx == x.ctx && r.conns[e.c].pc.block == x.pc.block)
  {
    OwnPart(s, e.c);
    hide LockInv;
    if e.act.Go? {
      QuietMain(s, e.c, e.act.choice);
    } else {
      QuietAside(s, e);
    }
  }

  lemma QuietMain(s: State, c: Id, choice: seq<string>)
    requires c in s.conns && MainStep(s, c, s.conns[c], choice).Some? && ConnInv(s.conns[c])
    requires !MainStep(s, c, s.conns[c], choice).value.crashed
    requires !Broadcasts(s, Event(c, Go(choice))) && !InCallback(s.conns[c].pc)
    ensures
      var r := MainStep(s, c, s.conns[c], choice).value;
      var x := s.conns[c];
      && c in r.conns && r.conns == s.conns[c := r.conns[c]] && r.dbs == s.dbs
      && !x.pc.TxBroadcast? && !x.pc.ExecCall?
      && (AtSelect(r.conns[c].pc) && (Unlisted(r.conns[c].pc) || Asleep(r.conns[c].pc)) ==>
            AtSelect(x.pc) && Unlisted(x.pc) && r.conns[c].ctx == x.ctx && r.conns[c].pc.block == x.pc.block)
  {
  }

  lemma QuietAside(s: State, e: Event)
    requires Step(s, e).Some? && !Step(s, e).value.crashed && !e.act.Go?
    requires ConnInv(s.conns[e.c]) && (Holds(s.conns[e.c].pc) <==> s.mutex == Some(e.c))
    ensures
      var r := Step(s, e).value;
      var x := s.conns[e.c];
      && e.c in r.conns
      && r.conns == s.conns[e.c := r.conns[e.c]] && r.dbs == s.dbs
      && !x.pc.TxBroadcast? && !x.pc.ExecCall?
      && (AtSelect(r.conns[e.c].pc) && (Unlisted(r.conns[e.c].pc) || Asleep(r.conns[e.c].pc)) ==>
            AtSelect(x.pc) && Unlisted(x.pc) && r.conns[e.c].ctx == x.ctx && r.conns[e.c].pc.block == x.pc.block)
  {
    hide MainStep;
  }

  lemma {:induction false} RunWaits(ids: set<Id>, es: seq<Event>)
    requires IsRun(ids, es) && !After(ids, es).value.crashed
    ensures WaitInv(After(ids, es).value, Silent(ids, es))
    decreases |es|
  {
    if es != [] {
      var k := |es| - 1;
      RunInv(ids, es[..k]);
      RunWaits(ids, es[..k]);
      StepWaits(After(ids, es[..k]).value, es[k], Silent(ids, es[..k]));
    }
  }

  /** No lost wake-up, for every run: whenever the mutex is free, a client that sleeps without having
      been notified has a callback that would still return false, unless a BRPOPLPUSH outside MULTI
      has pushed to a key it waits for since the last broadcast. */
  lemma {:induction false} NoLostWakeup(ids: set<Id>, es: seq<Event>, c: Id)
    requires IsRun(ids, es) && !After(ids, es).value.crashed && After(ids, es).value.mutex.None?
    requires c in After(ids, es).value.conns && Asleep(After(ids, es).value.conns[c].pc)
    ensures
      var s := After(ids, es).value;
      var x := s.conns[c];
      RunTry(Get(s.dbs, x.ctx.sel), x.pc.block).None? ||
      exists k :: k in Awaits(x.pc.block) && Exists(Get(s.dbs, x.ctx.sel), k) && (x.ctx.sel, k) in Silent(ids, es)
  {
    RunInv(ids, es);
    RunWaits(ids, es);
    var s := After(ids, es).value;
    var x := s.conns[c];
    EmptyAgrees(s.dbs, x.ctx.sel);
    TryWaits(Get(s.dbs, x.ctx.sel), x.pc.block);
    NothingDue(s);
    assert OnlySilent(s.dbs, x, Silent(ids, es));
  }

  /** The event is a BRPOPLPUSH outside MULTI that completes with a push. */
  predicate IsSilentPush(s: State, e: Event) { SilentPush(s, e) != {} }

  /** In a run without such completions no wake-up is ever lost. */
  lemma {:induction false} SilentNever(ids: set<Id>, es: seq<Event>)
    requires IsRun(ids, es) && forall i :: 0 <= i < |es| ==> !IsSilentPush(At(ids, es, i), es[i])
    ensures Silent(ids, es) == {}
    decreases |es|
  {
    if es != [] {
      var k := |es| - 1;
      RunPrefix(ids, es, k);
      forall i | 0 <= i < k
        ensures !IsSilentPush(At(ids, es[..k], i), es[..k][i])
      {
        assert es[..k][..i] == es[..i];
        assert !IsSilentPush(At(ids, es, i), es[i]);
      }
      SilentNever(ids, es[..k]);
      assert !IsSilentPush(At(ids, es, k), es[k]);
    }
  }
}
