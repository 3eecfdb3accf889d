/** Clients of blocking commands that have timed out: when they get away, and when they are stranded. */
module Timeouts {
  import opened Base
  import opened Commands
  import opened History
  import opened Machine
  import opened LockSafety
  import opened Sessions
  import opened Wakeups
  import opened Watching

  /** After its timeout, at the wait for the helper goroutine. */
  predicate Joins(s: State, c: Id) {
    c in s.conns && s.conns[c].pc.BlockWait? && s.conns[c].pc.phase.Joining?
  }

  /** No broadcast has reached the helper yet. */
  predicate Unnotified(helper: HelperPhase) { helper in {Spawned, Listed(false), Parked(false)} }

  /** The event is the broadcast of `c` after its timeout. */
  predicate TimeoutBroadcast(s: State, e: Event, c: Id) {
    e.c == c && e.act.Go? && c in s.conns && s.conns[c].pc.BlockWait? && s.conns[c].pc.phase.TimedOut?
  }

  /** Event `i` is the broadcast of `c` after the timeout that it is still leaving when `es` ends. */
  ghost predicate LatestTimeout(ids: set<Id>, es: seq<Event>, i: nat, c: Id)
    requires IsRun(ids, es)
  {
    && i < |es| && TimeoutBroadcast(At(ids, es, i), es[i], c)
    && forall t :: i < t <= |es| ==> Joins(At(ids, es, t), c)
  }

  /** Since event `i` there was no broadcast while the helper of `c` was in the notify list. */
  ghost predicate NobodyCame(ids: set<Id>, es: seq<Event>, i: nat, c: Id)
    requires IsRun(ids, es)
  {
    forall t :: i < t < |es| && Joins(At(ids, es, t), c) && Broadcasts(At(ids, es, t), es[t]) ==>
      At(ids, es, t).conns[c].pc.helper.Spawned?
  }

  /** The broadcast after a timeout leaves the helper unnotified exactly when it was not yet listed. */
  lemma TimeoutStep(s: State, e: Event, c: Id)
    requires Step(s, e).Some? && TimeoutBroadcast(s, e, c)
    ensures Joins(Step(s, e).value, c)
    ensures Unnotified(Step(s, e).value.conns[c].pc.helper) <==> s.conns[c].pc.helper.Spawned?
  {
  }

  /** Later events keep it so, but for a broadcast that finds the helper listed. */
  lemma JoiningStep(s: State, e: Event, c: Id)
    requires LockInv(s) && Step(s, e).Some? && !Step(s, e).value.crashed && Joins(Step(s, e).value, c)
    requires !TimeoutBroadcast(s, e, c) && c in s.conns
    ensures Joins(s, c)
    ensures Unnotified(Step(s, e).value.conns[c].pc.helper) <==>
      Unnotified(s.conns[c].pc.helper) && (Broadcasts(s, e) ==> s.conns[c].pc.helper.Spawned?)
  {
    if e.c == c {
      JoiningOwn(s, e, c);
    } else {
      JoiningBystander(s, e, c);
      NotifyKeeps(s.conns[c]);
      hide Step, Broadcasts;
    }
  }

  lemma NotifyKeeps(x: Conn)
    requires x.pc.BlockWait?
    ensures Notify(x).pc.BlockWait? && Notify(x).pc.phase == x.pc.phase
    ensures Unnotified(Notify(x).pc.helper) <==> x.pc.helper.Spawned?
  {
  }

  lemma JoiningOwn(s: State, e: Event, c: Id)
    requires Step(s, e).Some? && !Step(s, e).value.crashed && Joins(Step(s, e).value, c) && e.c == c
    requires !TimeoutBroadcast(s, e, c) && c in s.conns
    ensures Joins(s, c) && !Broadcasts(s, e)
    ensures Unnotified(Step(s, e).value.conns[c].pc.helper) <==> Unnotified(s.conns[c].pc.helper)
  {
  }

  lemma JoiningBystander(s: State, e: Event, c: Id)
    requires LockInv(s) && Step(s, e).Some? && !Step(s, e).value.crashed && e.c != c && c in s.conns
    ensures c in Step(s, e).value.conns
    ensures Step(s, e).value.conns[c] == if Broadcasts(s, e) then Notify(s.conns[c]) else s.conns[c]
  {
    hide LockInv, Notify, MainStep, HelperStep, Dispatch;
    if !e.act.Go? {
      AsideBystander(s, e, c);
    } else if InCallback(s.conns[e.c].pc) {
      CallbackBystander(s, e, c);
    } else {
      MainBystander(s, e, c);
    }
  }

  lemma AsideBystander(s: State, e: Event, c: Id)
    requires Step(s, e).Some? && !Step(s, e).value.crashed && e.c != c && c in s.conns && !e.act.Go?
    ensures c in Step(s, e).value.conns && Step(s, e).value.conns[c] == s.conns[c]
  {
    hide Dispatch;
  }

  lemma MainBystander(s: State, e: Event, c: Id)
    requires Step(s, e).Some? && !Step(s, e).value.crashed && e.c != c && c in s.conns
    requires e.act.Go? && !InCallback(s.conns[e.c].pc)
    ensures c in Step(s, e).value.conns
    ensures Step(s, e).value.conns[c] == if Broadcasts(s, e) then Notify(s.conns[c]) else s.conns[c]
  {
    hide WatchKeys, WatchHolds, StopTx, Call, CallTry;
  }

  lemma CallbackBystander(s: State, e: Event, c: Id)
    requires LockInv(s) && Step(s, e).Some? && !Step(s, e).value.crashed && e.c != c && c in s.conns
    requires e.act.Go? && InCallback(s.conns[e.c].pc)
    ensures c in Step(s, e).value.conns
    ensures Step(s, e).value.conns[c] == if Broadcasts(s, e) then Notify(s.conns[c]) else s.conns[c]
  {
  }

  lemma TimeoutExtends(ids: set<Id>, es: seq<Event>, i: nat, c: Id)
    requires IsRun(ids, es) && es != [] && IsRun(ids, es[..|es| - 1]) && LatestTimeout(ids, es[..|es| - 1], i, c)
    requires Joins(At(ids, es, |es|), c)
    ensures LatestTimeout(ids, es, i, c) && At(ids, es[..|es| - 1], i) == At(ids, es, i)
    ensures NobodyCame(ids, es, i, c) <==>
      (NobodyCame(ids, es[..|es| - 1], i, c) &&
       (Broadcasts(At(ids, es, |es| - 1), es[|es| - 1]) ==> At(ids, es, |es| - 1).conns[c].pc.helper.Spawned?))
  {
    var k := |es| - 1;
    hide At, IsRun, Broadcasts, TimeoutBroadcast;
    forall t | 0 <= t <= k
      ensures At(ids, es[..k], t) == At(ids, es, t)
    {
      PrefixAt(ids, es, k, t);
    }
    assert forall t :: i < t <= |es| ==> Joins(At(ids, es, t), c) by {
      assert forall t :: i < t <= k ==> Joins(At(ids, es[..k], t), c);
    }
  }

  lemma {:induction false} StrandedExact(ids: set<Id>, es: seq<Event>, c: Id)
    requires IsRun(ids, es) && !After(ids, es).value.crashed && Joins(After(ids, es).value, c)
    ensures exists i: nat :: (LatestTimeout(ids, es, i, c) &&
      (Unnotified(After(ids, es).value.conns[c].pc.helper) <==>
        At(ids, es, i).conns[c].pc.helper.Spawned? && NobodyCame(ids, es, i, c)))
    decreases |es|
  {
    assert es != [] by { assert After(ids, []).value.conns.Keys == ids; }
    var k := |es| - 1;
    var s := At(ids, es, k);
    assert es[..|es|] == es;
    BeforeEvent(ids, es, k);
    ConnsStay(s, es[k], c);
    if TimeoutBroadcast(s, es[k], c) {
      TimeoutStep(s, es[k], c);
      assert LatestTimeout(ids, es, k, c);
    } else {
      JoiningStep(s, es[k], c);
      RunPrefix(ids, es, k);
      StrandedExact(ids, es[..k], c);
      var i: nat :| LatestTimeout(ids, es[..k], i, c) &&
        (Unnotified(s.conns[c].pc.helper) <==>
          At(ids, es[..k], i).conns[c].pc.helper.Spawned? && NobodyCame(ids, es[..k], i, c));
      TimeoutExtends(ids, es, i, c);
    }
  }

  /** When a client that has timed out is stranded, exactly, over every run: it had asked for a timeout, and
      no broadcast will have reached its helper if and only if its own came before the helper had joined the
      notify list and none came after that. */
  lemma TimeoutExact(ids: set<Id>, es: seq<Event>, c: Id)
    requires IsRun(ids, es) && !After(ids, es).value.crashed && Joins(After(ids, es).value, c)
    ensures exists b :: Latest(Requests(es, c), Block(b, true))
    ensures exists i: nat :: (LatestTimeout(ids, es, i, c) &&
      (Unnotified(After(ids, es).value.conns[c].pc.helper) <==>
        At(ids, es, i).conns[c].pc.helper.Spawned? && NobodyCame(ids, es, i, c)))
  {
    assert es[..|es|] == es;
    StrandedExact(ids, es, c);
    RunInv(ids, es);
    OwnPart(After(ids, es).value, c);
    BlockingOwn(ids, es, |es|, c);
    assert Latest(Requests(es, c), Block(After(ids, es).value.conns[c].pc.block, true));
  }

  /** What a client that has timed out can do: nothing at all while its helper sleeps unnotified, else it
      has a step, or only waits for the mutex. */
  lemma TimeoutProgress(s: State, c: Id)
    requires !s.crashed && Joins(s, c)
    ensures s.conns[c].pc.helper == Parked(false) ==> forall a :: Step(s, Event(c, a)) == None
    ensures s.conns[c].pc.helper != Parked(false) ==>
      (exists a :: Step(s, Event(c, a)).Some?) || (s.conns[c].pc.helper == Parked(true) && s.mutex.Some?)
  {
    var helper := s.conns[c].pc.helper;
    if helper.Finished? {
      assert Step(s, Event(c, Go([]))).Some?;
    } else if helper != Parked(false) && !(helper.Parked? && s.mutex.Some?) {
      assert Step(s, Event(c, Help)).Some?;
    }
  }
}
