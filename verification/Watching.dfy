/** Optimistic transactions: what EXEC's version check proves about the watched keys. */
module Watching {
  import opened Base
  import opened Store
  import opened Resp
  import opened Commands
  import opened CommandLaws
  import opened History
  import opened Machine
  import opened LockSafety
  import opened Sessions

  /** The callback of a withTx command or of an EXEC queue that this event runs. */
  function Executed(s: State, e: Event): (r: Option<Cmd>) {
    if e.c !in s.conns || !e.act.Go? then None
    else
      var x := s.conns[e.c];
      match x.pc
      case TxCall(cmd) => Some(cmd)
      case ExecCall(i) => if InTx(x.ctx) && i < |x.ctx.tx.value| then Some(x.ctx.tx.value[i]) else None
      case _ => None
  }

  /** The event runs FLUSHALL, or FLUSHDB on database `d`. */
  predicate FlushesDb(s: State, e: Event, d: int) {
    Executed(s, e) == Some(FlushAll) || (Executed(s, e) == Some(K(FlushDb)) && s.conns[e.c].ctx.sel == d)
  }

  ghost predicate NoFlush(ids: set<Id>, es: seq<Event>, i: nat, j: nat, d: int)
    requires IsRun(ids, es) && j <= |es|
  {
    forall t :: i <= t < j ==> !FlushesDb(At(ids, es, t), es[t], d)
  }

  lemma FlushVersions(dbs: Dbs, sel: int, c: Cmd, choice: seq<string>, d: int, k: string)
    requires IsFlush(c) && Run(dbs, sel, c, choice).Done?
    ensures
      var r := Run(dbs, sel, c, choice).state;
      Ver(Get(dbs, d), k) == Ver(Get(r, d), k) && (c == K(FlushDb) && d != sel ==> Get(r, d) == Get(dbs, d))
  {
  }

  /** What one callback of a command does to the databases. */
  lemma ExecutedValid(s: State, e: Event)
    requires Step(s, e).Some? && !Step(s, e).value.crashed && Executed(s, e).Some?
    ensures
      var sel := s.conns[e.c].ctx.sel;
      var c := Executed(s, e).value;
      ValidChoice(s.dbs, sel, c, e.act.choice) && Run(s.dbs, sel, c, e.act.choice).Done? &&
      Step(s, e).value.dbs == Run(s.dbs, sel, c, e.act.choice).state
  {
  }

  /** One event: a version never goes down, and while it stays the same so do the contents, unless
      the event flushes the database. */
  lemma StepEvolves(s: State, e: Event, d: int, k: string)
    requires LockInv(s) && AgreeAll(s.dbs) && Step(s, e).Some? && !Step(s, e).value.crashed
    ensures Ver(Get(s.dbs, d), k) <= Ver(Get(Step(s, e).value.dbs, d), k)
    ensures !FlushesDb(s, e, d) ==> EvolvesAt(Get(s.dbs, d), Get(Step(s, e).value.dbs, d), k)
  {
    var x := s.conns[e.c];
    var r := Step(s, e).value;
    if Executed(s, e).Some? {
      var cmd := Executed(s, e).value;
      ExecutedValid(s, e);
      hide Step, LockInv, Run, ValidChoice, AgreeAll, EvolvesAt;
      RunLawful(s.dbs, x.ctx.sel, cmd, e.act.choice);
      if IsFlush(cmd) {
        FlushVersions(s.dbs, x.ctx.sel, cmd, e.act.choice, d, k);
      } else {
        assert EvolvesAt(Get(s.dbs, d), Get(r.dbs, d), k);
      }
    } else if e.act.Go? && x.pc.BlockTry? {
      TryEvolves(s, e, d, k);
    } else {
      OtherStepKeepsDbs(s, e);
    }
  }

  lemma TryEvolves(s: State, e: Event, d: int, k: string)
    requires LockInv(s) && AgreeAll(s.dbs) && Step(s, e).Some? && !Step(s, e).value.crashed
    requires e.act.Go? && s.conns[e.c].pc.BlockTry?
    ensures EvolvesAt(Get(s.dbs, d), Get(Step(s, e).value.dbs, d), k)
  {
    TryStep(s, e);
    var x := s.conns[e.c];
    hide Step, LockInv, RunTry, Agree, EvolvesAt, TryWrites;
    var db := Get(s.dbs, x.ctx.sel);
    EmptyAgrees(s.dbs, x.ctx.sel);
    if RunTry(db, x.pc.block).Some? {
      TryLawful(db, x.pc.block);
      assert EvolvesAt(db, RunTry(db, x.pc.block).value.state, k);
    }
    EvolvesAtSelf(Get(s.dbs, d), k);
  }

  /** Only a callback of a command, of an EXEC queue or of a blocking command can touch the databases:
      queueing, MULTI, DISCARD, WATCH, an aborted or refused EXEC and every other step leave them. */
  lemma OtherStepKeepsDbs(s: State, e: Event)
    requires Step(s, e).Some? && Executed(s, e).None? && !(e.act.Go? && s.conns[e.c].pc.BlockTry?)
    ensures Step(s, e).value.dbs == s.dbs
  {
  }

  lemma {:induction false} NeverUncrashes(ids: set<Id>, es: seq<Event>, i: nat)
    requires IsRun(ids, es) && i <= |es| && !After(ids, es).value.crashed
    ensures !At(ids, es, i).crashed
    decreases |es|
  {
    if i < |es| {
      var k := |es| - 1;
      RunPrefix(ids, es, k);
      NeverUncrashes(ids, es[..k], i);
      assert es[..k][..i] == es[..i];
    } else {
      assert es[..i] == es;
    }
  }

  /** A whole stretch of a run behaves like one event. */
  lemma {:induction false} StretchEvolves(ids: set<Id>, es: seq<Event>, i: nat, j: nat, d: int, k: string)
    requires IsRun(ids, es) && i <= j <= |es| && !At(ids, es, j).crashed
    ensures Ver(Get(At(ids, es, i).dbs, d), k) <= Ver(Get(At(ids, es, j).dbs, d), k)
    ensures NoFlush(ids, es, i, j, d) ==> EvolvesAt(Get(At(ids, es, i).dbs, d), Get(At(ids, es, j).dbs, d), k)
    decreases j
  {
    hide NoFlush, Step, At, LockInv, AgreeAll, FlushesDb, Get, EvolvesAt, IsRun;
    if i < j {
      var t := j - 1;
      BeforeEvent(ids, es, t);
      if NoFlush(ids, es, i, j, d) {
        NoFlushLast(ids, es, i, t, d);
      }
      StretchEvolves(ids, es, i, t, d, k);
      StepEvolves(At(ids, es, t), es[t], d, k);
      if NoFlush(ids, es, i, j, d) {
        EvolvesAtTrans(Get(At(ids, es, i).dbs, d), Get(At(ids, es, t).dbs, d), Get(At(ids, es, j).dbs, d), k);
      }
    } else {
      EvolvesAtSelf(Get(At(ids, es, i).dbs, d), k);
    }
  }

  lemma NoFlushLast(ids: set<Id>, es: seq<Event>, i: nat, t: nat, d: int)
    requires IsRun(ids, es) && i <= t < |es| && NoFlush(ids, es, i, t + 1, d)
    ensures NoFlush(ids, es, i, t, d) && !FlushesDb(At(ids, es, t), es[t], d)
  {
  }

  /** A flush between events `i` and `j` found the key. */
  ghost predicate LostToFlush(ids: set<Id>, es: seq<Event>, i: nat, j: nat, d: int, k: string)
    requires IsRun(ids, es) && j <= |es|
  {
    exists t :: i <= t < j && FlushesDb(At(ids, es, t), es[t], d) && Exists(Get(At(ids, es, t).dbs, d), k)
  }

  /** What one event does to a key whose version it leaves: nothing, or a flush takes the key away. */
  lemma SameVersionStep(s: State, e: Event, d: int, k: string)
    requires LockInv(s) && AgreeAll(s.dbs) && Step(s, e).Some? && !Step(s, e).value.crashed
    requires Ver(Get(s.dbs, d), k) == Ver(Get(Step(s, e).value.dbs, d), k)
    ensures
      var after := Get(Step(s, e).value.dbs, d);
      if FlushesDb(s, e, d) && Exists(Get(s.dbs, d), k) then !Exists(after, k)
      else Same(Get(s.dbs, d), after, k)
  {
    if FlushesDb(s, e, d) {
      FlushStep(s, e, d);
      EmptyAgrees(s.dbs, d);
    } else {
      StepEvolves(s, e, d, k);
    }
  }

  lemma FlushStep(s: State, e: Event, d: int)
    requires Step(s, e).Some? && !Step(s, e).value.crashed && FlushesDb(s, e, d)
    ensures Get(Step(s, e).value.dbs, d) == Flush(Get(s.dbs, d))
  {
  }

  lemma SameAtTrans(a: DB, b: DB, c: DB, k: string)
    requires Same(a, b, k) && Same(b, c, k)
    ensures Same(a, c, k)
  {
  }

  lemma SameExists(a: DB, b: DB, k: string)
    requires Same(a, b, k)
    ensures Exists(a, k) <==> Exists(b, k)
  {
  }

  lemma LostLast(ids: set<Id>, es: seq<Event>, i: nat, t: nat, d: int, k: string)
    requires IsRun(ids, es) && i <= t < |es|
    ensures LostToFlush(ids, es, i, t + 1, d, k) <==>
      LostToFlush(ids, es, i, t, d, k) || (FlushesDb(At(ids, es, t), es[t], d) && Exists(Get(At(ids, es, t).dbs, d), k))
  {
  }

  /** What an unchanged version means, exactly: the type and contents are the same unless a flush found
      the key in between, and then the key existed and is gone. */
  lemma {:induction false} SameVersionExact(ids: set<Id>, es: seq<Event>, i: nat, j: nat, d: int, k: string)
    requires IsRun(ids, es) && i <= j <= |es| && !At(ids, es, j).crashed
    requires Ver(Get(At(ids, es, i).dbs, d), k) == Ver(Get(At(ids, es, j).dbs, d), k)
    ensures Same(Get(At(ids, es, i).dbs, d), Get(At(ids, es, j).dbs, d), k) <==> !LostToFlush(ids, es, i, j, d, k)
    ensures LostToFlush(ids, es, i, j, d, k) ==>
      Exists(Get(At(ids, es, i).dbs, d), k) && !Exists(Get(At(ids, es, j).dbs, d), k)
    decreases j
  {
    if i == j {
      return;
    }
    hide Step, At, LockInv, AgreeAll, FlushesDb, Get, IsRun, Same, Exists, LostToFlush;
    var t := j - 1;
    BeforeEvent(ids, es, t);
    StretchEvolves(ids, es, i, t, d, k);
    StretchEvolves(ids, es, t, j, d, k);
    SameVersionExact(ids, es, i, t, d, k);
    SameVersionStep(At(ids, es, t), es[t], d, k);
    LostLast(ids, es, i, t, d, k);
    var a, b, c := Get(At(ids, es, i).dbs, d), Get(At(ids, es, t).dbs, d), Get(At(ids, es, j).dbs, d);
    if Same(a, b, k) {
      SameExists(a, b, k);
      if Same(b, c, k) {
        SameAtTrans(a, b, c, k);
      }
    }
    if Same(b, c, k) {
      SameExists(b, c, k);
    }
    if Same(a, c, k) {
      SameExists(a, c, k);
    }
  }

  // ---------- Where a watch entry comes from ----------

  /** The event is the WATCH by `c` that records the pair `p`. */
  predicate Records(s: State, e: Event, c: Id, p: (int, string)) {
    e.c == c && e.act.Go? && c in s.conns && s.conns[c].pc.WatchRecord? &&
    p.0 == s.conns[c].ctx.sel && p.1 in s.conns[c].pc.keys
  }

  /** Event `i` is the latest WATCH of `p` by `c` before event `j`. */
  ghost predicate LatestWatch(ids: set<Id>, es: seq<Event>, i: nat, j: nat, c: Id, p: (int, string))
    requires IsRun(ids, es) && j <= |es|
  {
    i < j && Records(At(ids, es, i), es[i], c, p) &&
    forall t :: i < t < j ==> !Records(At(ids, es, t), es[t], c, p)
  }

  /** An event that is no WATCH of `p` by `c` can only keep or drop the entry. */
  lemma WatchStep(s: State, e: Event, c: Id, p: (int, string))
    requires Step(s, e).Some? && !Step(s, e).value.crashed && c in s.conns
    ensures c in Step(s, e).value.conns
    ensures p in Step(s, e).value.conns[c].ctx.watch ==>
      if Records(s, e, c, p) then Step(s, e).value.conns[c].ctx.watch[p] == Uint(Ver(Get(s.dbs, p.0), p.1))
      else p in s.conns[c].ctx.watch && Step(s, e).value.conns[c].ctx.watch[p] == s.conns[c].ctx.watch[p]
  {
    if e.act.Go? {
      WatchMainStep(s, e.c, e.act.choice, c, p);
    }
  }

  lemma WatchKeysEntry(x: Ctx, dbs: Dbs, keys: seq<string>, p: (int, string))
    ensures p in WatchKeys(x, dbs, keys).watch ==>
      if p.0 == x.sel && p.1 in keys then WatchKeys(x, dbs, keys).watch[p] == Uint(Ver(Get(dbs, p.0), p.1))
      else p in x.watch && WatchKeys(x, dbs, keys).watch[p] == x.watch[p]
  {
  }

  /** A callback leaves every watch map alone. */
  lemma CallbackKeepsWatch(s: State, a: Id, choice: seq<string>, c: Id)
    requires a in s.conns && c in s.conns && InCallback(s.conns[a].pc) && !s.crashed
    requires MainStep(s, a, s.conns[a], choice).Some? && !MainStep(s, a, s.conns[a], choice).value.crashed
    ensures
      var r := MainStep(s, a, s.conns[a], choice).value;
      c in r.conns && r.conns[c].ctx.watch == s.conns[c].ctx.watch
  {
  }

  /** Apart from a WATCH, a main goroutine step leaves every watch map alone or clears it. */
  lemma WatchUntouched(s: State, a: Id, choice: seq<string>, c: Id)
    requires a in s.conns && c in s.conns && !s.conns[a].pc.WatchRecord? && !s.crashed
    requires MainStep(s, a, s.conns[a], choice).Some? && !MainStep(s, a, s.conns[a], choice).value.crashed
    ensures
      var r := MainStep(s, a, s.conns[a], choice).value;
      c in r.conns && (r.conns[c].ctx.watch == s.conns[c].ctx.watch || r.conns[c].ctx.watch == map[])
  {
    if InCallback(s.conns[a].pc) {
      CallbackKeepsWatch(s, a, choice, c);
    }
  }

  lemma WatchMainStep(s: State, a: Id, choice: seq<string>, c: Id, p: (int, string))
    requires a in s.conns && c in s.conns && !s.crashed
    requires MainStep(s, a, s.conns[a], choice).Some? && !MainStep(s, a, s.conns[a], choice).value.crashed
    ensures
      var r := MainStep(s, a, s.conns[a], choice).value;
      && c in r.conns
      && (p in r.conns[c].ctx.watch ==>
            if Records(s, Event(a, Go(choice)), c, p) then r.conns[c].ctx.watch[p] == Uint(Ver(Get(s.dbs, p.0), p.1))
            else p in s.conns[c].ctx.watch && r.conns[c].ctx.watch[p] == s.conns[c].ctx.watch[p])
  {
    var x := s.conns[a];
    if x.pc.WatchRecord? {
      WatchKeysEntry(x.ctx, s.dbs, x.pc.keys, p);
    } else {
      WatchUntouched(s, a, choice, c);
    }
  }

  /** Event `i` is the latest WATCH of `p`, and the counter showed `shown` then. */
  ghost predicate Origin(ids: set<Id>, es: seq<Event>, i: nat, j: nat, c: Id, p: (int, string), shown: nat)
    requires IsRun(ids, es) && j <= |es|
  {
    LatestWatch(ids, es, i, j, c, p) && shown == Uint(Ver(Get(At(ids, es, i).dbs, p.0), p.1))
  }

  lemma OriginStays(ids: set<Id>, es: seq<Event>, i: nat, t: nat, c: Id, p: (int, string), shown: nat)
    requires IsRun(ids, es) && t < |es| && Origin(ids, es, i, t, c, p, shown)
    requires !Records(At(ids, es, t), es[t], c, p)
    ensures Origin(ids, es, i, t + 1, c, p, shown)
  {
  }

  lemma {:induction false} WatchOrigin(ids: set<Id>, es: seq<Event>, j: nat, c: Id, p: (int, string))
    requires IsRun(ids, es) && j <= |es| && !At(ids, es, j).crashed
    requires c in At(ids, es, j).conns && p in At(ids, es, j).conns[c].ctx.watch
    ensures exists i: nat :: Origin(ids, es, i, j, c, p, At(ids, es, j).conns[c].ctx.watch[p])
    decreases j
  {
    if j > 0 {
      var t := j - 1;
      AtNext(ids, es, t);
      var s := At(ids, es, t);
      var shown := At(ids, es, j).conns[c].ctx.watch[p];
      ConnsStay(s, es[t], c);
      WatchStep(s, es[t], c, p);
      if Records(s, es[t], c, p) {
        assert Origin(ids, es, t, j, c, p, shown);
      } else {
        WatchOrigin(ids, es, t, c, p);
        var i: nat :| Origin(ids, es, i, t, c, p, s.conns[c].ctx.watch[p]);
        OriginStays(ids, es, i, t, c, p, shown);
      }
    }
  }

  // ---------- EXEC's decision ----------

  /** Event `i` is EXEC's check by `c`. */
  predicate Checks(ids: set<Id>, es: seq<Event>, i: nat, c: Id)
    requires IsRun(ids, es)
  {
    && i < |es| && es[i].c == c && c in At(ids, es, i).conns && At(ids, es, i).conns[c].pc.ExecCheck?
    && !At(ids, es, i + 1).crashed
  }

  /** The requests that came before the EXEC that event `i` belongs to. */
  function BeforeExec(es: seq<Event>, i: nat, c: Id): (rs: seq<Request>)
    requires i <= |es|
  {
    var rs := Requests(es[..i], c);
    if rs == [] then [] else rs[..|rs| - 1]
  }

  /** The check decides to run the queue. */
  predicate Runs(ids: set<Id>, es: seq<Event>, i: nat, c: Id)
    requires IsRun(ids, es) && i < |es|
  {
    c in At(ids, es, i + 1).conns && At(ids, es, i + 1).conns[c].pc.ExecCall?
  }

  /** What a watched pair's version counter showed when it was last watched, and shows now. */
  ghost predicate Unmoved(ids: set<Id>, es: seq<Event>, t: nat, i: nat, p: (int, string))
    requires IsRun(ids, es) && t <= i <= |es|
  {
    Uint(Ver(Get(At(ids, es, i).dbs, p.0), p.1)) <= Uint(Ver(Get(At(ids, es, t).dbs, p.0), p.1))
  }

  lemma CheckStep(s: State, e: Event)
    requires e.c in s.conns && s.conns[e.c].pc.ExecCheck? && Step(s, e).Some?
    ensures
      var x := s.conns[e.c];
      var r := Step(s, e).value;
      && InTx(x.ctx) && r.dbs == s.dbs && e.c in r.conns
      && r.conns[e.c] == if WatchHolds(x.ctx, s.dbs)
           then x.(out := x.out + [Len(|x.ctx.tx.value|)], pc := ExecCall(0))
           else x.(ctx := x.ctx.(tx := None, watch := map[]), out := x.out + [Len(0)], pc := Unlocking)
  {
    hide WatchHolds;
  }

  /** At its check EXEC serves a request of its client in a transaction that is not spoilt. */
  lemma AtCheck(ids: set<Id>, es: seq<Event>, i: nat, c: Id)
    requires IsRun(ids, es) && Checks(ids, es, i, c)
    ensures
      var rs, x := Requests(es[..i], c), At(ids, es, i).conns[c];
      && rs == BeforeExec(es, i, c) + [Exec] && InTransaction(BeforeExec(es, i, c)) && !Doomed(BeforeExec(es, i, c))
      && Settled(x.ctx, BeforeExec(es, i, c)) && x.handled == |BeforeExec(es, i, c)|
  {
    hide At, Step, LockInv, AgreeAll, Settled, InTransaction, Doomed, IsRun, Requests, Follows, BeforeExec;
    BeforeEvent(ids, es, i);
    RunFollows(ids, es, i, c);
    FollowsExec(At(ids, es, i).conns[c], Requests(es[..i], c));
    LastRequest(es, i, c);
  }

  lemma FollowsExec(x: Conn, rs: seq<Request>)
    requires Follows(x, rs) && x.pc.ExecCheck?
    ensures rs != [] && x.handled == |rs| - 1 && rs == rs[..|rs| - 1] + [Exec]
    ensures InTransaction(rs[..|rs| - 1]) && !Doomed(rs[..|rs| - 1]) && Settled(x.ctx, rs[..|rs| - 1])
  {
    hide Settled, InTransaction, Doomed;
  }

  lemma LastRequest(es: seq<Event>, i: nat, c: Id)
    requires i <= |es| && Requests(es[..i], c) != []
    ensures BeforeExec(es, i, c) == Requests(es[..i], c)[..|Requests(es[..i], c)| - 1]
  {
    hide Requests;
  }

  /** EXEC's check, for every run: the queue runs if and only if no key watched since the latest UNWATCH
      or end of a transaction shows a higher version than at its latest WATCH. Otherwise the answer is
      an empty array and the transaction is over. No database changes. */
  lemma ExecDecides(ids: set<Id>, es: seq<Event>, i: nat, c: Id)
    requires IsRun(ids, es) && Checks(ids, es, i, c)
    ensures
      var before := BeforeExec(es, i, c);
      var x := At(ids, es, i).conns[c];
      && Requests(es[..i], c) == before + [Exec] && InTransaction(before) && !Doomed(before)
      && (Runs(ids, es, i, c) <==>
            forall p, t: nat :: Watched(before, p) && LatestWatch(ids, es, t, i, c, p) ==> Unmoved(ids, es, t, i, p))
      && At(ids, es, i + 1).dbs == At(ids, es, i).dbs && c in At(ids, es, i + 1).conns
      && var y := At(ids, es, i + 1).conns[c];
         (if Runs(ids, es, i, c) then
            y == x.(out := x.out + [Len(|Backlog(before)|)], pc := ExecCall(0)) && y.ctx.tx == Some(Backlog(before))
          else y.out == x.out + [Len(0)] && y.pc.Unlocking? && !InTx(y.ctx) && y.ctx.watch == map[])
  {
    AtCheck(ids, es, i, c);
    BeforeEvent(ids, es, i);
    hide At, LockInv, AgreeAll, Backlog, InTransaction, Doomed, Watched, Ver, Uint, Get;
    var s := At(ids, es, i);
    var w := s.conns[c].ctx.watch;
    CheckStep(s, es[i]);
    hide Step;
    forall p, t: nat | p in w && LatestWatch(ids, es, t, i, c, p)
      ensures Unmoved(ids, es, t, i, p) <==> Uint(Ver(Get(s.dbs, p.0), p.1)) <= w[p]
    {
      WatchOrigin(ids, es, i, c, p);
      var j: nat :| Origin(ids, es, j, i, c, p, w[p]);
      SameLatest(ids, es, t, j, i, c, p);
    }
    forall p | p in w
      ensures exists t: nat :: LatestWatch(ids, es, t, i, c, p)
    {
      WatchOrigin(ids, es, i, c, p);
      var j: nat :| Origin(ids, es, j, i, c, p, w[p]);
    }
  }

  lemma SameLatest(ids: set<Id>, es: seq<Event>, t: nat, u: nat, i: nat, c: Id, p: (int, string))
    requires IsRun(ids, es) && i <= |es| && LatestWatch(ids, es, t, i, c, p) && LatestWatch(ids, es, u, i, c, p)
    ensures t == u
  {
    hide Records;
  }

  /** No watched counter has come round to zero. */
  ghost predicate NoWrap(ids: set<Id>, es: seq<Event>, i: nat, c: Id)
    requires IsRun(ids, es) && i <= |es|
  {
    forall p :: Watched(BeforeExec(es, i, c), p) ==> Ver(Get(At(ids, es, i).dbs, p.0), p.1) < UINT_RANGE
  }

  /** As long as no counter has wrapped around, EXEC runs its queue exactly when the version of every
      watched key is what it was at its latest WATCH. */
  lemma WatchExact(ids: set<Id>, es: seq<Event>, i: nat, c: Id)
    requires IsRun(ids, es) && Checks(ids, es, i, c) && NoWrap(ids, es, i, c)
    ensures Runs(ids, es, i, c) <==>
      forall p, t: nat :: Watched(BeforeExec(es, i, c), p) && LatestWatch(ids, es, t, i, c, p) ==>
        Ver(Get(At(ids, es, t).dbs, p.0), p.1) == Ver(Get(At(ids, es, i).dbs, p.0), p.1)
  {
    ExecDecides(ids, es, i, c);
    BeforeEvent(ids, es, i);
    hide At, Step, LockInv, AgreeAll, IsRun, Watched, Unmoved, Records, Runs, BeforeExec;
    forall p, t: nat | Watched(BeforeExec(es, i, c), p) && LatestWatch(ids, es, t, i, c, p)
      ensures Unmoved(ids, es, t, i, p) <==>
        Ver(Get(At(ids, es, t).dbs, p.0), p.1) == Ver(Get(At(ids, es, i).dbs, p.0), p.1)
    {
      NoMove(ids, es, t, i, p);
    }
  }

  lemma NoMove(ids: set<Id>, es: seq<Event>, t: nat, i: nat, p: (int, string))
    requires IsRun(ids, es) && t <= i < |es| && !At(ids, es, i).crashed
    requires Ver(Get(At(ids, es, i).dbs, p.0), p.1) < UINT_RANGE
    ensures Unmoved(ids, es, t, i, p) <==>
      Ver(Get(At(ids, es, t).dbs, p.0), p.1) == Ver(Get(At(ids, es, i).dbs, p.0), p.1)
  {
    hide At;
    StretchEvolves(ids, es, t, i, p.0, p.1);
  }

  /** WATCH soundness over whole runs, exactly: when EXEC runs its queue, and as long as the 64-bit
      counter has not wrapped around, a watched (database, key) has the type and contents it had at its
      latest WATCH, whatever the other connections did since, if and only if no flush found the key in
      between. */
  lemma WatchSoundness(ids: set<Id>, es: seq<Event>, i: nat, c: Id, p: (int, string))
    requires IsRun(ids, es) && Checks(ids, es, i, c) && Runs(ids, es, i, c) && Watched(BeforeExec(es, i, c), p)
    ensures exists t: nat :: (LatestWatch(ids, es, t, i, c, p) &&
      (Ver(Get(At(ids, es, i).dbs, p.0), p.1) < UINT_RANGE ==>
        (Same(Get(At(ids, es, t).dbs, p.0), Get(At(ids, es, i).dbs, p.0), p.1) <==>
          !LostToFlush(ids, es, t, i, p.0, p.1))))
  {
    AtCheck(ids, es, i, c);
    BeforeEvent(ids, es, i);
    ExecDecides(ids, es, i, c);
    hide Step, At, LockInv, AgreeAll, IsRun, Runs, Watched, Same, LostToFlush, Checks;
    WatchOrigin(ids, es, i, c, p);
    var t: nat :| Origin(ids, es, t, i, c, p, At(ids, es, i).conns[c].ctx.watch[p]);
    assert LatestWatch(ids, es, t, i, c, p);
    if Ver(Get(At(ids, es, i).dbs, p.0), p.1) < UINT_RANGE {
      NoMove(ids, es, t, i, p);
      SameVersionExact(ids, es, t, i, p.0, p.1);
    }
  }
}
