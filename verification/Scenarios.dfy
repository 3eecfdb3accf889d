/** Runs in which the server does not do what one might expect of it: they show that the conditions in
    `Wakeups` and `Watching` cannot be dropped. Two connections, 0 and 1. */
module Scenarios {
  import opened Base
  import opened Store
  import opened Resp
  import opened Commands
  import opened Glob
  import opened GlobMeaning
  import opened Machine
  import opened History
  import opened LockSafety
  import opened Wakeups
  import opened Watching

  const BOTH: set<Id> := {0, 1}

  function Two(dbs: Dbs, mutex: Option<Id>, x: Conn, y: Conn): (s: State) {
    State(dbs, mutex, map[0 := x, 1 := y], false)
  }

  const FRESH: Conn := Conn(FreshCtx, Idle, [], 0)

  /** `es` leads from a fresh server to `s`. */
  ghost predicate Leads(es: seq<Event>, s: State) { After(BOTH, es) == Some(s) }

  lemma Start()
    ensures Leads([], Two(map[], None, FRESH, FRESH))
  {
    assert Init(BOTH).conns == map[0 := FRESH, 1 := FRESH];
  }

  lemma Next(es: seq<Event>, s: State, e: Event, r: State)
    requires Leads(es, s) && Step(s, e) == Some(r)
    ensures Leads(es + [e], r)
  {
    assert (es + [e])[..|es|] == es;
  }

  const GO: Act := Go([])

  /** An event of connection 0. */
  lemma By0(es: seq<Event>, dbs: Dbs, m: Option<Id>, x: Conn, y: Conn, a: Act, dbs': Dbs, m': Option<Id>, x': Conn)
    requires Leads(es, Two(dbs, m, x, y))
    requires Step(Two(dbs, m, x, y), Event(0, a)) == Some(State(dbs', m', Two(dbs, m, x, y).conns[0 := x'], false))
    ensures Leads(es + [Event(0, a)], Two(dbs', m', x', y))
  {
    assert Two(dbs, m, x, y).conns[0 := x'] == map[0 := x', 1 := y];
    Next(es, Two(dbs, m, x, y), Event(0, a), Two(dbs', m', x', y));
  }

  /** An event of connection 1. */
  lemma By1(es: seq<Event>, dbs: Dbs, m: Option<Id>, x: Conn, y: Conn, a: Act, dbs': Dbs, m': Option<Id>, y': Conn)
    requires Leads(es, Two(dbs, m, x, y))
    requires Step(Two(dbs, m, x, y), Event(1, a)) == Some(State(dbs', m', Two(dbs, m, x, y).conns[1 := y'], false))
    ensures Leads(es + [Event(1, a)], Two(dbs', m', x, y'))
  {
    assert Two(dbs, m, x, y).conns[1 := y'] == map[0 := x, 1 := y'];
    Next(es, Two(dbs, m, x, y), Event(1, a), Two(dbs', m', x, y'));
  }

  /** A whole command of connection 1 while connection 0 has no helper goroutine. */
  lemma WholeCommand(es: seq<Event>, dbs: Dbs, x: Conn, y: Conn, cmd: Cmd, dbs': Dbs, reply: seq<Tok>)
    returns (longer: seq<Event>)
    requires Leads(es, Two(dbs, None, x, y)) && y.pc.Idle? && !InTx(y.ctx) && !x.pc.BlockWait?
    requires ValidChoice(dbs, y.ctx.sel, cmd, []) && !SetsDirty(cmd)
    requires Run(dbs, y.ctx.sel, cmd, []) == Done(dbs', reply)
    ensures es <= longer && Leads(longer, Two(dbs', None, x, y.(out := y.out + reply, handled := y.handled + 1)))
  {
    hide Run, ValidChoice, Leads, Step;
    longer := UpToCallback(es, dbs, x, y, cmd);
    var called := y.(pc := TxBroadcast, out := y.out + reply);
    CallbackEvent(dbs, x, y, cmd, dbs', reply);
    By1(longer, dbs, Some(1), x, y.(pc := TxCall(cmd)), GO, dbs', Some(1), called);
    longer := BehindCallback(longer + [Event(1, GO)], dbs', x, called);
  }

  lemma CallbackEvent(dbs: Dbs, x: Conn, y: Conn, cmd: Cmd, dbs': Dbs, reply: seq<Tok>)
    requires ValidChoice(dbs, y.ctx.sel, cmd, []) && !SetsDirty(cmd)
    requires Run(dbs, y.ctx.sel, cmd, []) == Done(dbs', reply)
    ensures
      var s := Two(dbs, Some(1), x, y.(pc := TxCall(cmd)));
      Step(s, Event(1, GO)) ==
        Some(State(dbs', Some(1), s.conns[1 := y.(pc := TxBroadcast, out := y.out + reply)], false))
  {
    hide Run, ValidChoice;
  }

  lemma UpToCallback(es: seq<Event>, dbs: Dbs, x: Conn, y: Conn, cmd: Cmd) returns (longer: seq<Event>)
    requires Leads(es, Two(dbs, None, x, y)) && y.pc.Idle? && !InTx(y.ctx)
    ensures es <= longer && Leads(longer, Two(dbs, Some(1), x, y.(pc := TxCall(cmd))))
  {
    hide Leads;
    var y1 := y.(pc := TxLock(cmd));
    By1(es, dbs, None, x, y, Submit(Command(cmd)), dbs, None, y1);
    longer := es + [Event(1, Submit(Command(cmd)))];
    By1(longer, dbs, None, x, y1, GO, dbs, Some(1), y.(pc := TxCall(cmd)));
    longer := longer + [Event(1, GO)];
  }

  lemma BehindCallback(es: seq<Event>, dbs: Dbs, x: Conn, y: Conn) returns (longer: seq<Event>)
    requires Leads(es, Two(dbs, Some(1), x, y)) && y.pc.TxBroadcast? && !x.pc.BlockWait?
    ensures es <= longer && Leads(longer, Two(dbs, None, x, y.(pc := Idle, handled := y.handled + 1)))
  {
    hide Leads;
    var s := Two(dbs, Some(1), x, y);
    var y1 := y.(pc := Unlocking);
    assert Broadcast(Put(s, 1, y1)).conns == map[0 := x, 1 := y1];
    Next(es, s, Event(1, GO), Two(dbs, Some(1), x, y1));
    longer := es + [Event(1, GO)];
    By1(longer, dbs, Some(1), x, y1, GO, dbs, None, y1.(pc := Idle, handled := y.handled + 1));
    longer := longer + [Event(1, GO)];
  }

  // ---------- A lost wake-up ----------

  const B1: DB := DB(map["b" := ListTag], map["b" := ["v"]], map[], map["b" := 1])
  const A2: DB := DB(map["a" := ListTag], map["a" := ["v"]], map[], map["b" := 2, "a" := 1])
  const WAIT: BlockCmd := BPop(["a"], Left)
  const SHIFT: BlockCmd := BRPopLPush("b", "a")
  const PUSH: Cmd := L(Push("b", ["v"], Right))

  lemma CallbacksOfTheRun()
    ensures Run(map[], 0, PUSH, []) == Done(map[0 := B1], [Number(1)]) && ValidChoice(map[], 0, PUSH, [])
    ensures RunTry(B1, WAIT) == None
    ensures RunTry(B1, SHIFT) == Some(Done(A2, [Bulk("v")]))
    ensures RunTry(A2, WAIT).Some?
  {
    FirstPush();
    Shifted();
    assert ["a"][1..] == [];
  }

  lemma FirstPush()
    ensures Run(map[], 0, PUSH, []) == Done(map[0 := B1], [Number(1)]) && ValidChoice(map[], 0, PUSH, [])
  {
    var d := ListPush(EmptyDB, "b", ["v"]);
    assert [] + ["v"] == ["v"] && ["v"][1..] == [];
    assert d.keys == B1.keys && d.lists == B1.lists && d.sets == B1.sets && d.version == B1.version;
    assert PushAll(EmptyDB, "b", ["v"], Right) == PushAll(d, "b", [], Right) == d;
    assert Get(map[], 0) == EmptyDB;
  }

  lemma Shifted()
    ensures RunTry(B1, SHIFT) == Some(Done(A2, [Bulk("v")]))
  {
    var d := ListPop(B1, "b");
    assert ListAt(B1, "b")[..0] == [];
    assert d.keys == map[] && d.lists == map[] && d.sets == map[] && d.version == map["b" := 2];
    var e := ListLpush(d, "a", "v");
    assert ["v"] + [] == ["v"];
    assert e.keys == A2.keys && e.lists == A2.lists && e.sets == A2.sets && e.version == A2.version;
  }

  /** Connection 0 blocks on `b`, whose callback cannot complete; its helper goes to sleep if `parks`. */
  lemma Blocks(es: seq<Event>, dbs: Dbs, x: Conn, y: Conn, b: BlockCmd, timed: bool, parks: bool)
    returns (longer: seq<Event>)
    requires Leads(es, Two(dbs, None, x, y)) && x.pc.Idle? && !InTx(x.ctx) && x.ctx.sel in dbs
    requires RunTry(dbs[x.ctx.sel], b).None?
    ensures Leads(longer, Two(dbs, if parks then None else Some(0),
      x.(pc := BlockWait(b, timed, Selecting, if parks then Parked(false) else Spawned)), y))
  {
    hide RunTry, Leads;
    var x1 := x.(pc := BlockLock(b, timed));
    By0(es, dbs, None, x, y, Submit(Block(b, timed)), dbs, None, x1);
    var e1 := es + [Event(0, Submit(Block(b, timed)))];
    var x2 := x.(pc := BlockTry(b, timed));
    By0(e1, dbs, None, x1, y, GO, dbs, Some(0), x2);
    var e2 := e1 + [Event(0, GO)];
    var x3 := x.(pc := BlockWait(b, timed, Selecting, Spawned));
    assert dbs[x.ctx.sel := dbs[x.ctx.sel]] == dbs;
    By0(e2, dbs, Some(0), x2, y, GO, dbs, Some(0), x3);
    longer := e2 + [Event(0, GO)];
    if parks {
      longer := Parks(longer, dbs, x3, y);
    }
  }

  /** The helper goroutine of connection 0 joins the notify list and goes to sleep. */
  lemma Parks(es: seq<Event>, dbs: Dbs, x: Conn, y: Conn) returns (longer: seq<Event>)
    requires Leads(es, Two(dbs, Some(0), x, y)) && x.pc.BlockWait? && x.pc.helper.Spawned?
    ensures Leads(longer, Two(dbs, None, x.(pc := x.pc.(helper := Parked(false))), y))
  {
    hide Leads;
    var listed := x.(pc := x.pc.(helper := Listed(false)));
    By0(es, dbs, Some(0), x, y, Help, dbs, Some(0), listed);
    longer := es + [Event(0, Help)];
    By0(longer, dbs, Some(0), listed, y, Help, dbs, None, x.(pc := x.pc.(helper := Parked(false))));
    longer := longer + [Event(0, Help)];
  }

  /** Connection 1 issues a blocking command that completes at once. */
  lemma Completes(es: seq<Event>, dbs: Dbs, x: Conn, y: Conn, b: BlockCmd, db: DB, reply: seq<Tok>)
    returns (longer: seq<Event>)
    requires Leads(es, Two(dbs, None, x, y)) && y.pc.Idle? && !InTx(y.ctx)
    requires RunTry(Get(dbs, y.ctx.sel), b) == Some(Done(db, reply))
    ensures Leads(longer,
      Two(dbs[y.ctx.sel := db], None, x, y.(out := y.out + reply, handled := y.handled + 1)))
  {
    hide RunTry, Leads;
    var y1 := y.(pc := BlockLock(b, false));
    By1(es, dbs, None, x, y, Submit(Block(b, false)), dbs, None, y1);
    longer := es + [Event(1, Submit(Block(b, false)))];
    var y2 := y.(pc := BlockTry(b, false));
    By1(longer, dbs, None, x, y1, GO, dbs, Some(1), y2);
    longer := longer + [Event(1, GO)];
    var y3 := y.(pc := Unlocking, out := y.out + reply);
    By1(longer, dbs, Some(1), x, y2, GO, dbs[y.ctx.sel := db], Some(1), y3);
    longer := longer + [Event(1, GO)];
    By1(longer, dbs[y.ctx.sel := db], Some(1), x, y3, GO,
        dbs[y.ctx.sel := db], None, y3.(pc := Idle, handled := y.handled + 1));
    longer := longer + [Event(1, GO)];
  }

  const PUSHED: Conn := Conn(FreshCtx, Idle, [Number(1)], 1)

  /** Connection 1 has pushed to `b`, and connection 0 blocks on `a`. */
  lemma PushThenBlock(timed: bool, parks: bool) returns (es: seq<Event>)
    ensures Leads(es, Two(map[0 := B1], if parks then None else Some(0),
      FRESH.(pc := BlockWait(WAIT, timed, Selecting, if parks then Parked(false) else Spawned)), PUSHED))
  {
    CallbacksOfTheRun();
    hide Run, RunTry, Leads, Two;
    Start();
    assert [] + [Number(1)] == [Number(1)];
    es := WholeCommand([], map[], FRESH, FRESH, PUSH, map[0 := B1], [Number(1)]);
    es := Blocks(es, map[0 := B1], FRESH, PUSHED, WAIT, timed, parks);
  }

  /** A lost wake-up: connection 1 pushes to `b`, connection 0 blocks on `a`, connection 1 shifts the
      element from `b` to `a` by BRPOPLPUSH. The mutex is free, nobody is about to broadcast, and
      connection 0 sleeps although its callback would succeed. */
  lemma LostWakeup() returns (es: seq<Event>)
    ensures After(BOTH, es).Some?
    ensures
      var s := After(BOTH, es).value;
      && s.mutex == None && s.conns.Keys == BOTH && s.conns[1].pc.Idle? && !BroadcastDue(s)
      && Asleep(s.conns[0].pc) && RunTry(Get(s.dbs, s.conns[0].ctx.sel), s.conns[0].pc.block).Some?
  {
    CallbacksOfTheRun();
    es := PushThenBlock(false, true);
    hide Run, RunTry, After;
    var x := FRESH.(pc := BlockWait(WAIT, false, Selecting, Parked(false)));
    es := Completes(es, map[0 := B1], x, PUSHED, SHIFT, A2, [Bulk("v")]);
    assert map[0 := B1][0 := A2] == map[0 := A2];
  }

  /** A lost timeout: the timer fires before the helper goroutine has run. The broadcast meant to end
      the helper comes too early; the helper then sleeps and the client waits for it: none of its
      own steps is possible, timeout or not. */
  lemma {:induction false} LostTimeout() returns (es: seq<Event>)
    ensures After(BOTH, es).Some?
    ensures
      var s := After(BOTH, es).value;
      && s.mutex == None && s.conns.Keys == BOTH && s.conns[1].pc.Idle?
      && s.conns[0].pc == BlockWait(WAIT, true, Joining, Parked(false)) && s.conns[0].out == [Null]
      && forall a :: Step(s, Event(0, a)) == None
  {
    es := PushThenBlock(true, false);
    hide After;
    es := TimesOut(es, map[0 := B1], FRESH, PUSHED, WAIT);
  }

  lemma TimesOut(es: seq<Event>, d: Dbs, x: Conn, y: Conn, b: BlockCmd) returns (longer: seq<Event>)
    requires Leads(es, Two(d, Some(0), x.(pc := BlockWait(b, true, Selecting, Spawned)), y)) && !y.pc.BlockWait?
    ensures Leads(longer,
      Two(d, None, x.(pc := BlockWait(b, true, Joining, Parked(false)), out := x.out + [Null]), y))
  {
    hide Leads;
    var x1 := x.(pc := BlockWait(b, true, Expired, Spawned));
    By0(es, d, Some(0), x.(pc := BlockWait(b, true, Selecting, Spawned)), y, Timer, d, Some(0), x1);
    longer := es + [Event(0, Timer)];
    var x2 := x.(pc := BlockWait(b, true, TimedOut, Spawned), out := x.out + [Null]);
    By0(longer, d, Some(0), x1, y, GO, d, Some(0), x2);
    longer := longer + [Event(0, GO)];
    longer := TimesOutAsHelperParks(longer, d, x2, y, b);
  }

  lemma TimesOutAsHelperParks(es: seq<Event>, d: Dbs, x: Conn, y: Conn, b: BlockCmd) returns (longer: seq<Event>)
    requires Leads(es, Two(d, Some(0), x, y)) && x.pc == BlockWait(b, true, TimedOut, Spawned) && !y.pc.BlockWait?
    ensures Leads(longer, Two(d, None, x.(pc := BlockWait(b, true, Joining, Parked(false))), y))
  {
    hide Leads;
    var x1 := x.(pc := BlockWait(b, true, Joining, Spawned));
    assert Broadcast(Put(Two(d, Some(0), x, y), 0, x1)).conns == map[0 := x1, 1 := y];
    Next(es, Two(d, Some(0), x, y), Event(0, GO), Two(d, Some(0), x1, y));
    longer := es + [Event(0, GO)];
    longer := Parks(longer, d, x1, y);
  }

  // ---------- A flush that WATCH does not see ----------

  /** Connection 0 watches `b`; `before` ends right before the version is recorded. */
  lemma Watches(es: seq<Event>, dbs: Dbs, x: Conn, y: Conn) returns (before: seq<Event>, longer: seq<Event>)
    requires Leads(es, Two(dbs, None, x, y)) && x.pc.Idle? && !InTx(x.ctx)
    ensures before < longer && longer[|before|] == Event(0, GO)
    ensures Leads(before, Two(dbs, Some(0), x.(pc := WatchRecord(["b"])), y))
    ensures Leads(longer, Two(dbs, None,
      x.(ctx := WatchKeys(x.ctx, dbs, ["b"]), out := x.out + [OK], handled := x.handled + 1), y))
  {
    hide Leads, WatchKeys;
    var x1 := x.(pc := WatchLock(["b"]));
    By0(es, dbs, None, x, y, Submit(Watch(["b"])), dbs, None, x1);
    before := es + [Event(0, Submit(Watch(["b"])))];
    var x2 := x.(pc := WatchRecord(["b"]));
    By0(before, dbs, None, x1, y, GO, dbs, Some(0), x2);
    before := before + [Event(0, GO)];
    var x3 := x.(ctx := WatchKeys(x.ctx, dbs, ["b"]), pc := Unlocking, out := x.out + [OK]);
    By0(before, dbs, Some(0), x2, y, GO, dbs, Some(0), x3);
    longer := before + [Event(0, GO)];
    By0(longer, dbs, Some(0), x3, y, GO, dbs, None, x3.(pc := Idle, handled := x.handled + 1));
    longer := longer + [Event(0, GO)];
  }

  /** Connection 0 queues a command in MULTI and reaches EXEC's check. */
  lemma ReachesCheck(es: seq<Event>, dbs: Dbs, x: Conn, y: Conn, cmd: Cmd) returns (longer: seq<Event>)
    requires Leads(es, Two(dbs, None, x, y)) && x.pc.Idle? && !InTx(x.ctx)
    ensures es <= longer
    ensures Leads(longer, Two(dbs, Some(0),
      Conn(x.ctx.(tx := Some([cmd]), dirty := false), ExecCheck, x.out + [OK] + [QUEUED], x.handled + 2), y))
  {
    hide Leads;
    var x1 := Conn(StartTx(x.ctx), Idle, x.out + [OK], x.handled + 1);
    By0(es, dbs, None, x, y, Submit(Multi), dbs, None, x1);
    longer := es + [Event(0, Submit(Multi))];
    assert [] + [cmd] == [cmd];
    var x2 := Conn(x.ctx.(tx := Some([cmd]), dirty := false), Idle, x1.out + [QUEUED], x.handled + 2);
    By0(longer, dbs, None, x1, y, Submit(Command(cmd)), dbs, None, x2);
    longer := longer + [Event(0, Submit(Command(cmd)))];
    var x3 := x2.(pc := ExecLock);
    By0(longer, dbs, None, x2, y, Submit(Exec), dbs, None, x3);
    longer := longer + [Event(0, Submit(Exec))];
    By0(longer, dbs, None, x3, y, GO, dbs, Some(0), x2.(pc := ExecCheck));
    longer := longer + [Event(0, GO)];
  }

  const EMPTIED: DB := DB(map[], map[], map[], map["b" := 1])

  lemma FlushFacts()
    ensures Run(map[0 := B1], 0, K(FlushDb), []) == Done(map[0 := EMPTIED], [OK])
    ensures ValidChoice(map[0 := B1], 0, K(FlushDb), [])
    ensures WatchKeys(FreshCtx, map[0 := B1], ["b"]) == FreshCtx.(watch := map[(0, "b") := 1])
  {
    assert map[0 := B1][0 := EMPTIED] == map[0 := EMPTIED];
    var w := WatchKeys(FreshCtx, map[0 := B1], ["b"]).watch;
    var expected: map<(int, string), nat> := map[(0, "b") := 1];
    assert "b" in ["b"] && Ver(B1, "b") == 1;
    assert (0, "b") in w && forall p :: p in w ==> p == (0, "b");
    assert w == expected;
  }

  const WATCHING: Conn := Conn(FreshCtx.(watch := map[(0, "b") := 1]), Idle, [OK], 1)

  /** Connection 1 has pushed to `b`, and connection 0 watches it. */
  lemma PushThenWatch() returns (before: seq<Event>, es: seq<Event>)
    ensures before < es && es[|before|] == Event(0, GO)
    ensures Leads(before, Two(map[0 := B1], Some(0), FRESH.(pc := WatchRecord(["b"])), PUSHED))
    ensures Leads(es, Two(map[0 := B1], None, WATCHING, PUSHED))
  {
    CallbacksOfTheRun();
    FlushFacts();
    hide Run, After, ValidChoice, WatchKeys, Leads;
    Start();
    assert [] + [Number(1)] == [Number(1)] && [] + [OK] == [OK];
    es := WholeCommand([], map[], FRESH, FRESH, PUSH, map[0 := B1], [Number(1)]);
    before, es := Watches(es, map[0 := B1], FRESH, PUSHED);
  }

  /** The last event is EXEC's check by connection 0, which watches `b` of database 0, and the check decides
      to run the queue. */
  ghost predicate RunsAnyway(es: seq<Event>) {
    && es != [] && IsRun(BOTH, es) && Checks(BOTH, es, |es| - 1, 0) && Runs(BOTH, es, |es| - 1, 0)
    && Watched(BeforeExec(es, |es| - 1, 0), (0, "b"))
  }

  /** The check passes. */
  lemma Passes(es: seq<Event>, dbs: Dbs, x: Conn, y: Conn) returns (longer: seq<Event>)
    requires Leads(es, Two(dbs, Some(0), x, y)) && x.pc.ExecCheck? && InTx(x.ctx) && (0, "b") in x.ctx.watch
    requires WatchHolds(x.ctx, dbs)
    ensures es <= longer && RunsAnyway(longer) && After(BOTH, longer).Some? && After(BOTH, longer).value.dbs == dbs
  {
    hide Leads, WatchHolds;
    var x1 := x.(out := x.out + [Len(|x.ctx.tx.value|)], pc := ExecCall(0));
    By0(es, dbs, Some(0), x, y, GO, dbs, Some(0), x1);
    longer := es + [Event(0, GO)];
    Decided(es, dbs, x, y, x1);
  }

  lemma Decided(es: seq<Event>, dbs: Dbs, x: Conn, y: Conn, x1: Conn)
    requires Leads(es, Two(dbs, Some(0), x, y)) && Leads(es + [Event(0, GO)], Two(dbs, Some(0), x1, y))
    requires x.pc.ExecCheck? && x1.pc.ExecCall? && (0, "b") in x.ctx.watch
    ensures
      var longer := es + [Event(0, GO)];
      RunsAnyway(longer) && After(BOTH, longer).Some? && After(BOTH, longer).value.dbs == dbs
  {
    var longer := es + [Event(0, GO)];
    LeadsAt(es, longer, Two(dbs, Some(0), x, y), Two(dbs, Some(0), x1, y));
    LeadsAt(longer, longer, Two(dbs, Some(0), x1, y), Two(dbs, Some(0), x1, y));
    hide After, Leads, At, Watched;
    AtCheck(BOTH, longer, |es|, 0);
  }

  /** An unseen flush: connection 0 watches `b`, connection 1 flushes the database, and EXEC runs its
      queue although `b` is gone. `n` is the event that recorded the version. */
  lemma {:induction false} UnseenFlush() returns (es: seq<Event>, n: nat)
    ensures IsRun(BOTH, es) && n < |es|
    ensures Records(At(BOTH, es, n), es[n], 0, (0, "b"))
    ensures RunsAnyway(es) && !Same(Get(At(BOTH, es, n).dbs, 0), Get(After(BOTH, es).value.dbs, 0), "b")
  {
    FlushFacts();
    hide Run, After, ValidChoice, WatchKeys, Leads;
    var before;
    before, es := PushThenWatch();
    n := |before|;
    var x := WATCHING;
    var watched := es;
    es := WholeCommand(es, map[0 := B1], x, PUSHED, K(FlushDb), map[0 := EMPTIED], [OK]);
    var y := PUSHED.(out := PUSHED.out + [OK], handled := 2);
    es := ReachesCheck(es, map[0 := EMPTIED], x, y, PUSH);
    var checked := es;
    var z := Conn(x.ctx.(tx := Some([PUSH]), dirty := false), ExecCheck, x.out + [OK] + [QUEUED], 3);
    assert Ver(EMPTIED, "b") == 1;
    es := Passes(es, map[0 := EMPTIED], z, y);
    assert before <= es by { assert watched <= checked <= es; }
    EventBefore(before, es, Two(map[0 := B1], Some(0), FRESH.(pc := WatchRecord(["b"])), PUSHED));
  }

  lemma EventBefore(before: seq<Event>, es: seq<Event>, s: State)
    requires before < es && Leads(before, s) && After(BOTH, es).Some?
    ensures IsRun(BOTH, es) && At(BOTH, es, |before|) == s
  {
    assert es[..|before|] == before;
  }

  lemma LeadsAt(before: seq<Event>, es: seq<Event>, s: State, r: State)
    requires before <= es && Leads(before, s) && Leads(es, r)
    ensures IsRun(BOTH, es) && At(BOTH, es, |before|) == s && After(BOTH, es) == Some(r)
  {
    assert es[..|before|] == before;
  }

  // ---------- A version counter that wraps around ----------

  function Overwrite(v: string): (cmd: Cmd) { L(LSet("b", 0, v)) }

  predicate HoldsOne(dbs: Dbs, v: string, version: nat) {
    var db := Get(dbs, 0);
    IsList(db, "b") && ListAt(db, "b") == [v] && Ver(db, "b") == version
  }

  lemma OneOverwrite(dbs: Dbs, v: string, version: nat, w: string)
    requires HoldsOne(dbs, v, version)
    ensures Run(dbs, 0, Overwrite(w), []).Done? && ValidChoice(dbs, 0, Overwrite(w), [])
    ensures HoldsOne(Run(dbs, 0, Overwrite(w), []).state, w, version + 1)
  {
    assert [v][0 := w] == [w];
  }

  /** Connection 1 overwrites the only element of `b`, `n` times. */
  lemma {:induction false} ManyOverwrites(es: seq<Event>, dbs: Dbs, x: Conn, y: Conn, v: string, version: nat, n: nat)
    returns (longer: seq<Event>, dbs': Dbs, y': Conn)
    requires Leads(es, Two(dbs, None, x, y)) && y.pc.Idle? && y.ctx == FreshCtx && !x.pc.BlockWait?
    requires HoldsOne(dbs, v, version)
    ensures es <= longer && Leads(longer, Two(dbs', None, x, y')) && y'.pc.Idle? && y'.ctx == FreshCtx
    ensures HoldsOne(dbs', v, version + n)
  {
    hide Leads, Run, ValidChoice, HoldsOne, Overwrite;
    longer, dbs', y' := es, dbs, y;
    if n > 0 {
      var mid;
      mid, dbs', y' := ManyOverwrites(es, dbs, x, y, v, version, n - 1);
      longer, dbs', y' := AnotherOverwrite(mid, dbs', x, y', v, version + n - 1, v);
      assert es <= longer by { assert mid <= longer; }
    }
  }

  lemma AnotherOverwrite(es: seq<Event>, dbs: Dbs, x: Conn, y: Conn, v: string, version: nat, w: string)
    returns (longer: seq<Event>, dbs': Dbs, y': Conn)
    requires Leads(es, Two(dbs, None, x, y)) && y.pc.Idle? && y.ctx == FreshCtx && !x.pc.BlockWait?
    requires HoldsOne(dbs, v, version)
    ensures es <= longer && Leads(longer, Two(dbs', None, x, y')) && y'.pc.Idle? && y'.ctx == FreshCtx
    ensures HoldsOne(dbs', w, version + 1)
  {
    hide Leads, Run, ValidChoice, HoldsOne;
    OneOverwrite(dbs, v, version, w);
    var o := Run(dbs, 0, Overwrite(w), []);
    longer := WholeCommand(es, dbs, x, y, Overwrite(w), o.state, o.reply);
    dbs', y' := o.state, y.(out := y.out + o.reply, handled := y.handled + 1);
  }

  /** A wrapped counter: connection 0 watches the one-element list `b`, connection 1 overwrites the
      element 2^64 times by LSET, the last time with another value, and EXEC runs its queue although
      `b` has changed. */
  lemma {:induction false} WrappedCounter() returns (es: seq<Event>, n: nat)
    ensures IsRun(BOTH, es) && n < |es|
    ensures Records(At(BOTH, es, n), es[n], 0, (0, "b"))
    ensures RunsAnyway(es) && ListAt(Get(At(BOTH, es, n).dbs, 0), "b") == ["v"]
    ensures ListAt(Get(After(BOTH, es).value.dbs, 0), "b") == ["w"]
  {
    FlushFacts();
    assert HoldsOne(map[0 := B1], "v", 1);
    hide Run, After, ValidChoice, WatchKeys, Leads;
    var before;
    before, es := PushThenWatch();
    n := |before|;
    var watched := es;
    var dbs, y;
    es, dbs, y := ManyOverwrites(es, map[0 := B1], WATCHING, PUSHED, "v", 1, UINT_RANGE - 1);
    assert watched <= es;
    var most := es;
    es, dbs, y := AnotherOverwrite(es, dbs, WATCHING, y, "v", UINT_RANGE, "w");
    assert watched <= es by { assert most <= es; }
    es := WrappedCheck(before, watched, es, dbs, y);
  }

  lemma WrappedCheck(before: seq<Event>, watched: seq<Event>, es: seq<Event>, dbs: Dbs, y: Conn)
    returns (longer: seq<Event>)
    requires before < watched <= es && watched[|before|] == Event(0, GO)
    requires Leads(before, Two(map[0 := B1], Some(0), FRESH.(pc := WatchRecord(["b"])), PUSHED))
    requires Leads(es, Two(dbs, None, WATCHING, y)) && HoldsOne(dbs, "w", UINT_RANGE + 1)
    ensures IsRun(BOTH, longer) && |before| < |longer|
    ensures Records(At(BOTH, longer, |before|), longer[|before|], 0, (0, "b"))
    ensures RunsAnyway(longer) && ListAt(Get(At(BOTH, longer, |before|).dbs, 0), "b") == ["v"]
    ensures ListAt(Get(After(BOTH, longer).value.dbs, 0), "b") == ["w"]
  {
    hide After, Leads;
    var x := WATCHING;
    var checked := ReachesCheck(es, dbs, x, y, PUSH);
    var z := Conn(x.ctx.(tx := Some([PUSH]), dirty := false), ExecCheck, x.out + [OK] + [QUEUED], 3);
    assert Uint(UINT_RANGE + 1) == 1;
    longer := Passes(checked, dbs, z, y);
    assert watched <= longer by { assert watched <= es <= checked <= longer; }
    EventBefore(before, longer, Two(map[0 := B1], Some(0), FRESH.(pc := WatchRecord(["b"])), PUSHED));
  }

  // ---------- A pattern that brings the server down ----------

  /** Connection 1 sends `KEYS [b-a]` to a fresh server, and the process dies. */
  lemma PatternCrash(beyond: bool) returns (es: seq<Event>)
    ensures After(BOTH, es).Some? && After(BOTH, es).value.crashed
  {
    var cmd := K(Keys(Pattern("[b-a]", beyond)));
    Start();
    es := UpToCallback([], map[], FRESH, FRESH, cmd);
    var s := Two(map[], Some(1), FRESH, FRESH.(pc := TxCall(cmd)));
    DescendingRange(beyond);
    hide CompilePanics, Leads;
    KeysDies(s, Pattern("[b-a]", beyond));
    Next(es, s, Event(1, GO), s.(crashed := true));
    es := es + [Event(1, GO)];
    Ends(es, s.(crashed := true));
  }

  lemma Ends(es: seq<Event>, s: State)
    requires Leads(es, s)
    ensures After(BOTH, es) == Some(s)
  {
  }

  lemma KeysDies(s: State, p: Pattern)
    requires !s.crashed && 1 in s.conns && s.conns[1].pc == TxCall(K(Keys(p))) && CompilePanics(p)
    requires Get(s.dbs, s.conns[1].ctx.sel) == EmptyDB
    ensures Step(s, Event(1, GO)) == Some(s.(crashed := true))
  {
    var nothing: seq<string> := [];
    assert Elems(nothing) == {};
    NothingSelected(p);
    hide CompilePanics, MaySelect;
  }

  lemma NothingSelected(p: Pattern)
    requires CompilePanics(p)
    ensures MaySelect(p, {}, {})
  {
  }
}
