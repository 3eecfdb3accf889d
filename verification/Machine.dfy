/** The server as a step machine: any number of connections, each with a main goroutine and, while a
    blocking command waits, a helper goroutine, over one mutex, one condition variable and the
    databases (redis.go, cmd_transactions.go, rediqueue.go). Every goroutine step between two
    synchronisation points is one event, so a run is any interleaving the Go scheduler allows. */
module Machine {
  import opened Base
  import opened Store
  import opened Resp
  import opened Commands

  type Id = nat

  // ---------- Connection state ----------

  /** `connCtx`. A recorded version is what the Go counter showed. */
  datatype Ctx = Ctx(sel: int, tx: Option<seq<Cmd>>, dirty: bool, watch: map<(int, string), nat>)

  const FreshCtx: Ctx := Ctx(0, None, false, map[])

  predicate InTx(x: Ctx) { x.tx.Some? }

  function StartTx(x: Ctx): (r: Ctx) { x.(tx := Some([]), dirty := false) }

  function StopTx(x: Ctx): (r: Ctx) { x.(tx := None, watch := map[]) }

  function AddTxCmd(x: Ctx, c: Cmd): (r: Ctx)
    requires InTx(x)
  {
    x.(tx := Some(x.tx.value + [c]))
  }

  /** WATCH records the version each key shows now, replacing an earlier record. */
  function WatchKeys(x: Ctx, dbs: Dbs, keys: seq<string>): (r: Ctx) {
    x.(watch := x.watch + map k | k in keys :: (x.sel, k) := Uint(Ver(Get(dbs, x.sel), k)))
  }

  /** EXEC's check: no watched key shows a higher version than recorded. */
  predicate WatchHolds(x: Ctx, dbs: Dbs) {
    forall p :: p in x.watch ==> Uint(Ver(Get(dbs, p.0), p.1)) <= x.watch[p]
  }

  /** What a client asks for, after the handler has looked at its arguments. */
  datatype Request =
    | Command(cmd: Cmd)                        // a handler that ends in withTx
    | Block(block: BlockCmd, timed: bool)      // a handler that ends in blocking; timed: timeout != 0
    | Multi
    | Exec
    | Discard
    | Watch(keys: seq<string>)
    | Unwatch
    | Select(id: Int64)
    | Rejected(dirties: bool, text: string)    // a failed argument check or an unknown command

  /** Where the main goroutine is inside one round of `blocking`. */
  datatype MainPhase =
    | Selecting      // at the select
    | Woken          // received from wakeup, at wg.Wait()
    | Expired        // received from the timer, before onTimeout
    | TimedOut       // reply written, before Broadcast
    | Joining        // after Broadcast, at wg.Wait()

  /** Where the helper goroutine is. `notified` is its entry in the condition's notify list. */
  datatype HelperPhase =
    | Spawned                   // before it joins the notify list
    | Listed(notified: bool)    // in the list, before Wait releases the mutex
    | Parked(notified: bool)    // mutex released
    | Relocked                  // Wait has taken the mutex again
    | Sent                      // wakeup channel filled
    | Finished                  // wg.Done() called

  datatype PC =
    | Idle
    | TxLock(cmd: Cmd) | TxCall(cmd: Cmd) | TxBroadcast
    | ExecLock | ExecCheck | ExecCall(next: nat) | ExecStop
    | WatchLock(keys: seq<string>) | WatchRecord(keys: seq<string>)
    | SelectLock(id: Int64) | SelectSet(id: Int64)
    | BlockLock(block: BlockCmd, timed: bool) | BlockTry(block: BlockCmd, timed: bool)
    | BlockWait(block: BlockCmd, timed: bool, phase: MainPhase, helper: HelperPhase)
    | Unlocking

  /** `out` is everything written to the peer; `handled` counts the finished requests. */
  datatype Conn = Conn(ctx: Ctx, pc: PC, out: seq<Tok>, handled: nat)

  /** The owner in `mutex` is bookkeeping: Unlock never looks at it. */
  datatype State = State(dbs: Dbs, mutex: Option<Id>, conns: map<Id, Conn>, crashed: bool)

  datatype Act =
    | Submit(req: Request)          // dispatch of the next request
    | Go(choice: seq<string>)       // next step of the main goroutine
    | Wake                          // select: wakeup
    | Timer                         // select: timer channel
    | Help                          // next step of the helper goroutine

  datatype Event = Event(c: Id, act: Act)

  const QUEUED: Tok := Inline("QUEUED")
  const NESTED: Tok := Error("ERR MULTI calls can not be nested")
  const EXEC_ALONE: Tok := Error("ERR EXEC without MULTI")
  const DISCARD_ALONE: Tok := Error("ERR DISCARD without MULTI")
  const EXEC_ABORT: Tok := Error("EXECABORT Transaction discarded " + "because of previous errors.")
  const WATCH_IN_MULTI: Tok := Error("ERR WATCH in MULTI")

  // ---------- Steps ----------

  function Init(ids: set<Id>): (s: State) {
    State(map[], None, map c | c in ids :: Conn(FreshCtx, Idle, [], 0), false)
  }

  function Put(s: State, c: Id, x: Conn): (r: State) { s.(conns := s.conns[c := x]) }

  /** A request answered on the spot. */
  function Answer(x: Conn, ctx: Ctx, t: Tok): (r: Conn) {
    x.(ctx := ctx, out := x.out + [t], handled := x.handled + 1)
  }

  /** The part of a handler that runs before any lock is taken. */
  function Dispatch(x: Conn, req: Request): (r: Conn) {
    match req
    case Command(cmd) =>
      if InTx(x.ctx) then Answer(x, AddTxCmd(x.ctx, cmd), QUEUED) else x.(pc := TxLock(cmd))
    case Block(b, timed) =>
      if InTx(x.ctx) then Answer(x, AddTxCmd(x.ctx, Try(b)), QUEUED) else x.(pc := BlockLock(b, timed))
    case Multi => if InTx(x.ctx) then Answer(x, x.ctx, NESTED) else Answer(x, StartTx(x.ctx), OK)
    case Exec =>
      if !InTx(x.ctx) then Answer(x, x.ctx, EXEC_ALONE)
      else if x.ctx.dirty then Answer(x, x.ctx, EXEC_ABORT)
      else x.(pc := ExecLock)
    case Discard => if !InTx(x.ctx) then Answer(x, x.ctx, DISCARD_ALONE) else Answer(x, StopTx(x.ctx), OK)
    case Watch(keys) => if InTx(x.ctx) then Answer(x, x.ctx, WATCH_IN_MULTI) else x.(pc := WatchLock(keys))
    case Unwatch =>
      var ctx := x.ctx.(watch := map[]);
      if InTx(ctx) then Answer(x, AddTxCmd(ctx, K(Ok)), QUEUED) else x.(ctx := ctx, pc := TxLock(K(Ok)))
    case Select(id) => x.(pc := SelectLock(id))
    case Rejected(dirties, text) => Answer(x, x.ctx.(dirty := x.ctx.dirty || dirties), Error(text))
  }

  /** `m.Lock()`: possible only while the mutex is free. */
  function Lock(s: State, c: Id, x: Conn): (r: Option<State>) {
    if s.mutex.Some? then None else Some(Put(s, c, x).(mutex := Some(c)))
  }

  /** `m.Unlock()`: Go aborts the process if the mutex is not locked. */
  function Unlock(s: State, c: Id, x: Conn): (r: State) {
    if s.mutex.None? then s.(crashed := true) else Put(s, c, x).(mutex := None)
  }

  function Notify(x: Conn): (r: Conn) {
    if !x.pc.BlockWait? then x
    else match x.pc.helper
      case Listed(_) => x.(pc := x.pc.(helper := Listed(true)))
      case Parked(_) => x.(pc := x.pc.(helper := Parked(true)))
      case _ => x
  }

  /** `m.signal.Broadcast()` */
  function Broadcast(s: State): (r: State) {
    s.(conns := map c | c in s.conns :: Notify(s.conns[c]))
  }

  /** One callback of `cmd` by connection `c`, which then continues at `pc`. */
  function Call(s: State, c: Id, x: Conn, cmd: Cmd, choice: seq<string>, pc: PC): (r: Option<State>) {
    if !ValidChoice(s.dbs, x.ctx.sel, cmd, choice) then None
    else match Run(s.dbs, x.ctx.sel, cmd, choice)
      case Panic => Some(s.(crashed := true))
      case Done(dbs, reply) =>
        var ctx := x.ctx.(dirty := x.ctx.dirty || SetsDirty(cmd));
        Some(Put(s, c, x.(ctx := ctx, pc := pc, out := x.out + reply)).(dbs := dbs))
  }

  /** One call of a blocking callback. */
  function CallTry(s: State, c: Id, x: Conn, b: BlockCmd, timed: bool): (r: State) {
    match RunTry(Get(s.dbs, x.ctx.sel), b)
    case None =>
      Put(s, c, x.(pc := BlockWait(b, timed, Selecting, Spawned))).(dbs := s.dbs[x.ctx.sel := Get(s.dbs, x.ctx.sel)])
    case Some(Panic) => s.(crashed := true)
    case Some(Done(db, reply)) =>
      Put(s, c, x.(pc := Unlocking, out := x.out + reply)).(dbs := s.dbs[x.ctx.sel := db])
  }

  function MainStep(s: State, c: Id, x: Conn, choice: seq<string>): (r: Option<State>) {
    match x.pc
    case Idle => None
    case TxLock(cmd) => Lock(s, c, x.(pc := TxCall(cmd)))
    case TxCall(cmd) => Call(s, c, x, cmd, choice, TxBroadcast)
    case TxBroadcast => Some(Broadcast(Put(s, c, x.(pc := Unlocking))))
    case ExecLock => Lock(s, c, x.(pc := ExecCheck))
    case ExecCheck =>
      if x.ctx.tx.None? then None
      else if !WatchHolds(x.ctx, s.dbs) then
        Some(Put(s, c, x.(ctx := StopTx(x.ctx), out := x.out + [Len(0)], pc := Unlocking)))
      else Some(Put(s, c, x.(out := x.out + [Len(|x.ctx.tx.value|)], pc := ExecCall(0))))
    case ExecCall(i) =>
      if x.ctx.tx.None? then None
      else if i < |x.ctx.tx.value| then Call(s, c, x, x.ctx.tx.value[i], choice, ExecCall(i + 1))
      else Some(Broadcast(Put(s, c, x.(pc := ExecStop))))
    case ExecStop => Some(Put(s, c, x.(ctx := StopTx(x.ctx), pc := Unlocking)))
    case WatchLock(keys) => Lock(s, c, x.(pc := WatchRecord(keys)))
    case WatchRecord(keys) =>
      Some(Put(s, c, x.(ctx := WatchKeys(x.ctx, s.dbs, keys), out := x.out + [OK], pc := Unlocking)))
    case SelectLock(id) => Lock(s, c, x.(pc := SelectSet(id)))
    case SelectSet(id) => Some(Put(s, c, x.(ctx := x.ctx.(sel := id), out := x.out + [OK], pc := Unlocking)))
    case BlockLock(b, timed) => Lock(s, c, x.(pc := BlockTry(b, timed)))
    case BlockTry(b, timed) => Some(CallTry(s, c, x, b, timed))
    case BlockWait(b, timed, phase, helper) =>
      (match phase
       case Selecting => None
       case Woken => if helper.Finished? then Some(Put(s, c, x.(pc := BlockTry(b, timed)))) else None
       case Expired => Some(Put(s, c, x.(out := x.out + [Null], pc := x.pc.(phase := TimedOut))))
       case TimedOut => Some(Broadcast(Put(s, c, x.(pc := x.pc.(phase := Joining)))))
       case Joining => if helper.Finished? then Some(Put(s, c, x.(pc := Unlocking))) else None)
    case Unlocking => Some(Unlock(s, c, x.(pc := Idle, handled := x.handled + 1)))
  }

  function HelperStep(s: State, c: Id, x: Conn): (r: Option<State>) {
    if !x.pc.BlockWait? then None
    else match x.pc.helper
      case Spawned => Some(Put(s, c, x.(pc := x.pc.(helper := Listed(false)))))
      case Listed(n) => Some(Unlock(s, c, x.(pc := x.pc.(helper := Parked(n)))))
      case Parked(n) => if n then Lock(s, c, x.(pc := x.pc.(helper := Relocked))) else None
      case Relocked => Some(Put(s, c, x.(pc := x.pc.(helper := Sent))))
      case Sent => Some(Put(s, c, x.(pc := x.pc.(helper := Finished))))
      case Finished => None
  }

  predicate AtSelect(pc: PC) { pc.BlockWait? && pc.phase.Selecting? }

  /** The wakeup channel of the current round holds its element. */
  predicate WakeupReady(pc: PC) { AtSelect(pc) && (pc.helper.Sent? || pc.helper.Finished?) }

  /** The effect of an event; None if it cannot happen in `s`. */
  function Step(s: State, e: Event): (r: Option<State>) {
    if s.crashed || e.c !in s.conns then None
    else
      var x := s.conns[e.c];
      match e.act
      case Submit(req) => if x.pc.Idle? then Some(Put(s, e.c, Dispatch(x, req))) else None
      case Go(choice) => MainStep(s, e.c, x, choice)
      case Wake => if WakeupReady(x.pc) then Some(Put(s, e.c, x.(pc := x.pc.(phase := Woken)))) else None
      case Timer =>
        if AtSelect(x.pc) && x.pc.timed then Some(Put(s, e.c, x.(pc := x.pc.(phase := Expired)))) else None
      case Help => HelperStep(s, e.c, x)
  }

  // ---------- Runs ----------

  /** The state after the events `es` from a fresh server with connections `ids`; None if they are no run. */
  function After(ids: set<Id>, es: seq<Event>): (r: Option<State>)
    decreases |es|
  {
    if es == [] then Some(Init(ids))
    else
      var k := |es| - 1;
      match After(ids, es[..k])
      case None => None
      case Some(s) => Step(s, es[k])
  }

  predicate IsRun(ids: set<Id>, es: seq<Event>) { After(ids, es).Some? }

  lemma {:induction false} RunPrefix(ids: set<Id>, es: seq<Event>, i: nat)
    requires IsRun(ids, es) && i <= |es|
    ensures IsRun(ids, es[..i])
    decreases |es|
  {
    if i < |es| {
      var k := |es| - 1;
      RunPrefix(ids, es[..k], i);
      assert es[..k][..i] == es[..i];
    } else {
      assert es[..i] == es;
    }
  }

  /** The state before event `i` of a run. */
  function At(ids: set<Id>, es: seq<Event>, i: nat): (s: State)
    requires IsRun(ids, es) && i <= |es|
  {
    RunPrefix(ids, es, i);
    After(ids, es[..i]).value
  }

  /** Each state of a run follows from the one before it by the event between them. */
  lemma AtNext(ids: set<Id>, es: seq<Event>, i: nat)
    requires IsRun(ids, es) && i < |es|
    ensures Step(At(ids, es, i), es[i]) == Some(At(ids, es, i + 1))
  {
    RunPrefix(ids, es, i + 1);
    assert es[..i + 1][..i] == es[..i];
    assert es[..i + 1][i] == es[i];
  }

  /** The run up to an event, seen as a run of its own. */
  lemma PrefixAt(ids: set<Id>, es: seq<Event>, k: nat, t: nat)
    requires IsRun(ids, es) && t <= k <= |es|
    ensures IsRun(ids, es[..k]) && At(ids, es[..k], t) == At(ids, es, t)
  {
    RunPrefix(ids, es, k);
    assert es[..k][..t] == es[..t];
  }
}
