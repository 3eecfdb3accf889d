/** Every answer, in every run: each request takes effect at one moment between its arrival and its
    answer, as if it ran alone, and what is written is the answer of that moment. */
module Answers {
  import opened Base
  import opened Store
  import opened Resp
  import opened Commands
  import opened CommandLaws
  import opened Framing
  import opened History
  import opened LockSafety
  import opened Machine
  import opened Sessions
  import opened Transactions
  import opened Watching

  /** Between events `i` and `j` the connection serves the request that event `i` submits. */
  predicate Serving(es: seq<Event>, i: nat, j: nat, c: Id) {
    && i < j <= |es| && es[i].c == c && es[i].act.Submit?
    && forall t :: i < t < j && es[t].c == c ==> !es[t].act.Submit?
  }

  /** Its timer has fired. */
  predicate TimerFired(es: seq<Event>, i: nat, j: nat, c: Id)
    requires j <= |es|
  {
    exists t :: i < t < j && es[t] == Event(c, Timer)
  }

  // ---------- The right answers ----------

  /** At event `t` the callback of `cmd` runs, alone, on the database that the client has selected. */
  ghost predicate RunsAt(ids: set<Id>, es: seq<Event>, i: nat, t: nat, c: Id, cmd: Cmd, a: seq<Tok>)
    requires IsRun(ids, es) && i <= t < |es|
  {
    var sel := SelectedDb(Requests(es[..i], c));
    && es[t].c == c && es[t].act.Go? && ValidChoice(At(ids, es, t).dbs, sel, cmd, es[t].act.choice)
    && Run(At(ids, es, t).dbs, sel, cmd, es[t].act.choice) == Done(At(ids, es, t + 1).dbs, a)
  }

  /** At event `t` the blocking callback completes. */
  ghost predicate CompletesAt(ids: set<Id>, es: seq<Event>, i: nat, t: nat, c: Id, b: BlockCmd, a: seq<Tok>)
    requires IsRun(ids, es) && i <= t < |es|
  {
    var sel := SelectedDb(Requests(es[..i], c));
    var o := RunTry(Get(At(ids, es, t).dbs, sel), b);
    && es[t].c == c && o.Some? && o.value.Done? && a == o.value.reply
    && At(ids, es, t + 1).dbs == At(ids, es, t).dbs[sel := o.value.state]
  }

  /** EXEC's check is event `t`: it finds a watched key changed, or the client's commands run one after the
      other from there, with nothing in between, until event `u`. */
  ghost predicate ExecutesAt(ids: set<Id>, es: seq<Event>, i: nat, t: nat, u: nat, c: Id, a: seq<Tok>)
    requires IsRun(ids, es) && i <= t < u <= |es|
  {
    var rs := Requests(es[..i], c);
    var choices := ChoicesOf(es[..u][t + 1..], c);
    && Checks(ids, es, t, c)
    && if !Runs(ids, es, t, c) then a == [Len(0)]
       else
         && |choices| == |Backlog(rs)| && ValidAll(At(ids, es, t).dbs, SelectedDb(rs), Backlog(rs), choices)
         && var o := RunAll(At(ids, es, t).dbs, SelectedDb(rs), Backlog(rs), choices);
            o.Done? && o.state == At(ids, es, u).dbs && a == [Len(|Backlog(rs)|)] + o.reply
  }

  /** What a request is answered inside a transaction, but an EXEC that runs or aborts. */
  function Inside(rs: seq<Request>, r: Request): (t: Tok) {
    match r
    case Command(_) => Inline("QUEUED")
    case Block(_, _) => Inline("QUEUED")
    case Unwatch => Inline("QUEUED")
    case Multi => Error("ERR MULTI calls can not be nested")
    case Watch(_) => Error("ERR WATCH in MULTI")
    case Rejected(_, text) => Error(text)
    case Exec => Error("EXECABORT Transaction discarded " + "because of previous errors.")
    case Discard => Inline("OK")
    case Select(_) => Inline("OK")
  }

  /** `a` is the answer to the request of event `i`, by what has happened up to event `j`. */
  ghost predicate IsAnswer(ids: set<Id>, es: seq<Event>, i: nat, j: nat, c: Id, a: seq<Tok>)
    requires IsRun(ids, es) && Serving(es, i, j, c)
  {
    var rs, r := Requests(es[..i], c), es[i].act.req;
    if InTransaction(rs) && !(r.Exec? && !Doomed(rs)) then a == [Inside(rs, r)]
    else match r
      case Command(cmd) => exists t :: i < t < j && RunsAt(ids, es, i, t, c, cmd, a)
      case Unwatch => exists t :: i < t < j && RunsAt(ids, es, i, t, c, K(Ok), a)
      case Block(b, timed) =>
        (exists t :: i < t < j && CompletesAt(ids, es, i, t, c, b, a)) ||
        (timed && TimerFired(es, i, j, c) && a == [Null])
      case Exec =>
        if InTransaction(rs) then exists t, u :: i < t < u <= j && ExecutesAt(ids, es, i, t, u, c, a)
        else a == [Error("ERR EXEC without MULTI")]
      case Discard => a == [Error("ERR DISCARD without MULTI")]
      case Multi => a == [Inline("OK")]
      case Watch(_) => a == [Inline("OK")]
      case Select(_) => a == [Inline("OK")]
      case Rejected(_, text) => a == [Error(text)]
  }

  ghost predicate Answered(ids: set<Id>, es: seq<Event>, i: nat, j: nat, c: Id)
    requires IsRun(ids, es) && Serving(es, i, j, c) && c in At(ids, es, i).conns && c in At(ids, es, j).conns
  {
    exists a :: At(ids, es, j).conns[c].out == At(ids, es, i).conns[c].out + a && IsAnswer(ids, es, i, j, c, a)
  }

  // ---------- The way to an answer ----------

  /** `Early`: nothing written yet. `Expiring`: the timer has fired. `GaveUp`: null has been written.
      `Queueing`: EXEC runs its queue. `Replied`: the answer is complete. */
  datatype Stage = Early | Expiring | GaveUp | Queueing | Replied

  function StageOf(pc: PC): (r: Stage) {
    match pc
    case Idle => Replied
    case TxBroadcast => Replied
    case ExecStop => Replied
    case Unlocking => Replied
    case ExecCall(_) => Queueing
    case BlockWait(_, _, phase, _) =>
      if phase.TimedOut? || phase.Joining? then GaveUp else if phase.Expired? then Expiring else Early
    case _ => Early
  }

  /** From EXEC's check at `t` on, the connection has been running its queue. */
  ghost predicate QueueFrom(ids: set<Id>, es: seq<Event>, t: nat, j: nat, c: Id)
    requires IsRun(ids, es) && t < j <= |es|
  {
    && Checks(ids, es, t, c) && Runs(ids, es, t, c)
    && forall u :: t < u <= j ==> c in At(ids, es, u).conns && At(ids, es, u).conns[c].pc.ExecCall?
  }

  ghost predicate Progress(ids: set<Id>, es: seq<Event>, i: nat, j: nat, c: Id)
    requires IsRun(ids, es) && Serving(es, i, j, c) && c in At(ids, es, i).conns && c in At(ids, es, j).conns
  {
    var out, x := At(ids, es, i).conns[c].out, At(ids, es, j).conns[c];
    match StageOf(x.pc)
    case Early => x.out == out
    case Expiring => x.out == out && TimerFired(es, i, j, c)
    case GaveUp => x.out == out + [Null] && TimerFired(es, i, j, c)
    case Queueing => exists t :: i < t < j && QueueFrom(ids, es, t, j, c) && At(ids, es, t).conns[c].out == out
    case Replied => Answered(ids, es, i, j, c)
  }

  // ---------- Time only adds ----------

  lemma {:induction false} ServedRequests(es: seq<Event>, i: nat, j: nat, c: Id)
    requires Serving(es, i, j, c)
    ensures Requests(es[..j], c) == Requests(es[..i], c) + [es[i].act.req]
    decreases j
  {
    RequestsNext(es, j - 1, c);
    if j - 1 > i {
      ServedRequests(es, i, j - 1, c);
    }
  }

  lemma ServingNext(es: seq<Event>, i: nat, j: nat, c: Id)
    requires Serving(es, i, j, c) && j < |es| && !(es[j].c == c && es[j].act.Submit?)
    ensures Serving(es, i, j + 1, c)
    ensures TimerFired(es, i, j, c) ==> TimerFired(es, i, j + 1, c)
    ensures es[j] == Event(c, Timer) ==> TimerFired(es, i, j + 1, c)
  {
  }

  lemma AnswerStays(ids: set<Id>, es: seq<Event>, i: nat, j: nat, c: Id, a: seq<Tok>)
    requires IsRun(ids, es) && Serving(es, i, j, c) && Serving(es, i, j + 1, c) && IsAnswer(ids, es, i, j, c, a)
    ensures IsAnswer(ids, es, i, j + 1, c, a)
  {
    hide RunsAt, CompletesAt, ExecutesAt, Inside, InTransaction, Doomed;
  }

  lemma AnsweredStays(ids: set<Id>, es: seq<Event>, i: nat, j: nat, c: Id)
    requires IsRun(ids, es) && Serving(es, i, j, c) && Serving(es, i, j + 1, c)
    requires c in At(ids, es, i).conns && c in At(ids, es, j).conns && c in At(ids, es, j + 1).conns
    requires Answered(ids, es, i, j, c) && At(ids, es, j + 1).conns[c].out == At(ids, es, j).conns[c].out
    ensures Answered(ids, es, i, j + 1, c)
  {
    hide At, IsRun, IsAnswer;
    var a :| At(ids, es, j).conns[c].out == At(ids, es, i).conns[c].out + a && IsAnswer(ids, es, i, j, c, a);
    AnswerStays(ids, es, i, j, c, a);
  }

  /** A step that writes nothing and stays in its stage. */
  lemma QuietProgress(ids: set<Id>, es: seq<Event>, i: nat, j: nat, c: Id)
    requires IsRun(ids, es) && Serving(es, i, j, c) && Serving(es, i, j + 1, c)
    requires c in At(ids, es, i).conns && c in At(ids, es, j).conns && c in At(ids, es, j + 1).conns
    requires Progress(ids, es, i, j, c) && At(ids, es, j + 1).conns[c].out == At(ids, es, j).conns[c].out
    requires StageOf(At(ids, es, j + 1).conns[c].pc) == StageOf(At(ids, es, j).conns[c].pc)
    ensures Progress(ids, es, i, j + 1, c)
  {
    hide At, IsRun, Answered, Checks, Runs, TimerFired;
    ServingNext(es, i, j, c);
    if StageOf(At(ids, es, j).conns[c].pc).Replied? {
      AnsweredStays(ids, es, i, j, c);
    }
  }

  // ---------- The first step ----------

  /** A request answered on the spot gets the right answer; the others write nothing yet. */
  lemma DispatchAnswers(x: Conn, rs: seq<Request>, r: Request)
    requires x.pc.Idle? && Settled(x.ctx, rs)
    ensures
      var y := Dispatch(x, r);
      if y.pc.Idle? then
        if InTransaction(rs) then !(r.Exec? && !Doomed(rs)) && y.out == x.out + [Inside(rs, r)]
        else
          match r
          case Exec => y.out == x.out + [Error("ERR EXEC without MULTI")]
          case Discard => y.out == x.out + [Error("ERR DISCARD without MULTI")]
          case Multi => y.out == x.out + [Inline("OK")]
          case Rejected(_, text) => y.out == x.out + [Error(text)]
          case _ => false
      else y.out == x.out && StageOf(y.pc) == Early
  {
    OpenIsPending(rs);
    hide Pending, SelectedDb, Watched, InTransaction, Doomed;
  }

  lemma Begins(ids: set<Id>, es: seq<Event>, i: nat, c: Id)
    requires IsRun(ids, es) && i < |es| && Serving(es, i, i + 1, c) && !At(ids, es, i + 1).crashed
    requires c in At(ids, es, i).conns
    ensures c in At(ids, es, i + 1).conns && Progress(ids, es, i, i + 1, c)
  {
    BeforeEvent(ids, es, i);
    RunFollows(ids, es, i, c);
    hide At, IsRun, LockInv, AgreeAll, InTransaction, Doomed, Settled, Serves, RunsAt, CompletesAt, ExecutesAt, Inside;
    var s, r := At(ids, es, i), es[i].act.req;
    SubmitStep(s, es[i]);
    hide Step, Dispatch;
    DispatchAnswers(s.conns[c], Requests(es[..i], c), r);
    var x, y := s.conns[c], At(ids, es, i + 1).conns[c];
    if y.pc.Idle? {
      var a := [y.out[|x.out|]];
      assert y.out == x.out + a;
      assert IsAnswer(ids, es, i, i + 1, c, a);
    }
  }

  lemma SubmitStep(s: State, e: Event)
    requires Step(s, e).Some? && e.act.Submit?
    ensures e.c in s.conns && s.conns[e.c].pc.Idle? && e.c in Step(s, e).value.conns
    ensures Step(s, e).value.conns[e.c] == Dispatch(s.conns[e.c], e.act.req)
  {
  }

  // ---------- The other steps ----------

  /** What an event of its own does to a connection, but for callbacks and the steps of EXEC. */
  predicate Moves(x: Conn, y: Conn, e: Event) {
    || (y.out == x.out && StageOf(y.pc) == StageOf(x.pc))
    || ((x.pc.WatchRecord? || x.pc.SelectSet?) && StageOf(y.pc).Replied? && y.out == x.out + [Inline("OK")])
    || (e.act.Timer? && StageOf(x.pc).Early? && StageOf(y.pc).Expiring? && y.out == x.out)
    || (StageOf(x.pc).Expiring? && StageOf(y.pc).GaveUp? && y.out == x.out + [Null])
    || (StageOf(x.pc).GaveUp? && StageOf(y.pc).Replied? && y.out == x.out)
  }

  lemma AsideStep(s: State, e: Event)
    requires Step(s, e).Some? && !Step(s, e).value.crashed && !e.act.Go? && !e.act.Submit?
    ensures e.c in Step(s, e).value.conns && Moves(s.conns[e.c], Step(s, e).value.conns[e.c], e)
  {
    hide MainStep, Dispatch;
  }

  lemma WaitStep(s: State, e: Event)
    requires Step(s, e).Some? && e.act.Go? && s.conns[e.c].pc.BlockWait?
    ensures e.c in Step(s, e).value.conns && Moves(s.conns[e.c], Step(s, e).value.conns[e.c], e)
  {
  }

  lemma MainStepMoves(s: State, e: Event)
    requires Step(s, e).Some? && !Step(s, e).value.crashed && e.act.Go?
    requires
      var pc := s.conns[e.c].pc;
      !InCallback(pc) && !pc.ExecCheck? && !pc.BlockWait?
    ensures e.c in Step(s, e).value.conns && Moves(s.conns[e.c], Step(s, e).value.conns[e.c], e)
  {
    hide WatchKeys, WatchHolds, StopTx, Call, CallTry;
  }

  /** The request that the connection serves before event `j`. */
  lemma AtServing(ids: set<Id>, es: seq<Event>, i: nat, j: nat, c: Id)
    requires IsRun(ids, es) && Serving(es, i, j, c) && !At(ids, es, j).crashed && c in At(ids, es, j).conns
    requires !At(ids, es, j).conns[c].pc.Idle?
    ensures Serves(At(ids, es, j).conns[c], Requests(es[..i], c), es[i].act.req)
  {
    hide At, IsRun, Serves, Requests;
    RunFollows(ids, es, j, c);
    ServedRequests(es, i, j, c);
    FollowsServing(At(ids, es, j).conns[c], Requests(es[..i], c), es[i].act.req);
  }

  /** A timed-out client asked for a timeout, a WATCH that records and a SELECT are answered OK. */
  lemma SimpleAnswers(ids: set<Id>, es: seq<Event>, i: nat, j: nat, c: Id, x: Conn)
    requires IsRun(ids, es) && Serving(es, i, j, c) && Serves(x, Requests(es[..i], c), es[i].act.req) && ConnInv(x)
    ensures x.pc.WatchRecord? || x.pc.SelectSet? ==> IsAnswer(ids, es, i, j, c, [Inline("OK")])
    ensures StageOf(x.pc).GaveUp? && TimerFired(es, i, j, c) ==> IsAnswer(ids, es, i, j, c, [Null])
  {
    hide InTransaction, Doomed, Settled, RunsAt, CompletesAt, ExecutesAt, TimerFired;
  }

  lemma PlainProgress(ids: set<Id>, es: seq<Event>, i: nat, j: nat, c: Id)
    requires IsRun(ids, es) && Serving(es, i, j, c) && Serving(es, i, j + 1, c) && !At(ids, es, j + 1).crashed
    requires c in At(ids, es, i).conns && c in At(ids, es, j).conns && c in At(ids, es, j + 1).conns
    requires es[j].c == c && Progress(ids, es, i, j, c)
    requires Moves(At(ids, es, j).conns[c], At(ids, es, j + 1).conns[c], es[j])
    ensures Progress(ids, es, i, j + 1, c)
  {
    hide At, IsRun, Step, LockInv, AgreeAll, Serves, IsAnswer, QueueFrom, ConnInv, TimerFired, Moves, Progress;
    BeforeEvent(ids, es, j);
    OwnPart(At(ids, es, j), c);
    var x, y := At(ids, es, j).conns[c], At(ids, es, j + 1).conns[c];
    ServingNext(es, i, j, c);
    if y.out == x.out && StageOf(y.pc) == StageOf(x.pc) {
      QuietProgress(ids, es, i, j, c);
    } else if StageOf(y.pc).Replied? {
      RepliesNow(x, y, es[j]);
      AtServing(ids, es, i, j, c);
      SimpleAnswers(ids, es, i, j + 1, c, x);
      ReplyProgress(ids, es, i, j, c);
    } else {
      ExpiryProgress(ids, es, i, j, c);
    }
  }

  lemma RepliesNow(x: Conn, y: Conn, e: Event)
    requires Moves(x, y, e) && StageOf(y.pc).Replied? && !(y.out == x.out && StageOf(y.pc) == StageOf(x.pc))
    ensures !x.pc.Idle?
    ensures if StageOf(x.pc).GaveUp? then y.out == x.out
      else (x.pc.WatchRecord? || x.pc.SelectSet?) && StageOf(x.pc).Early? && y.out == x.out + [Inline("OK")]
  {
  }

  lemma ReplyProgress(ids: set<Id>, es: seq<Event>, i: nat, j: nat, c: Id)
    requires IsRun(ids, es) && Serving(es, i, j, c) && Serving(es, i, j + 1, c)
    requires c in At(ids, es, i).conns && c in At(ids, es, j).conns && c in At(ids, es, j + 1).conns
    requires Progress(ids, es, i, j, c) && StageOf(At(ids, es, j + 1).conns[c].pc).Replied?
    requires TimerFired(es, i, j, c) ==> TimerFired(es, i, j + 1, c)
    requires
      var x, y := At(ids, es, j).conns[c], At(ids, es, j + 1).conns[c];
      if StageOf(x.pc).GaveUp? then
        y.out == x.out && (TimerFired(es, i, j + 1, c) ==> IsAnswer(ids, es, i, j + 1, c, [Null]))
      else
        StageOf(x.pc).Early? && y.out == x.out + [Inline("OK")] && IsAnswer(ids, es, i, j + 1, c, [Inline("OK")])
    ensures Progress(ids, es, i, j + 1, c)
  {
    hide At, IsRun, IsAnswer, QueueFrom, TimerFired, Serving;
  }

  lemma ExpiryProgress(ids: set<Id>, es: seq<Event>, i: nat, j: nat, c: Id)
    requires IsRun(ids, es) && Serving(es, i, j, c) && Serving(es, i, j + 1, c)
    requires c in At(ids, es, i).conns && c in At(ids, es, j).conns && c in At(ids, es, j + 1).conns
    requires es[j].c == c && Progress(ids, es, i, j, c)
    requires TimerFired(es, i, j, c) || es[j] == Event(c, Timer) ==> TimerFired(es, i, j + 1, c)
    requires
      var x, y := At(ids, es, j).conns[c], At(ids, es, j + 1).conns[c];
      && Moves(x, y, es[j]) && !StageOf(y.pc).Replied? && !(y.out == x.out && StageOf(y.pc) == StageOf(x.pc))
    ensures Progress(ids, es, i, j + 1, c)
  {
    hide At, IsRun, Answered, QueueFrom, TimerFired, Serving;
  }

  // ---------- Callbacks ----------

  lemma RunAnswers(ids: set<Id>, es: seq<Event>, i: nat, t: nat, j: nat, c: Id, cmd: Cmd, a: seq<Tok>)
    requires IsRun(ids, es) && Serving(es, i, j, c) && i < t < j && RunsAt(ids, es, i, t, c, cmd, a)
    requires Direct(Requests(es[..i], c), es[i].act.req, cmd)
    ensures IsAnswer(ids, es, i, j, c, a)
  {
    hide RunsAt, CompletesAt, ExecutesAt, InTransaction, Serving, TimerFired;
  }

  lemma CompletionAnswers(ids: set<Id>, es: seq<Event>, i: nat, t: nat, j: nat, c: Id, b: BlockCmd, a: seq<Tok>)
    requires IsRun(ids, es) && Serving(es, i, j, c) && i < t < j && CompletesAt(ids, es, i, t, c, b, a)
    requires !InTransaction(Requests(es[..i], c)) && es[i].act.req.Block? && es[i].act.req.block == b
    ensures IsAnswer(ids, es, i, j, c, a)
  {
    hide RunsAt, CompletesAt, ExecutesAt, InTransaction, Serving, TimerFired;
  }

  lemma ExecAnswers(ids: set<Id>, es: seq<Event>, i: nat, t: nat, u: nat, j: nat, c: Id, a: seq<Tok>)
    requires IsRun(ids, es) && Serving(es, i, j, c) && i < t < u <= j && ExecutesAt(ids, es, i, t, u, c, a)
    requires Executes(Requests(es[..i], c), es[i].act.req)
    ensures IsAnswer(ids, es, i, j, c, a)
  {
    hide RunsAt, CompletesAt, ExecutesAt, InTransaction, Doomed, Serving, TimerFired;
  }

  lemma RunsNow(ids: set<Id>, es: seq<Event>, i: nat, j: nat, c: Id)
    requires IsRun(ids, es) && Serving(es, i, j, c) && j < |es| && !At(ids, es, j + 1).crashed && es[j].c == c
    requires c in At(ids, es, i).conns && c in At(ids, es, j).conns && At(ids, es, j).conns[c].pc.TxCall?
    requires es[j].act.Go? && At(ids, es, j).conns[c].out == At(ids, es, i).conns[c].out
    ensures Serving(es, i, j + 1, c) && c in At(ids, es, j + 1).conns
    ensures StageOf(At(ids, es, j + 1).conns[c].pc).Replied? && Answered(ids, es, i, j + 1, c)
  {
    hide At, IsRun, Step, LockInv, AgreeAll, Run, ValidChoice, InTransaction, Doomed, Pending, Watched;
    hide Serving, IsAnswer;
    BeforeEvent(ids, es, j);
    AtServing(ids, es, i, j, c);
    ServingNext(es, i, j, c);
    var s, rs, r := At(ids, es, j), Requests(es[..i], c), es[i].act.req;
    var cmd := s.conns[c].pc.cmd;
    ExecutedOut(s, es[j]);
    ExecutedValid(s, es[j]);
    AfterRequest(rs, r);
    var a := Run(s.dbs, s.conns[c].ctx.sel, cmd, es[j].act.choice).reply;
    assert RunsAt(ids, es, i, j, c, cmd, a);
    RunAnswers(ids, es, i, j, j + 1, c, cmd, a);
  }

  lemma TriesNow(ids: set<Id>, es: seq<Event>, i: nat, j: nat, c: Id)
    requires IsRun(ids, es) && Serving(es, i, j, c) && j < |es| && !At(ids, es, j + 1).crashed && es[j].c == c
    requires c in At(ids, es, i).conns && c in At(ids, es, j).conns && At(ids, es, j).conns[c].pc.BlockTry?
    requires es[j].act.Go? && At(ids, es, j).conns[c].out == At(ids, es, i).conns[c].out
    ensures Serving(es, i, j + 1, c) && c in At(ids, es, j + 1).conns && Progress(ids, es, i, j + 1, c)
  {
    hide At, IsRun, Step, LockInv, AgreeAll, RunTry, InTransaction, Doomed, Pending, Watched, Serving;
    hide IsAnswer, TimerFired;
    BeforeEvent(ids, es, j);
    AtServing(ids, es, i, j, c);
    ServingNext(es, i, j, c);
    var s, rs, r := At(ids, es, j), Requests(es[..i], c), es[i].act.req;
    TryOut(s, es[j]);
    TryStep(s, es[j]);
    AfterRequest(rs, r);
    var o := RunTry(Get(s.dbs, s.conns[c].ctx.sel), s.conns[c].pc.block);
    if o.Some? {
      assert CompletesAt(ids, es, i, j, c, s.conns[c].pc.block, o.value.reply);
      hide CompletesAt;
      CompletionAnswers(ids, es, i, j, j + 1, c, s.conns[c].pc.block, o.value.reply);
    }
  }

  // ---------- EXEC ----------

  /** The requests in front of the EXEC that is being served. */
  lemma ServedExec(ids: set<Id>, es: seq<Event>, i: nat, t: nat, c: Id)
    requires IsRun(ids, es) && Serving(es, i, t, c) && Checks(ids, es, t, c)
    ensures BeforeExec(es, t, c) == Requests(es[..i], c) && es[i].act.req.Exec?
  {
    hide At, IsRun, Requests, Runs;
    AtCheck(ids, es, t, c);
    ServedRequests(es, i, t, c);
    LastOf(Requests(es[..i], c), es[i].act.req, BeforeExec(es, t, c), Exec);
  }

  lemma LastOf(a: seq<Request>, x: Request, b: seq<Request>, y: Request)
    requires a + [x] == b + [y]
    ensures a == b && x == y
  {
    assert (a + [x])[..|a|] == a && (b + [y])[..|b|] == b;
    assert (a + [x])[|a|] == x && (b + [y])[|b|] == y;
  }

  lemma ChecksNow(ids: set<Id>, es: seq<Event>, i: nat, j: nat, c: Id)
    requires IsRun(ids, es) && Serving(es, i, j, c) && Checks(ids, es, j, c)
    requires c in At(ids, es, i).conns && At(ids, es, j).conns[c].out == At(ids, es, i).conns[c].out
    requires !es[j].act.Submit?
    ensures Serving(es, i, j + 1, c) && c in At(ids, es, j + 1).conns && Progress(ids, es, i, j + 1, c)
  {
    hide At, IsRun, InTransaction, Doomed, Watched, Unmoved, BeforeExec, Requests, RunAll, ValidAll;
    hide TimerFired, IsAnswer, Backlog;
    ServingNext(es, i, j, c);
    ServedExec(ids, es, i, j, c);
    ExecDecides(ids, es, j, c);
    if Runs(ids, es, j, c) {
      assert QueueFrom(ids, es, j, j + 1, c);
    } else {
      assert ExecutesAt(ids, es, i, j, j + 1, c, [Len(0)]);
      hide ExecutesAt;
      ExecAnswers(ids, es, i, j, j + 1, j + 1, c, [Len(0)]);
    }
  }

  /** A stretch of a run in which a queue runs is one in the run cut off behind it. */
  lemma QueueCut(ids: set<Id>, es: seq<Event>, t: nat, j: nat, c: Id)
    requires IsRun(ids, es) && t < j <= |es| && QueueFrom(ids, es, t, j, c)
    ensures IsRun(ids, es[..j]) && At(ids, es[..j], t) == At(ids, es, t) && At(ids, es[..j], j) == At(ids, es, j)
    ensures Checks(ids, es[..j], t, c) && RunsQueue(ids, es[..j], t + 1, c)
    ensures BeforeExec(es[..j], t, c) == BeforeExec(es, t, c)
  {
    ExecDecides(ids, es, t, c);
    hide At, IsRun, Requests, Watched, Unmoved, InTransaction, Doomed;
    forall u | 0 <= u <= j
      ensures IsRun(ids, es[..j]) && At(ids, es[..j], u) == At(ids, es, u)
    {
      PrefixAt(ids, es, j, u);
    }
    assert es[..j][..t] == es[..t];
    assert At(ids, es, t + 1).conns[c].pc == ExecCall(0);
    forall u | t + 1 <= u <= j
      ensures c in At(ids, es[..j], u).conns && At(ids, es[..j], u).conns[c].pc.ExecCall?
    {
      assert c in At(ids, es, u).conns && At(ids, es, u).conns[c].pc.ExecCall?;
    }
  }

  /** The whole queue has run. */
  lemma QueueAnswers(ids: set<Id>, es: seq<Event>, i: nat, t: nat, j: nat, c: Id)
    requires IsRun(ids, es) && Serving(es, i, j, c) && i < t < j && QueueFrom(ids, es, t, j, c)
    requires !At(ids, es, j).crashed && c in At(ids, es, i).conns && c in At(ids, es, j).conns
    requires At(ids, es, t).conns[c].out == At(ids, es, i).conns[c].out
    requires At(ids, es, j).conns[c].pc == ExecCall(|Backlog(Requests(es[..i], c))|)
    ensures Answered(ids, es, i, j, c)
  {
    hide At, IsRun, InTransaction, Doomed, Watched, Unmoved, BeforeExec, Requests, RunAll, ValidAll, RunsQueue;
    hide Backlog, SelectedDb, IsAnswer, ChoicesOf;
    assert Serving(es, i, t, c);
    ServedExec(ids, es, i, t, c);
    QueueCut(ids, es, t, j, c);
    ExecDecides(ids, es, t, c);
    TransactionEquivalence(ids, es[..j], t, c);
    var rs := Requests(es[..i], c);
    var choices := ChoicesOf(es[..j][t + 1..], c);
    var a := [Len(|Backlog(rs)|)] + RunAll(At(ids, es, t).dbs, SelectedDb(rs), Backlog(rs), choices).reply;
    assert ExecutesAt(ids, es, i, t, j, c, a);
    ExecAnswers(ids, es, i, t, j, j, c, a);
    Regroup(At(ids, es, i).conns[c].out, [Len(|Backlog(rs)|)],
      RunAll(At(ids, es, t).dbs, SelectedDb(rs), Backlog(rs), choices).reply);
  }

  lemma QueueMoves(s: State, e: Event)
    requires Step(s, e).Some? && !Step(s, e).value.crashed && s.conns[e.c].pc.ExecCall? && ConnInv(s.conns[e.c])
    ensures e.c in Step(s, e).value.conns && InTx(s.conns[e.c].ctx)
    ensures
      var x, y := s.conns[e.c], Step(s, e).value.conns[e.c];
      y.pc.ExecCall? || (y.pc.ExecStop? && y.out == x.out && x.pc.next == |x.ctx.tx.value|)
  {
    hide Run, ValidChoice;
  }

  lemma QueueLonger(ids: set<Id>, es: seq<Event>, t: nat, j: nat, c: Id)
    requires IsRun(ids, es) && t < j < |es| && QueueFrom(ids, es, t, j, c)
    requires c in At(ids, es, j + 1).conns && At(ids, es, j + 1).conns[c].pc.ExecCall?
    ensures QueueFrom(ids, es, t, j + 1, c)
  {
    hide At, IsRun, Checks, Runs;
  }

  lemma QueueNow(ids: set<Id>, es: seq<Event>, i: nat, j: nat, c: Id)
    requires IsRun(ids, es) && Serving(es, i, j, c) && Serving(es, i, j + 1, c) && !At(ids, es, j + 1).crashed
    requires c in At(ids, es, i).conns && c in At(ids, es, j).conns && At(ids, es, j).conns[c].pc.ExecCall?
    requires es[j].c == c && Progress(ids, es, i, j, c)
    ensures c in At(ids, es, j + 1).conns && Progress(ids, es, i, j + 1, c)
  {
    hide At, IsRun, Step, LockInv, AgreeAll, ConnInv, Answered, Backlog, InTransaction;
    hide Doomed, Requests, SelectedDb, Watched, TimerFired;
    BeforeEvent(ids, es, j);
    OwnPart(At(ids, es, j), c);
    AtServing(ids, es, i, j, c);
    QueueMoves(At(ids, es, j), es[j]);
    var x, y := At(ids, es, j).conns[c], At(ids, es, j + 1).conns[c];
    var t :| i < t < j && QueueFrom(ids, es, t, j, c) && At(ids, es, t).conns[c].out == At(ids, es, i).conns[c].out;
    if y.pc.ExecCall? {
      QueueLonger(ids, es, t, j, c);
    } else {
      QueueAnswers(ids, es, i, t, j, c);
      AnsweredStays(ids, es, i, j, c);
    }
  }

  // ---------- Every event ----------

  lemma OthersProgress(ids: set<Id>, es: seq<Event>, i: nat, j: nat, c: Id)
    requires IsRun(ids, es) && Serving(es, i, j, c) && j < |es| && !At(ids, es, j + 1).crashed && es[j].c != c
    requires c in At(ids, es, i).conns && c in At(ids, es, j).conns && Progress(ids, es, i, j, c)
    ensures Serving(es, i, j + 1, c) && c in At(ids, es, j + 1).conns && Progress(ids, es, i, j + 1, c)
  {
    BeforeEvent(ids, es, j);
    OthersFrame(At(ids, es, j), es[j], c);
    ServingNext(es, i, j, c);
    NotifyQuiet(At(ids, es, j).conns[c]);
    hide At, IsRun, Step, LockInv, AgreeAll, Progress, Notify;
    QuietProgress(ids, es, i, j, c);
  }

  lemma NotifyQuiet(x: Conn)
    ensures Notify(x).out == x.out && StageOf(Notify(x).pc) == StageOf(x.pc)
  {
  }

  lemma OwnProgress(ids: set<Id>, es: seq<Event>, i: nat, j: nat, c: Id)
    requires IsRun(ids, es) && Serving(es, i, j, c) && Serving(es, i, j + 1, c) && !At(ids, es, j + 1).crashed
    requires c in At(ids, es, i).conns && c in At(ids, es, j).conns && es[j].c == c && Progress(ids, es, i, j, c)
    ensures c in At(ids, es, j + 1).conns && Progress(ids, es, i, j + 1, c)
  {
    BeforeEvent(ids, es, j);
    var s := At(ids, es, j);
    var pc := s.conns[c].pc;
    if !es[j].act.Go? {
      AsideStep(s, es[j]);
      PlainProgress(ids, es, i, j, c);
    } else if pc.BlockWait? {
      WaitStep(s, es[j]);
      PlainProgress(ids, es, i, j, c);
    } else {
      hide At, IsRun, Step, LockInv, AgreeAll, TimerFired, QueueFrom, Answered;
      if pc.TxCall? {
        RunsNow(ids, es, i, j, c);
      } else if pc.BlockTry? {
        TriesNow(ids, es, i, j, c);
      } else if pc.ExecCall? {
        QueueNow(ids, es, i, j, c);
      } else if pc.ExecCheck? {
        ChecksNow(ids, es, i, j, c);
      } else {
        MainStepMoves(s, es[j]);
        hide Progress;
        PlainProgress(ids, es, i, j, c);
      }
    }
  }

  lemma {:induction false} ServedProgress(ids: set<Id>, es: seq<Event>, i: nat, j: nat, c: Id)
    requires IsRun(ids, es) && Serving(es, i, j, c) && !At(ids, es, j).crashed && c in At(ids, es, i).conns
    ensures c in At(ids, es, j).conns && Progress(ids, es, i, j, c)
    decreases j
  {
    hide At, IsRun, Progress;
    if j == i + 1 {
      Begins(ids, es, i, c);
    } else {
      var k := j - 1;
      hide LockInv, AgreeAll, Step;
      BeforeEvent(ids, es, k);
      assert Serving(es, i, k, c);
      ServedProgress(ids, es, i, k, c);
      if es[k].c == c {
        OwnProgress(ids, es, i, k, c);
      } else {
        OthersProgress(ids, es, i, k, c);
      }
    }
  }

  /** Atomic requests, for every run: what a connection has been sent between a request and the end of its
      handling is the answer to that request. A command ran alone at one moment in between, on the database
      selected by then; a blocking command completed at one moment in between, or had asked for a timeout
      and timed out; EXEC found a watched key changed, or ran what the client had sent since its MULTI,
      uninterrupted, from one moment on; inside a transaction commands were queued. */
  lemma AnswerExact(ids: set<Id>, es: seq<Event>, i: nat, j: nat, c: Id)
    requires IsRun(ids, es) && Serving(es, i, j, c) && !At(ids, es, j).crashed && c in At(ids, es, i).conns
    requires c in At(ids, es, j).conns && At(ids, es, j).conns[c].pc.Idle?
    ensures exists a ::
      At(ids, es, j).conns[c].out == At(ids, es, i).conns[c].out + a && IsAnswer(ids, es, i, j, c, a)
  {
    hide At, IsRun, IsAnswer;
    ServedProgress(ids, es, i, j, c);
  }
}
