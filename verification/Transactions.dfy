/** MULTI and EXEC: a queue runs as one uninterrupted sequence, or not at all. */
module Transactions {
  import opened Base
  import opened Store
  import opened Resp
  import opened Commands
  import opened CommandLaws
  import opened History
  import opened Machine
  import opened LockSafety
  import opened Sessions
  import opened Watching

  /** Runs callbacks one after the other, without any server around them. */
  function RunAll(dbs: Dbs, sel: int, cmds: seq<Cmd>, choices: seq<seq<string>>): (r: Outcome<Dbs>)
    requires |cmds| == |choices|
    decreases |cmds|
  {
    if cmds == [] then Done(dbs, [])
    else
      var k := |cmds| - 1;
      match RunAll(dbs, sel, cmds[..k], choices[..k])
      case Panic => Panic
      case Done(mid, replies) =>
        match Run(mid, sel, cmds[k], choices[k])
        case Panic => Panic
        case Done(end, reply) => Done(end, replies + reply)
  }

  /** Every callback meets random outcomes that can happen in the state it runs in. */
  predicate ValidAll(dbs: Dbs, sel: int, cmds: seq<Cmd>, choices: seq<seq<string>>)
    requires |cmds| == |choices|
    decreases |cmds|
  {
    cmds == [] ||
    var k := |cmds| - 1;
    var o := RunAll(dbs, sel, cmds[..k], choices[..k]);
    ValidAll(dbs, sel, cmds[..k], choices[..k]) && (o.Done? ==> ValidChoice(o.state, sel, cmds[k], choices[k]))
  }

  /** One callback more. */
  lemma RunAllNext(dbs: Dbs, sel: int, cmds: seq<Cmd>, choices: seq<seq<string>>, i: nat)
    requires |cmds| == |choices| && i < |cmds|
    ensures RunAll(dbs, sel, cmds[..i + 1], choices[..i + 1]) ==
      match RunAll(dbs, sel, cmds[..i], choices[..i])
      case Panic => Panic
      case Done(mid, replies) =>
        match Run(mid, sel, cmds[i], choices[i])
        case Panic => Panic
        case Done(end, reply) => Done(end, replies + reply)
  {
    assert cmds[..i + 1][..i] == cmds[..i] && choices[..i + 1][..i] == choices[..i];
  }

  lemma ValidAllNext(dbs: Dbs, sel: int, cmds: seq<Cmd>, choices: seq<seq<string>>)
    requires |cmds| == |choices| && cmds != [] && RunAll(dbs, sel, cmds[..|cmds| - 1], choices[..|cmds| - 1]).Done?
    ensures
      var k := |cmds| - 1;
      ValidAll(dbs, sel, cmds, choices) <==>
        ValidAll(dbs, sel, cmds[..k], choices[..k]) &&
        ValidChoice(RunAll(dbs, sel, cmds[..k], choices[..k]).state, sel, cmds[k], choices[k])
  {
    hide ValidChoice, RunAll;
  }

  /** The random outcomes that the main goroutine of `c` met, in order. */
  function ChoicesOf(es: seq<Event>, c: Id): (r: seq<seq<string>>) {
    if es == [] then []
    else
      var k := |es| - 1;
      ChoicesOf(es[..k], c) + if es[k].c == c && es[k].act.Go? then [es[k].act.choice] else []
  }

  /** While `c` runs its queue, an event of another connection changes neither `c` nor a database. */
  lemma Uninterrupted(s: State, e: Event, c: Id)
    requires LockInv(s) && Step(s, e).Some? && c in s.conns && e.c != c && s.conns[c].pc.ExecCall?
    ensures c in Step(s, e).value.conns && Step(s, e).value.conns[c] == s.conns[c]
    ensures Step(s, e).value.dbs == s.dbs
  {
    OthersFrame(s, e, c);
    assert Holds(s.conns[c].pc);
    assert !InCallback(s.conns[e.c].pc) by {
      assert Holds(s.conns[e.c].pc) <==> s.mutex == Some(e.c);
    }
    OtherStepKeepsDbs(s, e);
  }

  /** From event `i`, where `c` has just passed EXEC's check, to the end of `es`, `c` is running its
      queue. */
  ghost predicate RunsQueue(ids: set<Id>, es: seq<Event>, i: nat, c: Id)
    requires IsRun(ids, es)
  {
    && i <= |es| && c in At(ids, es, i).conns && At(ids, es, i).conns[c].pc == ExecCall(0)
    && forall t :: i <= t <= |es| ==> c in At(ids, es, t).conns && At(ids, es, t).conns[c].pc.ExecCall?
  }

  /** `s` is where the first callbacks of `x0`'s queue lead from `s0`, run one after the other. */
  predicate QueueProgress(s0: State, s: State, c: Id, choices: seq<seq<string>>)
    requires c in s0.conns && c in s.conns
  {
    var x0 := s0.conns[c];
    var x := s.conns[c];
    && InTx(x0.ctx) && x.ctx.tx == x0.ctx.tx && x.ctx.sel == x0.ctx.sel
    && x.pc == ExecCall(|choices|) && |choices| <= |x0.ctx.tx.value|
    && var o := RunAll(s0.dbs, x0.ctx.sel, x0.ctx.tx.value[..|choices|], choices);
    && o.Done? && o.state == s.dbs && x.out == x0.out + o.reply
    && ValidAll(s0.dbs, x0.ctx.sel, x0.ctx.tx.value[..|choices|], choices)
  }

  lemma QueueStep(s0: State, s: State, e: Event, c: Id, choices: seq<seq<string>>)
    requires c in s0.conns && c in s.conns && QueueProgress(s0, s, c, choices)
    requires e.c == c && Step(s, e).Some? && !Step(s, e).value.crashed
    requires c in Step(s, e).value.conns && Step(s, e).value.conns[c].pc.ExecCall?
    ensures e.act.Go? && QueueProgress(s0, Step(s, e).value, c, choices + [e.act.choice])
  {
    hide Step, Run, RunAll, ValidAll, ValidChoice;
    var x0 := s0.conns[c];
    var q := x0.ctx.tx.value;
    var n := |choices|;
    if n == |q| {
      QueueEnds(s, e, c);
    } else {
      QueueCall(s, e, c);
      var more := choices + [e.act.choice];
      assert q[..n + 1][..n] == q[..n] && q[..n + 1][..n + 1] == q[..n + 1];
      assert more[..n] == choices && more[..n + 1] == more;
      RunAllNext(s0.dbs, x0.ctx.sel, q[..n + 1], more, n);
      ValidAllNext(s0.dbs, x0.ctx.sel, q[..n + 1], more);
    }
  }

  lemma QueueEnds(s: State, e: Event, c: Id)
    requires e.c == c && c in s.conns && s.conns[c].pc.ExecCall? && InTx(s.conns[c].ctx)
    requires s.conns[c].pc.next == |s.conns[c].ctx.tx.value| && Step(s, e).Some?
    ensures c in Step(s, e).value.conns && !Step(s, e).value.conns[c].pc.ExecCall?
  {
  }

  /** One callback of the queue. */
  lemma QueueCall(s: State, e: Event, c: Id)
    requires e.c == c && c in s.conns && s.conns[c].pc.ExecCall? && InTx(s.conns[c].ctx)
    requires s.conns[c].pc.next < |s.conns[c].ctx.tx.value| && Step(s, e).Some? && !Step(s, e).value.crashed
    ensures e.act.Go?
    ensures
      var x := s.conns[c];
      var o := Run(s.dbs, x.ctx.sel, x.ctx.tx.value[x.pc.next], e.act.choice);
      var r := Step(s, e).value;
      && o.Done? && ValidChoice(s.dbs, x.ctx.sel, x.ctx.tx.value[x.pc.next], e.act.choice)
      && r.dbs == o.state && c in r.conns
      && r.conns[c].pc == ExecCall(x.pc.next + 1) && r.conns[c].out == x.out + o.reply
      && r.conns[c].ctx.tx == x.ctx.tx && r.conns[c].ctx.sel == x.ctx.sel
  {
  }

  lemma RunsQueuePrefix(ids: set<Id>, es: seq<Event>, i: nat, c: Id, k: nat)
    requires IsRun(ids, es) && RunsQueue(ids, es, i, c) && i <= k <= |es|
    ensures IsRun(ids, es[..k]) && RunsQueue(ids, es[..k], i, c)
  {
    PrefixAt(ids, es, k, i);
    forall t | i <= t <= k
      ensures c in At(ids, es[..k], t).conns && At(ids, es[..k], t).conns[c].pc.ExecCall?
    {
      PrefixAt(ids, es, k, t);
      assert c in At(ids, es, t).conns && At(ids, es, t).conns[c].pc.ExecCall?;
    }
  }

  lemma ChoicesNext(es: seq<Event>, i: nat, k: nat, c: Id)
    requires i <= k && |es| == k + 1
    ensures ChoicesOf(es[i..], c) ==
      ChoicesOf(es[..k][i..], c) + if es[k].c == c && es[k].act.Go? then [es[k].act.choice] else []
  {
    assert es[i..][..k - i] == es[..k][i..];
    assert es[i..][k - i] == es[k];
  }

  lemma QueueBegins(ids: set<Id>, es: seq<Event>, i: nat, c: Id)
    requires IsRun(ids, es) && !At(ids, es, |es|).crashed && RunsQueue(ids, es, i, c) && i == |es|
    ensures QueueProgress(At(ids, es, i), At(ids, es, |es|), c, ChoicesOf(es[i..], c))
  {
    RunInv(ids, es);
    assert es[..|es|] == es && es[i..] == [];
    assert At(ids, es, i).conns[c].ctx.tx.value[..0] == [];
  }

  lemma {:induction false} QueueIsSequential(ids: set<Id>, es: seq<Event>, i: nat, c: Id)
    requires IsRun(ids, es) && !At(ids, es, |es|).crashed && RunsQueue(ids, es, i, c)
    ensures QueueProgress(At(ids, es, i), At(ids, es, |es|), c, ChoicesOf(es[i..], c))
    decreases |es|
  {
    if i == |es| {
      QueueBegins(ids, es, i, c);
    } else {
      var k := |es| - 1;
      assert c in At(ids, es, k).conns && At(ids, es, k).conns[c].pc.ExecCall?;
      assert c in At(ids, es, k + 1).conns && At(ids, es, k + 1).conns[c].pc.ExecCall?;
      hide At, IsRun, RunsQueue, QueueProgress, Step, LockInv, ChoicesOf;
      BeforeEvent(ids, es, k);
      RunsQueuePrefix(ids, es, i, c, k);
      PrefixAt(ids, es, k, i);
      PrefixAt(ids, es, k, k);
      QueueIsSequential(ids, es[..k], i, c);
      ChoicesNext(es, i, k, c);
      var choices := ChoicesOf(es[..k][i..], c);
      if es[k].c == c {
        QueueStep(At(ids, es, i), At(ids, es, k), es[k], c, choices);
      } else {
        Uninterrupted(At(ids, es, k), es[k], c);
        assert choices + [] == choices;
        SameProgress(At(ids, es, i), At(ids, es, k), At(ids, es, k + 1), c, choices);
      }
    }
  }

  lemma SameProgress(s0: State, s: State, r: State, c: Id, choices: seq<seq<string>>)
    requires c in s0.conns && c in s.conns && c in r.conns && QueueProgress(s0, s, c, choices)
    requires r.conns[c] == s.conns[c] && r.dbs == s.dbs
    ensures QueueProgress(s0, r, c, choices)
  {
  }

  /** Transaction equivalence: when EXEC has run its whole queue, the databases and the writer calls
      are those of running what the client has sent since its MULTI, one command after the other and
      uninterrupted, from the state at the check and on the database the client has selected, behind an
      array header of their number. Other connections may have taken any number of steps in between. */
  lemma TransactionEquivalence(ids: set<Id>, es: seq<Event>, i: nat, c: Id)
    requires IsRun(ids, es) && !At(ids, es, |es|).crashed && Checks(ids, es, i, c) && RunsQueue(ids, es, i + 1, c)
    requires At(ids, es, |es|).conns[c].pc == ExecCall(|Backlog(BeforeExec(es, i, c))|)
    ensures
      var before := BeforeExec(es, i, c);
      var q := Backlog(before);
      var choices := ChoicesOf(es[i + 1..], c);
      && |choices| == |q|
      && var o := RunAll(At(ids, es, i).dbs, SelectedDb(before), q, choices);
      && o.Done? && ValidAll(At(ids, es, i).dbs, SelectedDb(before), q, choices) && At(ids, es, |es|).dbs == o.state
      && At(ids, es, |es|).conns[c].out == At(ids, es, i).conns[c].out + [Len(|q|)] + o.reply
  {
    assert es[..|es|] == es;
    QueueIsSequential(ids, es, i + 1, c);
    ExecDecides(ids, es, i, c);
    AtCheck(ids, es, i, c);
    var q := Backlog(BeforeExec(es, i, c));
    hide At, IsRun, Queue, Opened, Backlog, RunAll, ValidAll, BeforeExec, Watched, Unmoved;
    var choices := ChoicesOf(es[i + 1..], c);
    assert q[..|choices|] == q;
  }

  // ---------- Dirty transactions ----------

  /** Positions a connection with a dirty transaction can be in: never on the way to a callback. */
  predicate Harmless(pc: PC) { pc.Idle? || pc.SelectLock? || pc.SelectSet? || pc.Unlocking? }

  predicate DirtyTx(x: Conn, queue: seq<Cmd>) {
    InTx(x.ctx) && x.ctx.dirty && queue <= x.ctx.tx.value && Harmless(x.pc)
  }

  lemma {:induction false} DirtyStep(s: State, e: Event, c: Id, queue: seq<Cmd>)
    requires Step(s, e).Some? && !Step(s, e).value.crashed && c in s.conns && DirtyTx(s.conns[c], queue)
    requires e != Event(c, Submit(Discard))
    ensures c in Step(s, e).value.conns && DirtyTx(Step(s, e).value.conns[c], queue)
  {
    if e.c != c {
      OthersFrame(s, e, c);
    }
  }

  lemma {:induction false} DirtyStays(ids: set<Id>, es: seq<Event>, i: nat, j: nat, c: Id, queue: seq<Cmd>)
    requires IsRun(ids, es) && i <= j <= |es| && !At(ids, es, j).crashed
    requires c in At(ids, es, i).conns && DirtyTx(At(ids, es, i).conns[c], queue)
    requires forall t :: i <= t < j ==> es[t] != Event(c, Submit(Discard))
    ensures c in At(ids, es, j).conns && DirtyTx(At(ids, es, j).conns[c], queue)
    decreases j
  {
    if i < j {
      AtNext(ids, es, j - 1);
      DirtyStays(ids, es, i, j - 1, c, queue);
      DirtyStep(At(ids, es, j - 1), es[j - 1], c, queue);
    }
  }

  /** Dirty transactions never run: after an argument error inside MULTI, as long as the client does
      not send DISCARD, no continuation of the run, of any length, executes a callback of the
      transaction; it stays open, dirty and with everything queued. */
  lemma DirtyNeverRuns(ids: set<Id>, es: seq<Event>, i: nat, j: nat, c: Id)
    requires IsRun(ids, es) && i < j <= |es| && !At(ids, es, j).crashed
    requires es[i].c == c && es[i].act.Submit? && es[i].act.req.Rejected? && es[i].act.req.dirties
    requires c in At(ids, es, i).conns && InTx(At(ids, es, i).conns[c].ctx)
    requires forall t :: i < t < j ==> es[t] != Event(c, Submit(Discard))
    ensures c in At(ids, es, j).conns
    ensures DirtyTx(At(ids, es, j).conns[c], At(ids, es, i).conns[c].ctx.tx.value)
    ensures j < |es| && es[j].c == c ==> Executed(At(ids, es, j), es[j]).None?
  {
    AtNext(ids, es, i);
    var queue := At(ids, es, i).conns[c].ctx.tx.value;
    assert DirtyTx(At(ids, es, i + 1).conns[c], queue);
    DirtyStays(ids, es, i + 1, j, c, queue);
  }
}
