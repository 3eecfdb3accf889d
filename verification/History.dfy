/** What the requests of one connection, in the order they were sent, say about its session: which
    transaction is open, what it has queued, which database is selected and which keys are watched.
    Nothing here looks at the state of the server. */
module History {
  import opened Base
  import opened Commands
  import opened Machine

  /** The requests that `c` sent in a run, in order. */
  function Requests(es: seq<Event>, c: Id): (rs: seq<Request>)
    decreases |es|
  {
    if es == [] then []
    else
      var k := |es| - 1;
      Requests(es[..k], c) + if es[k].c == c && es[k].act.Submit? then [es[k].act.req] else []
  }

  // ---------- Transactions ----------

  /** What a request leaves in the queue of an open transaction. */
  function Queued(r: Request): (q: seq<Cmd>) {
    match r
    case Command(cmd) => [cmd]
    case Block(b, _) => [Try(b)]
    case Unwatch => [K(Ok)]
    case _ => []
  }

  /** All of them, in order and with repetitions. */
  function Queue(rs: seq<Request>): (q: seq<Cmd>) {
    if rs == [] then [] else Queue(rs[..|rs| - 1]) + Queued(rs[|rs| - 1])
  }

  /** A request among them was rejected in a way that spoils a transaction. */
  predicate Spoilt(rs: seq<Request>) { exists j :: 0 <= j < |rs| && rs[j].Rejected? && rs[j].dirties }

  /** The position of the MULTI that opened the transaction that is open now. */
  function Opened(rs: seq<Request>): (r: Option<nat>)
    ensures r.Some? ==> r.value < |rs|
  {
    if rs == [] then None
    else
      var k := |rs| - 1;
      var open := Opened(rs[..k]);
      match rs[k]
      case Multi => if open.None? then Some(k) else open
      case Discard => None
      case Exec => if open.Some? && Spoilt(rs[..k][open.value..]) then open else None
      case _ => open
  }

  predicate InTransaction(rs: seq<Request>) { Opened(rs).Some? }

  /** The open transaction is spoilt. */
  predicate Doomed(rs: seq<Request>) { InTransaction(rs) && Spoilt(rs[Opened(rs).value..]) }

  /** What the client has sent since the MULTI of the open transaction. */
  function Backlog(rs: seq<Request>): (q: seq<Cmd>) {
    match Opened(rs)
    case None => []
    case Some(i) => Queue(rs[i + 1..])
  }

  /** The open transaction, if there is one. */
  function Pending(rs: seq<Request>): (q: Option<seq<Cmd>>) {
    if InTransaction(rs) then Some(Backlog(rs)) else None
  }

  /** Request `i` is a MULTI outside a transaction. */
  predicate Accepted(rs: seq<Request>, i: nat)
    requires i < |rs|
  {
    rs[i].Multi? && !InTransaction(rs[..i])
  }

  /** Request `j` ends a transaction: DISCARD, or EXEC unless the transaction is spoilt. */
  predicate Ends(rs: seq<Request>, j: nat)
    requires j < |rs|
  {
    InTransaction(rs[..j]) && (rs[j].Discard? || (rs[j].Exec? && !Doomed(rs[..j])))
  }

  /** The open transaction starts at the accepted MULTI that nothing has ended since. */
  lemma {:induction false} OpenedExact(rs: seq<Request>, i: nat)
    ensures Opened(rs) == Some(i) <==>
      i < |rs| && Accepted(rs, i) && forall j :: i < j < |rs| ==> !Ends(rs, j)
  {
    if rs != [] {
      var k := |rs| - 1;
      OpenedExact(rs[..k], i);
      OpenedNext(rs);
      if i < k {
        assert rs[..k][..i] == rs[..i];
        forall j | i < j < k
          ensures Ends(rs[..k], j) == Ends(rs, j)
        {
          assert rs[..k][..j] == rs[..j];
        }
        if i < |rs| && Accepted(rs, i) && forall j :: i < j < |rs| ==> !Ends(rs, j) {
          assert !Ends(rs, k);
          assert forall j :: i < j < |rs[..k]| ==> !Ends(rs[..k], j);
        }
      }
    }
  }

  /** One request more. */
  lemma OpenedNext(rs: seq<Request>)
    requires rs != []
    ensures
      var k := |rs| - 1;
      Opened(rs) == if Ends(rs, k) then None else if Accepted(rs, k) then Some(k) else Opened(rs[..k])
  {
  }

  /** A connection is in a transaction exactly when it has sent an accepted MULTI that no DISCARD and no
      EXEC, but one of a spoilt transaction, has come after. */
  lemma InTransactionExact(rs: seq<Request>)
    ensures InTransaction(rs) <==>
      exists i: nat :: i < |rs| && Accepted(rs, i) && forall j :: i < j < |rs| ==> !Ends(rs, j)
  {
    if InTransaction(rs) {
      OpenedExact(rs, Opened(rs).value);
    }
    forall i: nat | i < |rs| && Accepted(rs, i) && forall j :: i < j < |rs| ==> !Ends(rs, j)
      ensures Opened(rs) == Some(i)
    {
      OpenedExact(rs, i);
    }
  }

  // ---------- The selected database and the watched keys ----------

  /** The argument of the latest SELECT, or 0. */
  function SelectedDb(rs: seq<Request>): (d: int) {
    if rs == [] then 0
    else if rs[|rs| - 1].Select? then rs[|rs| - 1].id
    else SelectedDb(rs[..|rs| - 1])
  }

  /** Request `i` is a WATCH outside a transaction that names the pair. */
  predicate Watches(rs: seq<Request>, i: nat, p: (int, string))
    requires i < |rs|
  {
    rs[i].Watch? && !InTransaction(rs[..i]) && p.0 == SelectedDb(rs[..i]) && p.1 in rs[i].keys
  }

  /** Request `j` drops all watched keys. */
  predicate Forgets(rs: seq<Request>, j: nat)
    requires j < |rs|
  {
    rs[j].Unwatch? || Ends(rs, j)
  }

  /** A WATCH of the pair came after the latest UNWATCH and the latest end of a transaction. */
  ghost predicate Watched(rs: seq<Request>, p: (int, string)) {
    exists i :: 0 <= i < |rs| && Watches(rs, i, p) && forall j :: i < j < |rs| ==> !Forgets(rs, j)
  }

  // ---------- One request more ----------

  lemma QueueNext(rs: seq<Request>, r: Request)
    ensures Queue(rs + [r]) == Queue(rs) + Queued(r)
    ensures Spoilt(rs + [r]) <==> Spoilt(rs) || (r.Rejected? && r.dirties)
  {
    var more := rs + [r];
    assert more[..|more| - 1] == rs;
    if Spoilt(rs) {
      var j :| 0 <= j < |rs| && rs[j].Rejected? && rs[j].dirties;
      assert more[j].Rejected? && more[j].dirties;
    }
    if r.Rejected? && r.dirties {
      assert more[|rs|].Rejected?;
    }
    if Spoilt(more) {
      var j :| 0 <= j < |more| && more[j].Rejected? && more[j].dirties;
      assert j < |rs| ==> rs[j].Rejected?;
    }
  }

  /** The next request opens a transaction, ends it, or leaves it as it is. */
  lemma OpenedAfter(rs: seq<Request>, r: Request)
    ensures Opened(rs + [r]) ==
      if InTransaction(rs) then if r.Discard? || (r.Exec? && !Doomed(rs)) then None else Opened(rs)
      else if r.Multi? then Some(|rs|) else None
  {
    hide Opened, Queue, Queued, Spoilt;
    var more := rs + [r];
    assert more[..|rs|] == rs && more[|rs|] == r;
    OpenedNext(more);
  }

  /** What the next request does to the queue. */
  lemma PendingNext(rs: seq<Request>, r: Request)
    ensures Pending(rs + [r]) ==
      if InTransaction(rs) then
        if r.Discard? || (r.Exec? && !Doomed(rs)) then None else Some(Pending(rs).value + Queued(r))
      else if r.Multi? then Some([]) else None
  {
    hide Opened, Queue, Queued, Spoilt, Doomed;
    var more := rs + [r];
    OpenedAfter(rs, r);
    NothingYet(r);
    if InTransaction(rs) {
      var i := Opened(rs).value;
      assert more[i + 1..] == rs[i + 1..] + [r];
      QueueNext(rs[i + 1..], r);
    } else {
      assert more[|more|..] == [];
    }
  }

  /** When the open transaction is spoilt after the next request. */
  lemma DoomedNext(rs: seq<Request>, r: Request)
    ensures Doomed(rs + [r]) <==>
      InTransaction(rs + [r]) && InTransaction(rs) && (Doomed(rs) || (r.Rejected? && r.dirties))
  {
    hide Opened, Queue, Queued, Spoilt;
    var more := rs + [r];
    OpenedAfter(rs, r);
    NothingYet(r);
    if InTransaction(rs) {
      var i := Opened(rs).value;
      assert more[i..] == rs[i..] + [r];
      QueueNext(rs[i..], r);
    } else {
      assert more[|rs|..] == [r];
    }
  }

  lemma NothingYet(r: Request)
    ensures Queue([]) == [] && (Spoilt([r]) <==> r.Rejected? && r.dirties)
  {
    assert [r][0] == r;
  }

  lemma SelectedNext(rs: seq<Request>, r: Request)
    ensures SelectedDb(rs + [r]) == if r.Select? then r.id else SelectedDb(rs)
  {
    assert (rs + [r])[..|rs|] == rs;
  }

  lemma WatchedNext(rs: seq<Request>, r: Request, p: (int, string))
    ensures Watched(rs + [r], p) <==>
      (r.Watch? && !InTransaction(rs) && p.0 == SelectedDb(rs) && p.1 in r.keys) ||
      (Watched(rs, p) && !r.Unwatch? && !(InTransaction(rs) && (r.Discard? || (r.Exec? && !Doomed(rs)))))
  {
    var more, n := rs + [r], |rs|;
    assert more[..n] == rs && more[n] == r;
    hide InTransaction, SelectedDb, Doomed;
    forall i: nat | i < n
      ensures Watches(more, i, p) == Watches(rs, i, p) && Forgets(more, i) == Forgets(rs, i)
    {
      assert more[..i] == rs[..i];
    }
    if Watched(rs, p) {
      var i :| 0 <= i < n && Watches(rs, i, p) && forall j :: i < j < n ==> !Forgets(rs, j);
      assert Watches(more, i, p);
      assert forall j :: i < j < n ==> !Forgets(more, j);
    }
    if Watches(more, n, p) {
      assert Watched(more, p);
    }
    if Watched(more, p) {
      var i :| 0 <= i < |more| && Watches(more, i, p) && forall j :: i < j < |more| ==> !Forgets(more, j);
      if i < n {
        assert !Forgets(more, n);
        assert Watches(rs, i, p) && forall j :: i < j < n ==> !Forgets(rs, j);
      }
    }
  }
}
