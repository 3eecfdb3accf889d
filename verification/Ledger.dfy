/** Where list elements come from and go to: a ledger that balances over every run. Multisets are
    compared value by value: every count below is of the occurrences of one arbitrary value `v`. */
module Ledger {
  import opened Base
  import opened Store
  import opened Resp
  import opened Commands
  import opened CommandLaws
  import opened Machine
  import opened LockSafety
  import opened Watching
  import Ranges
  import opened Lists

  // ---------- Elements held by a database and by the server ----------

  ghost function Counts(lists: map<string, seq<string>>, v: string): (r: map<string, nat>) {
    map k | k in lists :: Occurrences(lists[k], v)
  }

  /** How often `v` occurs in all lists of a database. */
  ghost function Held(db: DB, v: string): (r: nat) { Total(Counts(db.lists, v)) }

  ghost function DbCounts(dbs: Dbs, v: string): (r: map<int, nat>) { map d | d in dbs :: Held(dbs[d], v) }

  /** How often `v` occurs in all lists of all databases. */
  ghost function HeldAll(dbs: Dbs, v: string): (r: nat) { Total(DbCounts(dbs, v)) }

  /** Splits one key off the sum. */
  lemma HeldAt(db: DB, k: string, v: string)
    ensures Held(db, v) == Total(Counts(db.lists - {k}, v)) + Occurrences(ListAt(db, k), v)
  {
    var m := Counts(db.lists, v);
    assert Counts(db.lists - {k}, v) == m - {k};
    if k in db.lists {
      TotalSplit(m, k);
    } else {
      assert m - {k} == m;
    }
  }

  /** Changing the list under one key changes the sum by that list alone. */
  lemma HeldChange(a: DB, b: DB, k: string, v: string)
    requires a.lists - {k} == b.lists - {k}
    ensures Held(b, v) + Occurrences(ListAt(a, k), v) == Held(a, v) + Occurrences(ListAt(b, k), v)
  {
    HeldAt(a, k, v);
    HeldAt(b, k, v);
  }

  lemma HeldAllPut(dbs: Dbs, i: int, db: DB, v: string)
    ensures HeldAll(dbs[i := db], v) + Held(Get(dbs, i), v) == HeldAll(dbs, v) + Held(db, v)
  {
    var m := DbCounts(dbs, v);
    assert DbCounts(dbs[i := db], v) == m[i := Held(db, v)];
    TotalPut(m, i, Held(db, v));
    if i in dbs {
      TotalSplit(m, i);
    } else {
      assert m - {i} == m;
      assert Counts(EmptyDB.lists, v) == map[];
    }
  }

  lemma DelHeld(db: DB, k: string, v: string)
    requires Agree(db)
    ensures Held(Del(db, k), v) + Occurrences(ListAt(db, k), v) == Held(db, v)
  {
    assert Del(db, k).lists - {k} == db.lists - {k};
    HeldChange(db, Del(db, k), k, v);
    assert ListAt(Del(db, k), k) == [];
  }

  lemma PutListHeld(db: DB, k: string, l: seq<string>, v: string)
    ensures Held(PutList(db, k, l), v) + Occurrences(ListAt(db, k), v) == Held(db, v) + Occurrences(l, v)
  {
    assert PutList(db, k, l).lists - {k} == db.lists - {k};
    HeldChange(db, PutList(db, k, l), k, v);
  }

  lemma ShrinkHeld(db: DB, k: string, l: seq<string>, v: string)
    requires Agree(db)
    ensures Held(Shrink(db, k, l), v) + Occurrences(ListAt(db, k), v) == Held(db, v) + Occurrences(l, v)
  {
    if l == [] {
      DelHeld(db, k, v);
    } else {
      PutListHeld(db, k, l, v);
    }
  }

  lemma PushHeld(db: DB, k: string, x: string, side: Side, v: string)
    ensures Held(PushOne(db, k, x, side), v) == Held(db, v) + Occurrences([x], v)
  {
    var l := ListAt(db, k);
    var d := TagAsList(db, k);
    PutListHeld(d, k, if side.Left? then [x] + l else l + [x], v);
    OccurrencesAppend([x], l, v);
    OccurrencesAppend(l, [x], v);
  }

  lemma {:induction false} PushAllHeld(db: DB, k: string, values: seq<string>, side: Side, v: string)
    ensures Held(PushAll(db, k, values, side), v) == Held(db, v) + Occurrences(values, v)
    decreases |values|
  {
    if values != [] {
      PushHeld(db, k, values[0], side, v);
      PushAllHeld(PushOne(db, k, values[0], side), k, values[1..], side, v);
      OccurrencesAppend([values[0]], values[1..], v);
      assert values == [values[0]] + values[1..];
    }
  }

  lemma PopHeld(db: DB, k: string, side: Side, v: string)
    requires Agree(db) && k in db.lists
    ensures Held(PopOne(db, k, side), v) + Occurrences([PopValue(ListAt(db, k), side)], v) == Held(db, v)
  {
    hide Held, Occurrences, PopOne, Agree, ListAt;
    var l := ListAt(db, k);
    PopShape(db, k, side);
    HeldChange(db, PopOne(db, k, side), k, v);
    if side.Left? {
      OccurrencesAppend([l[0]], l[1..], v);
      assert l == [l[0]] + l[1..];
    } else {
      OccurrencesAppend(l[..|l| - 1], [l[|l| - 1]], v);
      assert l == l[..|l| - 1] + [l[|l| - 1]];
    }
  }

  lemma PopShape(db: DB, k: string, side: Side)
    requires Agree(db) && k in db.lists
    ensures ListAt(db, k) != [] && PopOne(db, k, side).lists - {k} == db.lists - {k}
    ensures ListAt(PopOne(db, k, side), k) ==
      if side.Left? then ListAt(db, k)[1..] else ListAt(db, k)[..|ListAt(db, k)| - 1]
  {
  }

  lemma RotateHeld(db: DB, src: string, dst: string, v: string)
    requires Agree(db) && src in db.lists
    ensures Held(ListLpush(ListPop(db, src), dst, PopValue(ListAt(db, src), Right)), v) == Held(db, v)
  {
    PopHeld(db, src, Right, v);
    PushHeld(ListPop(db, src), dst, PopValue(ListAt(db, src), Right), Left, v);
  }

  // ---------- The ledger entries of one callback ----------

  /** The elements a callback puts into lists. */
  function ListPushed(db: DB, c: ListCmd): (r: seq<string>) {
    match c
    case Push(k, values, _) => if IsSet(db, k) then [] else values
    case PushX(k, values, _) => if IsList(db, k) then values else []
    case LInsert(k, _, pivot, value) => if IsList(db, k) && pivot in ListAt(db, k) then [value] else []
    case LSet(k, index, value) =>
      if IsList(db, k) && 0 <= Ranges.Index(|ListAt(db, k)|, index) < |ListAt(db, k)| then [value] else []
    case _ => []
  }

  /** The element a pop hands to the client, read off its reply. */
  function ListTaken(c: ListCmd, reply: seq<Tok>): (r: seq<string>) {
    if c.Pop? && |reply| == 1 && reply[0].Bulk? then [reply[0].s] else []
  }

  function TryTaken(b: BlockCmd, reply: seq<Tok>): (r: seq<string>) {
    if b.BPop? && |reply| == 3 && reply[2].Bulk? then [reply[2].s] else []
  }

  /** The elements a callback throws away, for LREM as copies of its argument. */
  function ListDropped(db: DB, c: ListCmd): (r: seq<string>) {
    var l := if c.RPopLPush? then [] else ListAt(db, c.key);
    match c
    case LRem(k, count, value) =>
      if IsList(db, k) then seq(|l| - |Lists.LRem(l, value, count)|, _ => value) else []
    case LSet(k, index, _) =>
      var i := Ranges.Index(|l|, index);
      if IsList(db, k) && 0 <= i < |l| then [l[i]] else []
    case LTrim(k, start, end) =>
      var (rs, re) := Ranges.RedisRange(|l|, start, end, false);
      Ranges.RangeBounds(|l|, start, end, false);
      if IsList(db, k) then l[..rs] + l[re..] else []
    case _ => []
  }

  function SetDropped(db: DB, c: SetCmd): (r: seq<string>) {
    if c.SStore? && Combine(db, c.op, [c.first] + c.others).Some? then ListAt(db, c.dest) else []
  }

  function DelDropped(db: DB, keys: seq<string>): (r: seq<string>)
    decreases |keys|
  {
    if keys == [] then [] else ListAt(db, keys[0]) + DelDropped(Del(db, keys[0]), keys[1..])
  }

  ghost function KeyDropped(db: DB, c: KeyCmd, v: string): (n: nat) {
    match c
    case Delete(keys) => Occurrences(DelDropped(db, keys), v)
    case RenameTo(from, to) => if Exists(db, from) then Occurrences(ListAt(db, to), v) else 0
    case FlushDb => Held(db, v)
    case _ => 0
  }

  /** Occurrences of `v` a callback pushes, hands out, and throws away. */
  function Pushed(dbs: Dbs, sel: int, c: Cmd, v: string): (n: nat) {
    if c.L? then Occurrences(ListPushed(Get(dbs, sel), c.list), v) else 0
  }

  function Taken(c: Cmd, reply: seq<Tok>, v: string): (n: nat) {
    match c
    case L(l) => Occurrences(ListTaken(l, reply), v)
    case Try(b) => Occurrences(TryTaken(b, reply), v)
    case _ => 0
  }

  ghost function Dropped(dbs: Dbs, sel: int, c: Cmd, v: string): (n: nat) {
    match c
    case L(l) => Occurrences(ListDropped(Get(dbs, sel), l), v)
    case S(s) => Occurrences(SetDropped(Get(dbs, sel), s), v)
    case K(g) => KeyDropped(Get(dbs, sel), g, v)
    case FlushAll => HeldAll(dbs, v)
    case _ => 0
  }

  // ---------- Every callback balances ----------

  lemma {:induction false} CopiesCount(n: nat, x: string, v: string)
    ensures Occurrences(seq(n, _ => x), v) == if x == v then n else 0
  {
    if n > 0 {
      CopiesCount(n - 1, x, v);
      assert seq(n, _ => x)[1..] == seq(n - 1, _ => x);
    }
  }

  lemma {:induction false} RemoveNBalance(l: seq<string>, x: string, n: int, v: string)
    ensures Occurrences(RemoveN(l, x, n), v) + (if x == v then |l| - |RemoveN(l, x, n)| else 0) == Occurrences(l, v)
  {
    if l != [] {
      RemoveNBalance(l[1..], x, if l[0] == x && n > 0 then n - 1 else n, v);
    }
  }

  lemma LRemBalance(l: seq<string>, x: string, count: Int64, v: string)
    ensures
      var r := Lists.LRem(l, x, count);
      Occurrences(r, v) + (if x == v then |l| - |r| else 0) == Occurrences(l, v)
  {
    if count < 0 {
      var n := Wrap(0 - count);
      RemoveNBalance(Reverse(l), x, n, v);
      OccurrencesReverse(l, v);
      OccurrencesReverse(RemoveN(Reverse(l), x, n), v);
    } else {
      RemoveNBalance(l, x, if count > 0 then count else |l|, v);
    }
  }

  lemma InsertBalances(db: DB, c: ListCmd, v: string)
    requires Agree(db) && c.LInsert?
    ensures RunList(db, c).Done?
    ensures Held(db, v) + Occurrences(ListPushed(db, c), v) == Held(RunList(db, c).state, v)
  {
    var l := ListAt(db, c.key);
    var i := FirstIndex(l, c.pivot);
    assert c.pivot in l <==> i < |l|;
    if IsList(db, c.key) && i < |l| {
      var j := if c.before then i else i + 1;
      PutListHeld(db, c.key, InsertAt(l, j, c.value), v);
      OccurrencesAppend(l[..j], l[j..], v);
      OccurrencesAppend(l[..j] + [c.value], l[j..], v);
      OccurrencesAppend(l[..j], [c.value], v);
      assert l == l[..j] + l[j..];
    }
  }

  lemma SetBalances(db: DB, c: ListCmd, v: string)
    requires Agree(db) && c.LSet?
    ensures RunList(db, c).Done?
    ensures Held(db, v) + Occurrences(ListPushed(db, c), v) ==
      Held(RunList(db, c).state, v) + Occurrences(ListDropped(db, c), v)
  {
    var l := ListAt(db, c.key);
    var i := Ranges.Index(|l|, c.index);
    if IsList(db, c.key) && 0 <= i < |l| {
      PutListHeld(db, c.key, l[i := c.value], v);
      Middle(l, i, v);
      Middle(l[i := c.value], i, v);
      assert l[i := c.value][..i] == l[..i] && l[i := c.value][i + 1..] == l[i + 1..];
    }
  }

  lemma Middle(l: seq<string>, i: nat, v: string)
    requires i < |l|
    ensures Occurrences(l, v) == Occurrences(l[..i], v) + Occurrences([l[i]], v) + Occurrences(l[i + 1..], v)
  {
    OccurrencesAppend(l[..i], [l[i]], v);
    OccurrencesAppend(l[..i] + [l[i]], l[i + 1..], v);
    assert l == l[..i] + [l[i]] + l[i + 1..];
  }

  lemma ShrinkBalances(db: DB, c: ListCmd, v: string)
    requires Agree(db) && (c.LRem? || c.LTrim?)
    ensures RunList(db, c).Done?
    ensures Held(db, v) == Held(RunList(db, c).state, v) + Occurrences(ListDropped(db, c), v)
  {
    var l := ListAt(db, c.key);
    if IsList(db, c.key) {
      if c.LRem? {
        ShrinkHeld(db, c.key, Lists.LRem(l, c.value, c.count), v);
        LRemBalance(l, c.value, c.count, v);
        CopiesCount(|l| - |Lists.LRem(l, c.value, c.count)|, c.value, v);
      } else {
        TrimBalances(db, c, v);
      }
    }
  }

  lemma TrimBalances(db: DB, c: ListCmd, v: string)
    requires Agree(db) && c.LTrim? && IsList(db, c.key)
    ensures RunList(db, c).Done?
    ensures Held(db, v) == Held(RunList(db, c).state, v) + Occurrences(ListDropped(db, c), v)
  {
    hide Shrink, Held, Occurrences, Agree, Ranges.RedisRange;
    var l := ListAt(db, c.key);
    var (rs, re) := Ranges.RedisRange(|l|, c.start, c.end, false);
    Ranges.RangeBounds(|l|, c.start, c.end, false);
    ShrinkHeld(db, c.key, l[rs..re], v);
    OccurrencesAppend(l[..rs], l[rs..re], v);
    OccurrencesAppend(l[..rs] + l[rs..re], l[re..], v);
    OccurrencesAppend(l[..rs], l[re..], v);
    assert l == l[..rs] + l[rs..re] + l[re..];
  }

  lemma ListBalances(db: DB, c: ListCmd, v: string)
    requires Agree(db)
    ensures RunList(db, c).Done?
    ensures Held(db, v) + Occurrences(ListPushed(db, c), v) ==
      Held(RunList(db, c).state, v) + Occurrences(ListTaken(c, RunList(db, c).reply), v) +
      Occurrences(ListDropped(db, c), v)
  {
    if c.LInsert? {
      InsertBalances(db, c, v);
    } else if c.LSet? {
      SetBalances(db, c, v);
    } else if c.LRem? || c.LTrim? {
      ShrinkBalances(db, c, v);
    } else if c.Push? || c.PushX? {
      PushAllHeld(db, c.key, c.values, c.side, v);
    } else {
      PopBalances(db, c, v);
    }
  }

  lemma PopBalances(db: DB, c: ListCmd, v: string)
    requires Agree(db) && (c.Pop? || c.RPopLPush? || c.LIndex? || c.LLen? || c.LRange?)
    ensures RunList(db, c).Done?
    ensures Held(db, v) == Held(RunList(db, c).state, v) + Occurrences(ListTaken(c, RunList(db, c).reply), v)
  {
    if c.Pop? {
      if IsList(db, c.key) {
        PopHeld(db, c.key, c.side, v);
      }
    } else if c.RPopLPush? {
      if IsList(db, c.src) && !IsSet(db, c.dst) {
        RotateHeld(db, c.src, c.dst, v);
      }
    }
  }

  lemma TryBalances(db: DB, b: BlockCmd, v: string)
    requires Agree(db) && RunTry(db, b).Some?
    ensures RunTry(db, b).value.Done?
    ensures Held(db, v) ==
      Held(RunTry(db, b).value.state, v) + Occurrences(TryTaken(b, RunTry(db, b).value.reply), v)
  {
    match b
    case BPop(keys, side) =>
      TryPopDone(db, keys, side);
      var o := TryPop(db, keys, side).value;
      if o != Done(db, [WRONG_TYPE]) {
        var k :| k in keys && k in db.lists &&
          o == Done(PopOne(db, k, side), [Len(2), Bulk(k), Bulk(PopValue(ListAt(db, k), side))]);
        PopHeld(db, k, side, v);
      }
    case BRPopLPush(src, dst) =>
      if IsList(db, src) && !IsSet(db, dst) {
        RotateHeld(db, src, dst, v);
      }
  }

  lemma SetRemLists(db: DB, k: string, fields: seq<string>)
    requires Agree(db)
    ensures SetRem(db, k, fields).lists == db.lists
  {
  }

  lemma {:induction false} PopMembersLists(db: DB, k: string, members: seq<string>)
    requires Agree(db)
    ensures PopMembers(db, k, members).lists == db.lists
    decreases |members|
  {
    if members != [] {
      SetRemKeeps(db, k, [members[0]]);
      SetRemLists(db, k, [members[0]]);
      PopMembersLists(SetRem(db, k, [members[0]]), k, members[1..]);
    }
  }

  /** A set command leaves every list alone, except that *STORE deletes what was under its
      destination. */
  lemma SetCmdLists(db: DB, c: SetCmd, choice: seq<string>)
    requires Agree(db) && RunSet(db, c, choice).Done?
    ensures RunSet(db, c, choice).state.lists ==
      if c.SStore? && Combine(db, c.op, [c.first] + c.others).Some? then Del(db, c.dest).lists else db.lists
  {
    hide Agree, Combine, Bulks, Elems, SetRem, Del, PopMembers, MatchPanics;
    match c {
      case SPop(k, _) => PopMembersLists(db, k, choice);
      case SRem(k, fields) => SetRemLists(db, k, fields);
      case SMove(src, _, v) => SetRemLists(db, src, [v]);
      case _ =>
    }
  }

  lemma SetCmdBalances(db: DB, c: SetCmd, choice: seq<string>, v: string)
    requires Agree(db) && RunSet(db, c, choice).Done?
    ensures Held(db, v) == Held(RunSet(db, c, choice).state, v) + Occurrences(SetDropped(db, c), v)
  {
    SetCmdLists(db, c, choice);
    if c.SStore? {
      DelHeld(db, c.dest, v);
    }
  }

  lemma {:induction false} DelAllHeld(db: DB, keys: seq<string>, v: string)
    requires Agree(db)
    ensures Held(DelAll(db, keys), v) + Occurrences(DelDropped(db, keys), v) == Held(db, v)
    decreases |keys|
  {
    if keys != [] {
      DelKeeps(db, keys[0]);
      DelHeld(db, keys[0], v);
      DelAllHeld(Del(db, keys[0]), keys[1..], v);
      OccurrencesAppend(ListAt(db, keys[0]), DelDropped(Del(db, keys[0]), keys[1..]), v);
    }
  }

  lemma PlaceHeld(to: DB, k: string, from: DB, j: string, v: string)
    requires Agree(to) && Agree(from) && Exists(from, j) && !Exists(to, k)
    ensures Held(Place(to, k, from, j), v) == Held(to, v) + Occurrences(ListAt(from, j), v)
  {
    var r := Place(to, k, from, j);
    assert r.lists - {k} == to.lists - {k};
    HeldChange(to, r, k, v);
    PlaceKeeps(to, k, from, j);
  }

  lemma RenameHeld(db: DB, from: string, to: string, v: string)
    requires Agree(db) && Rename(db, from, to).Some?
    ensures Held(Rename(db, from, to).value, v) + Occurrences(ListAt(db, to), v) == Held(db, v)
  {
    var d := Del(db, to);
    DelKeeps(db, to);
    DelHeld(db, to, v);
    PlaceKeeps(d, to, d, from);
    PlaceHeld(d, to, d, from, v);
    DelHeld(Place(d, to, d, from), from, v);
    PlaceOther(d, to, d, from);
  }

  lemma PlaceOther(to: DB, k: string, from: DB, j: string)
    requires Exists(from, j) && j != k
    ensures ListAt(Place(to, k, from, j), j) == ListAt(to, j)
  {
  }

  lemma KeyBalances(db: DB, c: KeyCmd, choice: seq<string>, v: string)
    requires Agree(db) && RunKey(db, c, choice).Done?
    ensures Held(db, v) == Held(RunKey(db, c, choice).state, v) + KeyDropped(db, c, v)
  {
    match c {
      case Delete(keys) => DelAllHeld(db, keys, v);
      case RenameTo(from, to) =>
        if Exists(db, from) {
          RenameHeld(db, from, to, v);
        }
      case RenameNx(from, to) =>
        if Exists(db, from) && !Exists(db, to) {
          RenameHeld(db, from, to, v);
          assert ListAt(db, to) == [];
        }
      case FlushDb => assert Counts(Flush(db).lists, v) == map[];
      case _ =>
    }
  }

  lemma MoveBalances(dbs: Dbs, sel: int, k: string, target: Int64, choice: seq<string>, v: string)
    requires AgreeAll(dbs)
    ensures Run(dbs, sel, MoveTo(k, target), choice).Done?
    ensures HeldAll(Run(dbs, sel, MoveTo(k, target), choice).state, v) == HeldAll(dbs, v)
  {
    EmptyAgrees(dbs, sel);
    EmptyAgrees(dbs, target);
    var from, to := Get(dbs, sel), Get(dbs, target);
    if sel != target {
      if Move(from, to, k).Some? {
        var (a, b) := Move(from, to, k).value;
        DelHeld(from, k, v);
        PlaceHeld(to, k, from, k, v);
        HeldAllPut(dbs, sel, a, v);
        HeldAllPut(dbs[sel := a], target, b, v);
      } else {
        HeldAllPut(dbs, sel, from, v);
        HeldAllPut(dbs[sel := from], target, to, v);
      }
    }
  }

  lemma FlushAllEmpties(dbs: Dbs, v: string)
    ensures HeldAll(map d | d in dbs :: Flush(dbs[d]), v) == 0
  {
    var r := map d | d in dbs :: Flush(dbs[d]);
    forall d | d in r
      ensures Held(r[d], v) == 0
    {
      assert Counts(r[d].lists, v) == map[];
    }
    TotalZero(DbCounts(r, v));
  }

  /** The ledger of one callback on the whole server. */
  lemma RunBalances(dbs: Dbs, sel: int, c: Cmd, choice: seq<string>, v: string)
    requires AgreeAll(dbs) && Run(dbs, sel, c, choice).Done?
    ensures
      var o := Run(dbs, sel, c, choice);
      HeldAll(dbs, v) + Pushed(dbs, sel, c, v) == HeldAll(o.state, v) + Taken(c, o.reply, v) + Dropped(dbs, sel, c, v)
  {
    var db := Get(dbs, sel);
    EmptyAgrees(dbs, sel);
    match c {
      case L(l) =>
        ListBalances(db, l, v);
        HeldAllPut(dbs, sel, RunList(db, l).state, v);
      case S(s) =>
        SetCmdBalances(db, s, choice, v);
        HeldAllPut(dbs, sel, RunSet(db, s, choice).state, v);
      case K(g) =>
        KeyBalances(db, g, choice, v);
        HeldAllPut(dbs, sel, RunKey(db, g, choice).state, v);
      case Try(b) =>
        if RunTry(db, b).Some? {
          TryBalances(db, b, v);
          HeldAllPut(dbs, sel, RunTry(db, b).value.state, v);
        } else {
          HeldAllPut(dbs, sel, db, v);
        }
      case MoveTo(k, target) =>
        MoveBalances(dbs, sel, k, target, choice, v);
      case FlushAll =>
        FlushAllEmpties(dbs, v);
    }
  }

  // ---------- The ledger of a run ----------

  /** Occurrences of one value pushed, handed to clients, and thrown away. */
  datatype Entry = Entry(pushed: nat, taken: nat, dropped: nat)

  /** The entry of one event, read off the state it starts from. */
  ghost function EntryOf(s: State, e: Event, v: string): (r: Entry) {
    if Executed(s, e).Some? then
      var sel := s.conns[e.c].ctx.sel;
      var cmd := Executed(s, e).value;
      var o := Run(s.dbs, sel, cmd, e.act.choice);
      Entry(Pushed(s.dbs, sel, cmd, v), if o.Done? then Taken(cmd, o.reply, v) else 0, Dropped(s.dbs, sel, cmd, v))
    else if e.c in s.conns && e.act.Go? && s.conns[e.c].pc.BlockTry? then
      var x := s.conns[e.c];
      var o := RunTry(Get(s.dbs, x.ctx.sel), x.pc.block);
      Entry(0, if o.Some? && o.value.Done? then Occurrences(TryTaken(x.pc.block, o.value.reply), v) else 0, 0)
    else Entry(0, 0, 0)
  }

  ghost function Entries(ids: set<Id>, es: seq<Event>, v: string): (r: Entry)
    requires IsRun(ids, es)
    decreases |es|
  {
    if es == [] then Entry(0, 0, 0)
    else
      var k := |es| - 1;
      var before := Entries(ids, es[..k], v);
      var n := EntryOf(After(ids, es[..k]).value, es[k], v);
      Entry(before.pushed + n.pushed, before.taken + n.taken, before.dropped + n.dropped)
  }

  lemma ExecutedStep(s: State, e: Event)
    requires Step(s, e).Some? && !Step(s, e).value.crashed && Executed(s, e).Some?
    ensures
      var o := Run(s.dbs, s.conns[e.c].ctx.sel, Executed(s, e).value, e.act.choice);
      o.Done? && Step(s, e).value.dbs == o.state
  {
  }

  lemma StepBalances(s: State, e: Event, v: string)
    requires LockInv(s) && AgreeAll(s.dbs) && Step(s, e).Some? && !Step(s, e).value.crashed
    ensures
      var n := EntryOf(s, e, v);
      HeldAll(s.dbs, v) + n.pushed == HeldAll(Step(s, e).value.dbs, v) + n.taken + n.dropped
  {
    var x := s.conns[e.c];
    if Executed(s, e).Some? {
      ExecutedStep(s, e);
      RunBalances(s.dbs, x.ctx.sel, Executed(s, e).value, e.act.choice, v);
    } else if e.act.Go? && x.pc.BlockTry? {
      TryStepBalances(s, e, v);
    } else {
      OtherStepKeepsDbs(s, e);
    }
  }

  lemma TryStepBalances(s: State, e: Event, v: string)
    requires LockInv(s) && AgreeAll(s.dbs) && Step(s, e).Some? && !Step(s, e).value.crashed
    requires e.act.Go? && s.conns[e.c].pc.BlockTry?
    ensures
      var n := EntryOf(s, e, v);
      HeldAll(s.dbs, v) + n.pushed == HeldAll(Step(s, e).value.dbs, v) + n.taken + n.dropped
  {
    TryStep(s, e);
    var x := s.conns[e.c];
    var db := Get(s.dbs, x.ctx.sel);
    EmptyAgrees(s.dbs, x.ctx.sel);
    if RunTry(db, x.pc.block).Some? {
      TryBalances(db, x.pc.block, v);
      HeldAllPut(s.dbs, x.ctx.sel, RunTry(db, x.pc.block).value.state, v);
    } else {
      HeldAllPut(s.dbs, x.ctx.sel, db, v);
    }
  }

  /** Element conservation: in every run, whatever the interleaving, and for every value, each
      occurrence ever pushed is still held in some list, was handed to a client by a pop, or was
      dropped by a command that deletes, trims or overwrites. Timeouts, moves, rotations and aborted
      transactions lose and duplicate nothing. */
  lemma {:induction false} Conservation(ids: set<Id>, es: seq<Event>, v: string)
    requires IsRun(ids, es) && !After(ids, es).value.crashed
    ensures
      var n := Entries(ids, es, v);
      n.pushed == HeldAll(After(ids, es).value.dbs, v) + n.taken + n.dropped
    decreases |es|
  {
    if es == [] {
      assert DbCounts(map[], v) == map[];
    } else {
      var k := |es| - 1;
      RunInv(ids, es[..k]);
      Conservation(ids, es[..k], v);
      StepBalances(After(ids, es[..k]).value, es[k], v);
    }
  }

  /** A command that only pushes, pops, moves or rotates, or that touches no list. */
  predicate Preserving(c: Cmd) {
    match c
    case L(l) => !l.LRem? && !l.LTrim? && !l.LSet?
    case S(s) => !s.SStore?
    case K(g) => !g.Delete? && !g.RenameTo? && !g.FlushDb?
    case Try(_) => true
    case MoveTo(_, _) => true
    case FlushAll => false
  }

  /** In a run of such commands nothing is dropped: what was pushed is held or was handed out. */
  lemma {:induction false} NothingDropped(ids: set<Id>, es: seq<Event>, v: string)
    requires IsRun(ids, es)
    requires forall i :: 0 <= i < |es| && Executed(At(ids, es, i), es[i]).Some? ==>
      Preserving(Executed(At(ids, es, i), es[i]).value)
    ensures Entries(ids, es, v).dropped == 0
    decreases |es|
  {
    if es != [] {
      var k := |es| - 1;
      RunPrefix(ids, es, k);
      forall i | 0 <= i < k && Executed(At(ids, es[..k], i), es[..k][i]).Some?
        ensures Preserving(Executed(At(ids, es[..k], i), es[..k][i]).value)
      {
        assert es[..k][..i] == es[..i];
        assert Executed(At(ids, es, i), es[i]).Some?;
      }
      NothingDropped(ids, es[..k], v);
      assert At(ids, es, k) == After(ids, es[..k]).value;
    }
  }
}
