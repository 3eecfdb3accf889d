/** What every callback keeps: the index maps agree, every changed key gets a new version, only the
    named keys change, and exactly one complete value is written. */
module CommandLaws {
  import opened Base
  import opened Store
  import opened Resp
  import opened Commands
  import opened Glob
  import Ranges
  import Lists

  /** A callback on one database that wrote only keys in `ks`. */
  ghost predicate Lawful(db: DB, o: Outcome<DB>, ks: set<string>) {
    o.Done? ==> Agree(o.state) && Evolves(db, o.state, ks)
  }

  lemma Unchanged(db: DB, t: seq<Tok>, ks: set<string>)
    requires Agree(db)
    ensures Lawful(db, Done(db, t), ks)
  {
    EvolvesSelf(db);
    EvolvesMore(db, db, {}, ks);
  }

  // ---------- Lists ----------

  lemma {:induction false} PushAllKeeps(db: DB, k: string, values: seq<string>, side: Side)
    requires Agree(db) && k !in db.sets
    ensures Agree(PushAll(db, k, values, side)) && Evolves(db, PushAll(db, k, values, side), {k})
    decreases |values|
  {
    if values == [] {
      EvolvesSelf(db);
      EvolvesMore(db, db, {}, {k});
    } else {
      var v := values[0];
      var d := if side.Left? then ListLpush(db, k, v) else ListPush(db, k, [v]);
      PushKeeps(db, k, if side.Left? then [v] + ListAt(db, k) else ListAt(db, k) + [v]);
      PushAllKeeps(d, k, values[1..], side);
      EvolvesTrans(db, d, PushAll(d, k, values[1..], side), {k}, {k});
      EvolvesMore(db, PushAll(d, k, values[1..], side), {k} + {k}, {k});
    }
  }

  lemma PopOneKeeps(db: DB, k: string, side: Side)
    requires Agree(db) && k in db.lists
    ensures Agree(PopOne(db, k, side)) && Evolves(db, PopOne(db, k, side), {k})
  {
    if side.Left? {
      LpopKeeps(db, k);
    } else {
      PopKeeps(db, k);
    }
  }

  lemma RotateKeeps(db: DB, src: string, dst: string, v: string)
    requires Agree(db) && src in db.lists && dst !in db.sets
    ensures Agree(ListLpush(ListPop(db, src), dst, v))
    ensures Evolves(db, ListLpush(ListPop(db, src), dst, v), {src, dst})
  {
    var d := ListPop(db, src);
    PopKeeps(db, src);
    assert dst !in d.sets;
    PushKeeps(d, dst, [v] + ListAt(d, dst));
    EvolvesTrans(db, d, ListLpush(d, dst, v), {src}, {dst});
    EvolvesMore(db, ListLpush(d, dst, v), {src} + {dst}, {src, dst});
  }

  lemma ListLawful(db: DB, c: ListCmd)
    requires Agree(db)
    ensures RunList(db, c).Done?
    ensures Lawful(db, RunList(db, c), ListWrites(c))
  {
    if c.LIndex? || c.LLen? || c.LRange? {
      Unchanged(db, RunList(db, c).reply, {});
    } else if c.LInsert? || c.LSet? {
      ReplaceLawful(db, c);
    } else if c.LRem? || c.LTrim? {
      ShrinkLawful(db, c);
    } else {
      PushPopLawful(db, c);
    }
  }

  lemma ReplaceLawful(db: DB, c: ListCmd)
    requires Agree(db) && (c.LInsert? || c.LSet?)
    ensures RunList(db, c).Done? && Lawful(db, RunList(db, c), {c.key})
  {
    Unchanged(db, RunList(db, c).reply, {c.key});
    var l := ListAt(db, c.key);
    if IsList(db, c.key) {
      if c.LInsert? {
        var i := Lists.FirstIndex(l, c.pivot);
        if i < |l| {
          PutListKeeps(db, c.key, Lists.InsertAt(l, if c.before then i else i + 1, c.value));
        }
      } else {
        var i := Ranges.Index(|l|, c.index);
        if 0 <= i < |l| {
          PutListKeeps(db, c.key, l[i := c.value]);
        }
      }
    }
  }

  lemma ShrinkLawful(db: DB, c: ListCmd)
    requires Agree(db) && (c.LRem? || c.LTrim?)
    ensures RunList(db, c).Done? && Lawful(db, RunList(db, c), {c.key})
  {
    Unchanged(db, RunList(db, c).reply, {c.key});
    var l := ListAt(db, c.key);
    if IsList(db, c.key) {
      if c.LRem? {
        ShrinkKeeps(db, c.key, Lists.LRem(l, c.value, c.count));
      } else {
        var (rs, re) := Ranges.RedisRange(|l|, c.start, c.end, false);
        Ranges.RangeBounds(|l|, c.start, c.end, false);
        ShrinkKeeps(db, c.key, l[rs..re]);
      }
    }
  }

  lemma {:induction false} PushPopLawful(db: DB, c: ListCmd)
    requires Agree(db) && (c.Pop? || c.Push? || c.PushX? || c.RPopLPush?)
    ensures RunList(db, c).Done? && Lawful(db, RunList(db, c), ListWrites(c))
  {
    Unchanged(db, RunList(db, c).reply, ListWrites(c));
    if c.RPopLPush? {
      if IsList(db, c.src) && !IsSet(db, c.dst) {
        RotateKeeps(db, c.src, c.dst, PopValue(ListAt(db, c.src), Right));
      }
    } else if c.Pop? {
      if IsList(db, c.key) {
        PopOneKeeps(db, c.key, c.side);
      }
    } else if !IsSet(db, c.key) {
      PushAllKeeps(db, c.key, c.values, c.side);
    }
  }

  // ---------- Blocking callbacks ----------

  /** The keys whose existence lets the callback finish. */
  function Awaits(b: BlockCmd): (ks: set<string>) {
    match b
    case BPop(keys, _) => Elems(keys)
    case BRPopLPush(src, _) => {src}
  }

  /** A blocking callback returns false exactly when none of the keys it waits for exists. */
  lemma TryWaits(db: DB, b: BlockCmd)
    requires Agree(db)
    ensures RunTry(db, b).None? <==> forall k :: k in Awaits(b) ==> !Exists(db, k)
  {
    match b
    case BPop(keys, side) => TryPopWaits(db, keys, side);
    case BRPopLPush(src, dst) => assert src in Awaits(b);
  }

  lemma {:induction false} TryPopWaits(db: DB, keys: seq<string>, side: Side)
    requires Agree(db)
    ensures TryPop(db, keys, side).None? <==> forall k :: k in Elems(keys) ==> !Exists(db, k)
    decreases |keys|
  {
    if keys != [] {
      TryPopWaits(db, keys[1..], side);
      assert Elems(keys) == {keys[0]} + Elems(keys[1..]);
      assert keys[0] in Elems(keys);
    }
  }

  /** The only two things a finished BLPOP or BRPOP has done: report a wrong type, or pop one
      element off the first listed key that exists. */
  lemma {:induction false} TryPopDone(db: DB, keys: seq<string>, side: Side)
    requires Agree(db) && TryPop(db, keys, side).Some?
    ensures
      var o := TryPop(db, keys, side).value;
      o == Done(db, [WRONG_TYPE]) ||
      exists k :: k in keys && k in db.lists &&
        o == Done(PopOne(db, k, side), [Len(2), Bulk(k), Bulk(PopValue(ListAt(db, k), side))])
    decreases |keys|
  {
    if Exists(db, keys[0]) {
      assert keys[0] in keys;
    } else {
      TryPopDone(db, keys[1..], side);
    }
  }

  lemma TryLawful(db: DB, b: BlockCmd)
    requires Agree(db) && RunTry(db, b).Some?
    ensures RunTry(db, b).value.Done?
    ensures Lawful(db, RunTry(db, b).value, TryWrites(b))
  {
    match b
    case BPop(keys, side) =>
      TryPopDone(db, keys, side);
      var o := TryPop(db, keys, side).value;
      if o == Done(db, [WRONG_TYPE]) {
        Unchanged(db, [WRONG_TYPE], TryWrites(b));
      } else {
        var k :| k in keys && k in db.lists &&
          o == Done(PopOne(db, k, side), [Len(2), Bulk(k), Bulk(PopValue(ListAt(db, k), side))]);
        PopOneKeeps(db, k, side);
        EvolvesMore(db, o.state, {k}, TryWrites(b));
      }
    case BRPopLPush(src, dst) =>
      if IsList(db, src) && !IsSet(db, dst) {
        RotateKeeps(db, src, dst, PopValue(ListAt(db, src), Right));
      } else {
        Unchanged(db, [WRONG_TYPE], TryWrites(b));
      }
  }

  // ---------- Sets ----------

  lemma {:induction false} PopMembersKeeps(db: DB, k: string, members: seq<string>)
    requires Agree(db)
    ensures Agree(PopMembers(db, k, members)) && Evolves(db, PopMembers(db, k, members), {k})
    decreases |members|
  {
    if members == [] {
      EvolvesSelf(db);
      EvolvesMore(db, db, {}, {k});
    } else {
      var d := SetRem(db, k, [members[0]]);
      SetRemKeeps(db, k, [members[0]]);
      PopMembersKeeps(d, k, members[1..]);
      EvolvesTrans(db, d, PopMembers(d, k, members[1..]), {k}, {k});
      EvolvesMore(db, PopMembers(d, k, members[1..]), {k} + {k}, {k});
    }
  }

  lemma StoreKeeps(db: DB, dest: string, s: set<string>)
    requires Agree(db)
    ensures Agree(SetSet(Del(db, dest), dest, s)) && Evolves(db, SetSet(Del(db, dest), dest, s), {dest})
  {
    DelKeeps(db, dest);
    SetSetKeeps(Del(db, dest), dest, s);
    EvolvesTrans(db, Del(db, dest), SetSet(Del(db, dest), dest, s), {dest}, {dest});
    EvolvesMore(db, SetSet(Del(db, dest), dest, s), {dest} + {dest}, {dest});
  }

  lemma SMoveKeeps(db: DB, src: string, dst: string, v: string)
    requires Agree(db) && src in db.sets && dst !in db.lists
    ensures Agree(SetAdd(SetRem(db, src, [v]), dst, [v]))
    ensures Evolves(db, SetAdd(SetRem(db, src, [v]), dst, [v]), {src, dst})
  {
    var d := SetRem(db, src, [v]);
    SetRemKeeps(db, src, [v]);
    assert dst !in d.lists;
    SetAddKeeps(d, dst, [v]);
    EvolvesTrans(db, d, SetAdd(d, dst, [v]), {src}, {dst});
    EvolvesMore(db, SetAdd(d, dst, [v]), {src} + {dst}, {src, dst});
  }

  /** SRANDMEMBER indexes an empty member list when the set is empty and no count, or a negative
      one, was given; SSCAN panics on a pattern that Go refuses to compile. */
  predicate SetPanics(db: DB, c: SetCmd) {
    match c
    case SRandMember(k, number) => IsSet(db, k) && SetAt(db, k) == {} && (number.None? || number.value < 0)
    case SScan(k, cursor, matching) => cursor == 0 && !IsList(db, k) && MatchPanics(matching)
    case _ => false
  }

  /** Agreement, one key at a time: exactly one map holds an existing key. */
  lemma Tags(db: DB, k: string)
    requires Agree(db)
    ensures IsList(db, k) <==> k in db.lists
    ensures IsSet(db, k) <==> k in db.sets
    ensures Exists(db, k) <==> IsList(db, k) || IsSet(db, k)
    ensures !(IsList(db, k) && IsSet(db, k))
  {
  }

  predicate SetWriter(c: SetCmd) { c.SAdd? || c.SStore? || c.SMove? || c.SPop? || c.SRem? }

  /** A read-only set command leaves the database alone and panics exactly as `SetPanics` says. */
  lemma SetReadsLawful(db: DB, c: SetCmd, choice: seq<string>)
    requires ValidSetChoice(db, c, choice) && !SetWriter(c)
    requires forall k :: Exists(db, k) <==> IsList(db, k) || IsSet(db, k)
    ensures RunSet(db, c, choice).Panic? <==> SetPanics(db, c)
    ensures RunSet(db, c, choice).Done? ==> RunSet(db, c, choice).state == db
  {
    hide MatchPanics, Listed, Combine, Picks, Enumerates, Bulks, Elems;
    if c.SRandMember? && c.number.None? {
      NoneChosen(SetAt(db, c.key), choice);
    }
  }

  lemma NoneChosen(s: set<string>, choice: seq<string>)
    ensures |choice| == Min(1, |s|) ==> (choice == [] <==> s == {})
  {
  }

  lemma MembersLawful(db: DB, c: SetCmd, choice: seq<string>)
    requires Agree(db) && (c.SAdd? || c.SRem? || c.SPop?)
    ensures RunSet(db, c, choice).Done? && Lawful(db, RunSet(db, c, choice), SetWrites(c))
  {
    hide Agree, Evolves, Exists, IsList, IsSet, Bulks, SetAdd, SetRem, PopMembers, SetAt, Elems;
    Unchanged(db, RunSet(db, c, choice).reply, SetWrites(c));
    Tags(db, c.key);
    match c {
      case SAdd(k, elems) =>
        if !IsList(db, k) {
          SetAddKeeps(db, k, elems);
        }
      case SPop(k, number) => PopMembersKeeps(db, k, choice);
      case SRem(k, fields) => SetRemKeeps(db, k, fields);
    }
  }

  lemma StoreLawful(db: DB, c: SetCmd, choice: seq<string>)
    requires Agree(db) && (c.SStore? || c.SMove?)
    ensures RunSet(db, c, choice).Done? && Lawful(db, RunSet(db, c, choice), SetWrites(c))
  {
    hide Agree, Evolves, Exists, IsList, IsSet, SetAdd, SetRem, SetSet, Del, SetAt, Combine;
    Unchanged(db, RunSet(db, c, choice).reply, SetWrites(c));
    match c {
      case SStore(op, dest, first, others) =>
        if Combine(db, op, [first] + others).Some? {
          StoreKeeps(db, dest, Combine(db, op, [first] + others).value);
        }
      case SMove(src, dst, v) =>
        Tags(db, src);
        Tags(db, dst);
        if IsSet(db, src) && !IsList(db, dst) {
          SMoveKeeps(db, src, dst, v);
        }
    }
  }

  lemma SetLawful(db: DB, c: SetCmd, choice: seq<string>)
    requires Agree(db) && ValidSetChoice(db, c, choice)
    ensures RunSet(db, c, choice).Panic? <==> SetPanics(db, c)
    ensures Lawful(db, RunSet(db, c, choice), SetWrites(c))
  {
    hide Agree, Evolves, RunSet, ValidSetChoice, Exists, IsList, IsSet;
    if c.SStore? || c.SMove? {
      StoreLawful(db, c, choice);
    } else if SetWriter(c) {
      MembersLawful(db, c, choice);
    } else {
      forall k
        ensures Exists(db, k) <==> IsList(db, k) || IsSet(db, k)
      {
        Tags(db, k);
      }
      SetReadsLawful(db, c, choice);
      Unchanged(db, if RunSet(db, c, choice).Done? then RunSet(db, c, choice).reply else [], SetWrites(c));
    }
  }

  // ---------- Generic ----------

  lemma {:induction false} DelAllKeeps(db: DB, keys: seq<string>)
    requires Agree(db)
    ensures Agree(DelAll(db, keys)) && Evolves(db, DelAll(db, keys), Elems(keys))
    decreases |keys|
  {
    if keys == [] {
      EvolvesSelf(db);
      EvolvesMore(db, db, {}, Elems(keys));
    } else {
      DelKeeps(db, keys[0]);
      DelAllKeeps(Del(db, keys[0]), keys[1..]);
      EvolvesTrans(db, Del(db, keys[0]), DelAll(db, keys), {keys[0]}, Elems(keys[1..]));
      EvolvesMore(db, DelAll(db, keys), {keys[0]} + Elems(keys[1..]), Elems(keys));
    }
  }

  /** RENAME panics when both names are the same existing key, KEYS and SCAN on a pattern that Go
      refuses to compile. */
  predicate KeyPanics(db: DB, c: KeyCmd) {
    match c
    case RenameTo(from, to) => from == to && Exists(db, from)
    case Keys(pattern) => CompilePanics(pattern)
    case ScanAllKeys(cursor, matching) => cursor == 0 && MatchPanics(matching)
    case _ => false
  }

  lemma KeyLawful(db: DB, c: KeyCmd, choice: seq<string>)
    requires Agree(db)
    ensures RunKey(db, c, choice).Panic? <==> KeyPanics(db, c)
    ensures !c.FlushDb? ==> Lawful(db, RunKey(db, c, choice), KeyWrites(c))
    ensures c.FlushDb? ==> RunKey(db, c, choice).Done? && Agree(RunKey(db, c, choice).state)
  {
    if RunKey(db, c, choice).Done? {
      Unchanged(db, RunKey(db, c, choice).reply, KeyWrites(c));
    }
    match c {
      case Delete(keys) => DelAllKeeps(db, keys);
      case RenameTo(from, to) => RenameKeeps(db, from, to);
      case RenameNx(from, to) => RenameKeeps(db, from, to);
      case _ =>
    }
  }

  // ---------- The whole server ----------

  ghost predicate AgreeAll(dbs: Dbs) { forall d :: d in dbs ==> Agree(dbs[d]) }

  /** Every (database, key) pair evolves, and only pairs in `ws` change. */
  ghost predicate AllEvolve(a: Dbs, b: Dbs, ws: set<(int, string)>) {
    forall d, k :: EvolvesAt(Get(a, d), Get(b, d), k) &&
      ((d, k) !in ws ==> Ver(Get(a, d), k) == Ver(Get(b, d), k))
  }

  /** The exact conditions under which a callback crashes the server. */
  predicate Panics(dbs: Dbs, sel: int, c: Cmd) {
    match c
    case S(s) => SetPanics(Get(dbs, sel), s)
    case K(g) => KeyPanics(Get(dbs, sel), g)
    case _ => false
  }

  lemma LiftEvolves(dbs: Dbs, sel: int, db: DB, ks: set<string>)
    requires AgreeAll(dbs) && Agree(db) && Evolves(Get(dbs, sel), db, ks)
    ensures AgreeAll(dbs[sel := db])
    ensures AllEvolve(dbs, dbs[sel := db], set k | k in ks :: (sel, k))
  {
    var b := dbs[sel := db];
    var ws := set k | k in ks :: (sel, k);
    forall d, k
      ensures EvolvesAt(Get(dbs, d), Get(b, d), k)
      ensures (d, k) !in ws ==> Ver(Get(dbs, d), k) == Ver(Get(b, d), k)
    {
      if d == sel {
        assert EvolvesAt(Get(dbs, sel), db, k);
        assert k in ks ==> (sel, k) in ws;
      }
    }
  }

  lemma EmptyAgrees(dbs: Dbs, i: int)
    requires AgreeAll(dbs)
    ensures Agree(Get(dbs, i))
  {
  }

  lemma MoveAllKeeps(dbs: Dbs, sel: int, k: string, target: Int64)
    requires AgreeAll(dbs) && sel != target && Move(Get(dbs, sel), Get(dbs, target), k).Some?
    ensures
      var (a, b) := Move(Get(dbs, sel), Get(dbs, target), k).value;
      AgreeAll(dbs[sel := a][target := b]) &&
      AllEvolve(dbs, dbs[sel := a][target := b], {(sel, k), (target as int, k)})
  {
    hide Move, Agree, EvolvesAt;
    EmptyAgrees(dbs, sel);
    EmptyAgrees(dbs, target);
    MoveKeeps(Get(dbs, sel), Get(dbs, target), k);
    var (a, b) := Move(Get(dbs, sel), Get(dbs, target), k).value;
    var r := dbs[sel := a][target := b];
    forall d, j
      ensures EvolvesAt(Get(dbs, d), Get(r, d), j)
      ensures (d, j) !in {(sel, k), (target as int, k)} ==> Ver(Get(dbs, d), j) == Ver(Get(r, d), j)
    {
      if d == target {
        assert EvolvesAt(Get(dbs, target), b, j);
      } else if d == sel {
        assert EvolvesAt(Get(dbs, sel), a, j);
      } else {
        EvolvesAtSelf(Get(dbs, d), j);
      }
    }
  }

  /** Index agreement and versions, for every callback: a callback panics exactly as `Panics` says,
      otherwise the maps agree afterwards, and unless it flushes, every (database, key) it changes
      gets a higher version and no other pair changes. */
  lemma RunLawful(dbs: Dbs, sel: int, c: Cmd, choice: seq<string>)
    requires AgreeAll(dbs) && ValidChoice(dbs, sel, c, choice)
    ensures Run(dbs, sel, c, choice).Panic? <==> Panics(dbs, sel, c)
    ensures Run(dbs, sel, c, choice).Done? ==> AgreeAll(Run(dbs, sel, c, choice).state)
    ensures Run(dbs, sel, c, choice).Done? && !IsFlush(c) ==>
      AllEvolve(dbs, Run(dbs, sel, c, choice).state, Writes(sel, c))
  {
    var db := Get(dbs, sel);
    EmptyAgrees(dbs, sel);
    match c {
      case L(l) =>
        ListLawful(db, l);
        LiftEvolves(dbs, sel, RunList(db, l).state, ListWrites(l));
      case S(s) =>
        SetLawful(db, s, choice);
        if RunSet(db, s, choice).Done? {
          LiftEvolves(dbs, sel, RunSet(db, s, choice).state, SetWrites(s));
        }
      case K(g) =>
        KeyLawful(db, g, choice);
        if RunKey(db, g, choice).Done? && !g.FlushDb? {
          LiftEvolves(dbs, sel, RunKey(db, g, choice).state, KeyWrites(g));
        }
      case Try(b) => TryRunLawful(dbs, sel, b);
      case MoveTo(k, target) =>
        if sel != target {
          if Move(db, Get(dbs, target), k).Some? {
            MoveAllKeeps(dbs, sel, k, target);
          } else {
            UntouchedEvolve(dbs, dbs[sel := db][target := Get(dbs, target)], Writes(sel, c));
          }
        } else {
          UntouchedEvolve(dbs, dbs, Writes(sel, c));
        }
      case FlushAll =>
    }
  }

  lemma TryRunLawful(dbs: Dbs, sel: int, b: BlockCmd)
    requires AgreeAll(dbs)
    ensures Run(dbs, sel, Try(b), []).Done? && AgreeAll(Run(dbs, sel, Try(b), []).state)
    ensures AllEvolve(dbs, Run(dbs, sel, Try(b), []).state, Writes(sel, Try(b)))
  {
    hide Agree, Evolves, EvolvesAt, RunTry, TryWrites;
    var db := Get(dbs, sel);
    EmptyAgrees(dbs, sel);
    if RunTry(db, b).Some? {
      TryLawful(db, b);
      LiftEvolves(dbs, sel, RunTry(db, b).value.state, TryWrites(b));
    } else {
      UntouchedEvolve(dbs, dbs[sel := db], Writes(sel, Try(b)));
    }
  }

  lemma UntouchedEvolve(a: Dbs, b: Dbs, ws: set<(int, string)>)
    requires AgreeAll(a) && forall d :: Get(b, d) == Get(a, d)
    ensures AllEvolve(a, b, ws) && AgreeAll(b)
  {
    forall d, k
      ensures EvolvesAt(Get(a, d), Get(b, d), k) && Ver(Get(a, d), k) == Ver(Get(b, d), k)
    {
    }
    forall d | d in b
      ensures Agree(b[d])
    {
      assert Get(b, d) == Get(a, d);
    }
  }
}
