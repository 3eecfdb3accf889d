/** What the plain list, set and key commands leave and answer, told without the steps that get there. */
module CommandResults {
  import opened Base
  import opened Store
  import opened Resp
  import opened Commands
  import opened CommandLaws
  import opened Glob
  import opened GlobMeaning
  import opened GlobText
  import Lists

  // ---------- Lists ----------

  lemma {:induction false} PushAllList(db: DB, k: string, values: seq<string>, side: Side)
    requires Agree(db) && !IsSet(db, k)
    ensures ListAt(PushAll(db, k, values, side), k) ==
      if side.Left? then Reverse(values) + ListAt(db, k) else ListAt(db, k) + values
    ensures values != [] ==> IsList(PushAll(db, k, values, side), k)
    decreases |values|
  {
    if values != [] {
      var d := PushOne(db, k, values[0], side);
      PushOneResult(db, k, values[0], side);
      hide PushOne, Agree, ListAt;
      PushAllList(d, k, values[1..], side);
      if side.Left? {
        Regroup(Reverse(values[1..]), [values[0]], ListAt(db, k));
      } else {
        Regroup(ListAt(db, k), [values[0]], values[1..]);
        assert [values[0]] + values[1..] == values;
      }
    }
  }

  lemma PushOneResult(db: DB, k: string, v: string, side: Side)
    requires Agree(db) && !IsSet(db, k)
    ensures
      var d := PushOne(db, k, v, side);
      && Agree(d) && IsList(d, k)
      && ListAt(d, k) == if side.Left? then [v] + ListAt(db, k) else ListAt(db, k) + [v]
  {
    PushKeeps(db, k, if side.Left? then [v] + ListAt(db, k) else ListAt(db, k) + [v]);
  }

  /** RPUSH appends its values in order, LPUSH puts them in front one by one, so in reverse order; both
      answer with the new length. */
  lemma PushExact(db: DB, k: string, values: seq<string>, side: Side)
    requires Agree(db) && values != []
    ensures
      var o := RunList(db, Push(k, values, side));
      if IsSet(db, k) then o == Done(db, [WRONG_TYPE])
      else
        && o.Done? && IsList(o.state, k) && o.reply == [Number(|ListAt(o.state, k)|)]
        && ListAt(o.state, k) == if side.Left? then Reverse(values) + ListAt(db, k) else ListAt(db, k) + values
  {
    if !IsSet(db, k) {
      PushAllList(db, k, values, side);
    }
  }

  /** A pop splits its reply off one end of the list; the key goes with the last element. */
  lemma PopExact(db: DB, k: string, side: Side)
    requires Agree(db) && IsList(db, k)
    ensures
      var o := RunList(db, Pop(k, side));
      && o.Done? && (Exists(o.state, k) <==> ListAt(o.state, k) != [])
      && exists v :: (o.reply == [Bulk(v)] &&
           ListAt(db, k) == if side.Left? then [v] + ListAt(o.state, k) else ListAt(o.state, k) + [v])
  {
    PopOneResult(db, k, side);
    assert RunList(db, Pop(k, side)).reply == [Bulk(PopValue(ListAt(db, k), side))];
  }

  lemma PopOneResult(db: DB, k: string, side: Side)
    requires Agree(db) && IsList(db, k)
    ensures
      var l := ListAt(db, k);
      var d := PopOne(db, k, side);
      var v := PopValue(l, side);
      && (Exists(d, k) <==> ListAt(d, k) != [])
      && l == (if side.Left? then [v] + ListAt(d, k) else ListAt(d, k) + [v])
  {
  }

  /** BLPOP and BRPOP take from the first listed key that exists, and answer with its name and element. */
  lemma BlockingPopExact(db: DB, keys: seq<string>, side: Side, i: nat)
    requires Agree(db) && i < |keys| && Exists(db, keys[i])
    requires forall j :: 0 <= j < i ==> !Exists(db, keys[j])
    ensures
      var o := RunTry(db, BPop(keys, side));
      && o.Some?
      && (IsSet(db, keys[i]) ==> o.value == Done(db, [WRONG_TYPE]))
      && (IsList(db, keys[i]) ==>
            (o.value.Done? && exists v :: (o.value.reply == [Len(2), Bulk(keys[i]), Bulk(v)] &&
              ListAt(db, keys[i]) ==
                if side.Left? then [v] + ListAt(o.value.state, keys[i]) else ListAt(o.value.state, keys[i]) + [v])))
  {
    TryFirst(db, keys, side, i);
    TryHead(db, keys[i..], side);
    hide TryPop, PopOne, PopValue, Agree;
    if IsList(db, keys[i]) {
      PopOneResult(db, keys[i], side);
    }
  }

  /** Missing keys are passed over. */
  lemma {:induction false} TryFirst(db: DB, keys: seq<string>, side: Side, i: nat)
    requires i <= |keys| && forall j :: 0 <= j < i ==> !Exists(db, keys[j])
    ensures TryPop(db, keys, side) == TryPop(db, keys[i..], side)
  {
    if i == 0 {
      assert keys[0..] == keys;
    } else {
      TryFirst(db, keys[1..], side, i - 1);
      assert keys[1..][i - 1..] == keys[i..];
    }
  }

  lemma TryHead(db: DB, keys: seq<string>, side: Side)
    requires Agree(db) && keys != [] && Exists(db, keys[0])
    ensures IsSet(db, keys[0]) ==> TryPop(db, keys, side) == Some(Done(db, [WRONG_TYPE]))
    ensures IsList(db, keys[0]) ==> ListAt(db, keys[0]) != []
    ensures IsList(db, keys[0]) ==>
      TryPop(db, keys, side) == Some(Done(PopOne(db, keys[0], side),
        [Len(2), Bulk(keys[0]), Bulk(PopValue(ListAt(db, keys[0]), side))]))
  {
    hide PopOne, PopValue;
  }

  /** RPOPLPUSH moves the last element of one list to the front of another, or of the same list. */
  lemma RotateExact(db: DB, src: string, dst: string)
    requires Agree(db) && IsList(db, src) && !IsSet(db, dst)
    ensures
      var l := ListAt(db, src);
      var v := l[|l| - 1];
      var o := RunList(db, RPopLPush(src, dst));
      && o.Done? && o.reply == [Bulk(v)] && RunTry(db, BRPopLPush(src, dst)) == Some(o)
      && (src != dst ==> ListAt(o.state, src) == l[..|l| - 1] && ListAt(o.state, dst) == [v] + ListAt(db, dst))
      && (src == dst ==> ListAt(o.state, dst) == [v] + l[..|l| - 1])
      && (Exists(o.state, src) <==> src == dst || |l| > 1)
  {
    var l := ListAt(db, src);
    var d := ListPop(db, src);
    var v := l[|l| - 1];
    PopOneResult(db, src, Right);
    assert src != dst ==> ListAt(d, dst) == ListAt(db, dst);
    var r := ListLpush(d, dst, v);
    PushedTo(d, dst, v);
    assert RunList(db, RPopLPush(src, dst)) == Done(r, [Bulk(v)]);
    assert RunTry(db, BRPopLPush(src, dst)) == Some(Done(r, [Bulk(v)]));
    hide RunList, RunTry, ListPop, ListLpush;
  }

  lemma PushedTo(d: DB, k: string, v: string)
    ensures
      var r := ListLpush(d, k, v);
      && ListAt(r, k) == [v] + ListAt(d, k) && (k !in d.lists ==> IsList(r, k))
      && (k in d.lists ==> r.keys == d.keys)
      && forall j :: j != k ==> ListAt(r, j) == ListAt(d, j) && (Exists(r, j) <==> Exists(d, j))
  {
  }

  /** LINSERT puts the value right before or after the first occurrence of the pivot. */
  lemma InsertExact(db: DB, k: string, before: bool, pivot: string, value: string)
    requires Agree(db) && IsList(db, k)
    ensures
      var l := ListAt(db, k);
      var o := RunList(db, LInsert(k, before, pivot, value));
      && (pivot !in l ==> o == Done(db, [Number(-1)]))
      && (forall i :: 0 <= i < |l| && l[i] == pivot && pivot !in l[..i] ==>
            o.Done? && o.reply == [Number(|l| + 1)] &&
            ListAt(o.state, k) == l[..i] + (if before then [value, pivot] else [pivot, value]) + l[i + 1..])
  {
    hide RunList;
    InsertOutcome(db, k, before, pivot, value);
    var l := ListAt(db, k);
    forall i | 0 <= i < |l| && l[i] == pivot && pivot !in l[..i]
      ensures Lists.FirstIndex(l, pivot) == i
    {
      assert forall j :: 0 <= j < i ==> l[j] == l[..i][j];
    }
  }

  lemma InsertOutcome(db: DB, k: string, before: bool, pivot: string, value: string)
    requires Agree(db) && IsList(db, k)
    ensures
      var l := ListAt(db, k);
      var i := Lists.FirstIndex(l, pivot);
      var o := RunList(db, LInsert(k, before, pivot, value));
      if i == |l| then o == Done(db, [Number(-1)])
      else
        && o.Done? && o.reply == [Number(|l| + 1)]
        && ListAt(o.state, k) == l[..i] + (if before then [value, pivot] else [pivot, value]) + l[i + 1..]
  {
    var l := ListAt(db, k);
    var i := Lists.FirstIndex(l, pivot);
    if i < |l| {
      assert Lists.InsertAt(l, i, value) == l[..i] + [value, pivot] + l[i + 1..];
      assert Lists.InsertAt(l, i + 1, value) == l[..i] + [pivot, value] + l[i + 1..];
    }
  }

  /** Position `p` is the one a list command means by `index`: from the front, or negative from the back. */
  predicate Denotes(n: nat, index: int, p: nat) { p < n && (index == p || index == p - n) }

  /** LSET overwrites the element that the index denotes, and fails exactly when it denotes none. */
  lemma SetExact(db: DB, k: string, index: Int64, value: string)
    requires Agree(db) && IsList(db, k)
    ensures
      var l := ListAt(db, k);
      var o := RunList(db, LSet(k, index, value));
      && o.Done?
      && (o == Done(db, [OUT_OF_RANGE]) <==> forall p: nat :: !Denotes(|l|, index, p))
      && (forall p: nat :: Denotes(|l|, index, p) ==> o.reply == [OK] && ListAt(o.state, k) == l[p := value])
  {
    var l := ListAt(db, k);
    var i := if index < 0 then |l| + index else index;
    if 0 <= i < |l| {
      assert Denotes(|l|, index, i);
    }
  }

  /** LINDEX answers with the element that the index denotes, and with null exactly when it denotes none. */
  lemma IndexExact(db: DB, k: string, index: Int64)
    requires Agree(db) && IsList(db, k)
    ensures
      var l := ListAt(db, k);
      var o := RunList(db, LIndex(k, index));
      && o.Done? && o.state == db
      && (o.reply == [Null] <==> forall p: nat :: !Denotes(|l|, index, p))
      && (forall p: nat :: Denotes(|l|, index, p) ==> o.reply == [Bulk(l[p])])
  {
    var l := ListAt(db, k);
    var i := if index < 0 then |l| + index else index;
    if 0 <= i < |l| {
      assert Denotes(|l|, index, i);
    }
  }

  // ---------- Sets ----------

  /** SADD answers with the number of elements that were not there. */
  lemma AddExact(db: DB, k: string, elems: seq<string>)
    requires Agree(db) && !IsList(db, k)
    ensures
      var o := RunSet(db, SAdd(k, elems), []);
      && o.Done? && IsSet(o.state, k) && SetAt(o.state, k) == SetAt(db, k) + Elems(elems)
      && o.reply == [Number(|Elems(elems) - SetAt(db, k)|)]
  {
    hide Agree, SetAdd, Elems;
    var s := SetAt(db, k);
    AddOutcome(db, k, elems);
    assert s + Elems(elems) == s + (Elems(elems) - s);
  }

  lemma AddOutcome(db: DB, k: string, elems: seq<string>)
    requires Agree(db) && !IsList(db, k)
    ensures IsSet(SetAdd(db, k, elems), k) && SetAt(SetAdd(db, k, elems), k) == SetAt(db, k) + Elems(elems)
    ensures RunSet(db, SAdd(k, elems), []) == Done(SetAdd(db, k, elems),
      [Number(|SetAt(db, k) + Elems(elems)| - |SetAt(db, k)|)])
  {
    hide Elems;
  }

  /** SREM answers with the number of elements that were there; the key goes with the last member. */
  lemma RemoveExact(db: DB, k: string, fields: seq<string>)
    requires Agree(db) && IsSet(db, k)
    ensures
      var o := RunSet(db, SRem(k, fields), []);
      && o.Done? && SetAt(o.state, k) == SetAt(db, k) - Elems(fields)
      && (Exists(o.state, k) <==> SetAt(o.state, k) != {})
      && o.reply == [Number(|SetAt(db, k) * Elems(fields)|)]
  {
    var s := SetAt(db, k);
    assert s == (s - Elems(fields)) + s * Elems(fields);
  }

  // ---------- Keys ----------

  lemma {:induction false} DelAllKeys(db: DB, keys: seq<string>)
    ensures DelAll(db, keys).keys == db.keys - Elems(keys)
    ensures DelCount(db, keys) == |db.keys.Keys * Elems(keys)|
    decreases |keys|
  {
    if keys == [] {
      assert db.keys.Keys * Elems(keys) == {};
    } else {
      hide Del, Elems;
      var d, rest := Del(db, keys[0]), Elems(keys[1..]);
      ElemsHead(keys);
      DelKey(db, keys[0]);
      DelAllKeys(d, keys[1..]);
      OneMoreKey(db.keys.Keys, keys[0], rest);
      MinusBoth(db.keys, keys[0], rest);
    }
  }

  lemma {:induction false} DelAllOthers(db: DB, keys: seq<string>, j: string)
    requires j !in keys
    ensures Same(db, DelAll(db, keys), j)
    decreases |keys|
  {
    if keys != [] {
      assert keys[0] in keys;
      DelAllOthers(Del(db, keys[0]), keys[1..], j);
    }
  }

  /** DEL removes exactly the listed keys and answers with the number of different ones that existed. */
  lemma DeleteExact(db: DB, keys: seq<string>)
    ensures
      var o := RunKey(db, KeyCmd.Delete(keys), []);
      && o.Done? && o.state.keys == db.keys - Elems(keys)
      && o.reply == [Number(|db.keys.Keys * Elems(keys)|)]
      && forall j :: j !in keys ==> Same(db, o.state, j)
  {
    DelAllKeys(db, keys);
    forall j | j !in keys
      ensures Same(db, DelAll(db, keys), j)
    {
      DelAllOthers(db, keys, j);
    }
  }

  lemma ElemsHead(keys: seq<string>)
    requires keys != []
    ensures Elems(keys) == {keys[0]} + Elems(keys[1..])
  {
  }

  lemma DelKey(db: DB, k: string)
    ensures Del(db, k).keys == db.keys - {k}
  {
  }

  lemma MinusBoth(m: map<string, Tag>, x: string, rest: set<string>)
    ensures m - {x} - rest == m - ({x} + rest)
    ensures (m - {x}).Keys == m.Keys - {x}
  {
    forall k
      ensures k in m - {x} - rest <==> k in m - ({x} + rest)
    {
    }
  }

  lemma OneMoreKey(ks: set<string>, x: string, rest: set<string>)
    ensures |ks * ({x} + rest)| == |(ks - {x}) * rest| + (if x in ks then 1 else 0)
  {
    assert ks * ({x} + rest) == (ks - {x}) * rest + (if x in ks then {x} else {});
  }

  /** SDIFF, SINTER and SUNION answer with each member of the result once and change nothing; a wrong type is
      reported exactly for a bad operand. */
  lemma AlgebraExact(db: DB, op: SetOp, first: string, others: seq<string>, choice: seq<string>)
    requires Agree(db) && ValidSetChoice(db, SAlgebra(op, first, others), choice)
    ensures
      var keys := [first] + others;
      var o := RunSet(db, SAlgebra(op, first, others), choice);
      if BadOperand(db, op, keys) then o == Done(db, [WRONG_TYPE])
      else
        && o == Done(db, [Len(|choice|)] + Bulks(choice)) && Distinct(choice)
        && forall x :: x in choice <==> InResult(db, op, keys, x)
  {
    hide Agree, Combine, BadOperand, InResult, Bulks;
    CombineMeaning(db, op, [first] + others);
    forall x: string
      ensures x in choice <==> x in Elems(choice)
    {
    }
  }

  /** LPUSHX and RPUSHX push onto an existing key as LPUSH and RPUSH do, and do nothing without one. */
  lemma PushXExact(db: DB, k: string, values: seq<string>, side: Side)
    requires Agree(db)
    ensures
      var o := RunList(db, PushX(k, values, side));
      if Exists(db, k) then o == RunList(db, Push(k, values, side)) else o == Done(db, [Number(0)])
  {
    Tags(db, k);
    hide Agree, PushOnto;
  }

  /** KEYS with a sound pattern does not panic and answers with each name that the text of the pattern stands
      for once. */
  lemma KeysExact(db: DB, p: Pattern, choice: seq<string>)
    requires Sound(p.text) && ValidKeyChoice(db, Keys(p), choice)
    ensures RunKey(db, Keys(p), choice) == Done(db, [Len(|choice|)] + Bulks(choice)) && Distinct(choice)
    ensures forall k :: Ascii(k) && '\n' !in k ==> (k in choice <==> Exists(db, k) && TextMatches(p.text, k))
  {
    Selection(db.keys.Keys, p, choice);
  }

  /** So do SCAN and SSCAN with MATCH, in one go. */
  lemma ScansExact(db: DB, k: string, p: Pattern, choice: seq<string>)
    requires Agree(db) && Sound(p.text)
    ensures ValidKeyChoice(db, ScanAllKeys(0, Some(p)), choice) ==>
      RunKey(db, ScanAllKeys(0, Some(p)), choice) ==
        Done(db, [Len(2), Bulk("0"), Len(|choice|)] + Bulks(choice)) &&
      forall x :: Ascii(x) && '\n' !in x ==> (x in choice <==> Exists(db, x) && TextMatches(p.text, x))
    ensures ValidSetChoice(db, SScan(k, 0, Some(p)), choice) && !IsList(db, k) ==>
      RunSet(db, SScan(k, 0, Some(p)), choice) == Done(db, [Len(2), Bulk("0"), Len(|choice|)] + Bulks(choice)) &&
      forall x :: Ascii(x) && '\n' !in x ==> (x in choice <==> x in SetAt(db, k) && TextMatches(p.text, x))
  {
    Tags(db, k);
    hide Agree, TextMatches, Sound, MaySelect;
    SoundCompiles(p);
    hide CompilePanics;
    if ValidKeyChoice(db, ScanAllKeys(0, Some(p)), choice) {
      Selection(db.keys.Keys, p, choice);
    }
    if ValidSetChoice(db, SScan(k, 0, Some(p)), choice) {
      Selection(SetAt(db, k), p, choice);
    }
  }

  lemma SoundCompiles(p: Pattern)
    requires Sound(p.text)
    ensures !CompilePanics(p)
  {
    SafeCompiles(p);
  }

  /** What a sound pattern selects from any names. */
  lemma Selection(names: set<string>, p: Pattern, choice: seq<string>)
    requires Sound(p.text) && Listed(choice, names, Some(p))
    ensures !CompilePanics(p) && Distinct(choice)
    ensures forall k :: Ascii(k) && '\n' !in k ==> (k in choice <==> k in names && TextMatches(p.text, k))
  {
    SafeCompiles(p);
    forall k | Ascii(k) && '\n' !in k
      ensures k in choice <==> k in names && TextMatches(p.text, k)
    {
      assert k in choice <==> k in Elems(choice);
      CompiledText(p.text, k);
    }
  }

  /** A blocking command that was queued in MULTI does not wait: it answers null and changes nothing exactly
      when none of its keys exists, and else does what it does outside. */
  lemma QueuedBlockExact(dbs: Dbs, sel: int, b: BlockCmd)
    requires AgreeAll(dbs)
    ensures
      var o := Run(dbs, sel, Try(b), []);
      if forall k :: k in Awaits(b) ==> !Exists(Get(dbs, sel), k) then
        o.Done? && o.reply == [Null] && forall d :: Get(o.state, d) == Get(dbs, d)
      else
        && RunTry(Get(dbs, sel), b).Some? && o.Done? && RunTry(Get(dbs, sel), b).value.Done?
        && o.state == dbs[sel := RunTry(Get(dbs, sel), b).value.state]
        && o.reply == RunTry(Get(dbs, sel), b).value.reply
  {
    hide Agree, AgreeAll, RunTry, Awaits, Exists;
    EmptyAgrees(dbs, sel);
    TryWaits(Get(dbs, sel), b);
    if RunTry(Get(dbs, sel), b).Some? {
      TryLawful(Get(dbs, sel), b);
    }
  }

  /** FLUSHDB leaves no key in the selected database and every other one as it was, FLUSHALL leaves none. */
  lemma FlushExact(dbs: Dbs, sel: int, d: int, k: string)
    ensures
      var o := Run(dbs, sel, K(FlushDb), []);
      && o.Done? && o.reply == [OK] && (d != sel ==> Get(o.state, d) == Get(dbs, d))
      && !Exists(Get(o.state, sel), k) && Get(o.state, sel).lists == map[] && Get(o.state, sel).sets == map[]
    ensures
      var o := Run(dbs, sel, FlushAll, []);
      && o.Done? && o.reply == [OK] && !Exists(Get(o.state, d), k)
      && Get(o.state, d).lists == map[] && Get(o.state, d).sets == map[]
  {
  }

  /** MOVE hands the value over exactly when the key exists here and not there. */
  lemma MoveExact(dbs: Dbs, sel: int, target: Int64, k: string)
    requires AgreeAll(dbs) && sel != target
    ensures
      var o := Run(dbs, sel, MoveTo(k, target), []);
      var moves := Exists(Get(dbs, sel), k) && !Exists(Get(dbs, target), k);
      && o.Done? && o.reply == [Number(if moves then 1 else 0)]
      && (!moves ==> Get(o.state, sel) == Get(dbs, sel) && Get(o.state, target) == Get(dbs, target))
      && (moves ==>
            (!Exists(Get(o.state, sel), k) && Exists(Get(o.state, target), k) &&
             IsList(Get(o.state, target), k) == IsList(Get(dbs, sel), k) &&
             ListAt(Get(o.state, target), k) == ListAt(Get(dbs, sel), k) &&
             SetAt(Get(o.state, target), k) == SetAt(Get(dbs, sel), k)))
      && forall i :: i != sel && i != target ==> Get(o.state, i) == Get(dbs, i)
  {
    hide Agree, AgreeAll, Evolves, Del, Place, Exists, IsList, ListAt, SetAt;
    EmptyAgrees(dbs, sel);
    EmptyAgrees(dbs, target);
    if Exists(Get(dbs, sel), k) && !Exists(Get(dbs, target), k) {
      DelKeeps(Get(dbs, sel), k);
      PlaceKeeps(Get(dbs, target), k, Get(dbs, sel), k);
    }
  }

  /** RENAMENX renames exactly when the new name is free, and never panics. */
  lemma RenameNxExact(db: DB, from: string, to: string)
    requires Agree(db) && Exists(db, from)
    ensures
      var o := RunKey(db, RenameNx(from, to), []);
      && o.Done? && o.reply == [Number(if Exists(db, to) then 0 else 1)]
      && (Exists(db, to) ==> o.state == db)
      && (!Exists(db, to) ==>
            (!Exists(o.state, from) && IsList(o.state, to) == IsList(db, from) &&
             ListAt(o.state, to) == ListAt(db, from) && SetAt(o.state, to) == SetAt(db, from)))
  {
    hide Agree, Evolves, Rename;
    if !Exists(db, to) {
      RenameKeeps(db, from, to);
      RenameMoves(db, from, to);
    }
  }
}
