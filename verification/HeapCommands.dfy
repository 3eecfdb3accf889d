/** The command callbacks that loop over their arguments or work on cells in place, run on the heap:
    each refines the callback of the same name in `Commands`. */
module HeapCommands {
  import opened Base
  import opened Store
  import opened Resp
  import opened Commands
  import opened CommandLaws
  import opened Heap
  import Ranges
  import Lists

  // ---------- cmd_list.go ----------

  /** LPUSH and RPUSH (and LPUSHX, RPUSHX of an existing key): one push per value. */
  method PushCmd(db: RedisDB, key: string, values: seq<string>, side: Side) returns (reply: seq<Tok>)
    requires db.Valid() && !IsSet(db.Contents, key)
    modifies db, db.Owner.Keys
    ensures db.Valid() && fresh(db.Owner.Keys - old(db.Owner.Keys))
    ensures PushOnto(old(db.Contents), key, values, side) == Done(db.Contents, reply)
  {
    var newLen := PushLoop(db, key, values, side);
    reply := [Number(newLen)];
  }

  method PushLoop(db: RedisDB, key: string, values: seq<string>, side: Side) returns (newLen: nat)
    requires db.Valid()
    modifies db, db.Owner.Keys
    ensures db.Valid() && fresh(db.Owner.Keys - old(db.Owner.Keys))
    ensures db.Contents == PushAll(old(db.Contents), key, values, side)
    ensures newLen == NewLen(old(db.Contents), key, values, side)
  {
    hide RedisDB.Valid, RedisDB.Separate, PushOne, ListAt;
    newLen := 0;
    ghost var target := PushAll(db.Contents, key, values, side);
    var i := 0;
    while i < |values|
      invariant i <= |values| && db.Valid() && fresh(db.Owner.Keys - old(db.Owner.Keys))
      invariant PushAll(db.Contents, key, values[i..], side) == target
      invariant newLen == if i == 0 then 0 else |ListAt(db.Contents, key)|
    {
      PushAllHead(db.Contents, key, values[i..], side);
      newLen := PushStep(db, key, values[i], side);
      assert values[i..][1..] == values[i + 1..];
      i := i + 1;
    }
  }

  lemma PushAllHead(db: DB, k: string, values: seq<string>, side: Side)
    requires values != []
    ensures PushAll(db, k, values, side) ==
      PushAll(PushOne(db, k, values[0], side), k, values[1..], side)
  {
  }

  method PushStep(db: RedisDB, key: string, v: string, side: Side) returns (n: nat)
    requires db.Valid()
    modifies db, db.Owner.Keys
    ensures db.Valid() && fresh(db.Owner.Keys - old(db.Owner.Keys)) && n == |ListAt(db.Contents, key)|
    ensures db.Contents == PushOne(old(db.Contents), key, v, side)
  {
    match side {
      case Left => n := db.ListLpush(key, v);
      case Right => n := db.ListPush(key, [v]);
    }
  }

  /** The callback of BLPOP and BRPOP: the first listed key with an element. */
  method BPopCallback(db: RedisDB, keys: seq<string>, side: Side) returns (done: bool, reply: seq<Tok>)
    requires db.Valid() && Agree(db.Contents)
    modifies db
    ensures db.Valid() && db.Owner.Keys <= old(db.Owner.Keys)
    ensures done <==> RunTry(old(db.Contents), BPop(keys, side)).Some?
    ensures done ==> RunTry(old(db.Contents), BPop(keys, side)) == Some(Done(db.Contents, reply))
    ensures !done ==> db.Contents == old(db.Contents)
  {
    var i := 0;
    while i < |keys|
      invariant i <= |keys| && db.Valid() && db.Contents == old(db.Contents) && db.Owner.Keys == old(db.Owner.Keys)
      invariant TryPop(db.Contents, keys[i..], side) == TryPop(db.Contents, keys, side)
    {
      var key := keys[i];
      assert keys[i..][0] == key && keys[i..][1..] == keys[i + 1..];
      if key in db.keys {
        if db.keys[key] != ListTag {
          return true, [WRONG_TYPE];
        }
        if db.listKeys[key].len != 0 {
          var v;
          match side {
            case Left => v := db.ListLpop(key);
            case Right => v := db.ListPop(key);
          }
          return true, [Len(2), Bulk(key), Bulk(v)];
        }
      }
      i := i + 1;
    }
    done, reply := false, [];
  }

  /** The filter loop of LREM. */
  method Filter(l: Slice, value: string, count: int) returns (kept: seq<string>, deleted: nat)
    requires l.InBounds()
    ensures kept == Lists.RemoveN(l.View(), value, count) && deleted == l.len - |kept|
  {
    kept, deleted := [], 0;
    var toDelete := count;
    var i := 0;
    while i < l.len
      invariant i <= l.len && deleted == i - |kept|
      invariant kept + Lists.RemoveN(l.View()[i..], value, toDelete) == Lists.RemoveN(l.View(), value, count)
    {
      var el := l.data[l.off + i];
      assert l.View()[i..][0] == el && l.View()[i..][1..] == l.View()[i + 1..];
      if el == value && toDelete > 0 {
        deleted := deleted + 1;
        toDelete := toDelete - 1;
      } else {
        kept := kept + [el];
      }
      i := i + 1;
    }
  }

  /** LREM on an existing list: a negative count reverses the list in place, filters it into a new
      one, and reverses that. */
  method LRemCmd(db: RedisDB, key: string, count: Int64, value: string) returns (reply: seq<Tok>)
    requires db.Valid() && db.HasList(key)
    modifies db, db.Owner.Keys
    ensures db.Valid() && fresh(db.Owner.Keys - old(db.Owner.Keys))
    ensures RemoveFrom(old(db.Contents), key, count, value) == Done(db.Contents, reply)
  {
    hide RedisDB.Valid, RedisDB.Separate;
    var deleted := RemoveElements(db, key, count, value);
    reply := [Number(deleted)];
  }

  method RemoveElements(db: RedisDB, key: string, count: Int64, value: string) returns (deleted: nat)
    requires db.Valid() && db.HasList(key)
    modifies db, db.Owner.Keys
    ensures db.Valid() && fresh(db.Owner.Keys - old(db.Owner.Keys))
    ensures
      var l := old(ListAt(db.Contents, key));
      db.Contents == Shrink(old(db.Contents), key, Lists.LRem(l, value, count)) &&
      deleted == |l| - |Lists.LRem(l, value, count)|
  {
    var l := db.listKeys[key];
    assert l.View() == ListAt(db.Contents, key);
    var newL;
    newL, deleted := RemoveMatches(l, count, value);
    db.AfterCellWrites(key);
    db.StoreRest(key, newL);
  }

  // What the working parts of `Commands` come to, once their new list is known.

  lemma TrimToIs(db: DB, k: string, start: Int64, end: Int64, rs: nat, re: nat, l: seq<string>)
    requires Ranges.RedisRange(|ListAt(db, k)|, start, end, false) == (rs, re)
    requires rs <= re <= |ListAt(db, k)| && l == ListAt(db, k)[rs..re]
    ensures TrimTo(db, k, start, end) == Done(Shrink(db, k, l), [OK])
  {
  }

  lemma SetElementIs(db: DB, k: string, index: Int64, value: string)
    ensures
      var l := ListAt(db, k);
      var i := if index < 0 then |l| + index else index;
      SetElement(db, k, index, value) ==
        if i < 0 || i > |l| - 1 then Done(db, [OUT_OF_RANGE]) else Done(PutList(db, k, l[i := value]), [OK])
  {
  }

  method RemoveMatches(l: Slice, count: Int64, value: string) returns (newL: Slice, deleted: nat)
    requires l.InBounds()
    modifies l.data
    ensures newL.InBounds() && fresh(newL.data) && newL.View() == Lists.LRem(old(l.View()), value, count)
    ensures deleted == l.len - newL.len
  {
    if count < 0 {
      ReverseSlice(l);
    }
    var toDelete: int := l.len;
    if count < 0 {
      toDelete := Wrap(0 - count);
    }
    if count > 0 {
      toDelete := count;
    }
    var kept;
    kept, deleted := Filter(l, value, toDelete);
    newL := NewSlice(kept);
    if count < 0 {
      ReverseSlice(newL);
    }
  }

  /** LSET on an existing list: one cell is overwritten in place. */
  method LSetCmd(db: RedisDB, key: string, index: Int64, value: string) returns (reply: seq<Tok>)
    requires db.Valid() && db.HasList(key)
    modifies db, db.Owner.Keys
    ensures db.Valid() && db.Owner.Keys == old(db.Owner.Keys)
    ensures SetElement(old(db.Contents), key, index, value) == Done(db.Contents, reply)
  {
    var l := db.listKeys[key];
    db.SliceAt(key);
    SetElementIs(db.Contents, key, index, value);
    hide RedisDB.Valid, RedisDB.Separate, SetElement, PutList, ListAt;
    var i: int := index;
    if i < 0 {
      i := l.len + i;
    }
    if i < 0 || i > l.len - 1 {
      return [OUT_OF_RANGE];
    }
    Overwrite(db, key, i, value);
    reply := [OK];
  }

  method Overwrite(db: RedisDB, key: string, i: nat, value: string)
    requires db.Valid() && db.HasList(key) && i < db.listKeys[key].len
    modifies db, db.Owner.Keys
    ensures db.Valid() && db.Owner.Keys == old(db.Owner.Keys)
    ensures db.Contents == PutList(old(db.Contents), key, old(ListAt(db.Contents, key))[i := value])
  {
    var l := db.listKeys[key];
    WriteCell(l, i, value);
    db.AfterCellWrites(key);
    db.StoreList(key, l);
  }

  method WriteCell(l: Slice, i: nat, value: string)
    requires l.InBounds() && i < l.len
    modifies l.data
    ensures l.View() == old(l.View())[i := value]
  {
    l.data[l.off + i] := value;
  }

  /** LTRIM on an existing list: a narrower window on the same array. */
  method LTrimCmd(db: RedisDB, key: string, start: Int64, end: Int64) returns (reply: seq<Tok>)
    requires db.Valid() && db.HasList(key)
    modifies db
    ensures db.Valid() && db.Owner.Keys <= old(db.Owner.Keys)
    ensures TrimTo(old(db.Contents), key, start, end) == Done(db.Contents, reply)
  {
    var l := db.listKeys[key];
    var (rs, re) := Ranges.RedisRange(l.len, start, end, false);
    Ranges.RangeBounds(l.len, start, end, false);
    var rest := Slice(l.data, l.off + rs, re - rs);
    Window(l, rs, re);
    TrimToIs(db.Contents, key, start, end, rs, re, rest.View());
    db.StoreRest(key, rest);
    reply := [OK];
  }

  /** LINSERT on an existing list: the tail is copied out first and then appended behind the part in
      front of the new element, into the same array if it has room. */
  method LInsertCmd(db: RedisDB, key: string, before: bool, pivot: string, value: string) returns (reply: seq<Tok>)
    requires db.Valid() && db.HasList(key)
    modifies db, db.Owner.Keys
    ensures db.Valid() && fresh(db.Owner.Keys - old(db.Owner.Keys))
    ensures InsertInto(old(db.Contents), key, before, pivot, value) == Done(db.Contents, reply)
  {
    hide RedisDB.Valid, RedisDB.Separate;
    var found, at := InsertPosition(db, key, before, pivot, value);
    if !found {
      return [Number(-1)];
    }
    var n := InsertElement(db, key, at, value);
    reply := [Number(n)];
  }

  /** Finds the pivot: where LINSERT will put the element, if anywhere. */
  method InsertPosition(db: RedisDB, key: string, before: bool, pivot: string, ghost value: string)
    returns (found: bool, at: nat)
    requires db.Valid() && db.HasList(key)
    ensures at <= |ListAt(db.Contents, key)|
    ensures !found ==> InsertInto(db.Contents, key, before, pivot, value) == Done(db.Contents, [Number(-1)])
    ensures found ==> (InsertInto(db.Contents, key, before, pivot, value) ==
      Done(PutList(db.Contents, key, Lists.InsertAt(ListAt(db.Contents, key), at, value)),
           [Number(|ListAt(db.Contents, key)| + 1)]))
  {
    var l := db.listKeys[key];
    assert l.View() == ListAt(db.Contents, key);
    hide RedisDB.Valid, RedisDB.Separate;
    var i := FindPivot(l, pivot);
    if i == l.len {
      return false, 0;
    }
    found, at := true, if before then i else i + 1;
  }

  method InsertElement(db: RedisDB, key: string, at: nat, value: string) returns (n: nat)
    requires db.Valid() && db.HasList(key) && at <= |ListAt(db.Contents, key)|
    modifies db, db.Owner.Keys
    ensures db.Valid() && fresh(db.Owner.Keys - old(db.Owner.Keys)) && n == old(|ListAt(db.Contents, key)|) + 1
    ensures db.Contents == PutList(old(db.Contents), key, Lists.InsertAt(old(ListAt(db.Contents, key)), at, value))
  {
    var l := db.listKeys[key];
    assert l.View() == ListAt(db.Contents, key);
    var r := Splice(l, at, value);
    db.AfterCellWrites(key);
    db.StoreList(key, r);
    n := r.len;
  }

  method FindPivot(l: Slice, pivot: string) returns (i: nat)
    requires l.InBounds()
    ensures i == Lists.FirstIndex(l.View(), pivot)
  {
    i := 0;
    while i < l.len && l.data[l.off + i] != pivot
      invariant i <= l.len
      invariant forall j :: 0 <= j < i ==> l.View()[j] != pivot
    {
      i := i + 1;
    }
    assert i < l.len ==> l.View()[i] == l.data[l.off + i];
    hide Lists.FirstIndex, Slice.View;
    FirstIs(l.View(), pivot, i);
  }

  lemma FirstIs(l: seq<string>, v: string, i: nat)
    requires i <= |l| && (i < |l| ==> l[i] == v) && forall j :: 0 <= j < i ==> l[j] != v
    ensures Lists.FirstIndex(l, v) == i
  {
    hide Lists.FirstIndex;
  }

  method Splice(l: Slice, at: nat, value: string) returns (r: Slice)
    requires l.InBounds() && at <= l.len
    modifies l.data
    ensures r.InBounds() && r.View() == Lists.InsertAt(old(l.View()), at, value)
    ensures r.data == l.data || fresh(r.data)
  {
    Window(l, 0, at);
    Window(l, at, l.len);
    ghost var was := l.View();
    var tail := Slice(l.data, l.off + at, l.len - at).View();
    assert tail == was[at..];
    var front := Slice(l.data, l.off, at);
    assert front.View() == was[..at];
    r := Append(front, [value] + tail);
    assert was[..at] + ([value] + was[at..]) == Lists.InsertAt(was, at, value);
  }

  /** RPOPLPUSH on an existing source list, also onto itself. */
  method RPopLPushCmd(db: RedisDB, src: string, dst: string) returns (reply: seq<Tok>)
    requires db.Valid() && IsList(db.Contents, src) && !IsSet(db.Contents, dst) && Agree(db.Contents)
    modifies db
    ensures db.Valid() && fresh(db.Owner.Keys - old(db.Owner.Keys))
    ensures Rotate(old(db.Contents), src, dst) == Done(db.Contents, reply)
  {
    NonEmpty(db.Contents, src);
    hide RedisDB.Valid, RedisDB.Separate, Agree, Store.ListPop, Store.ListLpush, ListAt;
    var v := db.ListPop(src);
    var n := db.ListLpush(dst, v);
    reply := [Bulk(v)];
  }

  lemma NonEmpty(db: DB, k: string)
    requires Agree(db) && IsList(db, k)
    ensures ListAt(db, k) != []
  {
  }

  // ---------- cmd_generic.go ----------

  /** DEL */
  method DelCmd(db: RedisDB, keys: seq<string>) returns (reply: seq<Tok>)
    requires db.Valid()
    modifies db
    ensures db.Valid() && db.Owner.Keys == old(db.Owner.Keys)
    ensures RunKey(old(db.Contents), KeyCmd.Delete(keys), []) == Done(db.Contents, reply)
  {
    var count := 0;
    var i := 0;
    while i < |keys|
      invariant i <= |keys| && db.Valid() && db.Owner.Keys == old(db.Owner.Keys)
      invariant DelAll(db.Contents, keys[i..]) == DelAll(old(db.Contents), keys)
      invariant count + DelCount(db.Contents, keys[i..]) == DelCount(old(db.Contents), keys)
    {
      assert keys[i..][0] == keys[i] && keys[i..][1..] == keys[i + 1..];
      if keys[i] in db.keys {
        count := count + 1;
      }
      db.Delete(keys[i]);
      i := i + 1;
    }
    reply := [Number(count)];
  }

  // ---------- cmd_set.go ----------

  /** SDIFFSTORE, SINTERSTORE, SUNIONSTORE: the destination may be one of the operands. */
  method StoreCmd(db: RedisDB, op: SetOp, dest: string, first: string, others: seq<string>) returns (reply: seq<Tok>)
    requires db.Valid() && Agree(db.Contents)
    modifies db
    ensures db.Valid() && fresh(db.Owner.Keys - old(db.Owner.Keys))
    ensures RunSet(old(db.Contents), SStore(op, dest, first, others), []) == Done(db.Contents, reply)
  {
    hide RedisDB.Valid, RedisDB.Separate, Agree, Store.Combine, Store.SetSet, Del;
    var r := db.Combine(op, [first] + others);
    if r.None? {
      return [WRONG_TYPE];
    }
    db.Delete(dest);
    db.SetSet(dest, r.value);
    reply := [Number(|r.value.members|)];
  }

  /** SMOVE of a member that is there. */
  method SMoveCmd(db: RedisDB, src: string, dst: string, member: string) returns (reply: seq<Tok>)
    requires db.Valid() && Agree(db.Contents)
    requires IsSet(db.Contents, src) && !IsList(db.Contents, dst) && member in SetAt(db.Contents, src)
    modifies db, db.Owner.Keys
    ensures db.Valid() && fresh(db.Owner.Keys - old(db.Owner.Keys))
    ensures MoveMember(old(db.Contents), src, dst, member) == Done(db.Contents, reply)
  {
    hide RedisDB.Valid, RedisDB.Separate, Agree, Store.SetRem, Store.SetAdd;
    var removed := db.SetRem(src, [member]);
    var added := db.SetAdd(dst, [member]);
    reply := [Number(1)];
  }

  /** SPOP on an existing set, for every outcome of the random numbers: what it returns is a possible
      choice, and the database and the reply are those of that choice. */
  method SPopCmd(db: RedisDB, key: string, number: Option<Int64>) returns (deleted: seq<string>, reply: seq<Tok>)
    requires db.Valid() && Agree(db.Contents) && IsSet(db.Contents, key)
    modifies db, db.Owner.Keys
    ensures db.Valid() && db.Owner.Keys == old(db.Owner.Keys)
    ensures ValidSetChoice(old(db.Contents), SPop(key, number), deleted)
    ensures RunSet(old(db.Contents), SPop(key, number), deleted) == Done(db.Contents, reply)
  {
    deleted := SPopLoop(db, key, if number.Some? then number.value else 1);
    if number.None? {
      reply := if deleted == [] then [Null] else [Bulk(deleted[0])];
    } else {
      reply := [Len(|deleted|)] + Bulks(deleted);
    }
  }

  method SPopLoop(db: RedisDB, key: string, count: int) returns (deleted: seq<string>)
    requires db.Valid() && Agree(db.Contents) && IsSet(db.Contents, key)
    modifies db, db.Owner.Keys
    ensures db.Valid() && db.Owner.Keys == old(db.Owner.Keys)
    ensures Picks(deleted, old(SetAt(db.Contents, key)), count)
    ensures db.Contents == PopMembers(old(db.Contents), key, deleted)
  {
    hide RedisDB.Valid, RedisDB.Separate, Popped, Picks, PopMembers;
    deleted := [];
    PoppedNone(db.Contents, key);
    var i := 0;
    while i < count
      invariant 0 <= i <= (if count < 0 then 0 else count) && |deleted| == i
      invariant db.Valid() && db.Owner.Keys == old(db.Owner.Keys)
      invariant Popped(old(db.Contents), db.Contents, key, deleted)
    {
      PoppedState(old(db.Contents), db.Contents, key, deleted);
      var empty := IsEmptySet(db, key);
      if empty {
        break;
      }
      var member := PopRandom(db, key);
      PoppedOne(old(db.Contents), key, deleted, member);
      deleted := deleted + [member];
      i := i + 1;
    }
    PoppedAll(old(db.Contents), db.Contents, key, deleted, count);
  }

  /** Popping `deleted`, one member after the other, has led from `was` to `db`. */
  ghost predicate Popped(was: DB, db: DB, k: string, deleted: seq<string>) {
    && Agree(db) && !IsList(db, k) && db == PopMembers(was, k, deleted)
    && Distinct(deleted) && Elems(deleted) <= SetAt(was, k)
    && SetAt(db, k) == SetAt(was, k) - Elems(deleted)
  }

  lemma PoppedNone(db: DB, k: string)
    requires Agree(db) && IsSet(db, k)
    ensures Popped(db, db, k, [])
  {
  }

  lemma PoppedState(was: DB, db: DB, k: string, deleted: seq<string>)
    requires Popped(was, db, k, deleted)
    ensures Agree(db) && !IsList(db, k) && db == PopMembers(was, k, deleted)
  {
  }

  lemma PoppedOne(was: DB, k: string, deleted: seq<string>, x: string)
    requires Popped(was, PopMembers(was, k, deleted), k, deleted) && x in SetAt(PopMembers(was, k, deleted), k)
    ensures Popped(was, Store.SetRem(PopMembers(was, k, deleted), k, [x]), k, deleted + [x])
  {
    var db := PopMembers(was, k, deleted);
    PopMembersSnoc(was, k, deleted, x);
    PicksGrow(deleted, SetAt(was, k), x);
    SetRemKeeps(db, k, [x]);
    assert Elems([x]) == {x};
  }

  lemma PoppedAll(was: DB, db: DB, k: string, deleted: seq<string>, count: int)
    requires Popped(was, db, k, deleted)
    requires |deleted| == (if count < 0 then 0 else count) || (SetAt(db, k) == {} && |deleted| <= count)
    ensures Picks(deleted, SetAt(was, k), count) && db == PopMembers(was, k, deleted)
  {
    var s := SetAt(was, k);
    DistinctSize(deleted);
    assert |s| == |Elems(deleted)| + |s - Elems(deleted)|;
  }

  method IsEmptySet(db: RedisDB, key: string) returns (empty: bool)
    requires db.Valid()
    ensures empty <==> SetAt(db.Contents, key) == {}
    ensures !empty ==> key in db.setKeys && db.setKeys[key].members != {}
  {
    empty := key !in db.setKeys || db.setKeys[key].members == {};
  }

  method PopRandom(db: RedisDB, key: string) returns (member: string)
    requires db.Valid() && Agree(db.Contents) && key in db.setKeys && db.setKeys[key].members != {}
    modifies db, db.Owner.Keys
    ensures db.Valid() && db.Owner.Keys == old(db.Owner.Keys) && Agree(db.Contents) && !IsList(db.Contents, key)
    ensures member in old(SetAt(db.Contents, key)) && db.Contents == Store.SetRem(old(db.Contents), key, [member])
    ensures SetAt(db.Contents, key) == old(SetAt(db.Contents, key)) - {member}
  {
    member :| member in db.setKeys[key].members;
    SetRemKeeps(db.Contents, key, [member]);
    assert Elems([member]) == {member};
    var removed := db.SetRem(key, [member]);
  }

  lemma PicksGrow(picked: seq<string>, s: set<string>, x: string)
    requires Distinct(picked) && Elems(picked) <= s && x in s - Elems(picked)
    ensures Distinct(picked + [x]) && Elems(picked + [x]) == Elems(picked) + {x} && Elems(picked + [x]) <= s
  {
  }

  lemma {:induction false} PopMembersSnoc(db: DB, k: string, members: seq<string>, x: string)
    ensures PopMembers(db, k, members + [x]) == Store.SetRem(PopMembers(db, k, members), k, [x])
    decreases |members|
  {
    if members == [] {
      assert [] + [x] == [x];
      assert PopMembers(Store.SetRem(db, k, [x]), k, []) == Store.SetRem(db, k, [x]);
    } else {
      PopMembersSnoc(Store.SetRem(db, k, [members[0]]), k, members[1..], x);
      assert (members + [x])[1..] == members[1..] + [x];
    }
  }

  /** `shuffle`: random swaps, so a permutation whatever the random numbers are. */
  method Shuffle(m: array<string>)
    modifies m
    ensures multiset(m[..]) == multiset(old(m[..]))
  {
    var n := 0;
    while n < m.Length
      invariant multiset(m[..]) == multiset(old(m[..]))
    {
      var i: nat :| i < m.Length;
      var j: nat :| j < m.Length;
      m[i], m[j] := m[j], m[i];
      n := n + 1;
    }
  }

  /** A permutation of a duplicate-free listing of a set is one too. */
  lemma PermutedListing(a: seq<string>, b: seq<string>, s: set<string>)
    requires multiset(a) == multiset(b) && Enumerates(a, s)
    ensures Enumerates(b, s)
  {
    forall i, j | 0 <= i < j < |b|
      ensures b[i] != b[j]
    {
      MultisetOfDistinct(a, b[i]);
      TwoPlaces(b, i, j);
    }
    forall x: string
      ensures x in b <==> x in a
    {
      assert x in b <==> x in multiset(b);
      assert x in a <==> x in multiset(a);
    }
    assert forall x: string :: x in Elems(b) <==> x in Elems(a);
  }

  lemma {:induction false} MultisetOfDistinct(a: seq<string>, x: string)
    requires Distinct(a)
    ensures multiset(a)[x] <= 1
  {
    if a != [] {
      assert a == [a[0]] + a[1..];
      MultisetOfDistinct(a[1..], x);
      if a[0] == x {
        assert x !in a[1..];
      }
    }
  }

  lemma TwoPlaces(b: seq<string>, i: nat, j: nat)
    requires i < j < |b|
    ensures b[i] == b[j] ==> multiset(b)[b[i]] >= 2
  {
    assert b == b[..i] + [b[i]] + b[i + 1..j] + [b[j]] + b[j + 1..];
  }

  /** SRANDMEMBER with a count that is not negative: the first `count` members after shuffling. */
  method RandMembers(s: set<string>, count: nat) returns (picked: seq<string>)
    ensures Picks(picked, s, count)
  {
    var listing := SetListing(s);
    var m := new string[|listing|](i requires 0 <= i < |listing| => listing[i]);
    assert m[..] == listing;
    Shuffle(m);
    PermutedListing(listing, m[..], s);
    DistinctSize(m[..]);
    picked := m[..if count > m.Length then m.Length else count];
  }

  /** `setMembers` without the sorting: every member once. */
  method SetListing(s: set<string>) returns (xs: seq<string>)
    ensures Enumerates(xs, s) && |xs| == |s|
  {
    xs := [];
    var todo := s;
    while todo != {}
      invariant todo <= s && Distinct(xs) && Elems(xs) == s - todo && |xs| == |s| - |todo|
      decreases todo
    {
      var e :| e in todo;
      assert Elems(xs + [e]) == Elems(xs) + {e};
      assert e !in xs by { assert e !in Elems(xs); }
      xs := xs + [e];
      todo := todo - {e};
    }
  }
}
