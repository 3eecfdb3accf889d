/** `RedisDB` as the Go program has it: maps of slices over shared backing arrays and of references to
    hash tables, all updated in place. Every method refines the operation of the same name in
    `Store`; the point is that no two keys ever share a backing array or a table. */
module Heap {
  import opened Base
  import opened Store

  /** A Go `map[string]struct{}`: a reference to a table that is changed in place. */
  class SetTable {
    var members: set<string>

    constructor ()
      ensures members == {}
    {
      members := {};
    }
  }

  /** A Go slice: a window into a backing array; what follows the window is its spare capacity. */
  datatype Slice = Slice(data: array<string>, off: nat, len: nat) {
    predicate InBounds() { off + len <= data.Length }

    function View(): (s: seq<string>)
      requires InBounds()
      reads data
      ensures |s| == len
    {
      data[off..off + len]
    }
  }

  lemma Tail(s: Slice)
    requires s.InBounds() && s.len > 0
    ensures s.data[s.off] == s.View()[0] && Slice(s.data, s.off + 1, s.len - 1).View() == s.View()[1..]
  {
  }

  lemma Window(s: Slice, i: nat, j: nat)
    requires s.InBounds() && i <= j <= s.len
    ensures Slice(s.data, s.off + i, j - i).View() == s.View()[i..j]
  {
    var w := Slice(s.data, s.off + i, j - i).View();
    var v := s.View();
    forall k | 0 <= k < j - i
      ensures w[k] == v[i..j][k]
    {
      assert v[i..j][k] == v[i + k] == s.data[s.off + (i + k)];
      assert w[k] == s.data[(s.off + i) + k];
    }
  }

  lemma Front(s: Slice)
    requires s.InBounds() && s.len > 0
    ensures s.data[s.off + s.len - 1] == s.View()[s.len - 1]
    ensures Slice(s.data, s.off, s.len - 1).View() == s.View()[..s.len - 1]
  {
  }

  /** Go's `append`: in place when the capacity suffices, otherwise into a new, larger array. */
  method Append(s: Slice, xs: seq<string>) returns (r: Slice)
    requires s.InBounds()
    modifies s.data
    ensures r.InBounds() && r.View() == old(s.View()) + xs
    ensures r.data == s.data || fresh(r.data)
  {
    var n := s.len + |xs|;
    if s.off + n <= s.data.Length {
      var i := 0;
      while i < |xs|
        invariant i <= |xs|
        invariant s.data[s.off..s.off + s.len + i] == old(s.View()) + xs[..i]
      {
        ghost var before := s.data[s.off..s.off + s.len + i];
        s.data[s.off + s.len + i] := xs[i];
        assert s.data[s.off..s.off + s.len + i + 1] == before + [xs[i]];
        assert xs[..i + 1] == xs[..i] + [xs[i]];
        i := i + 1;
      }
      assert xs[..|xs|] == xs;
      r := Slice(s.data, s.off, n);
    } else {
      r := NewSlice(s.View() + xs);
    }
  }

  /** A new slice with the given contents, in an array that may be larger. */
  method NewSlice(xs: seq<string>) returns (r: Slice)
    ensures r.InBounds() && r.View() == xs && fresh(r.data)
  {
    var spare: nat :| true;
    var a := new string[|xs| + spare](i => if 0 <= i < |xs| then xs[i] else "");
    r := Slice(a, 0, |xs|);
    assert a[..|xs|] == xs;
  }

  /** `reverseSlice`: swaps the ends inwards, in place. */
  method ReverseSlice(s: Slice)
    requires s.InBounds()
    modifies s.data
    ensures s.View() == Reverse(old(s.View()))
  {
    hide Slice.View;
    var i := 0;
    ghost var was := s.View();
    while i < s.len / 2
      invariant 0 <= i <= s.len / 2
      invariant forall k :: 0 <= k < i || s.len - i <= k < s.len ==> s.View()[k] == was[s.len - 1 - k]
      invariant forall k :: i <= k < s.len - i ==> s.View()[k] == was[k]
    {
      var other := s.len - 1 - i;
      SwapCells(s, i, other);
      i := i + 1;
    }
    forall k | 0 <= k < s.len
      ensures s.View()[k] == Reverse(was)[k]
    {
      ReverseAt(was, k);
    }
  }

  /** `o[i], o[j] = o[j], o[i]` */
  method SwapCells(s: Slice, i: nat, j: nat)
    requires s.InBounds() && i < s.len && j < s.len
    modifies s.data
    ensures s.View() == old(s.View()[i := s.View()[j]][j := s.View()[i]])
  {
    s.data[s.off + i], s.data[s.off + j] := s.data[s.off + j], s.data[s.off + i];
  }

  class RedisDB {
    var keys: map<string, Tag>
    var listKeys: map<string, Slice>
    var setKeys: map<string, SetTable>
    var keyVersion: map<string, nat>

    /** The immutable database this one stands for. */
    ghost var Contents: DB
    /** The key that each backing array or table belongs to, now or earlier. */
    ghost var Owner: map<object, string>

    /** Every key has its own backing array or table: no object belongs to two keys. */
    ghost predicate Separate()
      reads this, Owner.Keys
    {
      && this !in Owner
      && keys == Contents.keys && keyVersion == Contents.version
      && (forall k :: k in listKeys <==> k in Contents.lists)
      && (forall k :: k in setKeys <==> k in Contents.sets)
      && (forall k :: k in listKeys ==> listKeys[k].InBounds() && OwnedBy(listKeys[k].data, k))
      && (forall k :: k in setKeys ==> OwnedBy(setKeys[k], k))
    }

    ghost predicate OwnedBy(o: object, k: string)
      reads this`Owner
    {
      o in Owner && Owner[o] == k
    }

    /** An object that `k` may use: its own, or one that belongs to no key here. */
    ghost predicate FreeFor(o: object, k: string)
      reads this
    {
      o != this && (o in Owner ==> Owner[o] == k)
    }

    /** The two databases share nothing. */
    ghost predicate Apart(other: RedisDB)
      reads this, other
    {
      other != this && Owner.Keys !! other.Owner.Keys && this !in other.Owner && other !in Owner
    }

    /** Every list but the one under `except` is what `Contents` says. */
    ghost predicate ListsHold(except: Option<string>)
      requires Separate()
      reads this, Owner.Keys
    {
      forall k :: k in listKeys && Some(k) != except ==> listKeys[k].View() == Contents.lists[k]
    }

    ghost predicate SetsHold(except: Option<string>)
      requires Separate()
      reads this, Owner.Keys
    {
      forall k :: k in setKeys && Some(k) != except ==> setKeys[k].members == Contents.sets[k]
    }

    ghost predicate Valid()
      reads this, Owner.Keys
    {
      Separate() && ListsHold(None) && SetsHold(None)
    }

    lemma SliceAt(k: string)
      requires Valid() && k in listKeys
      ensures listKeys[k].InBounds() && listKeys[k].View() == ListAt(Contents, k) && OwnedBy(listKeys[k].data, k)
    {
    }

    lemma ListKeyAt(k: string)
      requires Valid() && ListAt(Contents, k) != []
      ensures k in listKeys && Separate() && ListsHold(Some(k)) && SetsHold(None)
      ensures listKeys[k].InBounds() && listKeys[k].View() == ListAt(Contents, k) && OwnedBy(listKeys[k].data, k)
    {
    }

    lemma TableAt(k: string)
      requires Valid() && k in setKeys
      ensures setKeys[k].members == SetAt(Contents, k) && OwnedBy(setKeys[k], k)
    {
    }

    /** The key holds a list, in the key index and in the list map. */
    predicate HasList(k: string)
      reads this
    {
      k in keys && keys[k] == ListTag && k in listKeys
    }

    constructor ()
      ensures Valid() && Contents == EmptyDB && Owner == map[]
    {
      keys, listKeys, setKeys, keyVersion := map[], map[], map[], map[];
      Contents, Owner := EmptyDB, map[];
    }

    method BumpVersion(k: string)
      requires Valid()
      modifies this`keyVersion, this`Contents
      ensures Valid() && Contents == Bump(old(Contents), k)
    {
      hide Slice.View;
      keyVersion := keyVersion[k := (if k in keyVersion then keyVersion[k] else 0) + 1];
      Contents := Bump(Contents, k);
    }

    /** `flush` */
    method FlushDb()
      requires Valid()
      modifies this
      ensures Valid() && Contents == Flush(old(Contents)) && Owner == map[]
    {
      keys, listKeys, setKeys := map[], map[], map[];
      Contents, Owner := Flush(Contents), map[];
    }

    method ClearTag(k: string)
      requires Valid()
      modifies this`keys, this`Contents
      ensures Valid() && Contents == old(Contents).(keys := old(Contents).keys - {k})
    {
      hide Slice.View;
      keys := keys - {k};
      Contents := Contents.(keys := Contents.keys - {k});
    }

    /** From now on `k` uses `o`. */
    ghost method Claim(o: object, k: string)
      requires Separate() && FreeFor(o, k)
      modifies this`Owner
      ensures Separate() && OwnedBy(o, k) && Owner == old(Owner)[o := k]
    {
      Owner := Owner[o := k];
    }

    /** `db.listKeys[k] = l` for a slice whose backing array no other key uses. */
    method PutSlice(k: string, l: Slice)
      requires Separate() && ListsHold(Some(k)) && SetsHold(None) && l.InBounds() && OwnedBy(l.data, k)
      modifies this`listKeys, this`Contents
      ensures Valid() && Contents == old(Contents).(lists := old(Contents).lists[k := l.View()])
      ensures listKeys == old(listKeys)[k := l]
    {
      hide Slice.View, RedisDB.OwnedBy;
      listKeys := listKeys[k := l];
      Contents := Contents.(lists := Contents.lists[k := l.View()]);
    }

    /** `delete(db.listKeys, k)` */
    method DropSlice(k: string)
      requires Separate() && ListsHold(Some(k)) && SetsHold(None)
      modifies this`listKeys, this`Contents
      ensures Valid() && Contents == old(Contents).(lists := old(Contents).lists - {k})
      ensures listKeys == old(listKeys) - {k}
    {
      hide Slice.View;
      listKeys := listKeys - {k};
      Contents := Contents.(lists := Contents.lists - {k});
    }

    /** `db.setKeys[k] = t` for a table that no other key uses. */
    method PutTable(k: string, t: SetTable)
      requires Separate() && ListsHold(None) && SetsHold(Some(k)) && OwnedBy(t, k)
      modifies this`setKeys, this`Contents
      ensures Valid() && Contents == old(Contents).(sets := old(Contents).sets[k := t.members])
      ensures setKeys == old(setKeys)[k := t]
    {
      hide Slice.View, RedisDB.OwnedBy;
      setKeys := setKeys[k := t];
      Contents := Contents.(sets := Contents.sets[k := t.members]);
    }

    /** `delete(db.setKeys, k)` */
    method DropTable(k: string)
      requires Separate() && ListsHold(None) && SetsHold(Some(k))
      modifies this`setKeys, this`Contents
      ensures Valid() && Contents == old(Contents).(sets := old(Contents).sets - {k})
      ensures setKeys == old(setKeys) - {k}
    {
      hide Slice.View;
      setKeys := setKeys - {k};
      Contents := Contents.(sets := Contents.sets - {k});
    }

    /** No key here uses `o` any more, so that another database can. */
    ghost method Disown(o: object, k: string)
      requires Valid() && OwnedBy(o, k) && k !in listKeys && k !in setKeys
      modifies this`Owner
      ensures Valid() && Owner == old(Owner) - {o}
    {
      hide Slice.View;
      Owner := Owner - {o};
    }

    /** `db.listKeys[k] = l; db.keyVersion[k]++` for a slice whose backing array no other key uses. */
    method StoreList(k: string, l: Slice)
      requires Separate() && ListsHold(Some(k)) && SetsHold(None) && l.InBounds()
      requires FreeFor(l.data, k)
      modifies this
      ensures Valid() && Contents == PutList(old(Contents), k, l.View()) && Owner == old(Owner)[l.data := k]
    {
      Claim(l.data, k);
      hide RedisDB.Valid, RedisDB.Separate;
      PutSlice(k, l);
      BumpVersion(k);
    }

    /** `db.setKeys[k] = t; db.keyVersion[k]++` for a table that no other key uses. */
    method StoreSet(k: string, t: SetTable)
      requires Separate() && ListsHold(None) && SetsHold(Some(k))
      requires FreeFor(t, k)
      modifies this
      ensures Valid() && Owner == old(Owner)[t := k]
      ensures Contents == Bump(old(Contents).(sets := old(Contents).sets[k := t.members]), k)
    {
      Claim(t, k);
      hide RedisDB.Valid, RedisDB.Separate;
      PutTable(k, t);
      BumpVersion(k);
    }

    method SetTagOf(k: string, t: Tag)
      requires Valid()
      modifies this`keys, this`Contents
      ensures Valid() && Contents == old(Contents).(keys := old(Contents).keys[k := t])
    {
      hide Slice.View;
      keys := keys[k := t];
      Contents := Contents.(keys := Contents.keys[k := t]);
    }

    /** `del` */
    method Delete(k: string)
      requires Valid()
      modifies this
      ensures Valid() && Contents == Del(old(Contents), k) && Owner == old(Owner)
      ensures k in old(keys) ==> k !in (if old(keys)[k] == ListTag then listKeys.Keys else setKeys.Keys)
      ensures listKeys.Keys <= old(listKeys).Keys && setKeys.Keys <= old(setKeys).Keys
    {
      if k !in keys {
        return;
      }
      var t := keys[k];
      assert keys == Contents.keys;
      hide RedisDB.Valid, RedisDB.Separate;
      ClearTag(k);
      BumpVersion(k);
      match t {
        case ListTag => DropSlice(k);
        case SetTag => DropTable(k);
      }
    }

    /** `listLpush`: always a new backing array. */
    method ListLpush(k: string, v: string) returns (n: nat)
      requires Valid()
      modifies this
      ensures Valid() && Contents == Store.ListLpush(old(Contents), k, v) && n == |ListAt(Contents, k)|
      ensures fresh(Owner.Keys - old(Owner.Keys))
    {
      var tail := [];
      if k in listKeys {
        tail := listKeys[k].View();
      } else {
        SetTagOf(k, ListTag);
      }
      var l := NewSlice([v] + tail);
      StoreList(k, l);
      n := l.len;
    }

    /** `listPush`: in place when the spare capacity suffices. */
    method ListPush(k: string, vs: seq<string>) returns (n: nat)
      requires Valid()
      modifies this, Owner.Keys
      ensures Valid() && Contents == Store.ListPush(old(Contents), k, vs) && n == |ListAt(Contents, k)|
      ensures fresh(Owner.Keys - old(Owner.Keys))
    {
      var l: Slice;
      if k in listKeys {
        l := Append(listKeys[k], vs);
      } else {
        SetTagOf(k, ListTag);
        l := NewSlice(vs);
        assert [] + vs == vs;
      }
      StoreList(k, l);
      n := l.len;
    }

    /** Heap separation at work: writing into the cells of one list leaves all others as they are. */
    twostate lemma AfterCellWrites(k: string)
      requires old(Valid()) && k in listKeys && unchanged(this) && unchanged(Owner.Keys - {listKeys[k].data})
      ensures Separate() && ListsHold(Some(k)) && SetsHold(None)
    {
    }

    /** The same for a change to the table of one set. */
    twostate lemma AfterTableWrite(k: string)
      requires old(Valid()) && k in setKeys && unchanged(this) && unchanged(Owner.Keys - {setKeys[k]})
      ensures Separate() && ListsHold(None) && SetsHold(Some(k)) && OwnedBy(setKeys[k], k)
    {
    }

    /** The set map is the index of the sets. */
    lemma TableIndex(k: string)
      requires Valid()
      ensures k in setKeys <==> k in Contents.sets
      ensures k in setKeys ==> setKeys[k].members == SetAt(Contents, k) && OwnedBy(setKeys[k], k)
    {
    }

    /** The type and the members of an operand, in the maps and in `Contents`. */
    lemma SetAtKey(k: string)
      requires Valid() && Agree(Contents)
      ensures k in keys <==> Exists(Contents, k)
      ensures k in keys ==> keys[k] == Contents.keys[k] && (k in setKeys <==> keys[k] == SetTag)
      ensures SetAt(Contents, k) == if k in setKeys then setKeys[k].members else {}
      ensures k in setKeys ==> k in keys
    {
      hide Slice.View;
    }

    lemma UsualParts(k: string)
      requires Valid()
      ensures Separate() && ListsHold(None) && SetsHold(Some(k))
    {
    }

    /** `del` of a list key, whatever its cells hold by now. */
    method ForgetList(k: string)
      requires Separate() && ListsHold(Some(k)) && SetsHold(None) && IsList(Contents, k)
      modifies this
      ensures Valid() && Contents == Del(old(Contents), k) && Owner == old(Owner)
    {
      hide RedisDB.Valid, RedisDB.Separate;
      DropSlice(k);
      ClearTag(k);
      BumpVersion(k);
    }

    /** Stores what is left of a list; nothing left deletes the key. */
    method StoreRest(k: string, l: Slice)
      requires Separate() && ListsHold(Some(k)) && SetsHold(None) && IsList(Contents, k) && l.InBounds()
      requires FreeFor(l.data, k)
      modifies this
      ensures Valid() && Contents == Shrink(old(Contents), k, l.View()) && Owner.Keys <= old(Owner.Keys) + {l.data}
    {
      if l.len == 0 {
        ForgetList(k);
      } else {
        StoreList(k, l);
      }
    }

    /** `listLpop` */
    method ListLpop(k: string) returns (el: string)
      requires Valid() && ListAt(Contents, k) != []
      modifies this
      ensures Valid() && Contents == Store.ListLpop(old(Contents), k) && el == old(ListAt(Contents, k)[0])
      ensures Owner.Keys <= old(Owner.Keys)
    {
      var l := listKeys[k];
      el := l.data[l.off];
      var rest := Slice(l.data, l.off + 1, l.len - 1);
      Tail(l);
      if rest.len == 0 {
        Delete(k);
        BumpVersion(k);
      } else {
        StoreList(k, rest);
      }
    }

    /** `listPop`: the popped element stays in the backing array as spare capacity. */
    method ListPop(k: string) returns (el: string)
      requires Valid() && IsList(Contents, k) && ListAt(Contents, k) != []
      modifies this
      ensures Valid() && Contents == Store.ListPop(old(Contents), k)
      ensures el == old(ListAt(Contents, k)[|ListAt(Contents, k)| - 1]) && Owner.Keys <= old(Owner.Keys)
    {
      ListKeyAt(k);
      hide RedisDB.Valid, RedisDB.Separate, RedisDB.ListsHold, RedisDB.SetsHold;
      var l := listKeys[k];
      Front(l);
      el := l.data[l.off + l.len - 1];
      StoreRest(k, Slice(l.data, l.off, l.len - 1));
    }

    /** `setSet` */
    method SetSet(k: string, t: SetTable)
      requires Valid()
      requires FreeFor(t, k)
      modifies this
      ensures Valid() && Contents == Store.SetSet(old(Contents), k, t.members) && Owner == old(Owner)[t := k]
    {
      SetTagOf(k, SetTag);
      StoreSet(k, t);
    }

    /** `setAdd`: adds to the table in place, or to a new one. */
    method SetAdd(k: string, elems: seq<string>) returns (added: nat)
      requires Valid()
      modifies this, Owner.Keys
      ensures Valid() && Contents == Store.SetAdd(old(Contents), k, elems) && fresh(Owner.Keys - old(Owner.Keys))
      ensures added == |SetAt(Contents, k)| - |old(SetAt(Contents, k))|
    {
      TableIndex(k);
      hide Slice.View, RedisDB.Valid, RedisDB.Separate, RedisDB.ListsHold, RedisDB.SetsHold;
      var t: SetTable;
      if k in setKeys {
        t := setKeys[k];
        added := AddAll(t, elems);
        AfterTableWrite(k);
      } else {
        t := new SetTable();
        SetTagOf(k, SetTag);
        added := AddAll(t, elems);
        UsualParts(k);
      }
      StoreSet(k, t);
    }

    /** `del` of a set key, and the version bump that follows it in `setRem`. */
    method ForgetSet(k: string)
      requires Separate() && ListsHold(None) && SetsHold(Some(k)) && IsSet(Contents, k)
      modifies this
      ensures Valid() && Contents == Bump(Del(old(Contents), k), k) && Owner == old(Owner)
    {
      hide RedisDB.Valid, RedisDB.Separate;
      DropTable(k);
      ClearTag(k);
      BumpVersion(k);
      BumpVersion(k);
    }

    /** `setRem`: removes from the table in place and deletes the key with the last member. */
    method SetRem(k: string, fields: seq<string>) returns (removed: nat)
      requires Valid() && (k in setKeys ==> IsSet(Contents, k))
      modifies this, Owner.Keys
      ensures Valid() && Contents == Store.SetRem(old(Contents), k, fields) && Owner == old(Owner)
      ensures removed == |old(SetAt(Contents, k))| - |old(SetAt(Contents, k)) - Elems(fields)|
    {
      TableIndex(k);
      if k !in setKeys {
        return 0;
      }
      hide Slice.View, RedisDB.Valid, RedisDB.Separate, RedisDB.ListsHold, RedisDB.SetsHold;
      var t := setKeys[k];
      removed := RemoveAll(t, fields);
      AfterTableWrite(k);
      if t.members == {} {
        ForgetSet(k);
      } else {
        StoreSet(k, t);
      }
    }

    /** One later operand of a set operation, applied to the result so far. */
    method CombineNext(op: SetOp, s: SetTable, sk: string) returns (ok: bool)
      requires Valid() && Agree(Contents) && s !in Owner.Keys
      modifies s
      ensures ok <==> CombineOne(Contents, op, old(s.members), sk).Some?
      ensures ok ==> CombineOne(Contents, op, old(s.members), sk) == Some(s.members)
    {
      SetAtKey(sk);
      hide RedisDB.Valid, Agree;
      if sk in keys {
        if keys[sk] != SetTag {
          return op.Inter?;
        }
        match op {
          case Diff => RemoveMembers(s, setKeys[sk].members);
          case Inter => RetainMembers(s, setKeys[sk].members);
          case Union => AddMembers(s, setKeys[sk].members);
        }
      }
      ok := true;
    }

    /** `setDiff`, `setInter`, `setUnion`: the result is a new table, the operands stay as they are.
        None is the wrong-type error. */
    method Combine(op: SetOp, operands: seq<string>) returns (r: Option<SetTable>)
      requires Valid() && Agree(Contents) && operands != []
      ensures r.None? <==> Store.Combine(Contents, op, operands).None?
      ensures r.Some? ==> fresh(r.value) && Some(r.value.members) == Store.Combine(Contents, op, operands)
    {
      var first := operands[0];
      SetAtKey(first);
      hide RedisDB.Valid, Agree, CombineOne;
      if first in keys && keys[first] != SetTag {
        return None;
      }
      var s := new SetTable();
      if first in setKeys {
        AddMembers(s, setKeys[first].members);
      }
      assert s.members == SetAt(Contents, first);
      var i := 1;
      while i < |operands|
        invariant 1 <= i <= |operands| && Valid()
        invariant CombineRest(Contents, op, s.members, operands[i..]) == Store.Combine(Contents, op, operands)
      {
        assert operands[i..][0] == operands[i] && operands[i..][1..] == operands[i + 1..];
        var ok := CombineNext(op, s, operands[i]);
        if !ok {
          return None;
        }
        i := i + 1;
      }
      r := Some(s);
    }

    method TakeSlice(k: string, l: Slice)
      requires Valid() && l.InBounds() && FreeFor(l.data, k)
      modifies this`listKeys, this`Contents, this`Owner
      ensures Valid() && Contents == old(Contents).(lists := old(Contents).lists[k := l.View()])
      ensures Owner == old(Owner)[l.data := k]
    {
      Claim(l.data, k);
      hide RedisDB.Separate;
      PutSlice(k, l);
    }

    method TakeTable(k: string, t: SetTable)
      requires Valid() && FreeFor(t, k)
      modifies this`setKeys, this`Contents, this`Owner
      ensures Valid() && Contents == old(Contents).(sets := old(Contents).sets[k := t.members])
      ensures Owner == old(Owner)[t := k]
    {
      Claim(t, k);
      hide RedisDB.Separate;
      PutTable(k, t);
    }

    /** `listKeys[to] = listKeys[from]` and `delete(listKeys, from)`: the array changes its name, it is
        not copied. */
    method RelabelList(from: string, to: string)
      requires Valid() && Agree(Contents) && IsList(Contents, from) && !Exists(Contents, to)
      modifies this
      ensures Valid() && Owner.Keys == old(Owner.Keys)
      ensures Contents == old(Contents).(lists := (old(Contents).lists - {from})[to := ListAt(old(Contents), from)])
    {
      var l := listKeys[from];
      assert OwnedBy(l.data, from) && from !in setKeys;
      assert l.InBounds() && l.View() == ListAt(Contents, from);
      hide RedisDB.Valid, RedisDB.Separate, Slice.View;
      DropSlice(from);
      Disown(l.data, from);
      TakeSlice(to, l);
    }

    method RelabelSet(from: string, to: string)
      requires Valid() && Agree(Contents) && IsSet(Contents, from) && !Exists(Contents, to)
      modifies this
      ensures Valid() && Owner.Keys == old(Owner.Keys)
      ensures Contents == old(Contents).(sets := (old(Contents).sets - {from})[to := SetAt(old(Contents), from)])
    {
      var t := setKeys[from];
      assert OwnedBy(t, from) && from !in listKeys;
      assert t.members == SetAt(Contents, from);
      hide RedisDB.Valid, RedisDB.Separate;
      DropTable(from);
      Disown(t, from);
      TakeTable(to, t);
    }

    /** The two key index entries and version bumps of `rename`. */
    method RelabelKey(from: string, to: string)
      requires Valid() && from in keys && from != to
      modifies this`keys, this`keyVersion, this`Contents
      ensures Valid()
      ensures Contents == Bump(Bump(old(Contents).(keys := old(Contents).keys[to := old(keys[from])]), to), from)
        .(keys := old(Contents).keys[to := old(keys[from])] - {from})
    {
      var t := keys[from];
      assert keys == Contents.keys;
      hide RedisDB.Valid, RedisDB.Separate;
      SetTagOf(to, t);
      BumpVersion(to);
      BumpVersion(from);
      ClearTag(from);
    }

    /** The rest of `rename` after `del(to)`. */
    method Relabel(from: string, to: string)
      requires Valid() && Agree(Contents) && Exists(Contents, from) && !Exists(Contents, to)
      modifies this
      ensures Valid() && Contents == Del(Place(old(Contents), to, old(Contents), from), from)
      ensures Owner.Keys == old(Owner.Keys)
    {
      if keys[from] == ListTag {
        RelabelList(from, to);
      } else {
        RelabelSet(from, to);
      }
      RelabelKey(from, to);
      RelabelContents(old(Contents), from, to);
    }

    /** What the steps above add up to. */
    static lemma RelabelContents(db: DB, from: string, to: string)
      requires Agree(db) && Exists(db, from) && !Exists(db, to)
      ensures
        var mid := match db.keys[from]
          case ListTag => db.(lists := (db.lists - {from})[to := ListAt(db, from)])
          case SetTag => db.(sets := (db.sets - {from})[to := SetAt(db, from)]);
        Bump(Bump(mid.(keys := mid.keys[to := mid.keys[from]]), to), from)
          .(keys := mid.keys[to := mid.keys[from]] - {from})
        == Del(Place(db, to, db, from), from)
    {
      if IsList(db, from) {
        assert (db.lists - {from})[to := ListAt(db, from)] == db.lists[to := ListAt(db, from)] - {from};
      } else {
        assert (db.sets - {from})[to := SetAt(db, from)] == db.sets[to := SetAt(db, from)] - {from};
      }
    }

    /** `rename` */
    method RenameKey(from: string, to: string)
      requires Valid() && Agree(Contents) && Store.Rename(Contents, from, to).Some?
      modifies this
      ensures Valid() && Contents == Store.Rename(old(Contents), from, to).value && Owner.Keys == old(Owner.Keys)
    {
      DelKeeps(Contents, to);
      Delete(to);
      Relabel(from, to);
    }

    /** Gives up a list key together with its backing array. */
    method ReleaseList(k: string)
      requires Valid() && Agree(Contents) && IsList(Contents, k) && k in listKeys
      modifies this
      ensures Valid() && Contents == Del(old(Contents), k) && Owner == old(Owner) - {old(listKeys[k].data)}
    {
      var o := listKeys[k].data;
      assert OwnedBy(o, k) && k in keys && keys[k] == ListTag && k !in setKeys;
      hide RedisDB.Valid, RedisDB.Separate;
      Delete(k);
      Disown(o, k);
    }

    method ReleaseSet(k: string)
      requires Valid() && Agree(Contents) && IsSet(Contents, k) && k in setKeys
      modifies this
      ensures Valid() && Contents == Del(old(Contents), k) && Owner == old(Owner) - {old(setKeys[k])}
    {
      var o := setKeys[k];
      assert OwnedBy(o, k) && k in keys && keys[k] == SetTag && k !in listKeys;
      hide RedisDB.Valid, RedisDB.Separate;
      Delete(k);
      Disown(o, k);
    }

    /** Takes over a list that arrives from another database. */
    method AdoptList(k: string, l: Slice)
      requires Valid() && l.InBounds() && k !in listKeys && FreeFor(l.data, k)
      modifies this
      ensures Valid() && Contents == PutList(TagAsList(old(Contents), k), k, l.View())
      ensures Owner == old(Owner)[l.data := k]
    {
      SetTagOf(k, ListTag);
      StoreList(k, l);
    }

    method AdoptSet(k: string, t: SetTable)
      requires Valid() && FreeFor(t, k)
      modifies this
      ensures Valid() && Contents == Store.SetSet(old(Contents), k, t.members) && Owner == old(Owner)[t := k]
    {
      SetTagOf(k, SetTag);
      StoreSet(k, t);
    }

    /** `move`: the array or table changes hands, it is not copied. */
    method MoveKey(k: string, to: RedisDB) returns (ok: bool)
      requires Valid() && to.Valid() && Agree(Contents) && Agree(to.Contents)
      requires Apart(to)
      modifies this, to
      ensures Valid() && to.Valid() && Apart(to) && Owner.Keys + to.Owner.Keys == old(Owner.Keys + to.Owner.Keys)
      ensures ok <==> Store.Move(old(Contents), old(to.Contents), k).Some?
      ensures !ok ==> Contents == old(Contents) && to.Contents == old(to.Contents)
      ensures ok ==> (Contents, to.Contents) == Store.Move(old(Contents), old(to.Contents), k).value
    {
      if k in to.keys || k !in keys {
        return false;
      }
      if keys[k] == ListTag {
        MoveList(k, to);
      } else {
        MoveSet(k, to);
      }
      ok := true;
      MoveContents(old(Contents), old(to.Contents), k);
    }

    static lemma MoveContents(from: DB, to: DB, k: string)
      requires Agree(from) && Agree(to) && Exists(from, k) && !Exists(to, k)
      ensures Store.Move(from, to, k) ==
        Some((Del(from, k), if IsList(from, k) then PutList(TagAsList(to, k), k, ListAt(from, k))
                            else Store.SetSet(to, k, SetAt(from, k))))
    {
      PlaceIs(to, k, from, k);
    }

    method MoveSet(k: string, to: RedisDB)
      requires Valid() && to.Valid() && Agree(Contents) && IsSet(Contents, k) && k in setKeys
      requires Apart(to)
      modifies this, to
      ensures Valid() && to.Valid() && Apart(to) && Owner.Keys + to.Owner.Keys == old(Owner.Keys + to.Owner.Keys)
      ensures Contents == Del(old(Contents), k)
      ensures to.Contents == Store.SetSet(old(to.Contents), k, old(SetAt(Contents, k)))
    {
      hide RedisDB.Valid, RedisDB.Separate;
      TableAt(k);
      to.AdoptSet(k, setKeys[k]);
      ReleaseSet(k);
    }

    method MoveList(k: string, to: RedisDB)
      requires Valid() && to.Valid() && Agree(Contents) && IsList(Contents, k) && k in listKeys && k !in to.listKeys
      requires Apart(to)
      modifies this, to
      ensures Valid() && to.Valid() && Apart(to) && Owner.Keys + to.Owner.Keys == old(Owner.Keys + to.Owner.Keys)
      ensures Contents == Del(old(Contents), k)
      ensures to.Contents == PutList(TagAsList(old(to.Contents), k), k, old(ListAt(Contents, k)))
    {
      hide RedisDB.Valid, RedisDB.Separate, Slice.View;
      SliceAt(k);
      to.AdoptList(k, listKeys[k]);
      ReleaseList(k);
    }
  }

  lemma ElemsSnoc(xs: seq<string>, i: nat)
    requires i < |xs|
    ensures Elems(xs[..i + 1]) == Elems(xs[..i]) + {xs[i]}
  {
    assert xs[..i + 1] == xs[..i] + [xs[i]];
  }

  /** The loop of `setAdd`: counts the elements that were not there. */
  method AddAll(t: SetTable, elems: seq<string>) returns (added: nat)
    modifies t
    ensures t.members == old(t.members) + Elems(elems)
    ensures added == |t.members| - |old(t.members)|
  {
    added := 0;
    var i := 0;
    while i < |elems|
      invariant i <= |elems|
      invariant t.members == old(t.members) + Elems(elems[..i])
      invariant added == |t.members| - |old(t.members)|
    {
      if elems[i] !in t.members {
        added := added + 1;
      }
      ElemsSnoc(elems, i);
      t.members := t.members + {elems[i]};
      i := i + 1;
    }
    assert elems[..|elems|] == elems;
  }

  /** The loop of `setRem`: counts the elements that were there. */
  method RemoveAll(t: SetTable, fields: seq<string>) returns (removed: nat)
    modifies t
    ensures t.members == old(t.members) - Elems(fields)
    ensures removed == |old(t.members)| - |t.members|
  {
    removed := 0;
    var i := 0;
    while i < |fields|
      invariant i <= |fields|
      invariant t.members == old(t.members) - Elems(fields[..i])
      invariant removed == |old(t.members)| - |t.members|
    {
      ElemsSnoc(fields, i);
      if fields[i] in t.members {
        removed := removed + 1;
        t.members := t.members - {fields[i]};
      }
      i := i + 1;
    }
    assert fields[..|fields|] == fields;
  }

  /** `for e := range other { s[e] = struct{}{} }`, in any iteration order. */
  method AddMembers(s: SetTable, other: set<string>)
    modifies s
    ensures s.members == old(s.members) + other
  {
    var todo := other;
    while todo != {}
      invariant todo <= other && s.members == old(s.members) + (other - todo)
      decreases todo
    {
      var e :| e in todo;
      s.members := s.members + {e};
      todo := todo - {e};
    }
  }

  /** `for e := range other { delete(s, e) }` */
  method RemoveMembers(s: SetTable, other: set<string>)
    modifies s
    ensures s.members == old(s.members) - other
  {
    var todo := other;
    while todo != {}
      invariant todo <= other && s.members == old(s.members) - (other - todo)
      decreases todo
    {
      var e :| e in todo;
      s.members := s.members - {e};
      todo := todo - {e};
    }
  }

  /** `for e := range s { if _, ok := other[e]; !ok { delete(s, e) } }` */
  method RetainMembers(s: SetTable, other: set<string>)
    modifies s
    ensures s.members == old(s.members) * other
  {
    var todo := s.members;
    while todo != {}
      invariant todo <= old(s.members)
      invariant s.members == todo + (old(s.members) - todo) * other
      decreases todo
    {
      var e :| e in todo;
      if e !in other {
        s.members := s.members - {e};
      }
      todo := todo - {e};
    }
  }
}
