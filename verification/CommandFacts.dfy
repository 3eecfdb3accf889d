/** What single commands promise their callers. */
module CommandFacts {
  import opened Base
  import opened Store
  import opened Resp
  import opened Commands
  import opened CommandLaws
  import Ranges
  import Lists

  // ---------- LREM, LTRIM, LRANGE ----------

  /** LREM on an existing list leaves what it promises, replies with the number removed, and deletes
      the key exactly when nothing remains; only the smallest integer as count breaks the promise. */
  lemma LRemCommand(db: DB, k: string, count: Int64, value: string)
    requires Agree(db) && IsList(db, k) && |ListAt(db, k)| <= MAX_INT
    ensures
      var l := ListAt(db, k);
      var o := RunList(db, ListCmd.LRem(k, count, value));
      && o.Done?
      && (ListAt(o.state, k) == Lists.LRemPromise(l, value, count) <==> (count != MIN_INT || value !in l))
      && (count != MIN_INT ==> o.reply == [Number(Min(Lists.Asked(l, count), Lists.Occurrences(l, value)))])
      && (!Exists(o.state, k) <==> ListAt(o.state, k) == [])
  {
    hide Agree, RunList, Shrink, IsList, Lists.LRem, Lists.LRemPromise, Lists.Occurrences, Lists.Asked;
    var l := ListAt(db, k);
    var r := Lists.LRem(l, value, count);
    Lists.LRemExact(l, value, count);
    LRemOutcome(db, k, count, value);
    ShrinkContents(db, k, r);
  }

  lemma LRemOutcome(db: DB, k: string, count: Int64, value: string)
    requires IsList(db, k)
    ensures
      var r := Lists.LRem(ListAt(db, k), value, count);
      RunList(db, ListCmd.LRem(k, count, value)) == Done(Shrink(db, k, r), [Number(|ListAt(db, k)| - |r|)])
  {
  }

  lemma ShrinkContents(db: DB, k: string, l: seq<string>)
    requires Agree(db) && IsList(db, k)
    ensures ListAt(Shrink(db, k, l), k) == l && (Exists(Shrink(db, k, l), k) <==> l != [])
  {
    DelKeeps(db, k);
  }

  /** LTRIM s e and then LRANGE 0 -1 answers what LRANGE s e answered before. */
  lemma TrimThenRange(db: DB, k: string, start: Int64, end: Int64)
    requires Agree(db) && |ListAt(db, k)| <= MAX_INT
    ensures
      var o := RunList(db, LTrim(k, start, end));
      o.Done? && RunList(db, LRange(k, start, end)).Done? && RunList(o.state, LRange(k, 0, -1)).Done? &&
      RunList(o.state, LRange(k, 0, -1)).reply == RunList(db, LRange(k, start, end)).reply
  {
    hide Agree, RunList, Shrink, Ranges.RedisRange;
    var l := ListAt(db, k);
    if IsList(db, k) {
      Ranges.TrimThenRange(l, start, end);
      Ranges.RangeBounds(|l|, start, end, false);
      var (rs, re) := Ranges.RedisRange(|l|, start, end, false);
      Ranges.RangeBounds(re - rs, 0, -1, false);
      TrimOutcome(db, k, start, end);
      RangeOutcome(db, k, start, end);
      RangeOutcome(Shrink(db, k, l[rs..re]), k, 0, -1);
    } else {
      NoListOutcome(db, k, start, end);
    }
  }

  lemma TrimOutcome(db: DB, k: string, start: Int64, end: Int64)
    requires Agree(db) && IsList(db, k)
    ensures
      var (rs, re) := Ranges.RedisRange(|ListAt(db, k)|, start, end, false);
      0 <= rs <= re <= |ListAt(db, k)| &&
      RunList(db, LTrim(k, start, end)) == Done(Shrink(db, k, ListAt(db, k)[rs..re]), [OK]) &&
      ListAt(Shrink(db, k, ListAt(db, k)[rs..re]), k) == ListAt(db, k)[rs..re] &&
      !IsSet(Shrink(db, k, ListAt(db, k)[rs..re]), k)
  {
    hide Ranges.RedisRange;
    Ranges.RangeBounds(|ListAt(db, k)|, start, end, false);
  }

  lemma RangeOutcome(db: DB, k: string, start: Int64, end: Int64)
    requires !IsSet(db, k)
    ensures
      var (rs, re) := Ranges.RedisRange(|ListAt(db, k)|, start, end, false);
      0 <= rs <= re <= |ListAt(db, k)| &&
      RunList(db, LRange(k, start, end)) == Done(db,
        if ListAt(db, k) == [] then [Len(0)] else [Len(re - rs)] + Bulks(ListAt(db, k)[rs..re]))
  {
    hide Ranges.RedisRange, Bulks;
    Ranges.RangeBounds(|ListAt(db, k)|, start, end, false);
  }

  lemma NoListOutcome(db: DB, k: string, start: Int64, end: Int64)
    requires Agree(db) && !IsList(db, k)
    ensures RunList(db, LTrim(k, start, end)).Done? && RunList(db, LTrim(k, start, end)).state == db
    ensures RunList(db, LRange(k, start, end)).Done? && RunList(db, LRange(k, 0, -1)).Done?
    ensures RunList(db, LRange(k, start, end)).reply == RunList(db, LRange(k, 0, -1)).reply
  {
    hide Ranges.RedisRange;
  }

  /** LRANGE answers with exactly the elements at the selected positions, in order, unless `end` is
      the largest integer, when it answers with none. */
  lemma RangeReply(db: DB, k: string, start: Int64, end: Int64, i: nat)
    requires Agree(db) && IsList(db, k) && |ListAt(db, k)| <= MAX_INT
    ensures
      var l := ListAt(db, k);
      var t := RunList(db, LRange(k, start, end)).reply;
      var first := if Ranges.Index(|l|, start) < 0 then 0 else Ranges.Index(|l|, start);
      && |t| >= 1 && t[0] == Len(|t| - 1)
      && (end != MAX_INT ==>
            (Ranges.Selected(|l|, start, end, first + i) <==> i + 1 < |t|) &&
            (i + 1 < |t| ==> first + i < |l| && t[i + 1] == Bulk(l[first + i])))
      && (end == MAX_INT ==> t == [Len(0)])
  {
    var l := ListAt(db, k);
    Ranges.RangeBounds(|l|, start, end, false);
    Ranges.WrapNext();
  }

  // ---------- SPOP and SRANDMEMBER ----------

  lemma {:induction false} PopMembersResult(db: DB, k: string, members: seq<string>)
    requires Agree(db) && Distinct(members) && Elems(members) <= SetAt(db, k)
    ensures SetAt(PopMembers(db, k, members), k) == SetAt(db, k) - Elems(members)
    ensures members != [] ==> (Exists(PopMembers(db, k, members), k) <==> SetAt(db, k) - Elems(members) != {})
    decreases |members|
  {
    if members != [] {
      var d := SetRem(db, k, [members[0]]);
      SetRemKeeps(db, k, [members[0]]);
      assert members[0] in Elems(members);
      SetRemResult(db, k, members[0]);
      assert Elems(members) == {members[0]} + Elems(members[1..]);
      forall i | 0 <= i < |members| - 1
        ensures members[1..][i] != members[0]
      {
        assert members[1..][i] == members[i + 1];
      }
      PopMembersResult(d, k, members[1..]);
    }
  }

  lemma SetRemResult(db: DB, k: string, x: string)
    requires Agree(db) && x in SetAt(db, k)
    ensures SetAt(SetRem(db, k, [x]), k) == SetAt(db, k) - {x}
    ensures Exists(SetRem(db, k, [x]), k) <==> SetAt(db, k) - {x} != {}
  {
    assert Elems([x]) == {x};
  }

  /** SPOP is exact for every random outcome: it hands out min(count, size) different members, which
      together with what stays make up the old set, and the key goes away when nothing stays. */
  lemma SPopExact(db: DB, k: string, number: Option<Int64>, choice: seq<string>)
    requires Agree(db) && IsSet(db, k) && ValidSetChoice(db, SPop(k, number), choice)
    ensures
      var s := SetAt(db, k);
      var o := RunSet(db, SPop(k, number), choice);
      var asked := if number.None? then 1 else number.value;
      && o.Done? && |choice| == Min(if asked < 0 then 0 else asked, |s|) && |Elems(choice)| == |choice|
      && SetAt(o.state, k) + Elems(choice) == s && SetAt(o.state, k) !! Elems(choice)
      && (choice != [] ==> (Exists(o.state, k) <==> SetAt(o.state, k) != {}))
      && (number.Some? ==> o.reply == [Len(|choice|)] + Bulks(choice))
      && (number.None? ==> o.reply == if s == {} then [Null] else [Bulk(choice[0])])
  {
    PicksFacts(choice, SetAt(db, k), if number.None? then 1 else number.value);
    SPopOutcome(db, k, number, choice);
    hide RunSet, Picks;
    PopMembersResult(db, k, choice);
  }

  lemma PicksFacts(choice: seq<string>, s: set<string>, number: int)
    requires Picks(choice, s, number)
    ensures |choice| == Min(if number < 0 then 0 else number, |s|) == |Elems(choice)| && Elems(choice) <= s
    ensures s == {} ==> choice == []
  {
    DistinctSize(choice);
  }

  lemma SPopOutcome(db: DB, k: string, number: Option<Int64>, choice: seq<string>)
    requires IsSet(db, k) && ValidSetChoice(db, SPop(k, number), choice)
    ensures Picks(choice, SetAt(db, k), if number.None? then 1 else number.value)
    ensures RunSet(db, SPop(k, number), choice) == Done(PopMembers(db, k, choice),
      if number.Some? then [Len(|choice|)] + Bulks(choice) else if choice == [] then [Null] else [Bulk(choice[0])])
  {
  }

  /** SRANDMEMBER with a count: it panics exactly for a negative count on an empty set, else it changes
      nothing and hands out members only: min(count, size) different ones if the count is not negative,
      -count ones, possibly repeated, if it is. The header it writes announces that number exactly
      when the count can be negated. */
  lemma SRandMemberExact(db: DB, k: string, number: Int64, choice: seq<string>)
    requires Agree(db) && IsSet(db, k) && ValidSetChoice(db, SRandMember(k, Some(number)), choice)
    ensures
      var s := SetAt(db, k);
      var o := RunSet(db, SRandMember(k, Some(number)), choice);
      && (o.Panic? <==> number < 0 && s == {})
      && (o.Done? ==>
            (o.state == db && Elems(choice) <= s &&
             (number >= 0 ==> |Elems(choice)| == |choice| == Min(number, |s|)) &&
             (number < 0 ==> |choice| == 0 - number) &&
             (o.reply == [Len(|choice|)] + Bulks(choice) <==> number != MIN_INT)))
  {
    if number >= 0 {
      DistinctSize(choice);
    } else if SetAt(db, k) != {} {
      Lists.WrapNegate(number);
      assert Wrap(0 - MIN_INT) == MIN_INT;
      assert ([Len(Wrap(0 - number))] + Bulks(choice))[0] == Len(Wrap(0 - number));
      assert ([Len(|choice|)] + Bulks(choice))[0] == Len(|choice|);
    }
  }

  /** SRANDMEMBER without a count: one member, or a panic exactly on an empty set. */
  lemma SRandMemberOne(db: DB, k: string, choice: seq<string>)
    requires Agree(db) && IsSet(db, k) && ValidSetChoice(db, SRandMember(k, None), choice)
    ensures
      var o := RunSet(db, SRandMember(k, None), choice);
      && (o.Panic? <==> SetAt(db, k) == {})
      && (o.Done? ==> o.state == db && exists m :: m in SetAt(db, k) && o.reply == [Bulk(m)])
  {
    if choice != [] {
      assert choice[0] in Elems(choice);
    }
  }

  // ---------- SDIFFSTORE, SINTERSTORE, SUNIONSTORE, SMOVE ----------

  /** A *STORE command leaves in its destination exactly the result over the old contents, also when
      the destination is one of the operands, replies with its size, and leaves every other key. */
  lemma StoreExact(db: DB, op: SetOp, dest: string, first: string, others: seq<string>)
    requires Agree(db)
    ensures
      var keys := [first] + others;
      var o := RunSet(db, SStore(op, dest, first, others), []);
      && o.Done?
      && (BadOperand(db, op, keys) ==> o == Done(db, [WRONG_TYPE]))
      && (!BadOperand(db, op, keys) ==>
            ((forall x :: x in SetAt(o.state, dest) <==> InResult(db, op, keys, x)) &&
             IsSet(o.state, dest) && o.reply == [Number(|SetAt(o.state, dest)|)] &&
             (forall j :: j != dest ==> Same(db, o.state, j))))
  {
    var keys := [first] + others;
    CombineMeaning(db, op, keys);
    if Combine(db, op, keys).Some? {
      StoreContents(db, dest, Combine(db, op, keys).value);
    }
  }

  lemma StoreContents(db: DB, dest: string, s: set<string>)
    requires Agree(db)
    ensures
      var r := SetSet(Del(db, dest), dest, s);
      SetAt(r, dest) == s && IsSet(r, dest) && forall j :: j != dest ==> Same(db, r, j)
  {
    var d := Del(db, dest);
    var r := SetSet(d, dest, s);
    forall j | j != dest
      ensures Same(db, r, j)
    {
      assert Same(db, d, j) && Same(d, r, j);
    }
  }

  /** SMOVE takes a member out of one set and puts it into another; members are neither lost nor
      made, also when both are the same set. */
  lemma SMoveExact(db: DB, src: string, dst: string, v: string)
    requires Agree(db) && IsSet(db, src) && !IsList(db, dst) && v in SetAt(db, src)
    ensures
      var o := RunSet(db, SMove(src, dst, v), []);
      && o.Done? && o.reply == [Number(1)] && v in SetAt(o.state, dst)
      && SetAt(o.state, src) + SetAt(o.state, dst) == SetAt(db, src) + SetAt(db, dst)
      && (src != dst ==> SetAt(o.state, src) == SetAt(db, src) - {v} && SetAt(o.state, dst) == SetAt(db, dst) + {v})
  {
    hide Agree, SetRem, SetAdd;
    SMoveOutcome(db, src, dst, v);
    SetRemResult(db, src, v);
    var d := SetRem(db, src, [v]);
    SetRemElsewhere(db, src, v, dst);
    SetAddResult(d, dst, v);
    SetAddElsewhere(d, dst, [v]);
    assert src != dst ==> Same(d, SetAdd(d, dst, [v]), src);
  }

  lemma SMoveOutcome(db: DB, src: string, dst: string, v: string)
    requires Agree(db) && IsSet(db, src) && !IsList(db, dst) && v in SetAt(db, src)
    ensures RunSet(db, SMove(src, dst, v), []) == Done(SetAdd(SetRem(db, src, [v]), dst, [v]), [Number(1)])
  {
  }

  lemma SetRemElsewhere(db: DB, k: string, x: string, j: string)
    ensures j != k ==> SetAt(SetRem(db, k, [x]), j) == SetAt(db, j)
  {
  }

  lemma SetAddResult(db: DB, k: string, x: string)
    ensures SetAt(SetAdd(db, k, [x]), k) == SetAt(db, k) + {x}
  {
    assert Elems([x]) == {x};
  }

  /** RENAME replaces what was under the new name and keeps the value. */
  lemma {:induction false} RenameExact(db: DB, from: string, to: string)
    requires Agree(db) && Exists(db, from)
    ensures
      var o := RunKey(db, RenameTo(from, to), []);
      (o.Panic? <==> from == to) &&
      (o.Done? ==>
        (o.reply == [OK] && !Exists(o.state, from) && IsList(o.state, to) == IsList(db, from) &&
         ListAt(o.state, to) == ListAt(db, from) && SetAt(o.state, to) == SetAt(db, from)))
  {
    RenameKeeps(db, from, to);
    if from != to {
      RenameMoves(db, from, to);
    }
  }
}
