/** Every command callback on the heap, with all its answers: each does to the arrays and tables what
    `Commands` says, and draws its random outcomes as `ValidSetChoice` and `ValidKeyChoice` allow. */
module HeapCallbacks {
  import opened Base
  import opened Store
  import opened Resp
  import opened Regexp
  import opened Glob
  import opened Commands
  import opened CommandLaws
  import opened Heap
  import opened HeapCommands
  import Ranges

  // ---------- Looking at a database ----------

  method TypeOf(db: RedisDB, k: string) returns (t: Option<Tag>)
    requires db.Valid()
    ensures t == if Exists(db.Contents, k) then Some(db.Contents.keys[k]) else None
  {
    t := if k in db.keys then Some(db.keys[k]) else None;
  }

  lemma ListThere(db: RedisDB, k: string)
    requires db.Valid() && Agree(db.Contents) && IsList(db.Contents, k)
    ensures db.HasList(k) && db.listKeys[k].InBounds() && db.listKeys[k].View() == ListAt(db.Contents, k) != []
  {
  }

  method ListContents(db: RedisDB, k: string) returns (l: seq<string>)
    requires db.Valid() && Agree(db.Contents) && IsList(db.Contents, k)
    ensures l == ListAt(db.Contents, k)
  {
    ListThere(db, k);
    l := db.listKeys[k].View();
  }

  method SetContents(db: RedisDB, k: string) returns (s: set<string>)
    requires db.Valid()
    ensures s == SetAt(db.Contents, k)
  {
    s := if k in db.setKeys then db.setKeys[k].members else {};
  }

  // ---------- Lists ----------

  method RunListCallback(db: RedisDB, c: ListCmd) returns (reply: seq<Tok>)
    requires db.Valid() && Agree(db.Contents)
    modifies db, db.Owner.Keys
    ensures db.Valid() && fresh(db.Owner.Keys - old(db.Owner.Keys))
    ensures RunList(old(db.Contents), c) == Done(db.Contents, reply)
  {
    hide RedisDB.Valid, RedisDB.Separate;
    hide PushOnto, InsertInto, RemoveFrom, SetElement, TrimTo, Rotate, PopOne, Agree;
    if c.RPopLPush? {
      reply := RPopLPushCallback(db, c.src, c.dst);
      return;
    }
    var t := TypeOf(db, c.key);
    match t {
      case None => reply := ListMissing(db, c);
      case Some(SetTag) => reply := [WRONG_TYPE];
      case Some(ListTag) => reply := ListPresent(db, c);
    }
  }

  method ListMissing(db: RedisDB, c: ListCmd) returns (reply: seq<Tok>)
    requires db.Valid() && Agree(db.Contents) && !c.RPopLPush? && !Exists(db.Contents, c.key)
    modifies db, db.Owner.Keys
    ensures db.Valid() && fresh(db.Owner.Keys - old(db.Owner.Keys))
    ensures RunList(old(db.Contents), c) == Done(db.Contents, reply)
  {
    hide RedisDB.Valid, RedisDB.Separate, PushOnto;
    match c {
      case LIndex(_, _) => reply := [Null];
      case LInsert(_, _, _, _) => reply := [Number(0)];
      case LLen(_) => reply := [Number(0)];
      case Pop(_, _) => reply := [Null];
      case Push(k, values, side) => reply := PushCmd(db, k, values, side);
      case PushX(_, _, _) => reply := [Number(0)];
      case LRange(_, _, _) => reply := [Len(0)];
      case LRem(_, _, _) => reply := [Number(0)];
      case LSet(_, _, _) => reply := [NO_KEY];
      case LTrim(_, _, _) => reply := [OK];
    }
  }

  method ListPresent(db: RedisDB, c: ListCmd) returns (reply: seq<Tok>)
    requires db.Valid() && Agree(db.Contents) && !c.RPopLPush? && IsList(db.Contents, c.key)
    modifies db, db.Owner.Keys
    ensures db.Valid() && fresh(db.Owner.Keys - old(db.Owner.Keys))
    ensures RunList(old(db.Contents), c) == Done(db.Contents, reply)
  {
    hide RedisDB.Valid, RedisDB.Separate, PushOnto, InsertInto, RemoveFrom, SetElement, TrimTo;
    ListThere(db, c.key);
    match c {
      case LIndex(k, offset) => reply := LIndexCmd(db, k, offset);
      case LInsert(k, before, pivot, value) => reply := LInsertCmd(db, k, before, pivot, value);
      case LLen(k) => reply := [Number(db.listKeys[k].len)];
      case Pop(k, side) => reply := PopCmd(db, k, side);
      case Push(k, values, side) => reply := PushCmd(db, k, values, side);
      case PushX(k, values, side) => reply := PushCmd(db, k, values, side);
      case LRange(k, start, end) => reply := LRangeCmd(db, k, start, end);
      case LRem(k, count, value) => reply := LRemCmd(db, k, count, value);
      case LSet(k, index, value) => reply := LSetCmd(db, k, index, value);
      case LTrim(k, start, end) => reply := LTrimCmd(db, k, start, end);
    }
  }

  method LIndexCmd(db: RedisDB, k: string, offset: Int64) returns (reply: seq<Tok>)
    requires db.Valid() && Agree(db.Contents) && IsList(db.Contents, k)
    ensures RunList(db.Contents, LIndex(k, offset)) == Done(db.Contents, reply)
  {
    hide RedisDB.Valid, RedisDB.Separate;
    var l := ListContents(db, k);
    var i: int := offset;
    if i < 0 {
      i := |l| + i;
    }
    reply := if i < 0 || i > |l| - 1 then [Null] else [Bulk(l[i])];
  }

  method PopCmd(db: RedisDB, k: string, side: Side) returns (reply: seq<Tok>)
    requires db.Valid() && Agree(db.Contents) && IsList(db.Contents, k)
    modifies db
    ensures db.Valid() && db.Owner.Keys <= old(db.Owner.Keys)
    ensures RunList(old(db.Contents), Pop(k, side)) == Done(db.Contents, reply)
  {
    hide RedisDB.Valid, RedisDB.Separate;
    ListThere(db, k);
    var v;
    match side {
      case Left => v := db.ListLpop(k);
      case Right => v := db.ListPop(k);
    }
    reply := [Bulk(v)];
  }

  method LRangeCmd(db: RedisDB, k: string, start: Int64, end: Int64) returns (reply: seq<Tok>)
    requires db.Valid() && Agree(db.Contents) && IsList(db.Contents, k)
    ensures RunList(db.Contents, LRange(k, start, end)) == Done(db.Contents, reply)
  {
    hide RedisDB.Valid, RedisDB.Separate;
    ListThere(db, k);
    var l := ListContents(db, k);
    var (rs, re) := Ranges.RedisRange(|l|, start, end, false);
    Ranges.RangeBounds(|l|, start, end, false);
    reply := [Len(re - rs)] + Bulks(l[rs..re]);
  }

  /** RPOPLPUSH. */
  method RPopLPushCallback(db: RedisDB, src: string, dst: string) returns (reply: seq<Tok>)
    requires db.Valid() && Agree(db.Contents)
    modifies db
    ensures db.Valid() && fresh(db.Owner.Keys - old(db.Owner.Keys))
    ensures RunList(old(db.Contents), RPopLPush(src, dst)) == Done(db.Contents, reply)
  {
    hide RedisDB.Valid, RedisDB.Separate, Rotate;
    var s := TypeOf(db, src);
    if s == None {
      return [Null];
    }
    var d := TypeOf(db, dst);
    if s != Some(ListTag) || d == Some(SetTag) {
      return [WRONG_TYPE];
    }
    ListThere(db, src);
    reply := RPopLPushCmd(db, src, dst);
  }

  /** The callbacks of the blocking commands. */
  method RunTryCallback(db: RedisDB, b: BlockCmd) returns (done: bool, reply: seq<Tok>)
    requires db.Valid() && Agree(db.Contents)
    modifies db
    ensures db.Valid() && fresh(db.Owner.Keys - old(db.Owner.Keys))
    ensures done <==> RunTry(old(db.Contents), b).Some?
    ensures done ==> RunTry(old(db.Contents), b) == Some(Done(db.Contents, reply))
    ensures !done ==> db.Contents == old(db.Contents)
  {
    hide RedisDB.Valid, RedisDB.Separate, Rotate;
    match b {
      case BPop(keys, side) => done, reply := BPopCallback(db, keys, side);
      case BRPopLPush(src, dst) =>
        var s := TypeOf(db, src);
        if s == None {
          return false, [];
        }
        var d := TypeOf(db, dst);
        if s != Some(ListTag) || d == Some(SetTag) {
          return true, [WRONG_TYPE];
        }
        ListThere(db, src);
        done := true;
        reply := RPopLPushCmd(db, src, dst);
    }
  }

  // ---------- Sets ----------

  method RunSetCallback(db: RedisDB, c: SetCmd) returns (crashed: bool, reply: seq<Tok>, choice: seq<string>)
    requires db.Valid() && Agree(db.Contents)
    modifies db, db.Owner.Keys
    ensures db.Valid() && fresh(db.Owner.Keys - old(db.Owner.Keys))
    ensures ValidSetChoice(old(db.Contents), c, choice)
    ensures RunSet(old(db.Contents), c, choice) == if crashed then Panic else Done(db.Contents, reply)
  {
    hide RedisDB.Valid, RedisDB.Separate, RunSet, ValidSetChoice;
    crashed, choice := false, [];
    match c {
      case SAdd(k, elems) => reply := SAddCallback(db, k, elems);
      case SCard(k) => reply := SCardCallback(db, k);
      case SAlgebra(op, first, others) => reply, choice := AlgebraCallback(db, op, first, others);
      case SStore(op, dest, first, others) =>
        StoreNeedsNoChoice(db.Contents, c);
        reply := StoreCmd(db, op, dest, first, others);
      case SIsMember(k, member) => reply := SIsMemberCallback(db, k, member);
      case SMembers(k) => reply, choice := SMembersCallback(db, k);
      case SMove(src, dst, member) => reply := SMoveCallback(db, src, dst, member);
      case SPop(k, number) => reply, choice := SPopCallback(db, k, number);
      case SPopBadArgs => reply := BadArgsCallback(db);
      case SRandMember(k, number) => crashed, reply, choice := SRandMemberCallback(db, k, number);
      case SRem(k, fields) => reply := SRemCallback(db, k, fields);
      case SScan(k, cursor, matching) => crashed, reply, choice := SScanCallback(db, k, cursor, matching);
    }
  }

  lemma StoreNeedsNoChoice(db: DB, c: SetCmd)
    requires c.SStore?
    ensures ValidSetChoice(db, c, [])
  {
  }

  method SAddCallback(db: RedisDB, k: string, elems: seq<string>) returns (reply: seq<Tok>)
    requires db.Valid() && Agree(db.Contents)
    modifies db, db.Owner.Keys
    ensures db.Valid() && fresh(db.Owner.Keys - old(db.Owner.Keys))
    ensures ValidSetChoice(old(db.Contents), SAdd(k, elems), [])
    ensures RunSet(old(db.Contents), SAdd(k, elems), []) == Done(db.Contents, reply)
  {
    hide RedisDB.Valid, RedisDB.Separate, Store.SetAdd;
    var t := TypeOf(db, k);
    if t == Some(ListTag) {
      return [WRONG_TYPE];
    }
    var added := db.SetAdd(k, elems);
    reply := [Number(added)];
  }

  method SCardCallback(db: RedisDB, k: string) returns (reply: seq<Tok>)
    requires db.Valid()
    ensures ValidSetChoice(db.Contents, SCard(k), []) && RunSet(db.Contents, SCard(k), []) == Done(db.Contents, reply)
  {
    hide RedisDB.Valid, RedisDB.Separate;
    var t := TypeOf(db, k);
    var s := SetContents(db, k);
    reply := if t == None then [Number(0)] else if t == Some(ListTag) then [WRONG_TYPE] else [Number(|s|)];
  }

  /** SDIFF, SINTER and SUNION. */
  method AlgebraCallback(db: RedisDB, op: SetOp, first: string, others: seq<string>)
    returns (reply: seq<Tok>, choice: seq<string>)
    requires db.Valid() && Agree(db.Contents)
    ensures ValidSetChoice(db.Contents, SAlgebra(op, first, others), choice)
    ensures RunSet(db.Contents, SAlgebra(op, first, others), choice) == Done(db.Contents, reply)
  {
    hide RedisDB.Valid, RedisDB.Separate, Store.Combine;
    var r := db.Combine(op, [first] + others);
    if r.None? {
      return [WRONG_TYPE], [];
    }
    choice := SetListing(r.value.members);
    reply := [Len(|choice|)] + Bulks(choice);
  }

  method SIsMemberCallback(db: RedisDB, k: string, member: string) returns (reply: seq<Tok>)
    requires db.Valid()
    ensures ValidSetChoice(db.Contents, SIsMember(k, member), [])
    ensures RunSet(db.Contents, SIsMember(k, member), []) == Done(db.Contents, reply)
  {
    hide RedisDB.Valid, RedisDB.Separate;
    var t := TypeOf(db, k);
    var s := SetContents(db, k);
    reply := if t == None then [Number(0)] else if t == Some(ListTag) then [WRONG_TYPE]
      else [Number(if member in s then 1 else 0)];
  }

  method SMembersCallback(db: RedisDB, k: string) returns (reply: seq<Tok>, choice: seq<string>)
    requires db.Valid() && Agree(db.Contents)
    ensures ValidSetChoice(db.Contents, SMembers(k), choice)
    ensures RunSet(db.Contents, SMembers(k), choice) == Done(db.Contents, reply)
  {
    hide RedisDB.Valid, RedisDB.Separate;
    var t := TypeOf(db, k);
    var s := SetContents(db, k);
    choice := SetListing(s);
    reply := if t == None then [Len(0)] else if t == Some(ListTag) then [WRONG_TYPE]
      else [Len(|choice|)] + Bulks(choice);
  }

  method SMoveCallback(db: RedisDB, src: string, dst: string, member: string) returns (reply: seq<Tok>)
    requires db.Valid() && Agree(db.Contents)
    modifies db, db.Owner.Keys
    ensures db.Valid() && fresh(db.Owner.Keys - old(db.Owner.Keys))
    ensures ValidSetChoice(old(db.Contents), SMove(src, dst, member), [])
    ensures RunSet(old(db.Contents), SMove(src, dst, member), []) == Done(db.Contents, reply)
  {
    hide RedisDB.Valid, RedisDB.Separate, MoveMember;
    var s := TypeOf(db, src);
    if s == None {
      return [Number(0)];
    }
    if s != Some(SetTag) {
      return [WRONG_TYPE];
    }
    var d := TypeOf(db, dst);
    if d == Some(ListTag) {
      return [WRONG_TYPE];
    }
    var members := SetContents(db, src);
    if member !in members {
      return [Number(0)];
    }
    reply := SMoveCmd(db, src, dst, member);
  }

  method SPopCallback(db: RedisDB, k: string, number: Option<Int64>) returns (reply: seq<Tok>, choice: seq<string>)
    requires db.Valid() && Agree(db.Contents)
    modifies db, db.Owner.Keys
    ensures db.Valid() && fresh(db.Owner.Keys - old(db.Owner.Keys))
    ensures ValidSetChoice(old(db.Contents), SPop(k, number), choice)
    ensures RunSet(old(db.Contents), SPop(k, number), choice) == Done(db.Contents, reply)
  {
    hide RedisDB.Valid, RedisDB.Separate, PopMembers;
    var t := TypeOf(db, k);
    if t == Some(SetTag) {
      choice, reply := SPopCmd(db, k, number);
      return;
    }
    var s := SetContents(db, k);
    choice := FirstMembers(s, if number.None? then 1 else number.value);
    reply := if t == Some(ListTag) then [WRONG_TYPE] else if number.None? then [Null] else [Len(0)];
  }

  /** Some members, for a choice that the callback does not look at. */
  method FirstMembers(s: set<string>, number: int) returns (choice: seq<string>)
    ensures Picks(choice, s, number)
  {
    var all := SetListing(s);
    choice := all[..Min(if number < 0 then 0 else number, |s|)];
  }

  method BadArgsCallback(db: RedisDB) returns (reply: seq<Tok>)
    ensures ValidSetChoice(db.Contents, SPopBadArgs, [])
    ensures RunSet(db.Contents, SPopBadArgs, []) == Done(db.Contents, reply)
  {
    reply := [INVALID_INT];
  }

  method SRemCallback(db: RedisDB, k: string, fields: seq<string>) returns (reply: seq<Tok>)
    requires db.Valid() && Agree(db.Contents)
    modifies db, db.Owner.Keys
    ensures db.Valid() && fresh(db.Owner.Keys - old(db.Owner.Keys))
    ensures ValidSetChoice(old(db.Contents), SRem(k, fields), [])
    ensures RunSet(old(db.Contents), SRem(k, fields), []) == Done(db.Contents, reply)
  {
    hide RedisDB.Valid, RedisDB.Separate, Store.SetRem;
    var t := TypeOf(db, k);
    if t == None {
      return [Number(0)];
    }
    if t == Some(ListTag) {
      return [WRONG_TYPE];
    }
    var removed := db.SetRem(k, fields);
    reply := [Number(removed)];
  }

  method SRandMemberCallback(db: RedisDB, k: string, number: Option<Int64>)
    returns (crashed: bool, reply: seq<Tok>, choice: seq<string>)
    requires db.Valid() && Agree(db.Contents)
    ensures ValidSetChoice(db.Contents, SRandMember(k, number), choice)
    ensures RunSet(db.Contents, SRandMember(k, number), choice) ==
      if crashed then Panic else Done(db.Contents, reply)
  {
    hide RedisDB.Valid, RedisDB.Separate;
    var t := TypeOf(db, k);
    var s := SetContents(db, k);
    crashed := false;
    if number.Some? && number.value < 0 {
      choice := RepeatedMembers(s, 0 - number.value);
    } else {
      choice := RandMembers(s, if number.None? then 1 else number.value);
    }
    if t == None {
      reply := [Null];
    } else if t == Some(ListTag) {
      reply := [WRONG_TYPE];
    } else if s == {} && (number.None? || number.value < 0) {
      crashed, reply := true, [];
    } else if number.None? {
      reply := [Bulk(choice[0])];
    } else {
      reply := [Len(if number.value < 0 then Wrap(0 - number.value) else |choice|)] + Bulks(choice);
    }
  }

  /** The loop for a negative count: members with repetition. */
  method RepeatedMembers(s: set<string>, n: nat) returns (choice: seq<string>)
    ensures s != {} ==> |choice| == n && Elems(choice) <= s
  {
    choice := [];
    if s == {} {
      return;
    }
    while |choice| < n
      invariant |choice| <= n && Elems(choice) <= s
    {
      var m :| m in s;
      assert Elems(choice + [m]) == Elems(choice) + {m};
      choice := choice + [m];
    }
  }

  method SScanCallback(db: RedisDB, k: string, cursor: Int64, matching: Option<Pattern>)
    returns (crashed: bool, reply: seq<Tok>, choice: seq<string>)
    requires db.Valid() && Agree(db.Contents)
    ensures ValidSetChoice(db.Contents, SScan(k, cursor, matching), choice)
    ensures RunSet(db.Contents, SScan(k, cursor, matching), choice) ==
      if crashed then Panic else Done(db.Contents, reply)
  {
    hide RedisDB.Valid, RedisDB.Separate, Listed, MatchPanics;
    crashed, choice := false, [];
    if cursor != 0 {
      reply := [Len(2), Bulk("0"), Len(0)];
      return;
    }
    var t := TypeOf(db, k);
    var s := SetContents(db, k);
    var panics;
    panics, choice := Select(s, matching);
    if t == Some(ListTag) {
      reply := [WRONG_TYPE];
    } else if panics {
      crashed, reply := true, [];
    } else {
      reply := [Len(2), Bulk("0"), Len(|choice|)] + Bulks(choice);
    }
  }

  /** A listing of the names that a pattern selects; what `Regexp` does not decide may be anything. */
  method Select(names: set<string>, matching: Option<Pattern>) returns (panics: bool, choice: seq<string>)
    ensures Listed(choice, names, matching) && (panics <==> MatchPanics(matching))
  {
    var listing := SetListing(names);
    if matching.None? {
      return false, listing;
    }
    var p := matching.value;
    var selected := MatchKeys(listing, p.text);
    match selected {
      case Refused => panics, choice := true, [];
      case Beyond =>
        panics, choice := p.refusedBeyond && Compiled(p.text).Beyond?, [];
        if Compiled(p.text).Read? {
          choice := DecidedNames(listing, p);
        }
      case Read(found) =>
        FilteredListing(listing, Compiled(p.text).value);
        panics, choice := false, found;
    }
    assert Elems(listing) == names;
  }

  /** Among names outside ASCII the selection is open: here it is the decided ones. */
  method DecidedNames(listing: seq<string>, p: Pattern) returns (choice: seq<string>)
    requires Compiled(p.text).Read? && Distinct(listing)
    ensures Listed(choice, Elems(listing), Some(p))
  {
    choice := Filtered(listing, Compiled(p.text).value);
    FilteredListing(listing, Compiled(p.text).value);
  }

  lemma {:induction false} FilteredListing(names: seq<string>, re: Option<seq<Item>>)
    requires Distinct(names)
    ensures Distinct(Filtered(names, re)) && forall k :: k in Filtered(names, re) <==> k in names && Hit(re, k)
  {
    if names != [] {
      FilteredListing(names[1..], re);
      assert names == [names[0]] + names[1..];
      assert names[0] !in names[1..];
    }
  }

  // ---------- Keys ----------

  method RunKeyCallback(db: RedisDB, c: KeyCmd) returns (crashed: bool, reply: seq<Tok>, choice: seq<string>)
    requires db.Valid() && Agree(db.Contents)
    modifies db
    ensures db.Valid() && db.Owner.Keys <= old(db.Owner.Keys)
    ensures ValidKeyChoice(old(db.Contents), c, choice)
    ensures RunKey(old(db.Contents), c, choice) == if crashed then Panic else Done(db.Contents, reply)
  {
    hide RedisDB.Valid, RedisDB.Separate, DelAll, DelCount, CountExisting, Listed, CompilePanics, Rename;
    crashed, choice := false, [];
    match c {
      case Delete(keys) => reply := DelCmd(db, keys);
      case Type(k) =>
        var t := TypeOf(db, k);
        reply := [Inline(if t == None then "none" else if t == Some(ListTag) then "list" else "set")];
      case ExistsAny(keys) =>
        var n := ExistsCount(db, keys);
        reply := [Number(n)];
      case Keys(pattern) =>
        var names := KeyNames(db);
        crashed, choice := Select(names, Some(pattern));
        reply := if crashed then [] else [Len(|choice|)] + Bulks(choice);
      case RandomKey =>
        var names := KeyNames(db);
        choice := RandMembers(names, 1);
        OnePick(db.Contents, choice);
        reply := if choice == [] then [Null] else [Bulk(choice[0])];
      case RenameTo(from, to) => crashed, reply := RenameCallback(db, from, to);
      case RenameNx(from, to) => reply := RenameNxCallback(db, from, to);
      case ScanAllKeys(cursor, matching) => crashed, reply, choice := ScanCallback(db, cursor, matching);
      case DbSize =>
        var names := KeyNames(db);
        SizeOfKeys(db.Contents);
        reply := [Number(|names|)];
      case FlushDb =>
        db.FlushDb();
        reply := [OK];
      case Ok => reply := [OK];
    }
  }

  /** The names of all keys, as `allKeys` collects them. */
  method KeyNames(db: RedisDB) returns (names: set<string>)
    requires db.Valid()
    ensures names == db.Contents.keys.Keys
  {
    names := db.keys.Keys;
  }

  lemma SizeOfKeys(db: DB)
    ensures |db.keys.Keys| == |db.keys|
  {
  }

  lemma OnePick(db: DB, choice: seq<string>)
    requires Picks(choice, db.keys.Keys, 1)
    ensures ValidKeyChoice(db, RandomKey, choice)
  {
    if db.keys == map[] {
      assert db.keys.Keys == {};
    } else {
      assert |db.keys.Keys| >= 1 by {
        var k :| k in db.keys;
        assert k in db.keys.Keys;
      }
      assert choice[0] in Elems(choice);
    }
  }

  /** EXISTS counts repeated names again. */
  method ExistsCount(db: RedisDB, keys: seq<string>) returns (n: nat)
    requires db.Valid()
    ensures n == CountExisting(db.Contents, keys)
  {
    hide RedisDB.Valid, RedisDB.Separate;
    n := 0;
    var i := 0;
    while i < |keys|
      invariant i <= |keys| && n + CountExisting(db.Contents, keys[i..]) == CountExisting(db.Contents, keys)
    {
      assert keys[i..][0] == keys[i] && keys[i..][1..] == keys[i + 1..];
      var t := TypeOf(db, keys[i]);
      if t.Some? {
        n := n + 1;
      }
      i := i + 1;
    }
  }

  method RenameCallback(db: RedisDB, from: string, to: string) returns (crashed: bool, reply: seq<Tok>)
    requires db.Valid() && Agree(db.Contents)
    modifies db
    ensures db.Valid() && db.Owner.Keys == old(db.Owner.Keys)
    ensures RunKey(old(db.Contents), RenameTo(from, to), []) == if crashed then Panic else Done(db.Contents, reply)
  {
    hide RedisDB.Valid, RedisDB.Separate, Rename;
    var t := TypeOf(db, from);
    if t == None {
      return false, [NO_KEY];
    }
    RenameKeeps(db.Contents, from, to);
    if from == to {
      return true, [];
    }
    db.RenameKey(from, to);
    crashed, reply := false, [OK];
  }

  method RenameNxCallback(db: RedisDB, from: string, to: string) returns (reply: seq<Tok>)
    requires db.Valid() && Agree(db.Contents)
    modifies db
    ensures db.Valid() && db.Owner.Keys == old(db.Owner.Keys)
    ensures RunKey(old(db.Contents), RenameNx(from, to), []) == Done(db.Contents, reply)
  {
    hide RedisDB.Valid, RedisDB.Separate, Rename;
    var t := TypeOf(db, from);
    if t == None {
      return [NO_KEY];
    }
    var taken := TypeOf(db, to);
    if taken.Some? {
      return [Number(0)];
    }
    RenameKeeps(db.Contents, from, to);
    db.RenameKey(from, to);
    reply := [Number(1)];
  }

  method ScanCallback(db: RedisDB, cursor: Int64, matching: Option<Pattern>)
    returns (crashed: bool, reply: seq<Tok>, choice: seq<string>)
    requires db.Valid()
    ensures ValidKeyChoice(db.Contents, ScanAllKeys(cursor, matching), choice)
    ensures RunKey(db.Contents, ScanAllKeys(cursor, matching), choice) ==
      if crashed then Panic else Done(db.Contents, reply)
  {
    hide RedisDB.Valid, RedisDB.Separate, Listed, MatchPanics;
    if cursor != 0 {
      return false, [Len(2), Bulk("0"), Len(0)], [];
    }
    var names := KeyNames(db);
    crashed, choice := Select(names, matching);
    reply := if crashed then [] else [Len(2), Bulk("0"), Len(|choice|)] + Bulks(choice);
  }
}
