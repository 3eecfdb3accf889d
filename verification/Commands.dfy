/** The command callbacks of cmd_list.go, cmd_set.go, cmd_generic.go and cmd_server.go: what one
    callback does to the databases and which writer calls it makes. */
module Commands {
  import opened Base
  import opened Store
  import opened Resp
  import opened Glob
  import Ranges
  import Lists

  datatype Side = Left | Right

  /** The callbacks handed to `blocking`. */
  datatype BlockCmd =
    | BPop(keys: seq<string>, side: Side)         // BLPOP, BRPOP
    | BRPopLPush(src: string, dst: string)

  datatype ListCmd =
    | LIndex(key: string, offset: Int64)
    | LInsert(key: string, before: bool, pivot: string, value: string)
    | LLen(key: string)
    | Pop(key: string, side: Side)
    | Push(key: string, values: seq<string>, side: Side)
    | PushX(key: string, values: seq<string>, side: Side)
    | LRange(key: string, start: Int64, end: Int64)
    | LRem(key: string, count: Int64, value: string)
    | LSet(key: string, index: Int64, value: string)
    | LTrim(key: string, start: Int64, end: Int64)
    | RPopLPush(src: string, dst: string)

  datatype SetCmd =
    | SAdd(key: string, elems: seq<string>)
    | SCard(key: string)
    | SAlgebra(op: SetOp, first: string, others: seq<string>)  // SDIFF, SINTER, SUNION
    | SStore(op: SetOp, dest: string, first: string, others: seq<string>)  // SDIFFSTORE, SINTERSTORE, SUNIONSTORE
    | SIsMember(key: string, member: string)
    | SMembers(key: string)
    | SMove(src: string, dst: string, member: string)
    | SPop(key: string, number: Option<Int64>)
    | SPopBadArgs                                            // argument errors found in the callback
    | SRandMember(key: string, number: Option<Int64>)
    | SRem(key: string, fields: seq<string>)
    | SScan(key: string, cursor: Int64, matching: Option<Pattern>)

  datatype KeyCmd =
    | Delete(keys: seq<string>)
    | Type(key: string)
    | ExistsAny(keys: seq<string>)
    | Keys(pattern: Pattern)
    | RandomKey
    | RenameTo(from: string, to: string)
    | RenameNx(from: string, to: string)
    | ScanAllKeys(cursor: Int64, matching: Option<Pattern>)
    | DbSize
    | FlushDb
    | Ok                                                     // the callback of UNWATCH

  datatype Cmd =
    | L(list: ListCmd)
    | S(sets: SetCmd)
    | K(generic: KeyCmd)
    | Try(block: BlockCmd)                                   // a queued blocking command
    | MoveTo(key: string, target: Int64)
    | FlushAll

  /** The result of a callback: new contents and writer calls, or a Go panic. */
  datatype Outcome<+T> = Done(state: T, reply: seq<Tok>) | Panic

  const WRONG_TYPE: Tok := Error("WRONGTYPE Operation against a key " + "holding the wrong kind of value")
  const NO_KEY: Tok := Error("ERR no such key")
  const OUT_OF_RANGE: Tok := Error("ERR index out of range")
  const INVALID_INT: Tok := Error("ERR value is not an integer " + "or out of range")
  const SAME_DB: Tok := Error("ERR source and destination " + "objects are the same")
  const OK: Tok := Inline("OK")

  // ---------- cmd_list.go ----------

  function PushOne(db: DB, k: string, v: string, side: Side): (r: DB) {
    if side.Left? then ListLpush(db, k, v) else ListPush(db, k, [v])
  }

  function PushAll(db: DB, k: string, values: seq<string>, side: Side): (r: DB)
    decreases |values|
  {
    if values == [] then db else PushAll(PushOne(db, k, values[0], side), k, values[1..], side)
  }

  /** The length the push loop reports: zero if it never ran. */
  function NewLen(db: DB, k: string, values: seq<string>, side: Side): (n: nat) {
    if values == [] then 0 else |ListAt(PushAll(db, k, values, side), k)|
  }

  function PopOne(db: DB, k: string, side: Side): (r: DB)
    requires ListAt(db, k) != []
  {
    if side.Left? then ListLpop(db, k) else ListPop(db, k)
  }

  function PopValue(l: seq<string>, side: Side): (v: string)
    requires l != []
  {
    if side.Left? then l[0] else l[|l| - 1]
  }

  // The working parts of the callbacks, once the key is known to hold a list.

  function PushOnto(db: DB, k: string, values: seq<string>, side: Side): (r: Outcome<DB>) {
    Done(PushAll(db, k, values, side), [Number(NewLen(db, k, values, side))])
  }

  function InsertInto(db: DB, k: string, before: bool, pivot: string, value: string): (r: Outcome<DB>) {
    var l := ListAt(db, k);
    var i := Lists.FirstIndex(l, pivot);
    if i == |l| then Done(db, [Number(-1)])
    else Done(PutList(db, k, Lists.InsertAt(l, if before then i else i + 1, value)), [Number(|l| + 1)])
  }

  function RemoveFrom(db: DB, k: string, count: Int64, value: string): (r: Outcome<DB>) {
    var l := Lists.LRem(ListAt(db, k), value, count);
    Done(Shrink(db, k, l), [Number(|ListAt(db, k)| - |l|)])
  }

  function SetElement(db: DB, k: string, index: Int64, value: string): (r: Outcome<DB>) {
    var i := Ranges.Index(|ListAt(db, k)|, index);
    if 0 <= i < |ListAt(db, k)| then Done(PutList(db, k, ListAt(db, k)[i := value]), [OK])
    else Done(db, [OUT_OF_RANGE])
  }

  function TrimTo(db: DB, k: string, start: Int64, end: Int64): (r: Outcome<DB>) {
    var (rs, re) := Ranges.RedisRange(|ListAt(db, k)|, start, end, false);
    Ranges.RangeBounds(|ListAt(db, k)|, start, end, false);
    Done(Shrink(db, k, ListAt(db, k)[rs..re]), [OK])
  }

  function Rotate(db: DB, src: string, dst: string): (r: Outcome<DB>)
    requires ListAt(db, src) != []
  {
    var v := PopValue(ListAt(db, src), Right);
    Done(ListLpush(ListPop(db, src), dst, v), [Bulk(v)])
  }

  function RunList(db: DB, c: ListCmd): (r: Outcome<DB>) {
    match c
    case LIndex(k, offset) =>
      if !Exists(db, k) then Done(db, [Null])
      else if !IsList(db, k) then Done(db, [WRONG_TYPE])
      else
        var i := Ranges.Index(|ListAt(db, k)|, offset);
        if 0 <= i < |ListAt(db, k)| then Done(db, [Bulk(ListAt(db, k)[i])]) else Done(db, [Null])
    case LInsert(k, before, pivot, value) =>
      if !Exists(db, k) then Done(db, [Number(0)])
      else if !IsList(db, k) then Done(db, [WRONG_TYPE])
      else InsertInto(db, k, before, pivot, value)
    case LLen(k) =>
      if !Exists(db, k) then Done(db, [Number(0)])
      else if !IsList(db, k) then Done(db, [WRONG_TYPE])
      else Done(db, [Number(|ListAt(db, k)|)])
    case Pop(k, side) =>
      if !Exists(db, k) then Done(db, [Null])
      else if !IsList(db, k) then Done(db, [WRONG_TYPE])
      else if ListAt(db, k) == [] then Panic
      else Done(PopOne(db, k, side), [Bulk(PopValue(ListAt(db, k), side))])
    case Push(k, values, side) =>
      if Exists(db, k) && !IsList(db, k) then Done(db, [WRONG_TYPE])
      else PushOnto(db, k, values, side)
    case PushX(k, values, side) =>
      if !Exists(db, k) then Done(db, [Number(0)])
      else if !IsList(db, k) then Done(db, [WRONG_TYPE])
      else PushOnto(db, k, values, side)
    case LRange(k, start, end) =>
      if Exists(db, k) && !IsList(db, k) then Done(db, [WRONG_TYPE])
      else if ListAt(db, k) == [] then Done(db, [Len(0)])
      else
        var (rs, re) := Ranges.RedisRange(|ListAt(db, k)|, start, end, false);
        Ranges.RangeBounds(|ListAt(db, k)|, start, end, false);
        Done(db, [Len(re - rs)] + Bulks(ListAt(db, k)[rs..re]))
    case LRem(k, count, value) =>
      if !Exists(db, k) then Done(db, [Number(0)])
      else if !IsList(db, k) then Done(db, [WRONG_TYPE])
      else RemoveFrom(db, k, count, value)
    case LSet(k, index, value) =>
      if !Exists(db, k) then Done(db, [NO_KEY])
      else if !IsList(db, k) then Done(db, [WRONG_TYPE])
      else SetElement(db, k, index, value)
    case LTrim(k, start, end) =>
      if !Exists(db, k) then Done(db, [OK])
      else if !IsList(db, k) then Done(db, [WRONG_TYPE])
      else TrimTo(db, k, start, end)
    case RPopLPush(src, dst) =>
      if !Exists(db, src) then Done(db, [Null])
      else if !IsList(db, src) || (Exists(db, dst) && !IsList(db, dst)) then Done(db, [WRONG_TYPE])
      else if ListAt(db, src) == [] then Panic
      else Rotate(db, src, dst)
  }

  /** One call of a blocking callback. None is `return false`. */
  function RunTry(db: DB, b: BlockCmd): (r: Option<Outcome<DB>>) {
    match b
    case BPop(keys, side) => TryPop(db, keys, side)
    case BRPopLPush(src, dst) =>
      if !Exists(db, src) then None
      else if !IsList(db, src) || (Exists(db, dst) && !IsList(db, dst)) then Some(Done(db, [WRONG_TYPE]))
      else if ListAt(db, src) == [] then None
      else
        Some(Rotate(db, src, dst))
  }

  function TryPop(db: DB, keys: seq<string>, side: Side): (r: Option<Outcome<DB>>)
    decreases |keys|
  {
    if keys == [] then None
    else if !Exists(db, keys[0]) then TryPop(db, keys[1..], side)
    else if !IsList(db, keys[0]) then Some(Done(db, [WRONG_TYPE]))
    else if ListAt(db, keys[0]) == [] then TryPop(db, keys[1..], side)
    else Some(Done(PopOne(db, keys[0], side),
                   [Len(2), Bulk(keys[0]), Bulk(PopValue(ListAt(db, keys[0]), side))]))
  }

  // ---------- cmd_set.go ----------

  function PopMembers(db: DB, k: string, members: seq<string>): (r: DB)
    decreases |members|
  {
    if members == [] then db else PopMembers(SetRem(db, k, [members[0]]), k, members[1..])
  }

  /** `choice` is a possible list of random picks: as many different members as asked for and there. */
  predicate Picks(choice: seq<string>, s: set<string>, number: int) {
    Distinct(choice) && Elems(choice) <= s && |choice| == Min(if number < 0 then 0 else number, |s|)
  }

  /** A listing, in any order, of the names that a MATCH pattern selects, or of all names. */
  predicate Listed(choice: seq<string>, names: set<string>, matching: Option<Pattern>) {
    Distinct(choice) &&
    if matching.None? then Elems(choice) == names else MaySelect(matching.value, names, Elems(choice))
  }

  predicate MatchPanics(matching: Option<Pattern>) { matching.Some? && CompilePanics(matching.value) }

  /** The outcomes of random numbers and map iteration order that can happen. */
  predicate ValidSetChoice(db: DB, c: SetCmd, choice: seq<string>) {
    match c
    case SAlgebra(op, first, others) =>
      Combine(db, op, [first] + others).Some? ==> Enumerates(choice, Combine(db, op, [first] + others).value)
    case SMembers(k) => Enumerates(choice, SetAt(db, k))
    case SPop(k, number) => Picks(choice, SetAt(db, k), if number.Some? then number.value else 1)
    case SRandMember(k, number) =>
      if number.None? then |choice| == Min(1, |SetAt(db, k)|) && Elems(choice) <= SetAt(db, k)
      else if number.value < 0 then SetAt(db, k) != {} ==> |choice| == 0 - number.value && Elems(choice) <= SetAt(db, k)
      else Picks(choice, SetAt(db, k), number.value)
    case SScan(k, cursor, matching) => cursor == 0 ==> Listed(choice, SetAt(db, k), matching)
    case _ => true
  }

  function MoveMember(db: DB, src: string, dst: string, v: string): (r: Outcome<DB>) {
    Done(SetAdd(SetRem(db, src, [v]), dst, [v]), [Number(1)])
  }

  function RunSet(db: DB, c: SetCmd, choice: seq<string>): (r: Outcome<DB>) {
    match c
    case SAdd(k, elems) =>
      if Exists(db, k) && !IsSet(db, k) then Done(db, [WRONG_TYPE])
      else Done(SetAdd(db, k, elems), [Number(|SetAt(SetAdd(db, k, elems), k)| - |SetAt(db, k)|)])
    case SCard(k) =>
      if !Exists(db, k) then Done(db, [Number(0)])
      else if !IsSet(db, k) then Done(db, [WRONG_TYPE])
      else Done(db, [Number(|SetAt(db, k)|)])
    case SAlgebra(op, first, others) =>
      if Combine(db, op, [first] + others).None? then Done(db, [WRONG_TYPE])
      else Done(db, [Len(|choice|)] + Bulks(choice))
    case SStore(op, dest, first, others) =>
      (match Combine(db, op, [first] + others)
       case None => Done(db, [WRONG_TYPE])
       case Some(s) => Done(SetSet(Del(db, dest), dest, s), [Number(|s|)]))
    case SIsMember(k, v) =>
      if !Exists(db, k) then Done(db, [Number(0)])
      else if !IsSet(db, k) then Done(db, [WRONG_TYPE])
      else Done(db, [Number(if v in SetAt(db, k) then 1 else 0)])
    case SMembers(k) =>
      if !Exists(db, k) then Done(db, [Len(0)])
      else if !IsSet(db, k) then Done(db, [WRONG_TYPE])
      else Done(db, [Len(|choice|)] + Bulks(choice))
    case SMove(src, dst, v) =>
      if !Exists(db, src) then Done(db, [Number(0)])
      else if !IsSet(db, src) then Done(db, [WRONG_TYPE])
      else if Exists(db, dst) && !IsSet(db, dst) then Done(db, [WRONG_TYPE])
      else if v !in SetAt(db, src) then Done(db, [Number(0)])
      else MoveMember(db, src, dst, v)
    case SPop(k, number) =>
      if !Exists(db, k) then Done(db, if number.None? then [Null] else [Len(0)])
      else if !IsSet(db, k) then Done(db, [WRONG_TYPE])
      else Done(PopMembers(db, k, choice),
                if number.Some? then [Len(|choice|)] + Bulks(choice)
                else if choice == [] then [Null] else [Bulk(choice[0])])
    case SPopBadArgs => Done(db, [INVALID_INT])
    case SRandMember(k, number) =>
      if !Exists(db, k) then Done(db, [Null])
      else if !IsSet(db, k) then Done(db, [WRONG_TYPE])
      else if number.Some? && number.value < 0 then
        (if SetAt(db, k) == {} then Panic else Done(db, [Len(Wrap(0 - number.value))] + Bulks(choice)))
      else if number.Some? then Done(db, [Len(|choice|)] + Bulks(choice))
      else if choice == [] then Panic
      else Done(db, [Bulk(choice[0])])
    case SRem(k, fields) =>
      if !Exists(db, k) then Done(db, [Number(0)])
      else if !IsSet(db, k) then Done(db, [WRONG_TYPE])
      else Done(SetRem(db, k, fields), [Number(|SetAt(db, k)| - |SetAt(db, k) - Elems(fields)|)])
    case SScan(k, cursor, matching) =>
      if cursor != 0 then Done(db, [Len(2), Bulk("0"), Len(0)])
      else if Exists(db, k) && !IsSet(db, k) then Done(db, [WRONG_TYPE])
      else if MatchPanics(matching) then Panic
      else Done(db, [Len(2), Bulk("0"), Len(|choice|)] + Bulks(choice))
  }

  // ---------- cmd_generic.go and cmd_server.go ----------

  function DelAll(db: DB, keys: seq<string>): (r: DB)
    decreases |keys|
  {
    if keys == [] then db else DelAll(Del(db, keys[0]), keys[1..])
  }

  /** How many of the keys DEL finds, each looked up after the earlier ones are gone. */
  function DelCount(db: DB, keys: seq<string>): (n: nat)
    decreases |keys|
  {
    if keys == [] then 0
    else (if Exists(db, keys[0]) then 1 else 0) + DelCount(Del(db, keys[0]), keys[1..])
  }

  function CountExisting(db: DB, keys: seq<string>): (n: nat) {
    if keys == [] then 0 else (if Exists(db, keys[0]) then 1 else 0) + CountExisting(db, keys[1..])
  }

  predicate ValidKeyChoice(db: DB, c: KeyCmd, choice: seq<string>) {
    match c
    case Keys(pattern) => Listed(choice, db.keys.Keys, Some(pattern))
    case RandomKey => if db.keys == map[] then choice == [] else |choice| == 1 && choice[0] in db.keys
    case ScanAllKeys(cursor, matching) => cursor == 0 ==> Listed(choice, db.keys.Keys, matching)
    case _ => true
  }

  function RunKey(db: DB, c: KeyCmd, choice: seq<string>): (r: Outcome<DB>) {
    match c
    case Delete(keys) => Done(DelAll(db, keys), [Number(DelCount(db, keys))])
    case Type(k) => Done(db, [Inline(if !Exists(db, k) then "none" else if IsList(db, k) then "list" else "set")])
    case ExistsAny(keys) => Done(db, [Number(CountExisting(db, keys))])
    case Keys(pattern) => if CompilePanics(pattern) then Panic else Done(db, [Len(|choice|)] + Bulks(choice))
    case RandomKey => Done(db, if choice == [] then [Null] else [Bulk(choice[0])])
    case RenameTo(from, to) =>
      if !Exists(db, from) then Done(db, [NO_KEY])
      else (match Rename(db, from, to) case None => Panic case Some(d) => Done(d, [OK]))
    case RenameNx(from, to) =>
      if !Exists(db, from) then Done(db, [NO_KEY])
      else if Exists(db, to) then Done(db, [Number(0)])
      else (match Rename(db, from, to) case None => Panic case Some(d) => Done(d, [Number(1)]))
    case ScanAllKeys(cursor, matching) =>
      if cursor != 0 then Done(db, [Len(2), Bulk("0"), Len(0)])
      else if MatchPanics(matching) then Panic
      else Done(db, [Len(2), Bulk("0"), Len(|choice|)] + Bulks(choice))
    case DbSize => Done(db, [Number(|db.keys|)])
    case FlushDb => Done(Flush(db), [OK])
    case Ok => Done(db, [OK])
  }

  // ---------- A callback on the whole server ----------

  /** All numbered databases. `m.db(i)` creates an empty one on first use. */
  type Dbs = map<int, DB>

  function Get(dbs: Dbs, i: int): (db: DB) { if i in dbs then dbs[i] else EmptyDB }

  function Lift(dbs: Dbs, sel: int, o: Outcome<DB>): (r: Outcome<Dbs>) {
    match o
    case Panic => Panic
    case Done(db, reply) => Done(dbs[sel := db], reply)
  }

  predicate ValidChoice(dbs: Dbs, sel: int, c: Cmd, choice: seq<string>) {
    match c
    case S(s) => ValidSetChoice(Get(dbs, sel), s, choice)
    case K(k) => ValidKeyChoice(Get(dbs, sel), k, choice)
    case _ => true
  }

  /** Runs a callback with database `sel` selected. */
  function Run(dbs: Dbs, sel: int, c: Cmd, choice: seq<string>): (r: Outcome<Dbs>) {
    match c
    case L(l) => Lift(dbs, sel, RunList(Get(dbs, sel), l))
    case S(s) => Lift(dbs, sel, RunSet(Get(dbs, sel), s, choice))
    case K(k) => Lift(dbs, sel, RunKey(Get(dbs, sel), k, choice))
    case Try(b) =>
      (match RunTry(Get(dbs, sel), b)
       case None => Done(dbs[sel := Get(dbs, sel)], [Null])
       case Some(o) => Lift(dbs, sel, o))
    case MoveTo(k, target) =>
      if sel == target then Done(dbs, [SAME_DB])
      else (match Move(Get(dbs, sel), Get(dbs, target), k)
            case None => Done(dbs[sel := Get(dbs, sel)][target := Get(dbs, target)], [Number(0)])
            case Some((a, b)) => Done(dbs[sel := a][target := b], [Number(1)]))
    case FlushAll => Done(map d | d in dbs :: Flush(dbs[d]), [OK])
  }

  /** The callbacks that call `setDirty` when they run. */
  predicate SetsDirty(c: Cmd) { c == S(SPopBadArgs) }

  // ---------- Which keys a callback may write ----------

  function TryWrites(b: BlockCmd): (ks: set<string>) {
    match b
    case BPop(keys, _) => Elems(keys)
    case BRPopLPush(src, dst) => {src, dst}
  }

  function ListWrites(c: ListCmd): (ks: set<string>) {
    match c
    case LIndex(_, _) => {}
    case LInsert(k, _, _, _) => {k}
    case LLen(_) => {}
    case Pop(k, _) => {k}
    case Push(k, _, _) => {k}
    case PushX(k, _, _) => {k}
    case LRange(_, _, _) => {}
    case LRem(k, _, _) => {k}
    case LSet(k, _, _) => {k}
    case LTrim(k, _, _) => {k}
    case RPopLPush(src, dst) => {src, dst}
  }

  function SetWrites(c: SetCmd): (ks: set<string>) {
    match c
    case SAdd(k, _) => {k}
    case SStore(_, dest, _, _) => {dest}
    case SMove(src, dst, _) => {src, dst}
    case SPop(k, _) => {k}
    case SRem(k, _) => {k}
    case _ => {}
  }

  function KeyWrites(c: KeyCmd): (ks: set<string>) {
    match c
    case Delete(keys) => Elems(keys)
    case RenameTo(from, to) => {from, to}
    case RenameNx(from, to) => {from, to}
    case _ => {}
  }

  predicate IsFlush(c: Cmd) { c == FlushAll || c == K(FlushDb) }

  /** The (database, key) pairs a callback other than a flush may change. */
  function Writes(sel: int, c: Cmd): (r: set<(int, string)>) {
    match c
    case L(l) => set k | k in ListWrites(l) :: (sel, k)
    case S(s) => set k | k in SetWrites(s) :: (sel, k)
    case K(g) => set k | k in KeyWrites(g) :: (sel, k)
    case Try(b) => set k | k in TryWrites(b) :: (sel, k)
    case MoveTo(k, target) => {(sel, k), (target as int, k)}
    case FlushAll => {}
  }
}
