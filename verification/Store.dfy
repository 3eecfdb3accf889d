/** One numbered database (`RedisDB`, db.go) as an immutable value: the specification that the
    heap model refines and that the server machine runs on. */
module Store {
  import opened Base

  datatype Tag = ListTag | SetTag

  /** The four maps of `RedisDB`. `version` counts every `keyVersion[k]++`; the Go counter shows
      `Uint` of it. */
  datatype DB = DB(
    keys: map<string, Tag>,
    lists: map<string, seq<string>>,
    sets: map<string, set<string>>,
    version: map<string, nat>)

  const EmptyDB: DB := DB(map[], map[], map[], map[])

  predicate Exists(db: DB, k: string) { k in db.keys }

  predicate IsList(db: DB, k: string) { k in db.keys && db.keys[k] == ListTag }

  predicate IsSet(db: DB, k: string) { k in db.keys && db.keys[k] == SetTag }

  function Ver(db: DB, k: string): (n: nat) { if k in db.version then db.version[k] else 0 }

  /** Reading a missing entry gives Go's zero value. */
  function ListAt(db: DB, k: string): (l: seq<string>) { if k in db.lists then db.lists[k] else [] }

  function SetAt(db: DB, k: string): (s: set<string>) { if k in db.sets then db.sets[k] else {} }

  function Bump(db: DB, k: string): (r: DB) { db.(version := db.version[k := Ver(db, k) + 1]) }

  function Flush(db: DB): (r: DB) { db.(keys := map[], lists := map[], sets := map[]) }

  function Del(db: DB, k: string): (r: DB) {
    if !Exists(db, k) then db
    else
      var d := Bump(db.(keys := db.keys - {k}), k);
      match db.keys[k]
      case ListTag => d.(lists := d.lists - {k})
      case SetTag => d.(sets := d.sets - {k})
  }

  /** `db.listKeys[k] = l; db.keyVersion[k]++` */
  function PutList(db: DB, k: string, l: seq<string>): (r: DB) {
    Bump(db.(lists := db.lists[k := l]), k)
  }

  /** Replaces a list by what is left of it: an empty remainder deletes the key. */
  function Shrink(db: DB, k: string, l: seq<string>): (r: DB) {
    if l == [] then Del(db, k) else PutList(db, k, l)
  }

  function TagAsList(db: DB, k: string): (r: DB) {
    if k in db.lists then db else db.(keys := db.keys[k := ListTag])
  }

  function ListLpush(db: DB, k: string, v: string): (r: DB) {
    PutList(TagAsList(db, k), k, [v] + ListAt(db, k))
  }

  function ListPush(db: DB, k: string, vs: seq<string>): (r: DB) {
    PutList(TagAsList(db, k), k, ListAt(db, k) + vs)
  }

  /** A left pop bumps the version once more after `del`. */
  function ListLpop(db: DB, k: string): (r: DB)
    requires ListAt(db, k) != []
  {
    var l := ListAt(db, k)[1..];
    Bump(if l == [] then Del(db, k) else db.(lists := db.lists[k := l]), k)
  }

  function ListPop(db: DB, k: string): (r: DB)
    requires ListAt(db, k) != []
  {
    var l := ListAt(db, k);
    Shrink(db, k, l[..|l| - 1])
  }

  function SetSet(db: DB, k: string, s: set<string>): (r: DB) {
    Bump(db.(keys := db.keys[k := SetTag], sets := db.sets[k := s]), k)
  }

  function SetAdd(db: DB, k: string, elems: seq<string>): (r: DB) {
    var d := if k in db.sets then db else db.(keys := db.keys[k := SetTag]);
    Bump(d.(sets := d.sets[k := SetAt(db, k) + Elems(elems)]), k)
  }

  function SetRem(db: DB, k: string, fields: seq<string>): (r: DB) {
    if k !in db.sets then db
    else
      var s := SetAt(db, k) - Elems(fields);
      Bump(if s == {} then Del(db, k) else db.(sets := db.sets[k := s]), k)
  }

  /** Copies the entry `j` of `from` into `to` under `k`: the shared middle of `move` and `rename`. */
  function Place(to: DB, k: string, from: DB, j: string): (r: DB)
    requires Exists(from, j)
  {
    var t := match from.keys[j]
      case ListTag => to.(lists := to.lists[k := ListAt(from, j)])
      case SetTag => to.(sets := to.sets[k := SetAt(from, j)]);
    Bump(t.(keys := t.keys[k := from.keys[j]]), k)
  }

  /** Moves a key to another database, unless it is taken there or missing here. */
  function Move(from: DB, to: DB, k: string): (r: Option<(DB, DB)>) {
    if Exists(to, k) || !Exists(from, k) then None
    else Some((Del(from, k), Place(to, k, from, k)))
  }

  /** None is the panic of the "missing case": `del(to)` has removed `from`, or it never existed. */
  function Rename(db: DB, from: string, to: string): (r: Option<DB>) {
    var d := Del(db, to);
    if !Exists(d, from) then None else Some(Del(Place(d, to, d, from), from))
  }

  // ---------- Set algebra ----------

  datatype SetOp = Diff | Inter | Union

  /** One later operand: a missing one is skipped, and so is one that is not a set for an
      intersection. None is the wrong-type error. */
  function CombineOne(db: DB, op: SetOp, acc: set<string>, k: string): (r: Option<set<string>>) {
    if !Exists(db, k) then Some(acc)
    else if !IsSet(db, k) then (if op.Inter? then Some(acc) else None)
    else match op
      case Diff => Some(acc - SetAt(db, k))
      case Inter => Some(acc * SetAt(db, k))
      case Union => Some(acc + SetAt(db, k))
  }

  /** The left-to-right loop over the later operands. */
  function CombineRest(db: DB, op: SetOp, acc: set<string>, keys: seq<string>): (r: Option<set<string>>)
    decreases |keys|
  {
    if keys == [] then Some(acc)
    else match CombineOne(db, op, acc, keys[0])
      case None => None
      case Some(next) => CombineRest(db, op, next, keys[1..])
  }

  function Combine(db: DB, op: SetOp, keys: seq<string>): (r: Option<set<string>>)
    requires keys != []
  {
    if Exists(db, keys[0]) && !IsSet(db, keys[0]) then None
    else CombineRest(db, op, SetAt(db, keys[0]), keys[1..])
  }

  /** Membership in the mathematical result. A later operand of an intersection that is missing or
      not a set is skipped. */
  predicate InResult(db: DB, op: SetOp, keys: seq<string>, x: string)
    requires keys != []
  {
    match op
    case Diff => x in SetAt(db, keys[0]) && forall i :: 1 <= i < |keys| ==> x !in SetAt(db, keys[i])
    case Inter => x in SetAt(db, keys[0]) &&
      forall i :: 1 <= i < |keys| && IsSet(db, keys[i]) ==> x in SetAt(db, keys[i])
    case Union => exists i :: 0 <= i < |keys| && x in SetAt(db, keys[i])
  }

  /** Some operand the operation looks at holds a list. */
  predicate BadOperand(db: DB, op: SetOp, keys: seq<string>)
    requires keys != []
  {
    IsList(db, keys[0]) || (!op.Inter? && exists i :: 1 <= i < |keys| && IsList(db, keys[i]))
  }

  lemma {:induction false} CombineRestMeaning(db: DB, op: SetOp, acc: set<string>, keys: seq<string>, x: string)
    requires Agree(db)
    ensures CombineRest(db, op, acc, keys).None? <==>
      (!op.Inter? && exists i :: 0 <= i < |keys| && IsList(db, keys[i]))
    ensures CombineRest(db, op, acc, keys).Some? ==>
      (x in CombineRest(db, op, acc, keys).value <==>
        match op
        case Diff => x in acc && forall i :: 0 <= i < |keys| ==> x !in SetAt(db, keys[i])
        case Inter => x in acc && forall i :: 0 <= i < |keys| && IsSet(db, keys[i]) ==> x in SetAt(db, keys[i])
        case Union => x in acc || exists i :: 0 <= i < |keys| && x in SetAt(db, keys[i]))
    decreases |keys|
  {
    if keys != [] {
      if CombineOne(db, op, acc, keys[0]).Some? {
        CombineRestMeaning(db, op, CombineOne(db, op, acc, keys[0]).value, keys[1..], x);
      }
      assert keys == [keys[0]] + keys[1..];
    }
  }

  /** SDIFF, SINTER and SUNION compute the mathematical result over all operands they look at, and
      fail exactly when one of those operands is not a set. */
  lemma CombineMeaning(db: DB, op: SetOp, keys: seq<string>)
    requires Agree(db) && keys != []
    ensures Combine(db, op, keys).None? <==> BadOperand(db, op, keys)
    ensures Combine(db, op, keys).Some? ==>
      forall x :: x in Combine(db, op, keys).value <==> InResult(db, op, keys, x)
  {
    forall x: string
      ensures Combine(db, op, keys).None? <==> BadOperand(db, op, keys)
      ensures Combine(db, op, keys).Some? ==>
        (x in Combine(db, op, keys).value <==> InResult(db, op, keys, x))
    {
      CombineMeaningAt(db, op, keys, x);
    }
    CombineMeaningAt(db, op, keys, "");
  }

  lemma CombineMeaningAt(db: DB, op: SetOp, keys: seq<string>, x: string)
    requires Agree(db) && keys != []
    ensures Combine(db, op, keys).None? <==> BadOperand(db, op, keys)
    ensures Combine(db, op, keys).Some? ==>
      (x in Combine(db, op, keys).value <==> InResult(db, op, keys, x))
  {
    CombineRestMeaning(db, op, SetAt(db, keys[0]), keys[1..], x);
    assert keys == [keys[0]] + keys[1..];
  }

  // ---------- The index maps agree ----------

  /** The key index is the disjoint union of the list and set maps with matching tags, and no list
      is empty. Sets can be empty: the *STORE commands leave them. */
  ghost predicate Agree(db: DB) {
    && (forall k :: k in db.keys && db.keys[k] == ListTag <==> k in db.lists)
    && (forall k :: k in db.keys && db.keys[k] == SetTag <==> k in db.sets)
    && (forall k :: k in db.lists ==> db.lists[k] != [])
  }

  /** The type and contents stored under `k` are the same. */
  ghost predicate Same(a: DB, b: DB, k: string) {
    && (k in a.keys <==> k in b.keys) && (k in a.keys ==> a.keys[k] == b.keys[k])
    && (k in a.lists <==> k in b.lists) && (k in a.lists ==> a.lists[k] == b.lists[k])
    && (k in a.sets <==> k in b.sets) && (k in a.sets ==> a.sets[k] == b.sets[k])
  }

  /** Versions never go down, and an unchanged version means unchanged contents. */
  ghost predicate EvolvesAt(a: DB, b: DB, k: string) {
    Ver(a, k) <= Ver(b, k) && (Ver(a, k) == Ver(b, k) ==> Same(a, b, k))
  }

  /** `b` comes from `a` by bumping the version of every key it changes, all of them in `ks`. */
  ghost predicate Evolves(a: DB, b: DB, ks: set<string>) {
    forall k :: EvolvesAt(a, b, k) && (k !in ks ==> Ver(a, k) == Ver(b, k))
  }

  lemma EvolvesTrans(a: DB, b: DB, c: DB, ks: set<string>, ls: set<string>)
    requires Evolves(a, b, ks) && Evolves(b, c, ls)
    ensures Evolves(a, c, ks + ls)
  {
    forall k
      ensures EvolvesAt(a, c, k) && (k !in ks + ls ==> Ver(a, k) == Ver(c, k))
    {
      assert EvolvesAt(a, b, k) && EvolvesAt(b, c, k);
    }
  }

  lemma EvolvesAtSelf(a: DB, k: string)
    ensures EvolvesAt(a, a, k)
  {
  }

  lemma EvolvesAtTrans(a: DB, b: DB, c: DB, k: string)
    requires EvolvesAt(a, b, k) && EvolvesAt(b, c, k)
    ensures EvolvesAt(a, c, k)
  {
  }

  lemma EvolvesSelf(a: DB)
    ensures Evolves(a, a, {})
  {
    assert forall k :: EvolvesAt(a, a, k);
  }

  lemma EvolvesMore(a: DB, b: DB, ks: set<string>, ls: set<string>)
    requires Evolves(a, b, ks) && ks <= ls
    ensures Evolves(a, b, ls)
  {
  }

  /** Anything written under `k` alone, with the version bumped, is an evolution. */
  lemma EvolvesOne(a: DB, b: DB, k: string)
    requires Ver(a, k) < Ver(b, k)
    requires forall j :: j != k ==> Same(a, b, j) && Ver(a, j) == Ver(b, j)
    ensures Evolves(a, b, {k})
  {
    forall j
      ensures EvolvesAt(a, b, j) && (j !in {k} ==> Ver(a, j) == Ver(b, j))
    {
    }
  }

  lemma DelKeeps(db: DB, k: string)
    ensures Agree(db) ==> Agree(Del(db, k))
    ensures Evolves(db, Del(db, k), {k})
    ensures Agree(db) ==> !Exists(Del(db, k), k) && k !in Del(db, k).lists && k !in Del(db, k).sets
  {
    if Exists(db, k) {
      EvolvesOne(db, Del(db, k), k);
    } else {
      EvolvesSelf(db);
      EvolvesMore(db, db, {}, {k});
    }
  }

  lemma PutListKeeps(db: DB, k: string, l: seq<string>)
    requires Agree(db) && k in db.lists && l != []
    ensures Agree(PutList(db, k, l)) && Evolves(db, PutList(db, k, l), {k})
  {
    EvolvesOne(db, PutList(db, k, l), k);
  }

  lemma ShrinkKeeps(db: DB, k: string, l: seq<string>)
    requires Agree(db) && k in db.lists
    ensures Agree(Shrink(db, k, l)) && Evolves(db, Shrink(db, k, l), {k})
  {
    if l == [] {
      DelKeeps(db, k);
    } else {
      PutListKeeps(db, k, l);
    }
  }

  /** The three ways a list grows or is created. */
  lemma PushKeeps(db: DB, k: string, l: seq<string>)
    requires Agree(db) && k !in db.sets && l != []
    ensures Agree(PutList(TagAsList(db, k), k, l)) && Evolves(db, PutList(TagAsList(db, k), k, l), {k})
  {
    PushElsewhere(db, k, l);
    PushAgrees(db, k, l);
    hide Agree, PutList, TagAsList, Same;
    EvolvesOne(db, PutList(TagAsList(db, k), k, l), k);
  }

  lemma PushElsewhere(db: DB, k: string, l: seq<string>)
    ensures
      var r := PutList(TagAsList(db, k), k, l);
      Ver(db, k) < Ver(r, k) && forall j :: j != k ==> Same(db, r, j) && Ver(db, j) == Ver(r, j)
  {
  }

  lemma PushAgrees(db: DB, k: string, l: seq<string>)
    requires Agree(db) && k !in db.sets && l != []
    ensures Agree(PutList(TagAsList(db, k), k, l))
  {
  }

  lemma LpopKeeps(db: DB, k: string)
    requires Agree(db) && k in db.lists
    ensures Agree(ListLpop(db, k)) && Evolves(db, ListLpop(db, k), {k})
  {
    EvolvesOne(db, ListLpop(db, k), k);
  }

  lemma PopKeeps(db: DB, k: string)
    requires Agree(db) && k in db.lists
    ensures Agree(ListPop(db, k)) && Evolves(db, ListPop(db, k), {k})
  {
    ShrinkKeeps(db, k, ListAt(db, k)[..|ListAt(db, k)| - 1]);
  }

  lemma SetSetKeeps(db: DB, k: string, s: set<string>)
    requires Agree(db) && k !in db.lists
    ensures Agree(SetSet(db, k, s)) && Evolves(db, SetSet(db, k, s), {k})
  {
    EvolvesOne(db, SetSet(db, k, s), k);
  }

  lemma SetAddKeeps(db: DB, k: string, elems: seq<string>)
    requires Agree(db) && k !in db.lists
    ensures Agree(SetAdd(db, k, elems)) && Evolves(db, SetAdd(db, k, elems), {k})
  {
    SetAddElsewhere(db, k, elems);
    SetAddAgrees(db, k, elems);
    hide Agree, SetAdd, Same;
    EvolvesOne(db, SetAdd(db, k, elems), k);
  }

  lemma SetAddElsewhere(db: DB, k: string, elems: seq<string>)
    ensures Ver(db, k) < Ver(SetAdd(db, k, elems), k)
    ensures forall j :: j != k ==> Same(db, SetAdd(db, k, elems), j) && Ver(db, j) == Ver(SetAdd(db, k, elems), j)
  {
  }

  lemma SetAddAgrees(db: DB, k: string, elems: seq<string>)
    requires Agree(db) && k !in db.lists
    ensures Agree(SetAdd(db, k, elems))
  {
  }

  lemma SetRemKeeps(db: DB, k: string, fields: seq<string>)
    requires Agree(db)
    ensures Agree(SetRem(db, k, fields)) && Evolves(db, SetRem(db, k, fields), {k})
  {
    if k in db.sets {
      EvolvesOne(db, SetRem(db, k, fields), k);
    } else {
      EvolvesSelf(db);
      EvolvesMore(db, db, {}, {k});
    }
  }

  /** Placing a value under a free key is a push or a `setSet` of it. */
  lemma PlaceIs(to: DB, k: string, from: DB, j: string)
    requires Agree(to) && Exists(from, j) && !Exists(to, k)
    ensures Place(to, k, from, j) ==
      if IsList(from, j) then PutList(TagAsList(to, k), k, ListAt(from, j)) else SetSet(to, k, SetAt(from, j))
  {
  }

  lemma PlaceKeeps(to: DB, k: string, from: DB, j: string)
    requires Agree(from) && Agree(to) && Exists(from, j) && !Exists(to, k)
    ensures Agree(Place(to, k, from, j)) && Evolves(to, Place(to, k, from, j), {k})
    ensures Exists(Place(to, k, from, j), k)
    ensures IsList(Place(to, k, from, j), k) == IsList(from, j)
    ensures ListAt(Place(to, k, from, j), k) == ListAt(from, j)
    ensures SetAt(Place(to, k, from, j), k) == SetAt(from, j)
  {
    PlaceIs(to, k, from, j);
    if IsList(from, j) {
      PushKeeps(to, k, ListAt(from, j));
    } else {
      SetSetKeeps(to, k, SetAt(from, j));
    }
  }

  lemma MoveKeeps(from: DB, to: DB, k: string)
    requires Agree(from) && Agree(to) && Move(from, to, k).Some?
    ensures Agree(Move(from, to, k).value.0) && Evolves(from, Move(from, to, k).value.0, {k})
    ensures Agree(Move(from, to, k).value.1) && Evolves(to, Move(from, to, k).value.1, {k})
  {
    DelKeeps(from, k);
    PlaceKeeps(to, k, from, k);
  }

  /** Renaming moves the value, and panics exactly when the two names are the same or `from` is
      missing. */
  lemma RenameKeeps(db: DB, from: string, to: string)
    requires Agree(db)
    ensures Rename(db, from, to).None? <==> !Exists(db, from) || from == to
    ensures Rename(db, from, to).Some? ==>
      Agree(Rename(db, from, to).value) && Evolves(db, Rename(db, from, to).value, {from, to})
  {
    DelKeeps(db, to);
    var d := Del(db, to);
    if Exists(d, from) {
      var f := Place(d, to, d, from);
      PlaceKeeps(d, to, d, from);
      EvolvesTrans(db, d, f, {to}, {to});
      DelKeeps(f, from);
      EvolvesTrans(db, f, Del(f, from), {to} + {to}, {from});
      EvolvesMore(db, Del(f, from), {to} + {to} + {from}, {from, to});
    }
  }

  /** What a successful rename leaves: the old value under the new name, nothing under the old. */
  lemma RenameMoves(db: DB, from: string, to: string)
    requires Agree(db) && Rename(db, from, to).Some?
    ensures
      var r := Rename(db, from, to).value;
      !Exists(r, from) && IsList(r, to) == IsList(db, from) &&
      ListAt(r, to) == ListAt(db, from) && SetAt(r, to) == SetAt(db, from)
  {
    DelKeeps(db, to);
    var d := Del(db, to);
    PlaceKeeps(d, to, d, from);
    DelKeeps(Place(d, to, d, from), from);
  }
}
