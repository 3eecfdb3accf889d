/** The list algorithms of cmd_list.go on immutable sequences. */
module Lists {
  import opened Base

  function Occurrences(l: seq<string>, v: string): (r: nat) {
    if l == [] then 0 else (if l[0] == v then 1 else 0) + Occurrences(l[1..], v)
  }

  lemma {:induction false} OccurrencesAppend(a: seq<string>, b: seq<string>, v: string)
    ensures Occurrences(a + b, v) == Occurrences(a, v) + Occurrences(b, v)
  {
    if a == [] {
      assert a + b == b;
    } else {
      OccurrencesAppend(a[1..], b, v);
      assert (a + b)[1..] == a[1..] + b;
    }
  }

  lemma {:induction false} OccurrencesReverse(l: seq<string>, v: string)
    ensures Occurrences(Reverse(l), v) == Occurrences(l, v)
  {
    if l != [] {
      OccurrencesReverse(l[1..], v);
      OccurrencesAppend(Reverse(l[1..]), [l[0]], v);
    }
  }

  /** The filter loop of LREM: drops matches while `budget` lasts. */
  function RemoveN(l: seq<string>, v: string, budget: int): (r: seq<string>)
    ensures |r| <= |l|
  {
    if l == [] then []
    else if l[0] == v && budget > 0 then RemoveN(l[1..], v, budget - 1)
    else [l[0]] + RemoveN(l[1..], v, budget)
  }

  /** The list LREM leaves: a negative count works on the reversed list, and negating it is
      64-bit arithmetic. */
  function LRem(l: seq<string>, v: string, count: Int64): (r: seq<string>)
    ensures |r| <= |l|
  {
    if count < 0 then Reverse(RemoveN(Reverse(l), v, Wrap(0 - count)))
    else RemoveN(l, v, if count > 0 then count else |l|)
  }

  // ---------- An independent description of LREM ----------

  /** The elements of `l` whose mark is not set, in order. */
  function Keep(l: seq<string>, gone: seq<bool>): (r: seq<string>)
    requires |l| == |gone|
  {
    if l == [] then []
    else if gone[0] then Keep(l[1..], gone[1..])
    else [l[0]] + Keep(l[1..], gone[1..])
  }

  /** Position `i` holds one of the first `n` occurrences of `v`. */
  predicate IsFirst(l: seq<string>, v: string, n: int, i: nat)
    requires i < |l|
  {
    l[i] == v && Occurrences(l[..i], v) < n
  }

  /** Position `i` holds one of the last `n` occurrences of `v`. */
  predicate IsLast(l: seq<string>, v: string, n: int, i: nat)
    requires i < |l|
  {
    l[i] == v && Occurrences(l[i + 1..], v) < n
  }

  function FirstMarks(l: seq<string>, v: string, n: int): (r: seq<bool>)
    ensures |r| == |l|
  {
    seq(|l|, i requires 0 <= i < |l| => IsFirst(l, v, n, i))
  }

  function LastMarks(l: seq<string>, v: string, n: int): (r: seq<bool>)
    ensures |r| == |l|
  {
    seq(|l|, i requires 0 <= i < |l| => IsLast(l, v, n, i))
  }

  lemma {:induction false} RemoveNIsKeep(l: seq<string>, v: string, n: int)
    ensures RemoveN(l, v, n) == Keep(l, FirstMarks(l, v, n))
  {
    if l != [] {
      var m := if l[0] == v && n > 0 then n - 1 else n;
      RemoveNIsKeep(l[1..], v, m);
      assert l[..0] == [];
      forall i | 0 <= i < |l| - 1
        ensures FirstMarks(l, v, n)[1..][i] == FirstMarks(l[1..], v, m)[i]
      {
        assert l[..i + 1][0] == l[0] && l[..i + 1][1..] == l[1..][..i];
        if n <= 0 {
          assert !FirstMarks(l, v, n)[i + 1];
        }
      }
      assert FirstMarks(l, v, n)[1..] == FirstMarks(l[1..], v, m);
    }
  }

  lemma {:induction false} KeepAppend(a: seq<string>, x: seq<bool>, b: seq<string>, y: seq<bool>)
    requires |a| == |x| && |b| == |y|
    ensures Keep(a + b, x + y) == Keep(a, x) + Keep(b, y)
  {
    if a == [] {
      assert a + b == b && x + y == y;
    } else {
      KeepAppend(a[1..], x[1..], b, y);
      assert (a + b)[1..] == a[1..] + b;
      assert (x + y)[1..] == x[1..] + y;
      assert (a + b)[0] == a[0] && (x + y)[0] == x[0];
    }
  }

  lemma {:induction false} KeepReverse(l: seq<string>, gone: seq<bool>)
    requires |l| == |gone|
    ensures Keep(Reverse(l), Reverse(gone)) == Reverse(Keep(l, gone))
  {
    if l != [] {
      KeepReverse(l[1..], gone[1..]);
      KeepAppend(Reverse(l[1..]), Reverse(gone[1..]), [l[0]], [gone[0]]);
      var head: seq<string> := if gone[0] then [] else [l[0]];
      assert Keep([l[0]], [gone[0]]) == head;
      ReverseAppend(head, Keep(l[1..], gone[1..]));
      assert Reverse(head) == head;
    }
  }

  lemma ReversePrefix(l: seq<string>, i: nat)
    requires i < |l|
    ensures Reverse(l)[..|l| - 1 - i] == Reverse(l[i + 1..])
  {
    ReverseAppend(l[..i + 1], l[i + 1..]);
    assert l == l[..i + 1] + l[i + 1..];
  }

  lemma MarkReverse(l: seq<string>, v: string, n: int, i: nat)
    requires i < |l|
    ensures IsFirst(Reverse(l), v, n, |l| - 1 - i) == IsLast(l, v, n, i)
  {
    hide Occurrences;
    ReverseAt(l, |l| - 1 - i);
    ReversePrefix(l, i);
    OccurrencesReverse(l[i + 1..], v);
  }

  lemma MarksReverse(l: seq<string>, v: string, n: int)
    ensures Reverse(FirstMarks(Reverse(l), v, n)) == LastMarks(l, v, n)
  {
    var marks := FirstMarks(Reverse(l), v, n);
    forall i | 0 <= i < |l|
      ensures Reverse(marks)[i] == LastMarks(l, v, n)[i]
    {
      ReverseAt(marks, i);
      MarkReverse(l, v, n, i);
    }
  }

  lemma {:induction false} RemoveNCount(l: seq<string>, v: string, n: int)
    ensures |l| - |RemoveN(l, v, n)| == Min(if n < 0 then 0 else n, Occurrences(l, v))
  {
    if l != [] {
      RemoveNCount(l[1..], v, if l[0] == v && n > 0 then n - 1 else n);
    }
  }

  /** How many matches LREM is asked to remove, as a mathematical integer. */
  function Asked(l: seq<string>, count: int): (r: nat) {
    if count == 0 then |l| else if count > 0 then count else -count
  }

  /** What Redis promises of LREM: the first `count` matches go, the last `-count` for a negative
      count, all of them for zero; everything else stays in order. */
  function LRemPromise(l: seq<string>, v: string, count: int): (r: seq<string>) {
    Keep(l, if count < 0 then LastMarks(l, v, -count) else FirstMarks(l, v, Asked(l, count)))
  }

  lemma WrapNegate(count: Int64)
    requires count < 0
    ensures Wrap(0 - count) == if count == MIN_INT then MIN_INT else 0 - count
  {
    assert (0 - MIN_INT - MIN_INT) % UINT_RANGE == 0;
  }

  /** LREM keeps its promise exactly when the count can be negated or there is nothing to remove;
      with the smallest integer as count it removes nothing. */
  lemma LRemExact(l: seq<string>, v: string, count: Int64)
    requires |l| <= MAX_INT
    ensures LRem(l, v, count) == LRemPromise(l, v, count) <==> (count != MIN_INT || v !in l)
    ensures count != MIN_INT ==> |l| - |LRem(l, v, count)| == Min(Asked(l, count), Occurrences(l, v))
    ensures count == MIN_INT ==> LRem(l, v, count) == l
  {
    if count == MIN_INT {
      LRemSmallest(l, v);
    } else if count < 0 {
      WrapNegate(count);
      LRemBackwards(l, v, 0 - count, count);
      RemoveNCount(Reverse(l), v, 0 - count);
      OccurrencesReverse(l, v);
    } else {
      RemoveNIsKeep(l, v, Asked(l, count));
      RemoveNCount(l, v, Asked(l, count));
    }
  }

  lemma LRemSmallest(l: seq<string>, v: string)
    requires |l| <= MAX_INT
    ensures LRem(l, v, MIN_INT) == l
    ensures l == LRemPromise(l, v, MIN_INT) <==> v !in l
  {
    WrapNegate(MIN_INT);
    LRemBackwards(l, v, MIN_INT, MIN_INT);
    AllKept(l, LastMarks(l, v, MIN_INT));
    LRemPromiseShrinks(l, v, 0 - MIN_INT);
    OccurrencesZero(l, v);
    if v !in l {
      AllKept(l, LastMarks(l, v, 0 - MIN_INT));
    }
  }

  lemma LRemBackwards(l: seq<string>, v: string, n: int, count: Int64)
    requires count < 0 && n == Wrap(0 - count)
    ensures LRem(l, v, count) == Keep(l, LastMarks(l, v, n))
  {
    var r := Reverse(l);
    RemoveNIsKeep(r, v, n);
    KeepReverse(r, FirstMarks(r, v, n));
    ReverseTwice(l);
    MarksReverse(l, v, n);
  }

  /** With a budget no smaller than the list, the promise removes every match. */
  lemma LRemPromiseShrinks(l: seq<string>, v: string, n: int)
    requires n >= |l|
    ensures |l| - |Keep(l, LastMarks(l, v, n))| == Occurrences(l, v)
  {
    var r := Reverse(l);
    RemoveNIsKeep(r, v, n);
    RemoveNCount(r, v, n);
    KeepReverse(r, FirstMarks(r, v, n));
    ReverseTwice(l);
    MarksReverse(l, v, n);
    OccurrencesReverse(l, v);
    OccurrencesBound(l, v);
  }

  lemma {:induction false} AllKept(l: seq<string>, gone: seq<bool>)
    requires |l| == |gone| && forall i :: 0 <= i < |gone| ==> !gone[i]
    ensures Keep(l, gone) == l
  {
    if l != [] {
      AllKept(l[1..], gone[1..]);
    }
  }

  lemma {:induction false} OccurrencesBound(l: seq<string>, v: string)
    ensures Occurrences(l, v) <= |l|
  {
    if l != [] {
      OccurrencesBound(l[1..], v);
    }
  }

  lemma {:induction false} OccurrencesZero(l: seq<string>, v: string)
    ensures Occurrences(l, v) == 0 <==> v !in l
  {
    if l != [] {
      OccurrencesZero(l[1..], v);
      assert v in l <==> l[0] == v || v in l[1..];
    }
  }

  // ---------- LINSERT ----------

  /** The position of the first `v`, or the length if there is none. */
  function FirstIndex(l: seq<string>, v: string): (i: nat)
    ensures i <= |l| && (i < |l| ==> l[i] == v)
    ensures forall j :: 0 <= j < i ==> l[j] != v
  {
    if l == [] || l[0] == v then 0
    else
      var i := FirstIndex(l[1..], v);
      assert forall j :: 1 <= j < i + 1 ==> l[j] == l[1..][j - 1];
      i + 1
  }

  function InsertAt(l: seq<string>, i: nat, v: string): (r: seq<string>)
    requires i <= |l|
  {
    l[..i] + [v] + l[i..]
  }
}
