/** The part of Go's regular expressions that a compiled KEYS pattern uses: reading an expression, with
    the errors that make `MustCompile` panic, and unanchored matching. The characters are ASCII. */
module Regexp {
  /** What reading comes to. `Refused` is certain to be an error of Go's parser; `Beyond` is syntax that
      this module does not decide. */
  datatype Reading<+T> = Read(value: T) | Refused | Beyond

  datatype Item = Begin | End | Char(c: char) | Dot | DotStar | OneOf(members: set<char>, negated: bool)

  /** The literal text after \Q, which ends at the first \E or at the end, and what follows. */
  function Cut(t: string): (r: (string, string))
    ensures |r.1| <= |t|
  {
    if t == "" then ("", "")
    else if t[0] == '\\' && |t| > 1 && t[1] == 'E' then ("", t[2..])
    else ([t[0]] + Cut(t[1..]).0, Cut(t[1..]).1)
  }

  // ---------- Classes ----------

  predicate IsAlnum(c: char) { '0' <= c <= '9' || 'A' <= c <= 'Z' || 'a' <= c <= 'z' }

  /** A backslash makes it a literal. */
  predicate Escapable(c: char) { c < 128 as char && !IsAlnum(c) }

  /** Escapes with a meaning of their own; any other letter after a backslash is an error in a class. */
  predicate HasMeaning(c: char) { '0' <= c <= '9' || c in "xafnrtvdDsSwWpP" || c >= 128 as char }

  /** One character of a class, escaped or not. */
  function ClassChar(t: string): (r: Reading<(char, string)>)
    ensures r.Read? ==> |r.value.1| < |t|
  {
    if t == "" then Refused
    else if t[0] != '\\' then Read((t[0], t[1..]))
    else if |t| == 1 then Refused
    else if Escapable(t[1]) then Read((t[1], t[2..]))
    else if HasMeaning(t[1]) then Beyond
    else Refused
  }

  predicate Between(lo: char, c: char, hi: char) { lo <= c <= hi }

  function Range(lo: char, hi: char): (r: set<char>) { set c: char | Between(lo, c, hi) }

  predicate StartsRange(t: string) { |t| >= 2 && t[0] == '-' && t[1] != ']' }

  /** Characters and ranges up to the closing bracket, which is a literal if it comes first. A bracket
      inside may open a named class. */
  function ReadSet(t: string, first: bool): (r: Reading<(set<char>, string)>)
    ensures r.Read? ==> |r.value.1| < |t|
    decreases |t|
  {
    if t == "" then Refused
    else if t[0] == ']' && !first then Read(({}, t[1..]))
    else if t[0] == '[' then Beyond
    else
      match ClassChar(t)
      case Refused => Refused
      case Beyond => Beyond
      case Read((lo, rest)) =>
        if !StartsRange(rest) then With({lo}, ReadSet(rest, false))
        else
          match ClassChar(rest[1..])
          case Refused => Refused
          case Beyond => Beyond
          case Read((hi, rest')) => if hi < lo then Refused else With(Range(lo, hi), ReadSet(rest', false))
  }

  function With(m: set<char>, r: Reading<(set<char>, string)>): (q: Reading<(set<char>, string)>) {
    match r
    case Read((more, rest)) => Read((m + more, rest))
    case _ => r
  }

  /** A class after its opening bracket. */
  function ReadClass(t: string): (r: Reading<(Item, string)>)
    ensures r.Read? ==> |r.value.1| < |t|
  {
    var negated := t != "" && t[0] == '^';
    match ReadSet(if negated then t[1..] else t, true)
    case Refused => Refused
    case Beyond => Beyond
    case Read((m, rest)) => Read((OneOf(m, negated), rest))
  }

  // ---------- Expressions ----------

  function ReadItems(t: string): (r: Reading<seq<Item>>)
    decreases |t|
  {
    if t == "" then Read([])
    else if t[0] == '^' then Then([Begin], ReadItems(t[1..]))
    else if t[0] == '$' then Then([End], ReadItems(t[1..]))
    else if t[0] == '.' && |t| > 1 && t[1] == '*' then Then([DotStar], ReadItems(t[2..]))
    else if t[0] == '.' then Then([Dot], ReadItems(t[1..]))
    else if t[0] == '[' then
      (match ReadClass(t[1..])
       case Refused => Refused
       case Beyond => Beyond
       case Read((item, rest)) => Then([item], ReadItems(rest)))
    else if t[0] == '\\' && |t| > 1 && t[1] == 'Q' then
      Then(Chars(Cut(t[2..]).0), ReadItems(Cut(t[2..]).1))
    else if t[0] == '\\' && |t| > 1 && t[1] == 'E' then Refused
    else Beyond
  }

  function Then(done: seq<Item>, r: Reading<seq<Item>>): (q: Reading<seq<Item>>) {
    match r
    case Read(items) => Read(done + items)
    case _ => r
  }

  function Chars(s: string): (r: seq<Item>)
    ensures |r| == |s|
  {
    if s == "" then [] else [Char(s[0])] + Chars(s[1..])
  }

  /** An unanchored search, as `MatchString` does it. */
  predicate MatchString(items: seq<Item>, s: string) {
    exists i :: 0 <= i <= |s| && MatchFrom(items, s, i)
  }

  /** The items match from position `i` of the text on. */
  predicate MatchFrom(items: seq<Item>, s: string, i: nat)
    requires i <= |s|
    decreases |items|
  {
    if items == [] then true
    else match items[0]
      case Begin => i == 0 && MatchFrom(items[1..], s, i)
      case End => i == |s| && MatchFrom(items[1..], s, i)
      case Char(c) => i < |s| && s[i] == c && MatchFrom(items[1..], s, i + 1)
      case Dot => i < |s| && s[i] != '\n' && MatchFrom(items[1..], s, i + 1)
      case DotStar => exists j :: i <= j <= |s| && '\n' !in s[i..j] && MatchFrom(items[1..], s, j)
      case OneOf(m, negated) => i < |s| && (s[i] in m) != negated && MatchFrom(items[1..], s, i + 1)
  }

  // ---------- The shortest match ----------

  /** How many characters a match has at least. */
  function MinLen(items: seq<Item>): (n: nat) {
    if items == [] then 0
    else (if items[0].Char? || items[0].Dot? || items[0].OneOf? then 1 else 0) + MinLen(items[1..])
  }

  lemma {:induction false} MinLenAppend(xs: seq<Item>, ys: seq<Item>)
    ensures MinLen(xs + ys) == MinLen(xs) + MinLen(ys)
  {
    if xs == [] {
      assert xs + ys == ys;
    } else {
      MinLenAppend(xs[1..], ys);
      assert (xs + ys)[1..] == xs[1..] + ys;
    }
  }

  lemma {:induction false} MatchLongEnough(items: seq<Item>, s: string, i: nat)
    requires i <= |s| && MatchFrom(items, s, i)
    ensures MinLen(items) <= |s| - i
    decreases |items|
  {
    if items != [] {
      match items[0] {
        case Begin => MatchLongEnough(items[1..], s, i);
        case End => MatchLongEnough(items[1..], s, i);
        case DotStar =>
          var j :| i <= j <= |s| && '\n' !in s[i..j] && MatchFrom(items[1..], s, j);
          MatchLongEnough(items[1..], s, j);
        case _ => MatchLongEnough(items[1..], s, i + 1);
      }
    }
  }

  /** What matches somewhere also matches a text of the least length, with nothing where a star is. */
  lemma {:induction false} ShortMatch(items: seq<Item>, s: string, i: nat, before: string) returns (t: string)
    requires i <= |s| && MatchFrom(items, s, i) && '\n' !in s && (i == 0 ==> before == "")
    ensures |t| == MinLen(items) && '\n' !in t && MatchFrom(items, before + t, |before|)
    decreases |items|
  {
    if items == [] {
      t := "";
    } else {
      var more := items[1..];
      match items[0] {
        case Begin => t := ShortMatch(more, s, i, before);
        case End =>
          t := ShortMatch(more, s, i, before);
          MatchLongEnough(more, s, i);
        case DotStar =>
          var j :| i <= j <= |s| && '\n' !in s[i..j] && MatchFrom(more, s, j);
          t := ShortMatch(more, s, j, before);
          assert (before + t)[|before|..|before|] == "";
        case _ =>
          assert s[i] in s;
          t := ShortMatch(more, s, i + 1, before + [s[i]]);
          assert before + [s[i]] + t == before + ([s[i]] + t);
          t := [s[i]] + t;
      }
    }
  }
}
