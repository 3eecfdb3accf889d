/** Redis index ranges on 64-bit integers (`redisRange` in redis.go). */
module Ranges {
  import opened Base

  /** Go offsets `v[r.0:r.1]` for something `l` long. `end++` is 64-bit arithmetic. */
  function RedisRange(l: nat, start: Int64, end: Int64, stringSemantics: bool): (r: (int, int)) {
    var s0 := if start < 0 then (if l + start < 0 then 0 else l + start) else start;
    var s := if s0 > l then l else s0;
    var e0 := if end < 0 then
        (if l + end < 0 then (if stringSemantics then 0 else -1) else l + end)
      else end;
    var e1 := Wrap(e0 + 1);
    var e := if e1 > l then l else e1;
    if e < s then (0, 0) else (s, e)
  }

  /** A Redis index counts from the end when negative. */
  function Index(l: nat, x: int): (r: int) { if x < 0 then l + x else x }

  /** Position `i` lies in the inclusive Redis range `start..end`. */
  predicate Selected(l: nat, start: int, end: int, i: nat) {
    i < l && Index(l, start) <= i <= Index(l, end)
  }

  /** The offsets are always usable as a slice expression, also when `end++` wraps around. */
  lemma RangeBounds(l: nat, start: Int64, end: Int64, stringSemantics: bool)
    ensures var (rs, re) := RedisRange(l, start, end, stringSemantics); 0 <= rs <= re <= l
  {
    var s0 := if start < 0 then (if l + start < 0 then 0 else l + start) else start;
    assert s0 >= 0;
  }

  /** Incrementing the largest integer gives the smallest. */
  lemma WrapNext()
    ensures Wrap(MAX_INT + 1) == MIN_INT
  {
    assert (MAX_INT + 1 - MIN_INT) % UINT_RANGE == 0;
  }

  /** The slice is exactly the inclusive Redis range, unless `end` is the largest integer and
      some position should have been selected: then nothing is. */
  lemma RangeExact(l: nat, start: Int64, end: Int64)
    requires l <= MAX_INT
    ensures
      var (rs, re) := RedisRange(l, start, end, false);
      (forall i: nat :: rs <= i < re <==> Selected(l, start, end, i)) <==>
      (end != MAX_INT || Index(l, start) >= l || l == 0)
  {
    WrapNext();
    var (rs, re) := RedisRange(l, start, end, false);
    if end == MAX_INT {
      assert re == 0;
      if Index(l, start) < l && l > 0 {
        var i := if Index(l, start) < 0 then 0 else Index(l, start);
        assert Selected(l, start, end, i) && !(rs <= i < re);
      }
    }
  }

  /** LTRIM s e and then LRANGE 0 -1 answers what LRANGE s e would have answered. */
  lemma TrimThenRange(xs: seq<string>, start: Int64, end: Int64)
    requires |xs| <= MAX_INT
    ensures
      var (rs, re) := RedisRange(|xs|, start, end, false);
      0 <= rs <= re <= |xs| &&
      var trimmed := xs[rs..re];
      var (ts, te) := RedisRange(|trimmed|, 0, -1, false);
      0 <= ts <= te <= |trimmed| && trimmed[ts..te] == xs[rs..re]
  {
    RangeBounds(|xs|, start, end, false);
    var (rs, re) := RedisRange(|xs|, start, end, false);
    RangeBounds(|xs[rs..re]|, 0, -1, false);
    WrapNext();
  }
}
