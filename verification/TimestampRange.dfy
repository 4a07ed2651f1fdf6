/** util::ctime_timestamp_range: a [min, max] pair in which the epoch (zero) stands for "nothing seen". */
module TimestampRange {

  datatype Range = Range(min: int, max: int) {
    predicate IsEmpty() {
      min == 0
    }
  }

  const EMPTY := Range(0, 0)

  /** The two-argument constructor: a missing bound is taken from the other one. */
  function FromBounds(lo: int, hi: int): Range {
    Range(if lo == 0 then hi else lo, if hi == 0 then lo else hi)
  }

  function AddTimestamp(r: Range, t: int): Range {
    if t == 0 then r
    else if r.IsEmpty() then Range(t, t)
    else Range(if t < r.min then t else r.min, if r.max < t then t else r.max)
  }

  function AddRange(r: Range, s: Range): Range {
    if s.IsEmpty() then r
    else if r.IsEmpty() then s
    else Range(if s.min < r.min then s.min else r.min, if r.max < s.max then s.max else r.max)
  }

  /** The range obtained by feeding a list of timestamps one by one. */
  function RangeOf(ts: seq<int>): Range {
    if ts == [] then EMPTY else AddTimestamp(RangeOf(ts[..|ts| - 1]), ts[|ts| - 1])
  }

  /** r is the true minimum and maximum of the non-zero members of ts, or empty if there are none. */
  ghost predicate Exact(r: Range, ts: seq<int>) {
    if forall i :: 0 <= i < |ts| ==> ts[i] == 0 then
      r == EMPTY
    else
      && r.min != 0 && r.min in ts
      && r.max != 0 && r.max in ts
      && forall i :: 0 <= i < |ts| && ts[i] != 0 ==> r.min <= ts[i] <= r.max
  }

  lemma {:induction false} RangeOfIsExact(ts: seq<int>)
    ensures Exact(RangeOf(ts), ts)
  {
    if ts != [] {
      var k := |ts| - 1;
      RangeOfIsExact(ts[..k]);
      assert forall i :: 0 <= i < k ==> ts[..k][i] == ts[i];
      var r := RangeOf(ts[..k]);
      assert r.min in ts[..k] ==> r.min in ts;
      assert r.max in ts[..k] ==> r.max in ts;
      if forall i :: 0 <= i < |ts| ==> ts[i] == 0 {
        assert RangeOf(ts) == EMPTY;
      } else if ts[k] == 0 {
        assert exists i :: 0 <= i < k && ts[..k][i] != 0;
      } else {
        assert ts[k] in ts;
      }
    }
  }

  /** Two exact ranges of the same list are equal, so Exact determines the range. */
  lemma ExactIsUnique(r: Range, s: Range, ts: seq<int>)
    requires Exact(r, ts) && Exact(s, ts)
    ensures r == s
  {
    if r != EMPTY {
      var i :| 0 <= i < |ts| && ts[i] == r.min;
      var j :| 0 <= j < |ts| && ts[j] == s.min;
      var k :| 0 <= k < |ts| && ts[k] == r.max;
      var l :| 0 <= l < |ts| && ts[l] == s.max;
    }
  }

  /** Merging two ranges is the range of the two lists one after the other. */
  lemma {:induction false} RangeOfConcat(a: seq<int>, b: seq<int>)
    ensures RangeOf(a + b) == AddRange(RangeOf(a), RangeOf(b))
  {
    if b == [] {
      assert a + b == a;
    } else {
      var k := |b| - 1;
      assert (a + b)[..|a + b| - 1] == a + b[..k];
      RangeOfConcat(a, b[..k]);
      RangeOfIsExact(a);
      RangeOfIsExact(b[..k]);
    }
  }

  /** Saving the two bounds and rebuilding the range from them loses nothing. */
  lemma BoundsRoundTrip(ts: seq<int>)
    ensures FromBounds(RangeOf(ts).min, RangeOf(ts).max) == RangeOf(ts)
  {
    RangeOfIsExact(ts);
  }

  /** The mutable object of the source, tied to the list of timestamps it has been fed. */
  class CtimeTimestampRange {
    var minTimestamp: int
    var maxTimestamp: int
    ghost var seen: seq<int>

    ghost predicate Valid()
      reads this
    {
      Range(minTimestamp, maxTimestamp) == RangeOf(seen)
    }

    constructor ()
      ensures Valid() && seen == []
    {
      minTimestamp, maxTimestamp := 0, 0;
      seen := [];
    }

    method Clear()
      modifies this
      ensures Valid() && seen == []
    {
      minTimestamp, maxTimestamp := 0, 0;
      seen := [];
    }

    method AddOne(t: int)
      requires Valid()
      modifies this
      ensures Valid() && seen == old(seen) + [t]
      ensures Exact(Range(minTimestamp, maxTimestamp), seen)
    {
      ghost var all := seen + [t];
      assert all[..|all| - 1] == seen;
      seen := all;
      RangeOfIsExact(all);
      if t == 0 {
        return;
      }
      if minTimestamp == 0 {
        minTimestamp, maxTimestamp := t, t;
        return;
      }
      minTimestamp := if t < minTimestamp then t else minTimestamp;
      maxTimestamp := if maxTimestamp < t then t else maxTimestamp;
    }

    method Add(range: CtimeTimestampRange)
      requires Valid() && range.Valid()
      modifies this
      ensures Valid() && seen == old(seen + range.seen)
      ensures Exact(Range(minTimestamp, maxTimestamp), seen)
    {
      ghost var all := seen + range.seen;
      RangeOfConcat(seen, range.seen);
      RangeOfIsExact(all);
      RangeOfIsExact(seen);
      RangeOfIsExact(range.seen);
      if range.minTimestamp == 0 {
      } else if minTimestamp == 0 {
        minTimestamp, maxTimestamp := range.minTimestamp, range.maxTimestamp;
      } else {
        minTimestamp := if range.minTimestamp < minTimestamp then range.minTimestamp else minTimestamp;
        maxTimestamp := if maxTimestamp < range.maxTimestamp then range.maxTimestamp else maxTimestamp;
      }
      seen := all;
    }
  }
}
