/** The interval set behind every address and port exclusion: sorted inclusive ranges with at
    least one free value between neighbours. */
module Exclusions {
  import opened Wrappers

  datatype Range = Range(min: nat, max: nat)

  /** True when at least one value lies strictly between the two bounds. */
  predicate HasGap(leftMax: nat, rightMin: nat) {
    if leftMax >= rightMin then false else leftMax + 1 < rightMin
  }

  function Min(a: nat, b: nat): nat { if a < b then a else b }

  function Max(a: nat, b: nat): nat { if a < b then b else a }

  /** The values a list of ranges stands for, whatever its order. */
  ghost predicate Covered(ranges: seq<Range>, v: int) {
    exists i :: 0 <= i < |ranges| && ranges[i].min <= v <= ranges[i].max
  }

  /** Ordered bounds, sorted ranges, and a real gap between any two of them. */
  ghost predicate Canonical(ranges: seq<Range>) {
    && (forall i :: 0 <= i < |ranges| ==> ranges[i].min <= ranges[i].max)
    && (forall i, j :: 0 <= i < j < |ranges| ==> HasGap(ranges[i].max, ranges[j].min))
  }

  ghost predicate Bounded(ranges: seq<Range>, limit: nat) {
    forall i :: 0 <= i < |ranges| ==> ranges[i].max <= limit
  }

  /** Puts [min, max] in front of `ranges`, swallowing the leading ranges it touches. */
  function Absorb(ranges: seq<Range>, min: nat, max: nat): (r: seq<Range>) {
    if ranges != [] && !HasGap(max, ranges[0].min) then
      Absorb(ranges[1..], Min(min, ranges[0].min), Max(max, ranges[0].max))
    else
      [Range(min, max)] + ranges
  }

  /** The range list after adding [min, max]. */
  function AddTo(ranges: seq<Range>, min: nat, max: nat): (r: seq<Range>) {
    if ranges != [] && HasGap(ranges[0].max, min) then
      [ranges[0]] + AddTo(ranges[1..], min, max)
    else
      Absorb(ranges, min, max)
  }

  /** The range list after a sequence of adds on an empty set. */
  function AddAll(adds: seq<Range>): (r: seq<Range>) {
    if adds == [] then [] else
      var last := adds[|adds| - 1];
      AddTo(AddAll(adds[..|adds| - 1]), last.min, last.max)
  }

  lemma {:induction false} CoveredCons(head: Range, tail: seq<Range>, v: int)
    ensures Covered([head] + tail, v) <==> head.min <= v <= head.max || Covered(tail, v)
  {
    var all := [head] + tail;
    assert all[0] == head;
    if Covered(tail, v) {
      var i :| 0 <= i < |tail| && tail[i].min <= v <= tail[i].max;
      assert all[i + 1] == tail[i];
    }
    if Covered(all, v) {
      var i :| 0 <= i < |all| && all[i].min <= v <= all[i].max;
      assert i > 0 ==> all[i] == tail[i - 1];
    }
  }

  lemma {:induction false} AbsorbIsUnion(ranges: seq<Range>, min: nat, max: nat)
    requires Canonical(ranges) && min <= max
    requires ranges != [] ==> !HasGap(ranges[0].max, min)
    ensures Canonical(Absorb(ranges, min, max))
    ensures forall v :: Covered(Absorb(ranges, min, max), v) <==> Covered(ranges, v) || min <= v <= max
  {
    if ranges != [] && !HasGap(max, ranges[0].min) {
      var head, tail := ranges[0], ranges[1..];
      if tail != [] { assert HasGap(ranges[0].max, ranges[1].min); }
      AbsorbIsUnion(tail, Min(min, head.min), Max(max, head.max));
      forall v { CoveredCons(head, tail, v); }
    } else {
      forall v { CoveredCons(Range(min, max), ranges, v); }
    }
  }

  /** Adding a range is set union, and the list stays in canonical form. */
  lemma {:induction false} AddIsUnion(ranges: seq<Range>, min: nat, max: nat)
    requires Canonical(ranges) && min <= max
    ensures Canonical(AddTo(ranges, min, max))
    ensures forall v :: Covered(AddTo(ranges, min, max), v) <==> Covered(ranges, v) || min <= v <= max
  {
    if ranges != [] && HasGap(ranges[0].max, min) {
      var head, tail := ranges[0], ranges[1..];
      var rest := AddTo(tail, min, max);
      AddIsUnion(tail, min, max);
      forall v { CoveredCons(head, tail, v); }
      forall v { CoveredCons(head, rest, v); }
      if rest != [] {
        assert Covered(rest, rest[0].min);
        assert HasGap(head.max, rest[0].min);
      }
    } else {
      AbsorbIsUnion(ranges, min, max);
    }
  }

  /** What a sequence of adds leaves behind: a canonical list covering exactly the added values. */
  lemma {:induction false} AddAllIsUnion(adds: seq<Range>)
    requires forall i :: 0 <= i < |adds| ==> adds[i].min <= adds[i].max
    ensures Canonical(AddAll(adds))
    ensures forall v :: Covered(AddAll(adds), v) <==> Covered(adds, v)
  {
    if adds != [] {
      var init, last := adds[..|adds| - 1], adds[|adds| - 1];
      AddAllIsUnion(init);
      AddIsUnion(AddAll(init), last.min, last.max);
      forall v ensures Covered(adds, v) <==> Covered(init, v) || last.min <= v <= last.max {
        if Covered(init, v) {
          var i :| 0 <= i < |init| && init[i].min <= v <= init[i].max;
        }
        if Covered(adds, v) && !(last.min <= v <= last.max) {
          var i :| 0 <= i < |adds| && adds[i].min <= v <= adds[i].max;
        }
      }
    }
  }

  /** The first range is determined by the values covered. */
  lemma {:induction false} SameFirstRange(a: seq<Range>, b: seq<Range>)
    requires Canonical(a) && Canonical(b)
    requires forall v :: Covered(a, v) <==> Covered(b, v)
    requires a != []
    ensures b != [] && a[0] == b[0]
  {
    assert Covered(a, a[0].min);
    var j :| 0 <= j < |b| && b[j].min <= a[0].min <= b[j].max;
    assert Covered(b, b[0].min);
    var i :| 0 <= i < |a| && a[i].min <= b[0].min <= a[i].max;
    SameFirstMax(a, b);
    SameFirstMax(b, a);
  }

  lemma {:induction false} SameFirstMax(a: seq<Range>, b: seq<Range>)
    requires Canonical(a) && Canonical(b)
    requires forall v :: Covered(a, v) ==> Covered(b, v)
    requires a != [] && b != [] && a[0].min == b[0].min
    ensures a[0].max <= b[0].max
  {
    if b[0].max < a[0].max {
      var v := b[0].max + 1;
      assert Covered(a, v);
      var k :| 0 <= k < |b| && b[k].min <= v <= b[k].max;
      NotInGap(b, k, v);
    }
  }

  lemma {:induction false} NotInGap(b: seq<Range>, k: nat, v: int)
    requires Canonical(b) && k < |b| && v == b[0].max + 1
    ensures !(b[k].min <= v <= b[k].max)
  {
  }

  /** The representation is canonical: two valid lists covering the same values are identical. */
  lemma {:induction false} CanonicalIsUnique(a: seq<Range>, b: seq<Range>)
    requires Canonical(a) && Canonical(b)
    requires forall v :: Covered(a, v) <==> Covered(b, v)
    ensures a == b
  {
    if a == [] {
      if b != [] {
        assert Covered(b, b[0].min);
      }
    } else {
      SameFirstRange(a, b);
      assert a == [a[0]] + a[1..] && b == [b[0]] + b[1..];
      forall v ensures Covered(a[1..], v) <==> Covered(b[1..], v) {
        CoveredCons(a[0], a[1..], v);
        CoveredCons(b[0], b[1..], v);
        NotInTail(a, v);
        NotInTail(b, v);
      }
      CanonicalIsUnique(a[1..], b[1..]);
    }
  }

  lemma {:induction false} NotInTail(a: seq<Range>, v: int)
    requires Canonical(a) && a != []
    ensures a[0].min <= v <= a[0].max ==> !Covered(a[1..], v)
  {
  }

  /** Adds that cover the same values leave the same list, in any order and however they overlap. */
  lemma {:induction false} AddOrderIsIrrelevant(adds: seq<Range>, others: seq<Range>)
    requires forall i :: 0 <= i < |adds| ==> adds[i].min <= adds[i].max
    requires forall i :: 0 <= i < |others| ==> others[i].min <= others[i].max
    requires forall v :: Covered(adds, v) <==> Covered(others, v)
    ensures AddAll(adds) == AddAll(others)
  {
    AddAllIsUnion(adds);
    AddAllIsUnion(others);
    CanonicalIsUnique(AddAll(adds), AddAll(others));
  }

  lemma {:induction false} AddToSkips(ranges: seq<Range>, position: nat, min: nat, max: nat)
    requires position <= |ranges|
    requires forall i :: 0 <= i < position ==> HasGap(ranges[i].max, min)
    requires position < |ranges| ==> !HasGap(ranges[position].max, min)
    ensures AddTo(ranges, min, max) == ranges[..position] + Absorb(ranges[position..], min, max)
  {
    if position == 0 {
    } else {
      var tail, rest := ranges[1..], Absorb(ranges[position..], min, max);
      AddToSkips(tail, position - 1, min, max);
      PrefixCons(ranges, position, rest);
    }
  }

  lemma {:induction false} PrefixCons(ranges: seq<Range>, n: nat, rest: seq<Range>)
    requires 0 < n <= |ranges|
    ensures [ranges[0]] + (ranges[1..][..n - 1] + rest) == ranges[..n] + rest
  {
  }

  /** Exclusion set over the values 0..limit of one unsigned type. */
  class ExclusionSet {
    const limit: nat
    var ranges: seq<Range>

    ghost predicate Valid()
      reads this
    {
      Canonical(ranges) && Bounded(ranges, limit)
    }

    constructor (limit: nat)
      ensures Valid() && this.limit == limit && ranges == []
    {
      this.limit := limit;
      ranges := [];
    }

    /** First range that ends at or after the value before `min` (binary search). */
    method LowerBound(min: nat) returns (position: nat)
      requires Valid()
      ensures position <= |ranges|
      ensures forall i :: 0 <= i < position ==> HasGap(ranges[i].max, min)
      ensures forall i :: position <= i < |ranges| ==> !HasGap(ranges[i].max, min)
    {
      var lo, hi := 0, |ranges|;
      while lo < hi
        invariant 0 <= lo <= hi <= |ranges|
        invariant forall i :: 0 <= i < lo ==> HasGap(ranges[i].max, min)
        invariant forall i :: hi <= i < |ranges| ==> !HasGap(ranges[i].max, min)
      {
        var mid := (lo + hi) / 2;
        if HasGap(ranges[mid].max, min) {
          lo := mid + 1;
        } else {
          hi := mid;
        }
      }
      position := lo;
    }

    /** Adds a range and merges the ranges it overlaps or touches, in place. */
    method Add(min: nat, max: nat)
      requires Valid() && min <= max <= limit
      modifies this
      ensures Valid()
      ensures ranges == AddTo(old(ranges), min, max)
      ensures forall v :: Covered(ranges, v) <==> old(Covered(ranges, v)) || min <= v <= max
    {
      var position := LowerBound(min);
      AddToSkips(ranges, position, min, max);
      AddIsUnion(ranges, min, max);
      ghost var start := ranges;
      var lo: nat, hi: nat := min, max;
      while position < |ranges| && !HasGap(hi, ranges[position].min)
        invariant position <= |ranges| && ranges[..position] == start[..position]
        invariant lo <= hi <= limit && Bounded(ranges, limit)
        invariant Absorb(ranges[position..], lo, hi) == Absorb(start[position..], min, max)
        decreases |ranges|
      {
        lo := Min(lo, ranges[position].min);
        hi := Max(hi, ranges[position].max);
        ranges := ranges[..position] + ranges[position + 1..];
      }
      ranges := ranges[..position] + [Range(lo, hi)] + ranges[position..];
      assert ranges == AddTo(start, min, max);
    }

    /** Binary search for the last range starting at or before the value. */
    method IsExcluded(value: nat) returns (excluded: bool)
      requires Valid()
      ensures excluded <==> Covered(ranges, value)
    {
      var lo, hi := 0, |ranges|;
      while lo < hi
        invariant 0 <= lo <= hi <= |ranges|
        invariant forall i :: 0 <= i < lo ==> ranges[i].min <= value
        invariant forall i :: hi <= i < |ranges| ==> value < ranges[i].min
      {
        var mid := (lo + hi) / 2;
        if value < ranges[mid].min {
          hi := mid;
        } else {
          lo := mid + 1;
        }
      }
      excluded := lo != 0 && value <= ranges[lo - 1].max;
    }

    /** First non-excluded value among `count` candidates, each obtained from the one before. */
    method NextUsable(start: nat, count: nat, next: nat -> nat) returns (found: Option<nat>)
      requires Valid()
      ensures IsFirstUsable(ranges, next, start, count, found)
    {
      var candidate := start;
      for attempt := 0 to count
        invariant candidate == Iterate(next, start, attempt)
        invariant forall j :: 0 <= j < attempt ==> Covered(ranges, Iterate(next, start, j))
      {
        var excluded := IsExcluded(candidate);
        if !excluded {
          return Some(candidate);
        }
        candidate := next(candidate);
      }
      return None;
    }
  }

  /** `found` is the first uncovered one of start, next(start), ... among `count` candidates. */
  ghost predicate IsFirstUsable(ranges: seq<Range>, next: nat -> nat, start: nat, count: nat, found: Option<nat>) {
    match found
    case None => forall i: nat :: i < count ==> Covered(ranges, Iterate(next, start, i))
    case Some(v) =>
      exists i: nat ::
        && i < count && v == Iterate(next, start, i) && !Covered(ranges, v)
        && forall j: nat :: j < i ==> Covered(ranges, Iterate(next, start, j))
  }

  function Iterate(next: nat -> nat, start: nat, times: nat): (r: nat) {
    if times == 0 then start else next(Iterate(next, start, times - 1))
  }
}
