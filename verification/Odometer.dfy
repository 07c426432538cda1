/** The slow way to a usable address: walk the box like an odometer and take the first address
    that is not excluded. */
module Odometer {
  import opened Wrappers
  import opened Exclusions
  import opened Bytes
  import opened AddressSpace

  /** The byte list after one odometer step: the last byte that can grow grows, those after it
      restart at their minimum. */
  function NextBytes(box: seq<ByteRange>, bytes: seq<byte>): (r: seq<byte>)
    requires |box| == |bytes|
    ensures |r| == |bytes|
    decreases |box|
  {
    if box == [] then [] else
      var k := |box| - 1;
      if bytes[k] < box[k].max then bytes[..k] + [bytes[k] + 1]
      else NextBytes(box[..k], bytes[..k]) + [box[k].min]
  }

  /** For bytes in the box or not: with `k` the last byte below its maximum, that byte grows by one, those
      before it stay and those after it restart; with none, all of them restart. */
  lemma {:induction false} NextBytesCarries(box: seq<ByteRange>, bytes: seq<byte>, k: int)
    requires |box| == |bytes| && -1 <= k < |bytes|
    requires k >= 0 ==> bytes[k] < box[k].max
    requires forall j :: k < j < |bytes| ==> bytes[j] >= box[j].max
    ensures var next := NextBytes(box, bytes);
            forall j :: 0 <= j < |bytes| ==>
              next[j] == if j < k then bytes[j] else if j == k then bytes[j] + 1 else box[j].min
  {
    if k < |bytes| - 1 {
      NextBytesCarries(box[..|box| - 1], bytes[..|bytes| - 1], k);
    }
  }

  /** The same step on the address itself. */
  function NextAddress(box: seq<ByteRange>, a: nat): (r: nat)
    decreases |box|
  {
    if box == [] then a else
      var last := box[|box| - 1];
      if a % 256 < last.max then a + 1 else 256 * NextAddress(box[..|box| - 1], a / 256) + last.min
  }

  lemma {:induction false} NextBytesIsNextAddress(box: seq<ByteRange>, bytes: seq<byte>)
    requires |box| == |bytes|
    ensures FromBytes(NextBytes(box, bytes)) == NextAddress(box, FromBytes(bytes))
  {
    if box != [] {
      var k := |box| - 1;
      var a := FromBytes(bytes);
      assert a % 256 == bytes[k] && a / 256 == FromBytes(bytes[..k]);
      NextBytesIsNextAddress(box[..k], bytes[..k]);
    }
  }

  method NextMulticastAddress(current: uint32, range: seq<ByteRange>) returns (next: nat)
    requires ValidRange(range)
    ensures next == NextAddress(range, current)
  {
    var start := AddressBytes(current);
    var bytes := new byte[4](i requires 0 <= i < 4 => start[i]);
    assert bytes[..] == start;
    Advance(bytes, range);
    NextBytesIsNextAddress(range, start);
    return FromBytes(bytes[..]);
  }

  /** One step, editing the bytes in place. */
  method Advance(bytes: array<byte>, range: seq<ByteRange>)
    requires |range| == bytes.Length
    modifies bytes
    ensures bytes[..] == NextBytes(range, old(bytes[..]))
  {
    ghost var start := bytes[..];
    var index := bytes.Length - 1;
    while index >= 0
      invariant -1 <= index < bytes.Length
      invariant forall j :: 0 <= j <= index ==> bytes[j] == start[j]
      invariant forall j :: index < j < bytes.Length ==> start[j] >= range[j].max && bytes[j] == range[j].min
    {
      if bytes[index] < range[index].max {
        bytes[index] := bytes[index] + 1;
        NextBytesCarries(range, start, index);
        return;
      }
      bytes[index] := range[index].min;
      index := index - 1;
    }
    NextBytesCarries(range, start, -1);
  }

  // ---- The whole box is one cycle ------------------------------------------------------------

  function SpaceSize(box: seq<ByteRange>): (n: nat)
    requires forall i :: 0 <= i < |box| ==> box[i].min <= box[i].max
    decreases |box|
  {
    if box == [] then 1 else SpaceSize(box[..|box| - 1]) * RangeSize(box[|box| - 1])
  }

  /** The product of the byte range sizes is the number of addresses in the box. */
  lemma {:induction false} SpaceSizeIsCount(box: seq<ByteRange>)
    requires WellFormed(box)
    ensures SpaceSize(box) == Rank(box, [], Power256(|box|))
    ensures 1 <= SpaceSize(box) <= Power256(|box|)
  {
    if box == [] {
    } else {
      var init := box[..|box| - 1];
      SpaceSizeIsCount(init);
      RankShift(box, Power256(|init|));
      ProductIsPositive(SpaceSize(init), RangeSize(box[|box| - 1]));
      RankIsMonotone(box, [], 0, Power256(|box|));
    }
  }

  lemma {:induction false} ProductIsPositive(a: nat, b: nat)
    requires a > 0 && b > 0
    ensures a * b > 0
  {
  }

  method MulticastSpaceSize(range: seq<ByteRange>) returns (size: uint64)
    requires ValidRange(range)
    ensures size == Rank(range, [], Power256(4)) && size > 0
  {
    size := 1;
    var i := 0;
    while i < 4
      invariant 0 <= i <= 4 && size == SpaceSize(range[..i])
    {
      assert range[..i + 1][..i] == range[..i];
      SpaceSizeIsCount(range[..i + 1]);
      PowerIsMonotone(i + 1, 4);
      size := size * RangeSize(range[i]);
      i := i + 1;
    }
    assert range[..4] == range;
    SpaceSizeIsCount(range);
  }

  lemma {:induction false} PowerIsMonotone(m: nat, n: nat)
    requires m <= n
    ensures Power256(m) <= Power256(n)
    decreases n
  {
    if m < n {
      PowerIsMonotone(m, n - 1);
    }
  }

  /** A step stays in the box and moves to the next rank, wrapping from the last to the first. */
  lemma {:induction false} NextAddressIsCyclic(box: seq<ByteRange>, a: nat)
    requires WellFormed(box) && InBox(box, a)
    ensures InBox(box, NextAddress(box, a))
    ensures Rank(box, [], a) < SpaceSize(box)
    ensures Rank(box, [], NextAddress(box, a))
            == if Rank(box, [], a) + 1 < SpaceSize(box) then Rank(box, [], a) + 1 else 0
  {
    if box != [] {
      var init, last := box[..|box| - 1], box[|box| - 1];
      var q, b, size := a / 256, a % 256, RangeSize(last);
      var r, total := Rank(init, [], q), SpaceSize(init);
      NextAddressIsCyclic(init, q);
      RankStep(box, q, b);
      CarryIsNext(r, b - last.min, size, total);
      assert Rank(box, [], a) == r * size + (b - last.min) && SpaceSize(box) == total * size;
      if b < last.max {
        assert NextAddress(box, a) == 256 * q + (b + 1);
        RankStep(box, q, b + 1);
      } else {
        assert NextAddress(box, a) == 256 * NextAddress(init, q) + last.min;
        RankStep(box, NextAddress(init, q), last.min);
      }
    }
  }

  /** Positions r * size + d of a two-digit counter with `total` leading digits. */
  lemma {:induction false} CarryIsNext(r: nat, d: nat, size: nat, total: nat)
    requires r < total && d < size
    ensures r * size + d < total * size
    ensures d + 1 < size ==> r * size + d + 1 < total * size
    ensures d + 1 == size ==> r * size + d + 1 == (r + 1) * size
    ensures d + 1 == size ==> (r + 1 < total <==> r * size + d + 1 < total * size)
    ensures 0 * size == 0
  {
    if r + 1 < total {
      MulIsMonotone(r + 2, total, size);
    }
  }

  lemma {:induction false} MulIsMonotone(a: nat, b: nat, c: nat)
    requires a <= b
    ensures a * c <= b * c
  {
  }

  /** `next` is the odometer step of the range. */
  ghost predicate StepsThrough(range: seq<ByteRange>, next: nat -> nat) {
    forall a: nat :: next(a) == NextAddress(range, a)
  }

  /** After `i` steps the odometer stands at the rank `i` places further on. */
  lemma {:induction false} IterateIsRotation(range: seq<ByteRange>, next: nat -> nat, start: nat, i: nat)
    requires WellFormed(range) && StepsThrough(range, next)
    requires InBox(range, start) && i <= SpaceSize(range)
    ensures InBox(range, Iterate(next, start, i))
    ensures Rank(range, [], Iterate(next, start, i)) == Wrapped(Rank(range, [], start), i, SpaceSize(range))
  {
    NextAddressIsCyclic(range, start);
    if i > 0 {
      IterateIsRotation(range, next, start, i - 1);
      NextAddressIsCyclic(range, Iterate(next, start, i - 1));
    }
  }

  /** (r + i) modulo n, for r below n and i at most n. */
  function Wrapped(r: nat, i: nat, n: nat): int {
    if r + i < n then r + i else r + i - n
  }

  /** Steps from `start` to `a` along the cycle. */
  ghost function Distance(range: seq<ByteRange>, start: nat, a: nat): int {
    var s, t := Rank(range, [], start), Rank(range, [], a);
    if s <= t then t - s else t - s + Rank(range, [], Power256(|range|))
  }

  /** Every box address is reached exactly once in the first `size` positions, at its distance. */
  lemma {:induction false} ReachedAtDistance(range: seq<ByteRange>, next: nat -> nat, start: nat, a: nat)
    requires WellFormed(range) && StepsThrough(range, next)
    requires InBox(range, start) && InBox(range, a)
    ensures 0 <= Distance(range, start, a) < SpaceSize(range)
    ensures forall i: nat :: i < SpaceSize(range) ==>
              (Iterate(next, start, i) == a <==> i == Distance(range, start, a))
  {
    SpaceSizeIsCount(range);
    NextAddressIsCyclic(range, start);
    NextAddressIsCyclic(range, a);
    forall i: nat | i < SpaceSize(range)
      ensures Iterate(next, start, i) == a <==> i == Distance(range, start, a)
    {
      IterateIsRotation(range, next, start, i);
      SameRankSameAddress(range, Iterate(next, start, i), a);
    }
  }

  lemma {:induction false} SameRankSameAddress(box: seq<ByteRange>, a: nat, b: nat)
    requires InBox(box, a) && InBox(box, b)
    ensures a == b <==> Rank(box, [], a) == Rank(box, [], b)
  {
    if a < b {
      RankIsStrict(box, [], a, b);
    } else if b < a {
      RankIsStrict(box, [], b, a);
    }
  }

  /** The first usable address in cyclic order from an in-range candidate; none exactly when the
      count of usable addresses is zero. */
  method UsableMulticastAddress(candidate: uint32, range: seq<ByteRange>, exclusions: ExclusionSet)
      returns (address: Option<nat>)
    requires ValidRange(range)
    requires exclusions.Valid() && exclusions.limit < 0x1_0000_0000
    ensures IsFirstAlong(range, exclusions.ranges, candidate, address)
    ensures address.Some? ==> !Covered(exclusions.ranges, address.value)
    ensures InBox(range, candidate) ==> (address.None? <==> UsableTotal(range, exclusions.ranges) == 0)
    ensures InBox(range, candidate) && address.Some? ==>
              && IsUsable(range, exclusions.ranges, address.value)
              && forall a: nat :: IsUsable(range, exclusions.ranges, a) ==>
                   Distance(range, candidate, address.value) <= Distance(range, candidate, a)
  {
    var size := MulticastSpaceSize(range);
    var next := (a: nat) => NextAddress(range, a);
    address := exclusions.NextUsable(candidate, size, next);
    assert StepsThrough(range, next);
    if InBox(range, candidate) {
      ScanIsFirst(range, exclusions.ranges, next, candidate, size, address);
    }
  }

  /** `found` is the first address not excluded among as many odometer steps from the candidate, in the
      range or not, as the range has addresses. */
  ghost predicate IsFirstAlong(range: seq<ByteRange>, excluded: seq<Range>, candidate: nat, found: Option<nat>) {
    exists next: nat -> nat ::
      StepsThrough(range, next) && IsFirstUsable(excluded, next, candidate, Rank(range, [], Power256(4)), found)
  }

  /** What the bounded scan promises, read along the cycle. */
  lemma {:induction false} ScanIsFirst(range: seq<ByteRange>, excluded: seq<Range>, next: nat -> nat, start: nat,
                                       size: nat,
                    found: Option<nat>)
    requires ValidRange(range) && StepsThrough(range, next)
    requires InBox(range, start) && size == Rank(range, [], Power256(4))
    requires IsFirstUsable(excluded, next, start, size, found)
    ensures found.None? <==> UsableTotal(range, excluded) == 0
    ensures found.Some? ==> IsUsable(range, excluded, found.value)
    ensures found.Some? ==> forall a: nat :: IsUsable(range, excluded, a) ==>
                              Distance(range, start, found.value) <= Distance(range, start, a)
  {
    SpaceSizeIsCount(range);
    if found.Some? {
      var i: nat :| i < size && found.value == Iterate(next, start, i) && !Covered(excluded, found.value)
                 && forall j: nat :: j < i ==> Covered(excluded, Iterate(next, start, j));
      IterateIsRotation(range, next, start, i);
      ReachedAtDistance(range, next, start, found.value);
      forall a: nat | IsUsable(range, excluded, a)
        ensures Distance(range, start, found.value) <= Distance(range, start, a)
      {
        ReachedAtDistance(range, next, start, a);
        var d: nat := Distance(range, start, a);
        assert Iterate(next, start, d) == a;
      }
      InBoxIsBounded(range, found.value);
      RankIsStrict(range, excluded, found.value, Power256(4));
    } else if UsableTotal(range, excluded) > 0 {
      var a := EveryRankIsTaken(range, excluded, Power256(4), 0);
      ReachedAtDistance(range, next, start, a);
      assert Iterate(next, start, Distance(range, start, a)) == a;
      assert false;
    }
  }
}
