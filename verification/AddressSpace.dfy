/** Counting and selecting IPv4 multicast addresses: a box of addresses given byte by byte, with
    an exclusion set taken out of it. */
module AddressSpace {
  import opened Wrappers
  import opened Bytes
  import opened Exclusions

  datatype ByteRange = ByteRange(min: byte, max: byte)

  ghost predicate WellFormed(box: seq<ByteRange>) {
    forall i :: 0 <= i < |box| ==> box[i].min <= box[i].max
  }

  /** A configured range: four byte ranges, none of them empty. */
  ghost predicate ValidRange(range: seq<ByteRange>) {
    |range| == 4 && WellFormed(range)
  }

  /** The `n` low-order bytes of an address, most significant first. */
  function ToBytes(a: nat, n: nat): (bytes: seq<byte>)
    ensures |bytes| == n
    decreases n
  {
    if n == 0 then [] else ToBytes(a / 256, n - 1) + [a % 256]
  }

  function FromBytes(bytes: seq<byte>): (a: nat) {
    if bytes == [] then 0 else 256 * FromBytes(bytes[..|bytes| - 1]) + bytes[|bytes| - 1]
  }

  /** Address `a` lies in the box: each of its bytes lies in the matching byte range. */
  ghost predicate InBox(box: seq<ByteRange>, a: nat)
    decreases |box|
  {
    if box == [] then a == 0 else
      var last := box[|box| - 1];
      last.min <= a % 256 <= last.max && InBox(box[..|box| - 1], a / 256)
  }

  ghost predicate IsUsable(box: seq<ByteRange>, excluded: seq<Range>, a: nat) {
    InBox(box, a) && !Covered(excluded, a)
  }

  /** The usable addresses below `n`, as a set. */
  ghost function UsableBelow(box: seq<ByteRange>, excluded: seq<Range>, n: nat): set<int> {
    set a: int | 0 <= a < n && IsUsable(box, excluded, a)
  }

  /** How many usable addresses lie below `n`. */
  ghost function Rank(box: seq<ByteRange>, excluded: seq<Range>, n: nat): nat {
    if n == 0 then 0 else Rank(box, excluded, n - 1) + if IsUsable(box, excluded, n - 1) then 1 else 0
  }

  // ---- Bytes ---------------------------------------------------------------------------------

  lemma {:induction false} BytesRoundTrip(a: nat, n: nat, bound: nat)
    requires a < bound && bound == Power256(n)
    ensures FromBytes(ToBytes(a, n)) == a
  {
    if n > 0 {
      BytesRoundTrip(a / 256, n - 1, Power256(n - 1));
    }
  }

  lemma {:induction false} PrefixIsSmaller(bytes: seq<byte>, i: nat)
    requires i <= |bytes|
    ensures FromBytes(bytes[..i]) <= FromBytes(bytes)
  {
    if i < |bytes| {
      var init := bytes[..|bytes| - 1];
      PrefixIsSmaller(init, i);
      assert init[..i] == bytes[..i];
    } else {
      assert bytes[..i] == bytes;
    }
  }

  /** The recursive definition of the box agrees with the byte-wise one. */
  lemma {:induction false} InBoxIsBytewise(box: seq<ByteRange>, a: nat)
    requires a < Power256(|box|)
    ensures InBox(box, a) <==>
            forall i :: 0 <= i < |box| ==> box[i].min <= ToBytes(a, |box|)[i] <= box[i].max
  {
    if box != [] {
      var n := |box| - 1;
      InBoxIsBytewise(box[..n], a / 256);
    }
  }

  lemma {:induction false} InBoxIsBounded(box: seq<ByteRange>, a: nat)
    requires InBox(box, a)
    ensures a < Power256(|box|)
  {
    if box != [] {
      InBoxIsBounded(box[..|box| - 1], a / 256);
    }
  }

  // ---- Rank ----------------------------------------------------------------------------------

  /** Rank is the cardinality of the set it counts. */
  lemma {:induction false} RankIsCardinality(box: seq<ByteRange>, excluded: seq<Range>, n: nat)
    ensures Rank(box, excluded, n) == |UsableBelow(box, excluded, n)|
  {
    if n > 0 {
      RankIsCardinality(box, excluded, n - 1);
      OneMoreUsable(box, excluded, n);
    }
  }

  lemma {:induction false} OneMoreUsable(box: seq<ByteRange>, excluded: seq<Range>, n: nat)
    requires n > 0
    ensures |UsableBelow(box, excluded, n)|
            == |UsableBelow(box, excluded, n - 1)| + if IsUsable(box, excluded, n - 1) then 1 else 0
  {
    var below, all := UsableBelow(box, excluded, n - 1), UsableBelow(box, excluded, n);
    assert all == if IsUsable(box, excluded, n - 1) then below + {n - 1} else below;
  }

  lemma {:induction false} RankIsMonotone(box: seq<ByteRange>, excluded: seq<Range>, m: nat, n: nat)
    requires m <= n
    ensures Rank(box, excluded, m) <= Rank(box, excluded, n) <= Rank(box, excluded, m) + (n - m)
    decreases n - m
  {
    if m < n {
      RankIsMonotone(box, excluded, m, n - 1);
    }
  }

  lemma {:induction false} RankDependsOnCoverage(box: seq<ByteRange>, a: seq<Range>, b: seq<Range>, n: nat)
    requires forall v :: 0 <= v < n ==> (Covered(a, v) <==> Covered(b, v))
    ensures Rank(box, a, n) == Rank(box, b, n)
  {
    if n > 0 {
      RankDependsOnCoverage(box, a, b, n - 1);
    }
  }

  /** Taking out one more, disjoint, range removes exactly the box addresses inside it. */
  lemma {:induction false} RankWithoutRange(box: seq<ByteRange>, excluded: seq<Range>, r: Range, n: nat)
    requires r.min <= r.max
    requires forall v :: r.min <= v <= r.max ==> !Covered(excluded, v)
    ensures Rank(box, excluded + [r], n)
            == Rank(box, excluded, n) - (Rank(box, [], Min(r.max + 1, n)) - Rank(box, [], Min(r.min, n)))
  {
    if n > 0 {
      RankWithoutRange(box, excluded, r, n - 1);
      CoveredSnoc(excluded, r, n - 1);
    }
  }

  lemma {:induction false} CoveredSnoc(ranges: seq<Range>, r: Range, v: int)
    ensures Covered(ranges + [r], v) <==> Covered(ranges, v) || r.min <= v <= r.max
  {
    var all := ranges + [r];
    if r.min <= v <= r.max {
      assert all[|ranges|] == r;
    }
    if Covered(ranges, v) {
      var i :| 0 <= i < |ranges| && ranges[i].min <= v <= ranges[i].max;
      assert all[i] == ranges[i];
    }
  }

  // ---- One digit at a time -------------------------------------------------------------------

  function RangeSize(r: ByteRange): nat
    requires r.min <= r.max
  {
    r.max - r.min + 1
  }

  /** How many values of a byte range lie below `d`. */
  function DigitsBelow(r: ByteRange, d: nat): nat
    requires r.min <= r.max
  {
    if d <= r.min then 0 else if d <= r.max then d - r.min else RangeSize(r)
  }

  lemma {:induction false} RankDigit(box: seq<ByteRange>, q: nat, d: nat)
    requires WellFormed(box) && box != [] && d <= 256
    ensures Rank(box, [], 256 * q + d) == Rank(box, [], 256 * q)
            + if InBox(box[..|box| - 1], q) then DigitsBelow(box[|box| - 1], d) else 0
  {
    if d > 0 {
      RankDigit(box, q, d - 1);
      var a := 256 * q + d - 1;
      assert a % 256 == d - 1 && a / 256 == q;
      assert !Covered([], a);
    }
  }

  lemma {:induction false} RankShift(box: seq<ByteRange>, q: nat)
    requires WellFormed(box) && box != []
    ensures Rank(box, [], 256 * q) == Rank(box[..|box| - 1], [], q) * RangeSize(box[|box| - 1])
  {
    if q > 0 {
      var init, size := box[..|box| - 1], RangeSize(box[|box| - 1]);
      RankShift(box, q - 1);
      RankDigit(box, q - 1, 256);
      MulSuccessor(Rank(init, [], q - 1), size);
    }
  }

  lemma {:induction false} MulSuccessor(a: nat, b: nat)
    ensures (a + 1) * b == a * b + b
  {
  }

  /** The digit recurrence: the rank of a number from the rank of its leading digits. */
  lemma {:induction false} RankStep(box: seq<ByteRange>, q: nat, d: byte)
    requires WellFormed(box) && box != []
    ensures Rank(box, [], 256 * q + d)
            == Rank(box[..|box| - 1], [], q) * RangeSize(box[|box| - 1])
               + if InBox(box[..|box| - 1], q) then DigitsBelow(box[|box| - 1], d) else 0
    ensures InBox(box, 256 * q + d)
            <==> InBox(box[..|box| - 1], q) && box[|box| - 1].min <= d <= box[|box| - 1].max
  {
    RankShift(box, q);
    RankDigit(box, q, d);
    InBoxStep(box, q, d);
  }

  lemma {:induction false} InBoxStep(box: seq<ByteRange>, q: nat, d: byte)
    requires box != []
    ensures InBox(box, 256 * q + d)
            <==> InBox(box[..|box| - 1], q) && box[|box| - 1].min <= d <= box[|box| - 1].max
  {
    var a := 256 * q + d;
    assert a / 256 == q && a % 256 == d;
  }

  // ---- Counting ------------------------------------------------------------------------------

  /** One digit: prefixes already below the limit take any digit, the prefix equal to the limit
      takes the smaller digits, and stays equal when the limit's digit is allowed. */
  method ExtendPrefixes(byteRange: ByteRange, limitByte: byte, loose: uint64, tight: uint64)
      returns (nextLoose: uint64, nextTight: uint64)
    requires byteRange.min <= byteRange.max
    requires tight <= 1 && loose * RangeSize(byteRange) <= 0xFFFF_FFFF
    ensures nextLoose == loose * RangeSize(byteRange) + if tight == 1 then DigitsBelow(byteRange, limitByte) else 0
    ensures nextTight == if byteRange.min <= limitByte <= byteRange.max then tight else 0
  {
    nextLoose, nextTight := ExtendTight(byteRange, limitByte, loose * RangeSize(byteRange), tight);
  }

  /** The byte values tried one after the other, up to the limit's. */
  method ExtendTight(byteRange: ByteRange, limitByte: byte, carried: uint64, tight: uint64)
      returns (nextLoose: uint64, nextTight: uint64)
    requires byteRange.min <= byteRange.max
    requires tight <= 1 && carried <= 0xFFFF_FFFF
    ensures nextLoose == carried + if tight == 1 then DigitsBelow(byteRange, limitByte) else 0
    ensures nextTight == if byteRange.min <= limitByte <= byteRange.max then tight else 0
  {
    nextLoose, nextTight := carried, 0;
    var value := byteRange.min;
    while value <= byteRange.max
      invariant byteRange.min <= value <= byteRange.max + 1
      invariant value > byteRange.min ==> value - 1 <= limitByte
      invariant nextLoose == carried + if tight == 1 then DigitsBelow(byteRange, Min(value, limitByte)) else 0
      invariant nextTight == if byteRange.min <= limitByte < value then tight else 0
    {
      if value < limitByte {
        nextLoose := nextLoose + tight;
      } else if value == limitByte {
        nextTight := nextTight + tight;
      } else {
        break;
      }
      value := value + 1;
    }
  }

  /** The four bytes of an address, most significant first. */
  method AddressBytes(address: uint32) returns (bytes: seq<byte>)
    ensures |bytes| == 4 && bytes == ToBytes(address, 4) && FromBytes(bytes) == address
  {
    BytesRoundTrip(address, 4, 0x1_0000_0000);
    return ToBytes(address, 4);
  }

  /** Digit-by-digit count of the box addresses up to and including `limit`. */
  method CountAddressesUpTo(range: seq<ByteRange>, limit: uint32) returns (count: uint64)
    requires ValidRange(range)
    ensures count == Rank(range, [], limit + 1)
  {
    var limitBytes := AddressBytes(limit);
    var loose: uint64, tight: uint64 := 0, 1;
    var index := 0;
    while index < 4
      invariant 0 <= index <= 4 && Counted(range, limitBytes, index, loose, tight)
    {
      var byteRange, limitByte := range[index], limitBytes[index];
      CountedBounds(range, limitBytes, index, loose, tight);
      ghost var oldLoose, oldTight := loose, tight;
      loose, tight := ExtendPrefixes(byteRange, limitByte, loose, tight);
      CountedStep(range, limitBytes, index, oldLoose, oldTight, loose, tight);
      index := index + 1;
    }
    CountedAll(range, limitBytes, loose, tight);
    return loose + tight;
  }

  /** After `index` digits: prefixes of the box below the limit's prefix, and equal to it. */
  ghost predicate Counted(range: seq<ByteRange>, limitBytes: seq<byte>, index: nat, loose: int, tight: int)
    requires index <= |range| == |limitBytes|
  {
    var q, box := FromBytes(limitBytes[..index]), range[..index];
    loose == Rank(box, [], q) && tight == if InBox(box, q) then 1 else 0
  }

  lemma {:induction false} CountedBounds(range: seq<ByteRange>, limitBytes: seq<byte>, index: nat, loose: nat,
                                         tight: nat)
    requires WellFormed(range) && index < |range| == |limitBytes|
    requires Counted(range, limitBytes, index, loose, tight)
    ensures tight <= 1 && loose * RangeSize(range[index]) <= FromBytes(limitBytes)
  {
    var q, longer := FromBytes(limitBytes[..index]), range[..index + 1];
    assert longer[..index] == range[..index];
    assert limitBytes[..index + 1][..index] == limitBytes[..index];
    PrefixIsSmaller(limitBytes, index + 1);
    RankShift(longer, q);
    RankIsMonotone(longer, [], 0, 256 * q);
  }

  lemma {:induction false} CountedStep(range: seq<ByteRange>, limitBytes: seq<byte>, index: nat, loose: nat, tight: nat,
                    nextLoose: nat, nextTight: nat)
    requires WellFormed(range) && index < |range| == |limitBytes|
    requires Counted(range, limitBytes, index, loose, tight)
    requires nextLoose == loose * RangeSize(range[index])
                          + if tight == 1 then DigitsBelow(range[index], limitBytes[index]) else 0
    requires nextTight == if range[index].min <= limitBytes[index] <= range[index].max then tight else 0
    ensures Counted(range, limitBytes, index + 1, nextLoose, nextTight)
  {
    var q, longer := FromBytes(limitBytes[..index]), range[..index + 1];
    assert longer[..index] == range[..index];
    assert limitBytes[..index + 1][..index] == limitBytes[..index];
    assert FromBytes(limitBytes[..index + 1]) == 256 * q + limitBytes[index];
    RankStep(longer, q, limitBytes[index]);
  }

  lemma {:induction false} CountedAll(range: seq<ByteRange>, limitBytes: seq<byte>, loose: nat, tight: nat)
    requires |range| == |limitBytes| && Counted(range, limitBytes, |range|, loose, tight)
    ensures loose + tight == Rank(range, [], FromBytes(limitBytes) + 1) <= FromBytes(limitBytes) + 1
  {
    RankIsMonotone(range, [], 0, FromBytes(limitBytes) + 1);
    assert range[..|range|] == range && limitBytes[..|range|] == limitBytes;
  }

  /** Box addresses in [min, max]; zero when the interval is empty. */
  method CountAddressesInInterval(range: seq<ByteRange>, min: uint32, max: uint32) returns (count: uint64)
    requires ValidRange(range)
    ensures count == if min > max then 0 else Rank(range, [], max + 1) - Rank(range, [], min)
  {
    if min > max {
      return 0;
    }
    var upToMax := CountAddressesUpTo(range, max);
    if min == 0 {
      return upToMax;
    }
    var below := CountAddressesUpTo(range, min - 1);
    RankIsMonotone(range, [], min, max + 1);
    return upToMax - below;
  }

  /** Usable addresses up to and including `limit`: the box minus each stored range, one by one.
      Every intermediate count is a uint64, so no subtraction goes below zero. */
  method CountUsableUpTo(range: seq<ByteRange>, exclusions: ExclusionSet, limit: uint32) returns (count: uint64)
    requires ValidRange(range)
    requires exclusions.Valid() && exclusions.limit < 0x1_0000_0000
    ensures count == Rank(range, exclusions.ranges, limit + 1)
  {
    count := CountAddressesUpTo(range, limit);
    var ranges, k := exclusions.ranges, 0;
    while k < |ranges| && ranges[k].min <= limit
      invariant k <= |ranges|
      invariant count == Rank(range, ranges[..k], limit + 1)
    {
      var top := Min(ranges[k].max, limit);
      var inside := CountAddressesInInterval(range, ranges[k].min, top);
      DisjointFromPrefix(ranges, k);
      RankWithoutRange(range, ranges[..k], ranges[k], limit + 1);
      assert ranges[..k] + [ranges[k]] == ranges[..k + 1];
      count := count - inside;
      k := k + 1;
    }
    forall v | 0 <= v < limit + 1 ensures Covered(ranges[..k], v) <==> Covered(ranges, v) {
      PrefixCoverage(ranges, k, v);
    }
    RankDependsOnCoverage(range, ranges[..k], ranges, limit + 1);
  }

  lemma {:induction false} DisjointFromPrefix(ranges: seq<Range>, k: nat)
    requires Canonical(ranges) && k < |ranges|
    ensures forall v :: ranges[k].min <= v <= ranges[k].max ==> !Covered(ranges[..k], v)
  {
  }

  /** Below the start of range `k`, only the ranges before it matter. */
  lemma {:induction false} PrefixCoverage(ranges: seq<Range>, k: nat, v: int)
    requires Canonical(ranges) && k <= |ranges|
    requires k < |ranges| ==> v < ranges[k].min
    ensures Covered(ranges[..k], v) <==> Covered(ranges, v)
  {
  }

  /** All usable addresses of a four-byte range. */
  ghost function UsableTotal(range: seq<ByteRange>, excluded: seq<Range>): nat {
    Rank(range, excluded, Power256(4))
  }

  method UsableAddressCount(range: seq<ByteRange>, exclusions: ExclusionSet) returns (count: uint64)
    requires ValidRange(range)
    requires exclusions.Valid() && exclusions.limit < 0x1_0000_0000
    ensures count == UsableTotal(range, exclusions.ranges)
    ensures count == |UsableBelow(range, exclusions.ranges, Power256(4))|
  {
    count := CountUsableUpTo(range, exclusions, 0xFFFF_FFFF);
    RankIsCardinality(range, exclusions.ranges, Power256(4));
  }

  // ---- Selecting -----------------------------------------------------------------------------

  /** Binary search for the usable address with exactly `index` usable addresses below it. */
  method UsableAddressAtIndex(index: uint64, range: seq<ByteRange>, exclusions: ExclusionSet)
      returns (address: Option<uint32>)
    requires ValidRange(range)
    requires exclusions.Valid() && exclusions.limit < 0x1_0000_0000
    ensures address.None? <==> index >= UsableTotal(range, exclusions.ranges)
    ensures address.Some? ==>
              && IsUsable(range, exclusions.ranges, address.value)
              && Rank(range, exclusions.ranges, address.value) == index
  {
    var total := UsableAddressCount(range, exclusions);
    if index >= total {
      return None;
    }
    var lower: uint32, upper: uint32 := 0, 0xFFFF_FFFF;
    while lower < upper
      invariant lower <= upper
      invariant Rank(range, exclusions.ranges, lower) <= index < Rank(range, exclusions.ranges, upper + 1)
    {
      var distance: uint32 := upper - lower;
      var candidate: uint32 := lower + distance / 2;
      var count := CountUsableUpTo(range, exclusions, candidate);
      if count > index {
        upper := candidate;
      } else {
        lower := candidate + 1;
      }
    }
    var excluded := exclusions.IsExcluded(lower);
    assert !excluded;
    return Some(lower);
  }

  /** Distinct usable addresses have distinct ranks, in the same order. */
  lemma {:induction false} RankIsStrict(box: seq<ByteRange>, excluded: seq<Range>, a: nat, b: nat)
    requires IsUsable(box, excluded, a) && a < b
    ensures Rank(box, excluded, a) < Rank(box, excluded, b)
  {
    RankIsMonotone(box, excluded, a + 1, b);
  }

  ghost predicate RankIsTaken(box: seq<ByteRange>, excluded: seq<Range>, k: nat) {
    exists a: nat :: IsUsable(box, excluded, a) && Rank(box, excluded, a) == k
  }

  lemma {:induction false} EveryRankIsTaken(box: seq<ByteRange>, excluded: seq<Range>, n: nat, k: nat)
      returns (a: nat)
    requires k < Rank(box, excluded, n)
    ensures a < n && IsUsable(box, excluded, a) && Rank(box, excluded, a) == k
  {
    if k < Rank(box, excluded, n - 1) {
      a := EveryRankIsTaken(box, excluded, n - 1, k);
    } else {
      a := n - 1;
    }
  }

  /** Rank is a strictly increasing bijection from the usable addresses onto [0, total); together
      with the contract of UsableAddressAtIndex, selection is its inverse. */
  lemma {:induction false} RankIsABijection(range: seq<ByteRange>, excluded: seq<Range>)
    requires |range| == 4
    ensures forall a: nat, b: nat ::
              IsUsable(range, excluded, a) && IsUsable(range, excluded, b) ==>
                (a < b <==> Rank(range, excluded, a) < Rank(range, excluded, b))
    ensures forall a: nat :: IsUsable(range, excluded, a) ==> Rank(range, excluded, a) < UsableTotal(range, excluded)
    ensures forall k: nat :: k < UsableTotal(range, excluded) ==> RankIsTaken(range, excluded, k)
  {
    forall a: nat, b: nat | IsUsable(range, excluded, a) && IsUsable(range, excluded, b)
      ensures a < b <==> Rank(range, excluded, a) < Rank(range, excluded, b)
    {
      if a < b {
        RankIsStrict(range, excluded, a, b);
      } else if b < a {
        RankIsStrict(range, excluded, b, a);
      }
    }
    forall a: nat | IsUsable(range, excluded, a)
      ensures Rank(range, excluded, a) < UsableTotal(range, excluded)
    {
      InBoxIsBounded(range, a);
      RankIsStrict(range, excluded, a, Power256(4));
    }
    forall k: nat | k < UsableTotal(range, excluded)
      ensures RankIsTaken(range, excluded, k)
    {
      var a := EveryRankIsTaken(range, excluded, Power256(4), k);
    }
  }

  /** The selected address depends only on which values are excluded, not on how they were added. */
  lemma {:induction false} SelectionDependsOnCoverage(range: seq<ByteRange>, x: seq<Range>, y: seq<Range>, a: nat,
                                                      b: nat)
    requires forall v :: Covered(x, v) <==> Covered(y, v)
    requires IsUsable(range, x, a) && IsUsable(range, y, b)
    requires Rank(range, x, a) == Rank(range, y, b)
    ensures a == b
  {
    RankDependsOnCoverage(range, x, y, b);
    if a < b {
      RankIsStrict(range, x, a, b);
    } else if b < a {
      RankIsStrict(range, x, b, a);
    }
  }
}
