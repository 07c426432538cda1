/** Which multicast group a bus gets, and whether two configured buses share one. */
module BusAddress {
  import opened Wrappers
  import opened Exclusions
  import opened Bytes
  import opened AddressSpace

  const LAST_ADDRESS: nat := 0xFFFF_FFFF
  const BUS_HASH_SEED: nat := 15071983

  function Address(a: byte, b: byte, c: byte, d: byte): uint32 {
    ((a * 256 + b) * 256 + c) * 256 + d
  }

  // ---- Exclusions every process starts from --------------------------------------------------

  /** The reserved top /24 of two scopes (section 9 of RFC 2365), the two /16 blocks that share
      Ethernet addresses with 224.0.0.0/16 (section 6.4 of RFC 1112), and the discovery block. */
  function BuiltIn(): seq<ConfiguredRange> {
    [Between(Address(239, 195, 255, 0), Address(239, 195, 255, 255)),
     Between(Address(239, 255, 255, 0), Address(239, 255, 255, 255)),
     Between(Address(239, 0, 0, 0), Address(239, 0, 255, 255)),
     Between(Address(239, 128, 0, 0), Address(239, 128, 255, 255)),
     Between(Address(239, 255, 0, 0), Address(239, 255, 0, 255))]
  }

  function Between(min: uint32, max: uint32): ConfiguredRange { ConfiguredRange(Some(min), Some(max)) }

  /** A configured exclusion; `None` stands for a text that is not an IPv4 address. */
  datatype ConfiguredRange = ConfiguredRange(min: Option<uint32>, max: Option<uint32>)

  datatype ExclusionError = InvalidAddress | MinAboveMax | OutsideScope

  /** Accepts an ordered range inside 239.0.0.0/8; an address that cannot be read is reported before a
      wrong order, and that before a wrong scope. */
  function Check(r: ConfiguredRange): (error: Option<ExclusionError>)
    ensures error.None? <==> && r.min.Some? && r.max.Some?
                             && Address(239, 0, 0, 0) <= r.min.value <= r.max.value <= Address(239, 255, 255, 255)
    ensures error == Some(InvalidAddress) <==> r.min.None? || r.max.None?
    ensures error == Some(MinAboveMax) <==> r.min.Some? && r.max.Some? && r.max.value < r.min.value
  {
    if r.min.None? || r.max.None? then Some(InvalidAddress)
    else if r.min.value > r.max.value then Some(MinAboveMax)
    else if r.min.value / 0x100_0000 != 239 || r.max.value / 0x100_0000 != 239 then Some(OutsideScope)
    else None
  }

  ghost predicate AllAccepted(configured: seq<ConfiguredRange>) {
    forall r :: r in configured ==> Check(r).None?
  }

  /** The range an accepted entry adds. */
  function RangeOf(r: ConfiguredRange): (range: Range)
    requires Check(r).None?
    ensures range.min <= range.max
  {
    Range(r.min.value, r.max.value)
  }

  ghost function Accepted(configured: seq<ConfiguredRange>): (r: seq<Range>)
    requires AllAccepted(configured)
    ensures |r| == |configured|
    ensures forall i :: 0 <= i < |r| ==> r[i] == RangeOf(configured[i])
  {
    if configured == [] then [] else
      var k := |configured| - 1;
      Accepted(configured[..k]) + [RangeOf(configured[k])]
  }

  lemma {:induction false} AcceptedSnoc(entries: seq<ConfiguredRange>, r: ConfiguredRange)
    requires AllAccepted(entries) && Check(r).None?
    ensures AllAccepted(entries + [r]) && Accepted(entries + [r]) == Accepted(entries) + [RangeOf(r)]
  {
  }

  /** Built-in ranges first, then the configured ones; the first bad entry is the error. */
  method MakeMulticastExclusions(configured: seq<ConfiguredRange>)
      returns (result: Result<ExclusionSet, ExclusionError>)
    ensures result.Ok? <==> AllAccepted(configured)
    ensures result.Ok? ==>
              && AllAccepted(BuiltIn() + configured)
              && result.value.Valid() && result.value.limit == LAST_ADDRESS
              && result.value.ranges == AddAll(Accepted(BuiltIn() + configured))
              && forall a: nat :: Covered(result.value.ranges, a) <==> IsReserved(a) || IsConfigured(configured, a)
    ensures result.Err? ==> IsFirstError(BuiltIn() + configured, result.error)
  {
    BuiltInIsAccepted();
    var exclusions := new ExclusionSet(LAST_ADDRESS);
    var entries, i := BuiltIn() + configured, 0;
    while i < |entries|
      invariant 0 <= i <= |entries|
      invariant fresh(exclusions) && exclusions.Valid() && exclusions.limit == LAST_ADDRESS
      invariant AllAccepted(entries[..i])
      invariant exclusions.ranges == AddAll(Accepted(entries[..i]))
    {
      if Check(entries[i]).Some? {
        return Err(Check(entries[i]).value);
      }
      assert entries[..i + 1] == entries[..i] + [entries[i]];
      AcceptedSnoc(entries[..i], entries[i]);
      AddAllSnoc(Accepted(entries[..i]), RangeOf(entries[i]));
      exclusions.Add(RangeOf(entries[i]).min, RangeOf(entries[i]).max);
      i := i + 1;
    }
    assert entries[..i] == entries;
    ExcludedIff(configured);
    return Ok(exclusions);
  }

  /** 239.0, 239.128, 239.195.255, 239.255.255 and 239.255.0. */
  ghost predicate IsReserved(a: nat) {
    && a / 0x100_0000 == 239
    && var second, third := a / 0x1_0000 % 256, a / 0x100 % 256;
       || second == 0 || second == 128 || (second == 195 && third == 255)
       || (second == 255 && (third == 255 || third == 0))
  }

  /** Inside one of the configured ranges. */
  ghost predicate IsConfigured(configured: seq<ConfiguredRange>, a: nat)
    requires AllAccepted(configured)
  {
    exists r :: r in configured && RangeOf(r).min <= a <= RangeOf(r).max
  }

  lemma {:induction false} BuiltInIsAccepted()
    ensures AllAccepted(BuiltIn())
    ensures forall a: nat :: IsConfigured(BuiltIn(), a) <==> IsReserved(a)
  {
    forall a: nat ensures IsConfigured(BuiltIn(), a) <==> IsReserved(a) {
      ReservedIsBuiltIn(a);
    }
  }

  lemma {:induction false} InBlock(a: nat, second: byte, third: byte)
    ensures Address(239, second, 0, 0) <= a <= Address(239, second, 255, 255)
            <==> a / 0x100_0000 == 239 && a / 0x1_0000 % 256 == second
    ensures Address(239, second, third, 0) <= a <= Address(239, second, third, 255)
            <==> a / 0x100_0000 == 239 && a / 0x1_0000 % 256 == second && a / 0x100 % 256 == third
  {
  }

  lemma {:induction false} ReservedIsBuiltIn(a: nat)
    requires AllAccepted(BuiltIn())
    ensures IsConfigured(BuiltIn(), a) <==> IsReserved(a)
  {
    InBlock(a, 0, 0);
    InBlock(a, 128, 0);
    InBlock(a, 195, 255);
    InBlock(a, 255, 255);
    InBlock(a, 255, 0);
    var b := BuiltIn();
    assert b[0] in b && b[1] in b && b[2] in b && b[3] in b && b[4] in b;
  }

  /** Exactly the reserved blocks and the configured ranges are excluded. */
  lemma {:induction false} ExcludedIff(configured: seq<ConfiguredRange>)
    requires AllAccepted(configured)
    ensures AllAccepted(BuiltIn() + configured)
    ensures forall a: nat :: Covered(AddAll(Accepted(BuiltIn() + configured)), a)
                             <==> IsReserved(a) || IsConfigured(configured, a)
  {
    BuiltInIsAccepted();
    var entries := BuiltIn() + configured;
    forall a: nat ensures Covered(AddAll(Accepted(entries)), a) <==> IsReserved(a) || IsConfigured(configured, a) {
      CoveredIffConfigured(entries, a);
    }
  }

  lemma {:induction false} CoveredIffConfigured(entries: seq<ConfiguredRange>, a: nat)
    requires AllAccepted(entries)
    ensures Covered(AddAll(Accepted(entries)), a) <==> IsConfigured(entries, a)
  {
    AddAllIsUnion(Accepted(entries));
  }

  ghost predicate IsFirstError(entries: seq<ConfiguredRange>, error: ExclusionError) {
    exists i :: 0 <= i < |entries| && Check(entries[i]) == Some(error) && AllAccepted(entries[..i])
  }

  lemma {:induction false} AddAllSnoc(adds: seq<Range>, r: Range)
    ensures AddAll(adds + [r]) == AddTo(AddAll(adds), r.min, r.max)
  {
  }

  // ---- The group of a bus --------------------------------------------------------------------

  /** A range as the component accepts it: inside 239.0.0.0/8, no byte range empty. */
  ghost predicate ConfigurableRange(range: seq<ByteRange>) {
    ValidRange(range) && range[0] == ByteRange(239, 239)
  }

  /** Addresses whose first four bits are 1110. */
  predicate IsMulticast(a: nat) { a / 0x1000_0000 == 14 }

  /** The part of a group address that an Ethernet multicast address carries. */
  function EthernetPart(a: nat): nat { a % 0x80_0000 }

  /** The group is the usable address whose rank is the hash reduced to the usable count. */
  method ComputeMulticastAddress(sessionId: uint32, busId: uint32, discoveryPort: nat,
                                 range: seq<ByteRange>, exclusions: ExclusionSet,
                                 hash: (nat, nat, nat, nat) -> uint32)
      returns (group: Result<uint32, string>)
    requires ConfigurableRange(range)
    requires exclusions.Valid() && exclusions.limit == LAST_ADDRESS
    ensures group.Err? <==> UsableTotal(range, exclusions.ranges) == 0
    ensures group.Ok? ==>
              && IsUsable(range, exclusions.ranges, group.value)
              && IsMulticast(group.value)
              && Rank(range, exclusions.ranges, group.value)
                 == hash(15071983, sessionId, busId, discoveryPort) % UsableTotal(range, exclusions.ranges)
  {
    var h := hash(BUS_HASH_SEED, sessionId, busId, discoveryPort);
    var count := UsableAddressCount(range, exclusions);
    if count == 0 {
      return Err("multicast address range has no usable addresses after applying exclusions");
    }
    var address := UsableAddressAtIndex(h % count, range, exclusions);
    assert address.Some?;
    FirstByteIs239(range, address.value);
    assert IsMulticast(address.value);
    return Ok(address.value);
  }

  lemma {:induction false} FirstByteIs239(range: seq<ByteRange>, a: nat)
    requires ConfigurableRange(range) && InBox(range, a)
    ensures a / 0x100_0000 == 239
  {
    var r3, r2, r1 := range[..3], range[..2], range[..1];
    assert r3[..2] == r2 && r2[..1] == r1 && r1[..0] == [];
    var a3, a2, a1 := a / 256, a / 256 / 256, a / 256 / 256 / 256;
    assert InBox(r3, a3) && InBox(r2, a2) && InBox(r1, a1) && InBox([], a1 / 256);
  }

  /** What every allocated group keeps clear of, whatever else is excluded. */
  lemma {:induction false} AllocatedGroupIsSafe(range: seq<ByteRange>, configured: seq<ConfiguredRange>, group: nat)
    requires ConfigurableRange(range)
    requires AllAccepted(BuiltIn() + configured)
    requires IsUsable(range, AddAll(Accepted(BuiltIn() + configured)), group)
    ensures forall i :: 0 <= i < |range| ==> range[i].min <= ToBytes(group, 4)[i] <= range[i].max
    ensures forall r :: r in configured ==> !(RangeOf(r).min <= group <= RangeOf(r).max)
    ensures KeepsClear(group)
    ensures ToBytes(group, 4)[1] % 128 != 0
  {
    var entries := BuiltIn() + configured;
    InBoxIsBounded(range, group);
    InBoxIsBytewise(range, group);
    FirstByteIs239(range, group);
    forall r | r in entries ensures !(RangeOf(r).min <= group <= RangeOf(r).max) {
      OutsideEntry(entries, r, group);
    }
    OutsideBuiltIn(group);
    SecondByte(group);
  }

  lemma {:induction false} OutsideEntry(entries: seq<ConfiguredRange>, r: ConfiguredRange, group: nat)
    requires AllAccepted(entries) && !Covered(AddAll(Accepted(entries)), group) && r in entries
    ensures !(RangeOf(r).min <= group <= RangeOf(r).max)
  {
    AddAllIsUnion(Accepted(entries));
    var i :| 0 <= i < |entries| && entries[i] == r;
  }

  /** Outside the reserved and discovery /24 blocks, and on an Ethernet address that no group in
      224.0.0.0/16 shares. */
  ghost predicate KeepsClear(group: nat) {
    && group / 256 != Address(239, 195, 255, 0) / 256
    && group / 256 != Address(239, 255, 255, 0) / 256
    && group / 256 != Address(239, 255, 0, 0) / 256
    && forall control: nat :: Address(224, 0, 0, 0) <= control <= Address(224, 0, 255, 255) ==>
         EthernetPart(group) != EthernetPart(control)
  }

  lemma {:induction false} OutsideBuiltIn(group: nat)
    requires group / 0x100_0000 == 239
    requires forall r :: r in BuiltIn() ==> Check(r).None? && !(RangeOf(r).min <= group <= RangeOf(r).max)
    ensures KeepsClear(group) && group / 0x1_0000 % 256 % 128 != 0
  {
    assert BuiltIn()[0] in BuiltIn() && BuiltIn()[1] in BuiltIn() && BuiltIn()[2] in BuiltIn();
    assert BuiltIn()[3] in BuiltIn() && BuiltIn()[4] in BuiltIn();
    NoAlias(group);
  }

  /** Outside 239.0.0.0/16 and 239.128.0.0/16 the low 23 bits are at least 2^16. */
  lemma {:induction false} NoAlias(group: nat)
    requires group / 0x100_0000 == 239
    requires !(Address(239, 0, 0, 0) <= group <= Address(239, 0, 255, 255))
    requires !(Address(239, 128, 0, 0) <= group <= Address(239, 128, 255, 255))
    ensures EthernetPart(group) >= 0x1_0000
    ensures group / 0x1_0000 % 256 % 128 != 0
    ensures forall control: nat :: Address(224, 0, 0, 0) <= control <= Address(224, 0, 255, 255) ==>
              EthernetPart(control) < 0x1_0000
  {
  }

  lemma {:induction false} SecondByte(group: nat)
    ensures ToBytes(group, 4)[1] == group / 0x1_0000 % 256
  {
  }

  // ---- Collisions among configured buses -----------------------------------------------------

  datatype Allocation = Allocation(bus: string, sessionId: uint32, busId: uint32, group: uint32)

  datatype Collision = Collision(first: Allocation, second: Allocation)

  ghost predicate HasGroup(allocations: seq<Allocation>, group: uint32) {
    exists i :: 0 <= i < |allocations| && allocations[i].group == group
  }

  /** The first allocation of a group in input order. */
  ghost function FirstOf(allocations: seq<Allocation>, group: uint32): (a: Allocation)
    requires HasGroup(allocations, group)
    ensures a in allocations && a.group == group
  {
    if allocations[0].group == group then allocations[0] else
      assert HasGroup(allocations[1..], group) by {
        var i :| 0 <= i < |allocations| && allocations[i].group == group;
      }
      FirstOf(allocations[1..], group)
  }

  lemma {:induction false} FirstOfSnoc(allocations: seq<Allocation>, a: Allocation, group: uint32)
    requires HasGroup(allocations + [a], group)
    ensures HasGroup(allocations, group) || a.group == group
    ensures FirstOf(allocations + [a], group) == if HasGroup(allocations, group) then FirstOf(allocations, group) else a
  {
    var longer := allocations + [a];
    var i :| 0 <= i < |longer| && longer[i].group == group;
    if allocations != [] && allocations[0].group != group {
      assert longer[1..] == allocations[1..] + [a];
      FirstOfSnoc(allocations[1..], a, group);
      if HasGroup(allocations[1..], group) {
        var j :| 0 <= j < |allocations[1..]| && allocations[1..][j].group == group;
      }
      if HasGroup(allocations, group) {
        var j :| 0 <= j < |allocations| && allocations[j].group == group;
      }
    } else if allocations != [] {
      assert allocations[0].group == group && longer[0] == allocations[0];
    }
  }

  ghost function Groups(allocations: seq<Allocation>): set<uint32> {
    set a | a in allocations :: a.group
  }

  /** Every reported pair is a group's first allocation and a later one of another bus, and every
      allocation whose bus is not that of its group's first is reported. */
  ghost predicate Reported(allocations: seq<Allocation>, collisions: seq<Collision>) {
    && (forall c :: c in collisions ==> c.second in allocations && Clashes(allocations, c))
    && (forall a :: a in allocations ==> Explained(allocations, collisions, a))
  }

  ghost predicate Clashes(allocations: seq<Allocation>, c: Collision) {
    && HasGroup(allocations, c.second.group)
    && c.first == FirstOf(allocations, c.second.group)
    && c.first.bus != c.second.bus
  }

  ghost predicate Explained(allocations: seq<Allocation>, collisions: seq<Collision>, a: Allocation) {
    && HasGroup(allocations, a.group)
    && (FirstOf(allocations, a.group).bus == a.bus || Collision(FirstOf(allocations, a.group), a) in collisions)
  }

  ghost predicate OneBusPerGroup(allocations: seq<Allocation>) {
    forall a, b :: a in allocations && b in allocations && a.group == b.group ==> a.bus == b.bus
  }

  /** No collision is reported exactly when a group never serves two buses. */
  lemma {:induction false} NoReportMeansNoSharing(allocations: seq<Allocation>, collisions: seq<Collision>)
    requires Reported(allocations, collisions)
    ensures collisions == [] <==> OneBusPerGroup(allocations)
  {
    if collisions == [] {
    } else {
      assert collisions[0] in collisions;
    }
  }

  ghost predicate Indexed(allocations: seq<Allocation>, kept: seq<Allocation>, index: map<uint32, nat>) {
    && index.Keys == Groups(allocations)
    && forall g :: g in index ==> index[g] < |kept| && HasGroup(allocations, g)
                                  && kept[index[g]] == FirstOf(allocations, g)
  }

  lemma {:induction false} IndexedStep(allocations: seq<Allocation>, a: Allocation, kept: seq<Allocation>,
                                       kept': seq<Allocation>,
                    index: map<uint32, nat>, index': map<uint32, nat>)
    requires Indexed(allocations, kept, index)
    requires kept <= kept'
    requires a.group in index ==> index' == index
    requires a.group !in index ==> kept' == kept + [a] && index' == index[a.group := |kept|]
    ensures Indexed(allocations + [a], kept', index')
  {
    var longer := allocations + [a];
    assert Groups(longer) == Groups(allocations) + {a.group} by {
      assert forall x :: x in longer <==> x in allocations || x == a;
    }
    forall g | g in index'
      ensures index'[g] < |kept'| && HasGroup(longer, g) && kept'[index'[g]] == FirstOf(longer, g)
    {
      if g in index {
        var i :| 0 <= i < |allocations| && allocations[i].group == g;
        assert longer[i].group == g;
      } else {
        assert g == a.group;
        assert !HasGroup(allocations, g) by {
        }
      }
      FirstOfSnoc(allocations, a, g);
    }
  }

  lemma {:induction false} ReportedStep(before: seq<Allocation>, a: Allocation, collisions: seq<Collision>,
                                        collisions': seq<Collision>)
    requires Reported(before, collisions)
    requires if HasGroup(before, a.group) && FirstOf(before, a.group).bus != a.bus
             then collisions' == collisions + [Collision(FirstOf(before, a.group), a)]
             else collisions' == collisions
    ensures Reported(before + [a], collisions')
  {
    var after := before + [a];
    forall g | HasGroup(before, g) || g == a.group
      ensures HasGroup(after, g)
      ensures FirstOf(after, g) == if HasGroup(before, g) then FirstOf(before, g) else a
    {
      if HasGroup(before, g) {
        var k :| 0 <= k < |before| && before[k].group == g;
        assert after[k].group == g;
      } else {
        assert after[|before|].group == g;
      }
      FirstOfSnoc(before, a, g);
    }
  }

  datatype Analysis = Analysis(kept: seq<Allocation>, index: map<uint32, nat>, collisions: seq<Collision>)

  /** Skips an allocation only where it repeats the bus of its group's first one; every other bus of a
      group is kept and reported, as often as it occurs. */
  function Analyze(allocations: seq<Allocation>): (r: Analysis)
    ensures forall g :: g in r.index ==> r.index[g] < |r.kept|
  {
    if allocations == [] then Analysis([], map[], []) else
      var last := |allocations| - 1;
      Record(Analyze(allocations[..last]), allocations[last])
  }

  function Record(done: Analysis, a: Allocation): Analysis
    requires forall g :: g in done.index ==> done.index[g] < |done.kept|
  {
    if a.group !in done.index then
      Analysis(done.kept + [a], done.index[a.group := |done.kept|], done.collisions)
    else
      var existing := done.kept[done.index[a.group]];
      if existing.bus == a.bus then done
      else Analysis(done.kept + [a], done.index, done.collisions + [Collision(existing, a)])
  }

  lemma {:induction false} AnalysisIsIndexed(allocations: seq<Allocation>)
    ensures Indexed(allocations, Analyze(allocations).kept, Analyze(allocations).index)
  {
    if allocations != [] {
      var last := |allocations| - 1;
      var before, a := allocations[..last], allocations[last];
      var done, all := Analyze(before), Analyze(allocations);
      AnalysisIsIndexed(before);
      assert before + [a] == allocations;
      IndexedStep(before, a, done.kept, all.kept, done.index, all.index);
    }
  }

  lemma {:induction false} AnalysisIsReported(allocations: seq<Allocation>)
    ensures Reported(allocations, Analyze(allocations).collisions)
  {
    if allocations != [] {
      var last := |allocations| - 1;
      var before, a := allocations[..last], allocations[last];
      var done, all := Analyze(before), Analyze(allocations);
      AnalysisIsReported(before);
      AnalysisIsIndexed(before);
      IndexDecides(before, done.kept, done.index, a.group);
      assert before + [a] == allocations;
      ReportedStep(before, a, done.collisions, all.collisions);
    }
  }

  lemma {:induction false} AnalysisCounts(allocations: seq<Allocation>)
    ensures |Analyze(allocations).kept| == |Analyze(allocations).index| + |Analyze(allocations).collisions|
    ensures forall a :: a in Analyze(allocations).kept ==> a in allocations
  {
    if allocations != [] {
      var last := |allocations| - 1;
      AnalysisCounts(allocations[..last]);
    }
  }

  /** What the analysis reports and keeps. */
  lemma {:induction false} AnalysisIsExact(allocations: seq<Allocation>)
    ensures Reported(allocations, Analyze(allocations).collisions)
    ensures Analyze(allocations).collisions == [] <==> OneBusPerGroup(allocations)
    ensures |Analyze(allocations).kept| == |Groups(allocations)| + |Analyze(allocations).collisions|
    ensures forall a :: a in Analyze(allocations).kept ==> a in allocations
  {
    AnalysisIsIndexed(allocations);
    AnalysisIsReported(allocations);
    AnalysisCounts(allocations);
    NoReportMeansNoSharing(allocations, Analyze(allocations).collisions);
  }

  /** The allocations without those that repeat the bus of their group's first one, in order. */
  ghost function WithoutRepeats(allocations: seq<Allocation>): seq<Allocation> {
    if allocations == [] then [] else
      var before, a := allocations[..|allocations| - 1], allocations[|allocations| - 1];
      WithoutRepeats(before)
      + if HasGroup(before, a.group) && FirstOf(before, a.group).bus == a.bus then [] else [a]
  }

  /** Each allocation whose group is already that of another bus, in order, with the group's first one. */
  ghost function Collisions(allocations: seq<Allocation>): seq<Collision> {
    if allocations == [] then [] else
      var before, a := allocations[..|allocations| - 1], allocations[|allocations| - 1];
      Collisions(before)
      + if HasGroup(before, a.group) && FirstOf(before, a.group).bus != a.bus
        then [Collision(FirstOf(before, a.group), a)] else []
  }

  /** The analysis keeps all but the repeats and reports all collisions, both in input order. */
  lemma {:induction false} AnalysisIsInOrder(allocations: seq<Allocation>)
    ensures Analyze(allocations).kept == WithoutRepeats(allocations)
    ensures Analyze(allocations).collisions == Collisions(allocations)
  {
    if allocations != [] {
      var before, a := allocations[..|allocations| - 1], allocations[|allocations| - 1];
      var done := Analyze(before);
      AnalysisIsInOrder(before);
      AnalysisIsIndexed(before);
      IndexDecides(before, done.kept, done.index, a.group);
    }
  }

  method AnalyzeMulticastAllocations(allocations: seq<Allocation>)
      returns (kept: seq<Allocation>, collisions: seq<Collision>)
    ensures kept == Analyze(allocations).kept && collisions == Analyze(allocations).collisions
    ensures kept == WithoutRepeats(allocations) && collisions == Collisions(allocations)
  {
    AnalysisIsInOrder(allocations);
    kept, collisions := [], [];
    var index: map<uint32, nat> := map[];
    for i := 0 to |allocations|
      invariant Analysis(kept, index, collisions) == Analyze(allocations[..i])
    {
      var a := allocations[i];
      assert allocations[..i + 1][..i] == allocations[..i];
      if a.group in index {
        var existing := kept[index[a.group]];
        if existing.bus == a.bus {
          continue;
        }
        collisions := collisions + [Collision(existing, a)];
      } else {
        index := index[a.group := |kept|];
      }
      kept := kept + [a];
    }
    assert allocations[..|allocations|] == allocations;
  }

  lemma {:induction false} IndexDecides(allocations: seq<Allocation>, kept: seq<Allocation>, index: map<uint32, nat>,
                                        group: uint32)
    requires Indexed(allocations, kept, index)
    ensures group in index <==> HasGroup(allocations, group)
  {
  }
}
