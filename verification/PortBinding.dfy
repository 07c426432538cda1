/** Binding one port of a configured range: excluded ports are left out, the others are tried in
    cyclic order from an arbitrary start until one binds. */
module PortBinding {
  import opened Exclusions
  import opened Wrappers

  type Port = p: nat | p < 0x1_0000

  datatype ProbePortRange = ProbePortRange(min: Port, max: Port)

  datatype PortExclusionSources =
    PortExclusionSources(builtIn: ExclusionSet, configured: ExclusionSet, os: ExclusionSet)

  /** What the operating system answers to one attempt. */
  datatype Outcome = Bound | InUse | OtherError(code: nat)

  datatype BindError =
    | InvalidRange
    | AllExcluded(excluded: nat)
    | BindFailed(port: Port, code: nat, attempts: nat)
    | NoPortAvailable(attempts: nat, lastPort: Port)

  ghost predicate ValidSources(s: PortExclusionSources)
    reads s.builtIn, s.configured, s.os
  {
    s.builtIn.Valid() && s.configured.Valid() && s.os.Valid()
  }

  ghost predicate Excluded(s: PortExclusionSources, port: nat)
    reads s.builtIn, s.configured, s.os
  {
    Covered(s.builtIn.ranges, port) || Covered(s.configured.ranges, port) || Covered(s.os.ranges, port)
  }

  ghost function ExcludedPorts(s: PortExclusionSources, from: nat, to: nat): set<nat>
    reads s.builtIn, s.configured, s.os
  {
    set port | from <= port < to && Excluded(s, port)
  }

  ghost predicate Usable(config: ProbePortRange, s: PortExclusionSources, port: Port)
    reads s.builtIn, s.configured, s.os
  {
    config.min <= port <= config.max && !Excluded(s, port)
  }

  method IsPortExcluded(port: Port, s: PortExclusionSources) returns (excluded: bool)
    requires ValidSources(s)
    ensures excluded <==> Excluded(s, port)
    ensures excluded <==> Covered(s.builtIn.ranges, port) || Covered(s.configured.ranges, port)
                          || Covered(s.os.ranges, port)
  {
    excluded := s.builtIn.IsExcluded(port);
    if !excluded {
      excluded := s.configured.IsExcluded(port);
    }
    if !excluded {
      excluded := s.os.IsExcluded(port);
    }
  }

  ghost predicate Increasing(ports: seq<Port>) { forall i, j :: 0 <= i < j < |ports| ==> ports[i] < ports[j] }

  ghost predicate Distinct(ports: seq<Port>) { forall i, j :: 0 <= i < j < |ports| ==> ports[i] != ports[j] }

  /** The ports of the range that no source excludes, in order; together with the excluded ones they
      make up the range. */
  method GetUsablePorts(config: ProbePortRange, s: PortExclusionSources) returns (usable: seq<Port>)
    requires ValidSources(s) && config.min <= config.max
    ensures Increasing(usable)
    ensures forall port: Port :: port in usable <==> Usable(config, s, port)
    ensures |usable| + |ExcludedPorts(s, config.min, config.max + 1)| == config.max - config.min + 1
  {
    usable := [];
    var port: nat := config.min;
    while port <= config.max
      invariant config.min <= port <= config.max + 1
      invariant Increasing(usable) && forall i :: 0 <= i < |usable| ==> usable[i] < port
      invariant forall p: Port :: p in usable <==> config.min <= p < port && !Excluded(s, p)
      invariant |usable| + |ExcludedPorts(s, config.min, port)| == port - config.min
    {
      var excluded := IsPortExcluded(port, s);
      OneMoreExcluded(s, config.min, port);
      if !excluded {
        usable := usable + [port];
      }
      port := port + 1;
    }
  }

  lemma {:induction false} OneMoreExcluded(s: PortExclusionSources, from: nat, port: nat)
    requires from <= port
    ensures |ExcludedPorts(s, from, port + 1)| == |ExcludedPorts(s, from, port)| + if Excluded(s, port) then 1 else 0
  {
    var before, after := ExcludedPorts(s, from, port), ExcludedPorts(s, from, port + 1);
    assert after == if Excluded(s, port) then before + {port} else before;
  }

  /** The order of attempts: from the start index to the end, then from the front. */
  ghost function CyclicFrom(ports: seq<Port>, start: nat): seq<Port>
    requires start <= |ports|
  {
    ports[start..] + ports[..start]
  }

  lemma {:induction false} CyclicFromAt(ports: seq<Port>, start: nat, i: nat)
    requires start < |ports| && i < |ports|
    ensures CyclicFrom(ports, start)[i] == ports[(start + i) % |ports|]
  {
    WrapsOnce(start + i, |ports|);
  }

  lemma {:induction false} WrapsOnce(k: nat, n: nat)
    requires k < 2 * n
    ensures k % n == if k < n then k else k - n
  {
    if k >= n {
      assert k == n + (k - n);
    }
  }

  lemma {:induction false} CyclicIsPermutation(ports: seq<Port>, start: nat)
    requires start <= |ports|
    ensures multiset(CyclicFrom(ports, start)) == multiset(ports)
    ensures Increasing(ports) ==> Distinct(CyclicFrom(ports, start))
  {
    assert ports == ports[..start] + ports[start..];
  }

  lemma {:induction false} AttemptsAreDistinct(ports: seq<Port>, start: nat, attempts: seq<Port>)
    requires start <= |ports| && Increasing(ports) && attempts <= CyclicFrom(ports, start)
    ensures Distinct(attempts) && forall port :: port in attempts ==> port in ports
    ensures attempts == CyclicFrom(ports, start) ==> forall port :: port in ports ==> port in attempts
  {
  }

  /** How a sequence of attempts answers the caller: everything before the last was in use. */
  ghost predicate Explains(bind: (nat, Port) -> Outcome, attempts: seq<Port>, r: Result<Port, BindError>) {
    && attempts != []
    && var last := |attempts| - 1;
       && (forall i :: 0 <= i < last ==> bind(i, attempts[i]) == InUse)
       && match r
          case Ok(port) => port == attempts[last] && bind(last, port) == Bound
          case Err(BindFailed(port, code, n)) =>
            port == attempts[last] && bind(last, port) == OtherError(code) && n == |attempts|
          case Err(NoPortAvailable(n, lastPort)) =>
            lastPort == attempts[last] && bind(last, lastPort) == InUse && n == |attempts|
          case Err(_) => false
  }

  /** `bind` is asked with the number of the attempt and the port, and may answer anything. */
  method BindUsablePorts(usable: seq<Port>, start: nat, bind: (nat, Port) -> Outcome)
    returns (r: Result<Port, BindError>, attempts: seq<Port>)
    requires start < |usable|
    ensures attempts <= CyclicFrom(usable, start) && Explains(bind, attempts, r)
    ensures r.Err? && r.error.NoPortAvailable? ==> attempts == CyclicFrom(usable, start)
  {
    attempts := [];
    for attempt := 0 to |usable|
      invariant |attempts| == attempt && attempts == CyclicFrom(usable, start)[..attempt]
      invariant forall i :: 0 <= i < attempt ==> bind(i, attempts[i]) == InUse
    {
      CyclicFromAt(usable, start, attempt);
      var port := usable[(start + attempt) % |usable|];
      attempts := attempts + [port];
      match bind(attempt, port) {
        case Bound => return Ok(port), attempts;
        case OtherError(code) => return Err(BindFailed(port, code, attempt + 1)), attempts;
        case InUse =>
      }
    }
    r := Err(NoPortAvailable(|usable|, attempts[|attempts| - 1]));
  }

  /** Whatever the start and the answers: a port is tried at most once, is in the range, and is
      excluded by no source; success means the last attempt bound and the others were in use; "no
      port available" means every port that is not excluded was tried and in use; nothing is tried
      for an inverted or fully excluded range. */
  method BindProbe(config: ProbePortRange, s: PortExclusionSources, draw: nat, bind: (nat, Port) -> Outcome)
    returns (r: Result<Port, BindError>, attempts: seq<Port>)
    requires ValidSources(s)
    ensures Distinct(attempts) && forall port :: port in attempts ==> Usable(config, s, port)
    ensures forall port :: port in attempts ==>
              && config.min <= port <= config.max && !Covered(s.builtIn.ranges, port)
              && !Covered(s.configured.ranges, port) && !Covered(s.os.ranges, port)
    ensures r == Err(InvalidRange) <==> config.min > config.max
    ensures r.Err? && r.error.AllExcluded?
            <==> config.min <= config.max && forall port: Port :: !Usable(config, s, port)
    ensures r.Err? && r.error.AllExcluded? ==> r.error.excluded == config.max - config.min + 1
    ensures attempts == [] <==> r.Err? && (r.error.InvalidRange? || r.error.AllExcluded?)
    ensures attempts != [] ==> Explains(bind, attempts, r)
    ensures r.Err? && r.error.NoPortAvailable? ==> forall port: Port :: Usable(config, s, port) ==> port in attempts
  {
    attempts := [];
    if config.min > config.max {
      return Err(InvalidRange), attempts;
    }
    var usable := GetUsablePorts(config, s);
    if usable == [] {
      return Err(AllExcluded(config.max - config.min + 1 - |usable|)), attempts;
    }
    var start := draw % |usable|;
    r, attempts := BindUsablePorts(usable, start, bind);
    AttemptsAreDistinct(usable, start, attempts);
    assert Usable(config, s, usable[0]);
  }
}
