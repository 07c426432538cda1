/** Who is present: the tracks of the beam tracker, the present beams of the discovery system, the
    kernel's set of remote processes, and what each listener has been told. The tracker and the
    discovery system have a mutex each, so a change reaches the second after the first, and
    listeners may come and go in between. */
module Discovery {
  import Histories

  datatype Process = Process(host: nat, id: nat, session: nat)

  /** `endpoints` stands for the rest of the announced information. */
  datatype Beam = Beam(process: Process, endpoints: seq<nat>)

  type Listener = nat

  datatype Notice = Found(beam: Beam) | Lost(process: Process)

  function Processes(beams: seq<Beam>): set<Process> { set beam | beam in beams :: beam.process }

  /** The processes a listener holds after its callbacks: found and not lost since. */
  function Known(log: seq<Notice>): set<Process> {
    if log == [] then {} else Learn(Known(log[..|log| - 1]), log[|log| - 1])
  }

  function Learn(known: set<Process>, notice: Notice): set<Process> {
    match notice
    case Found(beam) => known + {beam.process}
    case Lost(process) => known - {process}
  }

  type Logs = map<Listener, seq<Notice>>

  function LogOf(logs: Logs, l: Listener): seq<Notice> { if l in logs then logs[l] else [] }

  function Tell(logs: Logs, l: Listener, notice: Notice): Logs { logs[l := LogOf(logs, l) + [notice]] }

  function TellAll(logs: Logs, listeners: seq<Listener>, notice: Notice): Logs {
    if listeners == [] then logs
    else Tell(TellAll(logs, listeners[..|listeners| - 1], notice), listeners[|listeners| - 1], notice)
  }

  function TellFound(logs: Logs, l: Listener, beams: seq<Beam>): Logs {
    if beams == [] then logs
    else Tell(TellFound(logs, l, beams[..|beams| - 1]), l, Found(beams[|beams| - 1]))
  }

  function TellLost(logs: Logs, l: Listener, beams: seq<Beam>): Logs {
    if beams == [] then logs
    else Tell(TellLost(logs, l, beams[..|beams| - 1]), l, Lost(beams[|beams| - 1].process))
  }

  function KnownBy(logs: Logs, l: Listener): set<Process> { Known(LogOf(logs, l)) }

  lemma {:induction false} TellTeaches(logs: Logs, l: Listener, notice: Notice, other: Listener)
    ensures KnownBy(Tell(logs, l, notice), other)
            == if other == l then Learn(KnownBy(logs, l), notice) else KnownBy(logs, other)
  {
  }

  /** Registered listeners learn the notice, however often they are registered; others do not. */
  lemma {:induction false} TellAllTeaches(logs: Logs, listeners: seq<Listener>, notice: Notice, l: Listener)
    ensures KnownBy(TellAll(logs, listeners, notice), l)
            == if l in listeners then Learn(KnownBy(logs, l), notice) else KnownBy(logs, l)
  {
    if listeners != [] {
      var n := |listeners| - 1;
      TellAllTeaches(logs, listeners[..n], notice, l);
      TellTeaches(TellAll(logs, listeners[..n], notice), listeners[n], notice, l);
    }
  }

  lemma {:induction false} ProcessesSnoc(beams: seq<Beam>)
    requires beams != []
    ensures Processes(beams) == Processes(beams[..|beams| - 1]) + {beams[|beams| - 1].process}
  {
  }

  lemma {:induction false} TellFoundTeaches(logs: Logs, l: Listener, beams: seq<Beam>, other: Listener)
    ensures KnownBy(TellFound(logs, l, beams), other)
            == if other == l then KnownBy(logs, l) + Processes(beams) else KnownBy(logs, other)
  {
    if beams != [] {
      var n := |beams| - 1;
      TellFoundTeaches(logs, l, beams[..n], other);
      TellTeaches(TellFound(logs, l, beams[..n]), l, Found(beams[n]), other);
      ProcessesSnoc(beams);
    }
  }

  lemma {:induction false} TellLostTeaches(logs: Logs, l: Listener, beams: seq<Beam>, other: Listener)
    ensures KnownBy(TellLost(logs, l, beams), other)
            == if other == l then KnownBy(logs, l) - Processes(beams) else KnownBy(logs, other)
  {
    if beams != [] {
      var n := |beams| - 1;
      TellLostTeaches(logs, l, beams[..n], other);
      TellTeaches(TellLost(logs, l, beams[..n]), l, Lost(beams[n].process), other);
      ProcessesSnoc(beams);
    }
  }

  function WithoutProcess(beams: seq<Beam>, process: Process): seq<Beam> {
    if beams == [] then []
    else
      var n := |beams| - 1;
      WithoutProcess(beams[..n], process) + (if beams[n].process == process then [] else [beams[n]])
  }

  function Unregistered(listeners: seq<Listener>, l: Listener): seq<Listener> {
    if listeners == [] then []
    else
      var n := |listeners| - 1;
      Unregistered(listeners[..n], l) + (if listeners[n] == l then [] else [listeners[n]])
  }

  ghost predicate Unique(beams: seq<Beam>) {
    forall i, j :: 0 <= i < j < |beams| ==> beams[i].process != beams[j].process
  }

  lemma {:induction false} WithoutLoses(beams: seq<Beam>, process: Process)
    ensures Processes(WithoutProcess(beams, process)) == Processes(beams) - {process}
    ensures Unique(beams) ==> Unique(WithoutProcess(beams, process))
  {
    if beams != [] {
      var n := |beams| - 1;
      var rest, all := WithoutProcess(beams[..n], process), WithoutProcess(beams, process);
      WithoutLoses(beams[..n], process);
      ProcessesSnoc(beams);
      if beams[n].process != process {
        ProcessesSnoc(all);
        if Unique(beams) {
          OneMoreUnique(rest, beams[n], beams[..n]);
        }
      } else {
        assert all == rest;
      }
    }
  }

  lemma {:induction false} OneMoreUnique(rest: seq<Beam>, beam: Beam, before: seq<Beam>)
    requires Unique(rest) && Processes(rest) <= Processes(before) && beam.process !in Processes(before)
    ensures Unique(rest + [beam])
  {
  }

  lemma {:induction false} Together<T>(a: seq<T>, b: seq<T>, c: seq<T>)
    ensures (a + b) + c == a + (b + c)
  {
  }

  /** What is taken out goes from its place; the others keep theirs. */
  lemma {:induction false} TakenOutInPlace(before: seq<Beam>, after: seq<Beam>, process: Process)
    ensures WithoutProcess(before + after, process) == WithoutProcess(before, process) + WithoutProcess(after, process)
  {
    if after == [] {
      assert before + after == before;
    } else {
      var n := |after| - 1;
      assert (before + after)[..|before| + n] == before + after[..n];
      TakenOutInPlace(before, after[..n], process);
      Together(WithoutProcess(before, process), WithoutProcess(after[..n], process),
               if after[n].process == process then [] else [after[n]]);
    }
  }

  lemma {:induction false} UnregisteredInPlace(before: seq<Listener>, after: seq<Listener>, l: Listener)
    ensures Unregistered(before + after, l) == Unregistered(before, l) + Unregistered(after, l)
  {
    if after == [] {
      assert before + after == before;
    } else {
      var n := |after| - 1;
      assert (before + after)[..|before| + n] == before + after[..n];
      UnregisteredInPlace(before, after[..n], l);
      Together(Unregistered(before, l), Unregistered(after[..n], l), if after[n] == l then [] else [after[n]]);
    }
  }

  lemma {:induction false} UnregisteredLoses(listeners: seq<Listener>, l: Listener, other: Listener)
    ensures other in Unregistered(listeners, l) <==> other in listeners && other != l
  {
    if listeners != [] {
      UnregisteredLoses(listeners[..|listeners| - 1], l, other);
    }
  }

  // ---- State ---------------------------------------------------------------------------------

  /** What the tracker, holding its mutex, has done to its tracks but not yet passed on. */
  datatype Pending = Nothing | Adding(beam: Beam) | Removing(process: Process)

  datatype State = State(ours: Process, tracks: seq<Beam>, pending: Pending, present: seq<Beam>,
                         listeners: seq<Listener>, sourced: set<Listener>, logs: Logs, kernel: set<Process>)

  function Start(ours: Process): State { State(ours, [], Nothing, [], [], {}, map[], {}) }

  predicate Foreign(p: Process, ours: Process) { p.host != ours.host || p.id != ours.id }

  datatype Event =
    | Track(beam: Beam)
    | Untrack(process: Process)
    | PassOn
    | AddListener(l: Listener)
    | RemoveListener(l: Listener, allowCallback: bool)

  /** The tracker starts nothing new before it has passed its last change on. A track may be taken out
      at any time, and may be gone already when its timer fires. */
  ghost predicate Enabled(s: State, e: Event) {
    match e
    case Track(_) => s.pending == Nothing
    case Untrack(_) => s.pending == Nothing
    case PassOn => s.pending != Nothing
    case _ => true
  }

  ghost function Step(s: State, e: Event): State
    requires Enabled(s, e)
  {
    match e
    case Track(beam) =>
      if beam.process in Processes(s.tracks) then s else s.(tracks := s.tracks + [beam], pending := Adding(beam))
    case Untrack(process) => s.(tracks := WithoutProcess(s.tracks, process), pending := Removing(process))
    case PassOn =>
      (match s.pending
       case Nothing => s
       case Adding(beam) => AddBeam(s, beam)
       case Removing(process) => RemoveBeam(s, process))
    case AddListener(l) =>
      s.(listeners := s.listeners + [l], sourced := s.sourced + {l}, logs := TellFound(s.logs, l, s.present))
    case RemoveListener(l, allowCallback) =>
      var t := s.(listeners := Unregistered(s.listeners, l));
      if allowCallback then t.(logs := TellLost(s.logs, l, s.present), sourced := s.sourced - {l}) else t
  }

  function AddBeam(s: State, beam: Beam): State {
    s.(pending := Nothing, present := s.present + [beam], logs := TellAll(s.logs, s.listeners, Found(beam)),
       kernel := if Foreign(beam.process, s.ours) then s.kernel + {beam.process} else s.kernel)
  }

  function RemoveBeam(s: State, process: Process): State {
    s.(pending := Nothing, present := WithoutProcess(s.present, process),
       logs := TellAll(s.logs, s.listeners, Lost(process)),
       kernel := if Foreign(process, s.ours) then s.kernel - {process} else s.kernel)
  }

  // ---- Layers agree --------------------------------------------------------------------------

  /** The present beams are the tracks, in the same order, up to the one change being passed on. */
  ghost predicate Mirrored(s: State) {
    && Unique(s.tracks) && Unique(s.present)
    && match s.pending
       case Nothing => s.tracks == s.present
       case Adding(beam) => s.tracks == s.present + [beam]
       case Removing(process) => s.tracks == WithoutProcess(s.present, process)
  }

  ghost predicate KernelAgrees(s: State) {
    forall p :: p in s.kernel <==> p in Processes(s.present) && Foreign(p, s.ours)
  }

  lemma {:induction false} StepKeepsMirror(s: State, e: Event)
    requires Enabled(s, e) && Mirrored(s) && KernelAgrees(s)
    ensures Mirrored(Step(s, e)) && KernelAgrees(Step(s, e))
  {
    match e
    case Track(beam) =>
      if beam.process !in Processes(s.tracks) {
        OneMoreUnique(s.tracks, beam, s.tracks);
      }
    case Untrack(process) => WithoutLoses(s.tracks, process);
    case PassOn =>
      var t := Step(s, e);
      if s.pending.Adding? {
        ProcessesSnoc(t.present);
      } else {
        WithoutLoses(s.present, s.pending.process);
      }
    case _ =>
  }

  // ---- Listeners agree -----------------------------------------------------------------------

  /** A listener knows every present process while registered. */
  ghost predicate Informed(s: State, l: Listener) {
    l in s.listeners ==> Processes(s.present) <= KnownBy(s.logs, l) && l in s.sourced
  }

  /** A listener knows exactly the present processes while registered, and none otherwise. */
  ghost predicate ListenerAgrees(s: State, l: Listener) {
    KnownBy(s.logs, l) == if l in s.listeners then Processes(s.present) else {}
  }

  /** What one step does to a listener's knowledge. */
  lemma {:induction false} StepTeaches(s: State, e: Event, l: Listener)
    requires Enabled(s, e) && Mirrored(s)
    ensures var t, registered, had := Step(s, e), l in s.listeners, KnownBy(s.logs, l);
            KnownBy(t.logs, l) ==
              match e
              case Track(_) => had
              case Untrack(_) => had
              case PassOn =>
                if !registered then had
                else if s.pending.Adding? then had + {s.pending.beam.process} else had - {s.pending.process}
              case AddListener(other) => if other == l then had + Processes(s.present) else had
              case RemoveListener(other, allowed) => if other == l && allowed then had - Processes(s.present) else had
  {
    match e
    case Track(_) =>
    case Untrack(_) =>
    case PassOn =>
      if s.pending.Adding? {
        TellAllTeaches(s.logs, s.listeners, Found(s.pending.beam), l);
      } else {
        TellAllTeaches(s.logs, s.listeners, Lost(s.pending.process), l);
      }
    case AddListener(other) => TellFoundTeaches(s.logs, other, s.present, l);
    case RemoveListener(other, allowed) => TellLostTeaches(s.logs, other, s.present, l);
  }

  /** How one step changes the present processes and the registration of a listener. */
  lemma {:induction false} StepChanges(s: State, e: Event, l: Listener)
    requires Enabled(s, e) && Mirrored(s)
    ensures var t := Step(s, e);
            && Processes(t.present) == (if !e.PassOn? then Processes(s.present)
                                        else if s.pending.Adding? then Processes(s.present) + {s.pending.beam.process}
                                        else Processes(s.present) - {s.pending.process})
            && (l in t.listeners <==> match e
                                      case AddListener(other) => l in s.listeners || other == l
                                      case RemoveListener(other, _) => l in s.listeners && other != l
                                      case _ => l in s.listeners)
  {
    var t := Step(s, e);
    if e.PassOn? && s.pending.Adding? {
      ProcessesSnoc(t.present);
    } else if e.PassOn? {
      WithoutLoses(s.present, s.pending.process);
    } else if e.RemoveListener? {
      UnregisteredLoses(s.listeners, e.l, l);
    }
  }

  lemma {:induction false} StepKeepsInformed(s: State, e: Event, l: Listener)
    requires Enabled(s, e) && Mirrored(s) && Informed(s, l)
    ensures Informed(Step(s, e), l)
  {
    StepTeaches(s, e, l);
    StepChanges(s, e, l);
  }

  predicate RemovesSilently(e: Event, l: Listener) { e.RemoveListener? && e.l == l && !e.allowCallback }

  lemma {:induction false} StepKeepsAgreement(s: State, e: Event, l: Listener)
    requires Enabled(s, e) && Mirrored(s) && ListenerAgrees(s, l) && !RemovesSilently(e, l)
    ensures ListenerAgrees(Step(s, e), l)
  {
    StepTeaches(s, e, l);
    StepChanges(s, e, l);
  }

  /** Adding a listener leaves it with exactly the present processes if and only if it came without
      knowledge of an absent one, as it does when it is new or was last removed with callbacks. */
  lemma {:induction false} AddingAgreesIff(s: State, l: Listener)
    requires Mirrored(s)
    ensures KnownBy(Step(s, AddListener(l)).logs, l) == Processes(s.present)
            <==> KnownBy(s.logs, l) <= Processes(s.present)
  {
    StepTeaches(s, AddListener(l), l);
  }

  // ---- Runs ----------------------------------------------------------------------------------

  ghost predicate IsRun(states: seq<State>, events: seq<Event>) {
    && |states| == |events| + 1 && states[0] == Start(states[0].ours)
    && forall i :: 0 <= i < |events| ==> StepAt(states, events, i)
  }

  ghost predicate StepAt(states: seq<State>, events: seq<Event>, i: nat)
    requires |states| == |events| + 1 && i < |events|
  {
    Enabled(states[i], events[i]) && states[i + 1] == Step(states[i], events[i])
  }

  lemma {:induction false} RunKeepsMirror(states: seq<State>, events: seq<Event>, i: nat)
    requires IsRun(states, events) && i < |states|
    ensures Mirrored(states[i]) && KernelAgrees(states[i])
  {
    if i > 0 {
      assert StepAt(states, events, i - 1);
      RunKeepsMirror(states, events, i - 1);
      StepKeepsMirror(states[i - 1], events[i - 1]);
    }
  }

  lemma {:induction false} RunKeepsInformed(states: seq<State>, events: seq<Event>, i: nat, l: Listener)
    requires IsRun(states, events) && i < |states|
    ensures Informed(states[i], l)
  {
    if i > 0 {
      assert StepAt(states, events, i - 1);
      RunKeepsMirror(states, events, i - 1);
      RunKeepsInformed(states, events, i - 1, l);
      StepKeepsInformed(states[i - 1], events[i - 1], l);
    }
  }

  lemma {:induction false} RunKeepsAgreement(states: seq<State>, events: seq<Event>, i: nat, l: Listener)
    requires IsRun(states, events) && i < |states|
    requires forall j :: 0 <= j < i ==> !RemovesSilently(events[j], l)
    ensures ListenerAgrees(states[i], l)
  {
    if i > 0 {
      assert StepAt(states, events, i - 1);
      RunKeepsMirror(states, events, i - 1);
      RunKeepsAgreement(states, events, i - 1, l);
      StepKeepsAgreement(states[i - 1], events[i - 1], l);
    }
  }

  /** A beam of the process came after it was last taken out. */
  ghost predicate Heard(events: seq<Event>, p: Process) {
    events != [] &&
    var last := |events| - 1;
    match events[last]
    case Track(beam) => beam.process == p || Heard(events[..last], p)
    case Untrack(process) => process != p && Heard(events[..last], p)
    case _ => Heard(events[..last], p)
  }

  /** In every run the tracked processes are those heard of since they were last taken out. */
  lemma {:induction false} TrackedIffHeard(states: seq<State>, events: seq<Event>, i: nat, p: Process)
    requires IsRun(states, events) && i < |states|
    ensures p in Processes(states[i].tracks) <==> Heard(events[..i], p)
  {
    if i > 0 {
      assert StepAt(states, events, i - 1);
      TrackedIffHeard(states, events, i - 1, p);
      StepTracks(states[i - 1], events[i - 1], p);
      assert events[..i][..i - 1] == events[..i - 1] && events[..i][i - 1] == events[i - 1];
    }
  }

  lemma {:induction false} StepTracks(s: State, e: Event, p: Process)
    requires Enabled(s, e)
    ensures p in Processes(Step(s, e).tracks)
            <==> match e
                 case Track(beam) => beam.process == p || p in Processes(s.tracks)
                 case Untrack(process) => process != p && p in Processes(s.tracks)
                 case _ => p in Processes(s.tracks)
  {
    if e.Track? {
      ProcessesSnoc(s.tracks + [e.beam]);
      assert (s.tracks + [e.beam])[..|s.tracks|] == s.tracks;
    } else if e.Untrack? {
      WithoutLoses(s.tracks, e.process);
    }
  }

  /** In every reachable state in which the tracker is at rest, tracks are unique per process and the
      tracked processes are those heard of since they were last taken out, the present ones and, the
      local one aside, the kernel's; a registered listener knows all of them, and knows exactly them
      unless it was once removed silently. */
  lemma {:induction false} LayersAgree(states: seq<State>, events: seq<Event>, i: nat, l: Listener)
    requires IsRun(states, events) && i < |states| && states[i].pending == Nothing
    ensures var s := states[i];
            && Unique(s.tracks) && s.tracks == s.present
            && (forall p :: p in Processes(s.tracks) <==> Heard(events[..i], p))
            && (forall p :: p in s.kernel
                            <==> p in Processes(s.tracks) && (p.host != s.ours.host || p.id != s.ours.id))
            && (l in s.listeners ==> Processes(s.tracks) <= KnownBy(s.logs, l))
            && ((forall j :: 0 <= j < i ==> !RemovesSilently(events[j], l)) ==>
                  KnownBy(s.logs, l) == if l in s.listeners then Processes(s.tracks) else {})
  {
    RunKeepsMirror(states, events, i);
    forall p ensures p in Processes(states[i].tracks) <==> Heard(events[..i], p) {
      TrackedIffHeard(states, events, i, p);
    }
    RunKeepsInformed(states, events, i, l);
    if forall j :: 0 <= j < i ==> !RemovesSilently(events[j], l) {
      RunKeepsAgreement(states, events, i, l);
    }
  }

  // ---- What listeners are told ---------------------------------------------------------------

  /** The last a listener was told of the beam's process is this very beam. */
  ghost predicate Holds(log: seq<Notice>, beam: Beam) {
    log != [] &&
    var before := log[..|log| - 1];
    match log[|log| - 1]
    case Found(found) => if found.process == beam.process then found == beam else Holds(before, beam)
    case Lost(process) => process != beam.process && Holds(before, beam)
  }

  ghost predicate HeldBy(logs: Logs, l: Listener, beam: Beam) { Holds(LogOf(logs, l), beam) }

  /** What a notice leaves of the beam that a listener holds. */
  ghost predicate HoldsAfter(held: bool, notice: Notice, beam: Beam) {
    match notice
    case Found(found) => if found.process == beam.process then found == beam else held
    case Lost(process) => process != beam.process && held
  }

  lemma {:induction false} TellLeaves(logs: Logs, l: Listener, notice: Notice, other: Listener, beam: Beam)
    ensures HeldBy(Tell(logs, l, notice), other, beam)
            <==> if other == l then HoldsAfter(HeldBy(logs, l, beam), notice, beam) else HeldBy(logs, other, beam)
  {
    var log := LogOf(logs, l);
    assert (log + [notice])[..|log|] == log;
  }

  lemma {:induction false} TellAllLeaves(logs: Logs, listeners: seq<Listener>, notice: Notice, l: Listener, beam: Beam)
    ensures HeldBy(TellAll(logs, listeners, notice), l, beam)
            <==> if l in listeners then HoldsAfter(HeldBy(logs, l, beam), notice, beam) else HeldBy(logs, l, beam)
  {
    if listeners != [] {
      var n := |listeners| - 1;
      TellAllLeaves(logs, listeners[..n], notice, l, beam);
      TellLeaves(TellAll(logs, listeners[..n], notice), listeners[n], notice, l, beam);
    }
  }

  lemma {:induction false} TellFoundLeaves(logs: Logs, l: Listener, beams: seq<Beam>, other: Listener, beam: Beam)
    requires Unique(beams)
    ensures other == l && beam in beams ==> HeldBy(TellFound(logs, l, beams), other, beam)
    ensures other != l ==> HeldBy(TellFound(logs, l, beams), other, beam) == HeldBy(logs, other, beam)
  {
    if beams != [] {
      var n := |beams| - 1;
      TellFoundLeaves(logs, l, beams[..n], other, beam);
      TellLeaves(TellFound(logs, l, beams[..n]), l, Found(beams[n]), other, beam);
    }
  }

  lemma {:induction false} TellLostLeaves(logs: Logs, l: Listener, beams: seq<Beam>, other: Listener, beam: Beam)
    requires other != l
    ensures HeldBy(TellLost(logs, l, beams), other, beam) == HeldBy(logs, other, beam)
  {
    if beams != [] {
      var n := |beams| - 1;
      TellLostLeaves(logs, l, beams[..n], other, beam);
      TellLeaves(TellLost(logs, l, beams[..n]), l, Lost(beams[n].process), other, beam);
    }
  }

  lemma {:induction false} WithoutKeeps(beams: seq<Beam>, process: Process, beam: Beam)
    ensures beam in WithoutProcess(beams, process) <==> beam in beams && beam.process != process
  {
    if beams != [] {
      WithoutKeeps(beams[..|beams| - 1], process, beam);
    }
  }

  lemma {:induction false} LastIsOther(beams: seq<Beam>, last: Beam, beam: Beam)
    requires Unique(beams + [last]) && beam in beams + [last]
    ensures beam == last || (beam in beams && beam.process != last.process)
  {
    var all := beams + [last];
    var i :| 0 <= i < |all| && all[i] == beam;
    assert i < |beams| ==> beams[i] == beam && all[i].process != all[|beams|].process;
  }

  lemma {:induction false} StepKeepsHeld(s: State, e: Event, l: Listener, beam: Beam)
    requires Enabled(s, e) && Mirrored(s) && Mirrored(Step(s, e))
    requires l in s.listeners && beam in s.present ==> HeldBy(s.logs, l, beam)
    requires l in Step(s, e).listeners && beam in Step(s, e).present
    ensures HeldBy(Step(s, e).logs, l, beam)
  {
    var t := Step(s, e);
    StepChanges(s, e, l);
    match e
    case Track(_) =>
    case Untrack(_) =>
    case PassOn =>
      if s.pending.Adding? {
        TellAllLeaves(s.logs, s.listeners, Found(s.pending.beam), l, beam);
        LastIsOther(s.present, s.pending.beam, beam);
      } else {
        TellAllLeaves(s.logs, s.listeners, Lost(s.pending.process), l, beam);
        WithoutKeeps(s.present, s.pending.process, beam);
      }
    case AddListener(other) => TellFoundLeaves(s.logs, other, s.present, l, beam);
    case RemoveListener(other, allowed) =>
      if allowed {
        TellLostLeaves(s.logs, other, s.present, l, beam);
      }
  }

  /** In every reachable state a registered listener holds, for every present process, the very beam
      that is present, endpoints included. */
  lemma {:induction false} ListenersHoldBeams(states: seq<State>, events: seq<Event>, i: nat, l: Listener, beam: Beam)
    requires IsRun(states, events) && i < |states| && l in states[i].listeners && beam in states[i].present
    ensures HeldBy(states[i].logs, l, beam)
  {
    if i > 0 {
      assert StepAt(states, events, i - 1);
      RunKeepsMirror(states, events, i - 1);
      RunKeepsMirror(states, events, i);
      if l in states[i - 1].listeners && beam in states[i - 1].present {
        ListenersHoldBeams(states, events, i - 1, l, beam);
      }
      StepKeepsHeld(states[i - 1], events[i - 1], l, beam);
    }
  }

  /** The beam is tracked, about to be passed on or present, or some listener was told of it. */
  ghost predicate Mentions(s: State, l: Listener, beam: Beam) {
    beam in s.tracks || s.pending == Adding(beam) || beam in s.present || Found(beam) in LogOf(s.logs, l)
  }

  lemma {:induction false} TellAllMentions(logs: Logs, listeners: seq<Listener>, notice: Notice, l: Listener,
                                           beam: Beam)
    requires Found(beam) in LogOf(TellAll(logs, listeners, notice), l)
    ensures Found(beam) in LogOf(logs, l) || notice == Found(beam)
  {
    if listeners != [] && Found(beam) in LogOf(TellAll(logs, listeners[..|listeners| - 1], notice), l) {
      TellAllMentions(logs, listeners[..|listeners| - 1], notice, l, beam);
    }
  }

  lemma {:induction false} TellFoundMentions(logs: Logs, l: Listener, beams: seq<Beam>, other: Listener, beam: Beam)
    requires Found(beam) in LogOf(TellFound(logs, l, beams), other)
    ensures Found(beam) in LogOf(logs, other) || beam in beams
  {
    if beams != [] && Found(beam) in LogOf(TellFound(logs, l, beams[..|beams| - 1]), other) {
      TellFoundMentions(logs, l, beams[..|beams| - 1], other, beam);
    }
  }

  lemma {:induction false} TellLostMentions(logs: Logs, l: Listener, beams: seq<Beam>, other: Listener, beam: Beam)
    requires Found(beam) in LogOf(TellLost(logs, l, beams), other)
    ensures Found(beam) in LogOf(logs, other)
  {
    if beams != [] {
      TellLostMentions(logs, l, beams[..|beams| - 1], other, beam);
    }
  }

  lemma {:induction false} StepMentions(s: State, e: Event, l: Listener, beam: Beam)
    requires Enabled(s, e) && Mentions(Step(s, e), l, beam)
    ensures Mentions(s, l, beam) || e == Track(beam)
  {
    var t := Step(s, e);
    if Found(beam) in LogOf(t.logs, l) && Found(beam) !in LogOf(s.logs, l) {
      if e.PassOn? && s.pending.Adding? {
        TellAllMentions(s.logs, s.listeners, Found(s.pending.beam), l, beam);
      } else if e.PassOn? {
        TellAllMentions(s.logs, s.listeners, Lost(s.pending.process), l, beam);
      } else if e.AddListener? {
        TellFoundMentions(s.logs, e.l, s.present, l, beam);
      } else if e.RemoveListener? && e.allowCallback {
        TellLostMentions(s.logs, e.l, s.present, l, beam);
      }
    } else if e.Untrack? {
      WithoutKeeps(s.tracks, e.process, beam);
    } else if e.PassOn? && s.pending.Removing? {
      WithoutKeeps(s.present, s.pending.process, beam);
    }
  }

  /** In every run whatever is tracked, present or told to a listener is a beam that was received, with
      the endpoints it had. */
  lemma {:induction false} OnlyReceivedBeams(states: seq<State>, events: seq<Event>, i: nat, l: Listener, beam: Beam)
    requires IsRun(states, events) && i < |states| && Mentions(states[i], l, beam)
    ensures Track(beam) in events[..i]
  {
    if i > 0 {
      assert StepAt(states, events, i - 1);
      StepMentions(states[i - 1], events[i - 1], l, beam);
      assert events[..i] == events[..i - 1] + [events[i - 1]];
      if Mentions(states[i - 1], l, beam) {
        OnlyReceivedBeams(states, events, i - 1, l, beam);
      }
    }
  }

  lemma {:induction false} StepSources(s: State, e: Event, l: Listener)
    requires Enabled(s, e)
    ensures l in Step(s, e).sourced <==> e == AddListener(l) || (l in s.sourced && e != RemoveListener(l, true))
  {
  }

  /** In every run a listener has the system as its source exactly when it was added and has not been
      removed with callbacks since. */
  lemma {:induction false} SourcedIff(states: seq<State>, events: seq<Event>, j: nat, l: Listener)
    requires IsRun(states, events) && j < |states|
    ensures l in states[j].sourced
            <==> exists k: nat :: k < j && events[k] == AddListener(l)
                                  && forall m :: k < m < j ==> events[m] != RemoveListener(l, true)
  {
    var flag := seq(|states|, m requires 0 <= m < |states| => l in states[m].sourced);
    var sets := seq(|events|, m requires 0 <= m < |events| => events[m] == AddListener(l));
    var clears := seq(|events|, m requires 0 <= m < |events| => events[m] == RemoveListener(l, true));
    forall m | 0 <= m < j ensures Histories.FollowsAt(flag, sets, clears, m) {
      assert StepAt(states, events, m);
      StepSources(states[m], events[m], l);
    }
    Histories.SetIffSetSince(flag, sets, clears, j);
    if flag[j] {
      var k: nat :| Histories.SetSince(sets, clears, k, j);
      assert events[k] == AddListener(l);
      assert forall m :: k < m < j ==> clears[m] == (events[m] == RemoveListener(l, true));
    }
    if k: nat :| k < j && events[k] == AddListener(l)
                 && forall m :: k < m < j ==> events[m] != RemoveListener(l, true) {
      assert Histories.SetSince(sets, clears, k, j);
    }
  }

  /** Exactly what one step adds to a listener's log: a change, once for each time the listener is
      registered; every present beam, in order, when it is added; and every present process, in order,
      when it is removed with callbacks. */
  lemma {:induction false} StepTells(s: State, e: Event, l: Listener)
    requires Enabled(s, e)
    ensures LogOf(Step(s, e).logs, l) == LogOf(s.logs, l) + Told(s, e, l)
  {
    match e
    case Track(_) =>
    case Untrack(_) =>
    case PassOn =>
      var notice := if s.pending.Adding? then Found(s.pending.beam) else Lost(s.pending.process);
      TellAllAppends(s.logs, s.listeners, notice, l);
    case AddListener(other) => TellFoundAppends(s.logs, other, s.present, l);
    case RemoveListener(other, allowed) => TellLostAppends(s.logs, other, s.present, l);
  }

  ghost function Told(s: State, e: Event, l: Listener): seq<Notice>
    requires Enabled(s, e)
  {
    match e
    case Track(_) => []
    case Untrack(_) => []
    case PassOn =>
      seq(multiset(s.listeners)[l],
          _ => if s.pending.Adding? then Found(s.pending.beam) else Lost(s.pending.process))
    case AddListener(other) =>
      if other == l then Findings(s.present) else []
    case RemoveListener(other, allowed) =>
      if other == l && allowed then Losses(s.present) else []
  }

  ghost function Findings(beams: seq<Beam>): seq<Notice> {
    seq(|beams|, i requires 0 <= i < |beams| => Found(beams[i]))
  }

  ghost function Losses(beams: seq<Beam>): seq<Notice> {
    seq(|beams|, i requires 0 <= i < |beams| => Lost(beams[i].process))
  }

  lemma {:induction false} TellAllAppends(logs: Logs, listeners: seq<Listener>, notice: Notice, l: Listener)
    ensures LogOf(TellAll(logs, listeners, notice), l)
            == LogOf(logs, l) + seq(multiset(listeners)[l], _ => notice)
  {
    if listeners != [] {
      var n := |listeners| - 1;
      assert listeners == listeners[..n] + [listeners[n]];
      TellAllAppends(logs, listeners[..n], notice, l);
    }
  }

  lemma {:induction false} TellFoundAppends(logs: Logs, l: Listener, beams: seq<Beam>, other: Listener)
    ensures LogOf(TellFound(logs, l, beams), other)
            == LogOf(logs, other) + if other == l then Findings(beams) else []
  {
    if beams != [] {
      var n := |beams| - 1;
      TellFoundAppends(logs, l, beams[..n], other);
      assert Findings(beams) == Findings(beams[..n]) + [Found(beams[n])];
      Together(LogOf(logs, other), Findings(beams[..n]), [Found(beams[n])]);
    }
  }

  lemma {:induction false} TellLostAppends(logs: Logs, l: Listener, beams: seq<Beam>, other: Listener)
    ensures LogOf(TellLost(logs, l, beams), other)
            == LogOf(logs, other) + if other == l then Losses(beams) else []
  {
    if beams != [] {
      var n := |beams| - 1;
      TellLostAppends(logs, l, beams[..n], other);
      assert Losses(beams) == Losses(beams[..n]) + [Lost(beams[n].process)];
      Together(LogOf(logs, other), Losses(beams[..n]), [Lost(beams[n].process)]);
    }
  }

  // ---- A listener removed silently -----------------------------------------------------------

  /** The processes a listener removed silently at `r` still holds before event `a`: those present
      then, less those withdrawn by a later removal with callbacks. */
  ghost function Remembered(states: seq<State>, events: seq<Event>, r: nat, a: nat, l: Listener): set<Process>
    requires r < a <= |events| < |states|
  {
    if a == r + 1 then Processes(states[r].present)
    else
      var before := Remembered(states, events, r, a - 1, l);
      if events[a - 1] == RemoveListener(l, true) then before - Processes(states[a - 1].present) else before
  }

  /** What event `m` leaves an absent listener with. */
  ghost predicate Forgets(states: seq<State>, events: seq<Event>, m: nat, l: Listener)
    requires m < |events| < |states|
  {
    KnownBy(states[m + 1].logs, l)
    == if events[m] == RemoveListener(l, true) then KnownBy(states[m].logs, l) - Processes(states[m].present)
       else KnownBy(states[m].logs, l)
  }

  lemma {:induction false} RememberedFollows(states: seq<State>, events: seq<Event>, r: nat, a: nat, l: Listener)
    requires r < a <= |events| < |states| && KnownBy(states[r + 1].logs, l) == Processes(states[r].present)
    requires forall m :: r < m < a ==> Forgets(states, events, m, l)
    ensures KnownBy(states[a].logs, l) == Remembered(states, events, r, a, l)
  {
    if a > r + 1 {
      RememberedFollows(states, events, r, a - 1, l);
      assert Forgets(states, events, a - 1, l);
    }
  }

  lemma {:induction false} AbsentUntilAdded(states: seq<State>, events: seq<Event>, r: nat, m: nat, l: Listener)
    requires IsRun(states, events) && r < m <= |events| && events[r] == RemoveListener(l, false)
    requires forall j :: r < j < m ==> events[j] != AddListener(l)
    ensures l !in states[m].listeners
  {
    if m > r + 1 {
      AbsentUntilAdded(states, events, r, m - 1, l);
      RunRemembers(states, events, m - 1, l);
    } else {
      RunForgetsNothing(states, events, r, l);
    }
  }

  lemma {:induction false} RemembersUntilAdded(states: seq<State>, events: seq<Event>, r: nat, a: nat, l: Listener)
    requires IsRun(states, events) && r < a <= |events|
    requires l in states[r].listeners && ListenerAgrees(states[r], l) && events[r] == RemoveListener(l, false)
    requires forall j :: r < j < a ==> events[j] != AddListener(l)
    ensures KnownBy(states[a].logs, l) == Remembered(states, events, r, a, l)
  {
    RunForgetsNothing(states, events, r, l);
    forall m | r < m < a ensures Forgets(states, events, m, l) {
      AbsentUntilAdded(states, events, r, m, l);
      RunRemembers(states, events, m, l);
    }
    RememberedFollows(states, events, r, a, l);
  }

  lemma {:induction false} RunRemembers(states: seq<State>, events: seq<Event>, m: nat, l: Listener)
    requires IsRun(states, events) && m < |events| && l !in states[m].listeners && events[m] != AddListener(l)
    ensures l !in states[m + 1].listeners && Forgets(states, events, m, l)
  {
    assert StepAt(states, events, m);
    RunKeepsMirror(states, events, m);
    StepRemembers(states[m], events[m], l);
  }

  /** An absent listener learns nothing, and forgets only when it is removed with callbacks. */
  lemma {:induction false} StepRemembers(s: State, e: Event, l: Listener)
    requires Enabled(s, e) && Mirrored(s) && l !in s.listeners && e != AddListener(l)
    ensures l !in Step(s, e).listeners
    ensures KnownBy(Step(s, e).logs, l)
            == if e == RemoveListener(l, true) then KnownBy(s.logs, l) - Processes(s.present) else KnownBy(s.logs, l)
  {
    StepTeaches(s, e, l);
    StepChanges(s, e, l);
  }

  lemma {:induction false} RunForgetsNothing(states: seq<State>, events: seq<Event>, r: nat, l: Listener)
    requires IsRun(states, events) && r < |events| && events[r] == RemoveListener(l, false)
    ensures l !in states[r + 1].listeners && KnownBy(states[r + 1].logs, l) == KnownBy(states[r].logs, l)
  {
    assert StepAt(states, events, r);
    RunKeepsMirror(states, events, r);
    StepTeaches(states[r], events[r], l);
    StepChanges(states[r], events[r], l);
  }

  /** A listener that agreed, was removed silently at `r` and is next added at `a` agrees again exactly
      when every process it still remembers is present at `a`. */
  lemma {:induction false} ReaddedAgreesIff(states: seq<State>, events: seq<Event>, r: nat, a: nat, l: Listener)
    requires IsRun(states, events) && r < a < |events|
    requires l in states[r].listeners && ListenerAgrees(states[r], l) && events[r] == RemoveListener(l, false)
    requires events[a] == AddListener(l) && forall j :: r < j < a ==> events[j] != AddListener(l)
    ensures ListenerAgrees(states[a + 1], l)
            <==> Remembered(states, events, r, a, l) <= Processes(states[a].present)
    ensures (forall j :: r < j < a ==> events[j] != RemoveListener(l, true)) ==>
              (ListenerAgrees(states[a + 1], l)
               <==> Processes(states[r].present) <= Processes(states[a].present))
  {
    RemembersUntilAdded(states, events, r, a, l);
    assert StepAt(states, events, a);
    RunKeepsMirror(states, events, a);
    AddingAgreesIff(states[a], l);
    StepChanges(states[a], events[a], l);
    if forall j :: r < j < a ==> events[j] != RemoveListener(l, true) {
      RemembersAll(states, events, r, a, l);
    }
  }

  lemma {:induction false} RemembersAll(states: seq<State>, events: seq<Event>, r: nat, a: nat, l: Listener)
    requires r < a <= |events| < |states| && forall j :: r < j < a ==> events[j] != RemoveListener(l, true)
    ensures Remembered(states, events, r, a, l) == Processes(states[r].present)
  {
    if a > r + 1 {
      RemembersAll(states, events, r, a - 1, l);
    }
  }

  lemma {:induction false} RunOneMore(states: seq<State>, events: seq<Event>, e: Event)
    returns (states': seq<State>, events': seq<Event>)
    requires IsRun(states, events) && Enabled(states[|events|], e)
    ensures IsRun(states', events') && events' == events + [e] && states'[|events'|] == Step(states[|events|], e)
    ensures states'[0] == states[0]
  {
    states', events' := states + [Step(states[|events|], e)], events + [e];
    forall i | 0 <= i < |events'| ensures StepAt(states', events', i) {
      assert i < |events| ==> StepAt(states, events, i);
    }
  }

  /** At rest with `present`, and the listener, registered or not, holding one process. */
  ghost predicate AtRest(s: State, present: seq<Beam>, l: Listener, registered: bool, p: Process) {
    && s.pending == Nothing && s.tracks == s.present == present
    && (l in s.listeners <==> registered) && KnownBy(s.logs, l) == {p}
  }

  lemma {:induction false} FirstTracked(s: State, beam: Beam, l: Listener) returns (s1: State)
    requires s.pending == Nothing && s.tracks == s.present == [] && l in s.listeners && KnownBy(s.logs, l) == {}
    ensures s1 == Step(s, Track(beam)) && s1.pending == Adding(beam)
    ensures AtRest(Step(s1, PassOn), [beam], l, true, beam.process)
  {
    assert beam.process !in Processes([]);
    s1 := Step(s, Track(beam));
    TellAllTeaches(s1.logs, s1.listeners, Found(beam), l);
  }

  lemma {:induction false} Listens(ours: Process, beam: Beam, l: Listener) returns (s1: State, s2: State)
    ensures s1 == Step(Start(ours), AddListener(l)) && s1.pending == Nothing && s2 == Step(s1, Track(beam))
    ensures s2.pending != Nothing && AtRest(Step(s2, PassOn), [beam], l, true, beam.process)
  {
    s1 := Step(Start(ours), AddListener(l));
    assert s1.logs == map[] && KnownBy(map[], l) == {};
    s2 := FirstTracked(s1, beam, l);
  }

  lemma {:induction false} Loses(s: State, beam: Beam, l: Listener) returns (s1: State, s2: State)
    requires Mirrored(s) && KernelAgrees(s) && AtRest(s, [beam], l, true, beam.process)
    ensures s1 == Step(s, RemoveListener(l, false)) && s1.pending == Nothing && s2 == Step(s1, Untrack(beam.process))
    ensures s2.pending != Nothing && AtRest(Step(s2, PassOn), [], l, false, beam.process)
  {
    s1 := Step(s, RemoveListener(l, false));
    StepTeaches(s, RemoveListener(l, false), l);
    StepChanges(s, RemoveListener(l, false), l);
    s2 := Step(s1, Untrack(beam.process));
    StepKeepsMirror(s1, Untrack(beam.process));
    StepTeaches(s2, PassOn, l);
    assert [beam][..0] == [] && WithoutProcess([beam], beam.process) == [];
  }

  /** Three more events. */
  lemma {:induction false} RunThreeMore(states: seq<State>, events: seq<Event>, e1: Event, e2: Event, e3: Event,
                                        s1: State, s2: State)
    returns (states': seq<State>, events': seq<Event>)
    requires IsRun(states, events) && Enabled(states[|events|], e1) && s1 == Step(states[|events|], e1)
    requires Enabled(s1, e2) && s2 == Step(s1, e2) && Enabled(s2, e3)
    ensures IsRun(states', events') && states'[0] == states[0] && events' == events + [e1, e2, e3]
    ensures states'[|events'|] == Step(s2, e3)
  {
    states', events' := RunOneMore(states, events, e1);
    states', events' := RunOneMore(states', events', e2);
    states', events' := RunOneMore(states', events', e3);
  }

  lemma {:induction false} RunListens(ours: Process, beam: Beam, l: Listener)
    returns (states: seq<State>, events: seq<Event>)
    ensures IsRun(states, events) && states[0] == Start(ours) && events == [AddListener(l), Track(beam), PassOn]
    ensures AtRest(states[3], [beam], l, true, beam.process)
  {
    var s1, s2 := Listens(ours, beam, l);
    states, events := RunThreeMore([Start(ours)], [], AddListener(l), Track(beam), PassOn, s1, s2);
  }

  lemma {:induction false} RunLoses(states: seq<State>, events: seq<Event>, beam: Beam, l: Listener)
    returns (states': seq<State>, events': seq<Event>)
    requires IsRun(states, events) && AtRest(states[|events|], [beam], l, true, beam.process)
    ensures IsRun(states', events') && states'[0] == states[0]
    ensures events' == events + [RemoveListener(l, false), Untrack(beam.process), PassOn]
    ensures AtRest(states'[|events'|], [], l, false, beam.process)
  {
    RunKeepsMirror(states, events, |events|);
    var s1, s2 := Loses(states[|events|], beam, l);
    states', events' := RunThreeMore(states, events, RemoveListener(l, false), Untrack(beam.process), PassOn, s1, s2);
  }

  lemma {:induction false} AddedBack(s: State, l: Listener, p: Process)
    requires AtRest(s, [], l, false, p)
    ensures AtRest(Step(s, AddListener(l)), [], l, true, p)
  {
    assert TellFound(s.logs, l, []) == s.logs;
  }

  /** A run in which a listener removed silently and added again keeps a process that left in between. */
  lemma {:induction false} SilentRemovalLeavesStale(ours: Process, beam: Beam, l: Listener)
    returns (states: seq<State>, events: seq<Event>)
    ensures IsRun(states, events) && states[0] == Start(ours)
    ensures events == [AddListener(l), Track(beam), PassOn] + [RemoveListener(l, false), Untrack(beam.process), PassOn]
                      + [AddListener(l)]
    ensures AtRest(states[7], [], l, true, beam.process)
  {
    states, events := RunListens(ours, beam, l);
    states, events := RunLoses(states, events, beam, l);
    AddedBack(states[|events|], l, beam.process);
    states, events := RunOneMore(states, events, AddListener(l));
  }

  // ---- The objects ---------------------------------------------------------------------------

  /** The discovery system with its beam tracker. */
  class DiscoverySystem {
    const ours: Process
    var tracks: seq<Beam>
    ghost var pending: Pending
    var presentBeams: seq<Beam>
    var listeners: seq<Listener>
    var sourced: set<Listener>
    var logs: Logs
    var kernel: set<Process>

    ghost function View(): State
      reads this
    {
      State(ours, tracks, pending, presentBeams, listeners, sourced, logs, kernel)
    }

    constructor (ours: Process)
      ensures View() == Start(ours)
    {
      this.ours, tracks, pending, presentBeams := ours, [], Nothing, [];
      listeners, sourced, logs, kernel := [], {}, map[], {};
    }

    method FindTrack(process: Process) returns (found: bool)
      ensures found <==> process in Processes(tracks)
    {
      for i := 0 to |tracks|
        invariant forall j :: 0 <= j < i ==> tracks[j].process != process
      {
        if tracks[i].process == process {
          return true;
        }
      }
      return false;
    }

    /** A beam of a tracked process only refreshes its timer. */
    method BeamReceived(beam: Beam)
      requires pending == Nothing
      modifies this
      ensures var tracked := Step(old(View()), Track(beam));
              View() == if tracked.pending == Nothing then tracked else Step(tracked, PassOn)
    {
      var known := FindTrack(beam.process);
      if !known {
        tracks := tracks + [beam];
        pending := Adding(beam);
        AddToPresent(beam);
        if beam.process.host != ours.host || beam.process.id != ours.id {
          kernel := kernel + {beam.process};
        }
      }
    }

    method RemoveTrack(process: Process)
      requires pending == Nothing
      modifies this
      ensures View() == Step(Step(old(View()), Untrack(process)), PassOn)
    {
      tracks := WithoutProcess(tracks, process);
      pending := Removing(process);
      RemoveFromPresent(process);
      if process.host != ours.host || process.id != ours.id {
        kernel := kernel - {process};
      }
    }

    method AddToPresent(beam: Beam)
      modifies this
      ensures View() == AddBeam(old(View()), beam).(kernel := old(kernel))
    {
      presentBeams := presentBeams + [beam];
      NotifyListeners(Found(beam));
      pending := Nothing;
    }

    method RemoveFromPresent(process: Process)
      modifies this
      ensures View() == RemoveBeam(old(View()), process).(kernel := old(kernel))
    {
      NotifyListeners(Lost(process));
      presentBeams := WithoutProcess(presentBeams, process);
      pending := Nothing;
    }

    method NotifyListeners(notice: Notice)
      modifies `logs
      ensures logs == TellAll(old(logs), listeners, notice)
    {
      for i := 0 to |listeners|
        invariant logs == TellAll(old(logs), listeners[..i], notice)
      {
        assert listeners[..i + 1][..i] == listeners[..i];
        logs := Tell(logs, listeners[i], notice);
      }
      assert listeners[..|listeners|] == listeners;
    }

    method Register(l: Listener)
      modifies this
      ensures View() == Step(old(View()), AddListener(l))
    {
      sourced := sourced + {l};
      listeners := listeners + [l];
      for i := 0 to |presentBeams|
        invariant View() == old(View()).(sourced := sourced, listeners := listeners, logs := logs)
        invariant sourced == old(sourced) + {l} && listeners == old(listeners) + [l]
        invariant logs == TellFound(old(logs), l, presentBeams[..i])
      {
        assert presentBeams[..i + 1][..i] == presentBeams[..i];
        logs := Tell(logs, l, Found(presentBeams[i]));
      }
      assert presentBeams[..|presentBeams|] == presentBeams;
    }

    method Unregister(l: Listener, allowCallback: bool)
      modifies this
      ensures View() == Step(old(View()), RemoveListener(l, allowCallback))
    {
      listeners := Unregistered(listeners, l);
      if allowCallback {
        ClearOurselvesAsSource(l);
      }
    }

    method ClearOurselvesAsSource(l: Listener)
      modifies `logs, `sourced
      ensures logs == TellLost(old(logs), l, presentBeams) && sourced == old(sourced) - {l}
    {
      for i := 0 to |presentBeams|
        invariant sourced == old(sourced) && logs == TellLost(old(logs), l, presentBeams[..i])
      {
        assert presentBeams[..i + 1][..i] == presentBeams[..i];
        logs := Tell(logs, l, Lost(presentBeams[i].process));
      }
      assert presentBeams[..|presentBeams|] == presentBeams;
      sourced := sourced - {l};
    }
  }
}
