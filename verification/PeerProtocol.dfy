/** Two processes of a session over one TCP connection: Hello, Ready, and then the participants
    that join and leave buses. Each direction is a lossless FIFO queue, one I/O thread runs the
    handlers of a process, and a closed handler stays closed. */
module PeerProtocol {
  import opened Wrappers

  type BusId = nat
  type ParticipantId = nat

  const MIN_ETHER_VERSION: nat := 2

  datatype ProcessInfo = ProcessInfo(sessionId: nat, processId: nat, hostId: nat)

  datatype Version = Version(kernel: nat, ether: nat)

  datatype Member = Member(bus: BusId, participant: ParticipantId)

  datatype Msg =
    | Hello(info: ProcessInfo, version: Version)
    | Ready
    | BusJoined(participant: ParticipantId, bus: BusId, name: string)
    | BusLeft(participant: ParticipantId, bus: BusId, name: string)

  datatype LocalBus = LocalBus(name: string, participants: seq<ParticipantId>)

  type LocalBuses = map<BusId, LocalBus>

  datatype Phase = Idle | Connected | Closed

  /** One side. `sent` is everything it has put on its outgoing queue and `received` how much of
      the peer's it has handled; `view` holds the peer's members as the listener was told of them,
      and `reportedAs` the process ids used when telling it. */
  datatype Node = Node(own: ProcessInfo, version: Version, phase: Phase,
                       info: Option<ProcessInfo>, procId: nat, ready: bool,
                       buses: LocalBuses, view: multiset<Member>, reportedAs: set<nat>,
                       sent: seq<Msg>, received: nat)

  // ---- Who connects --------------------------------------------------------------------------

  datatype BeamReaction = Ignore | StartConnection | WaitForConnection

  function OnBeam(own: ProcessInfo, other: ProcessInfo): BeamReaction {
    if other.hostId == own.hostId && other.processId == own.processId then Ignore
    else if other.sessionId != own.sessionId then Ignore
    else if own.processId > other.processId || (own.processId == other.processId && own.hostId > other.hostId) then
      StartConnection
    else WaitForConnection
  }

  /** Of two processes that discover each other, exactly one connects: the one with the higher
      process id, or of equal process ids the one on the higher host. A process ignores its own beam
      and every other session. */
  lemma {:induction false} ExactlyOneInitiates(a: ProcessInfo, b: ProcessInfo)
    ensures OnBeam(a, b) == StartConnection <==> OnBeam(b, a) == WaitForConnection
    ensures OnBeam(a, b) == StartConnection <==>
            && a.sessionId == b.sessionId
            && (a.processId > b.processId || (a.processId == b.processId && a.hostId > b.hostId))
    ensures OnBeam(a, b) == Ignore <==>
            a.sessionId != b.sessionId || (a.hostId == b.hostId && a.processId == b.processId)
  {
  }

  // ---- Local buses ---------------------------------------------------------------------------

  function Count(buses: LocalBuses, m: Member): nat {
    if m.bus in buses then multiset(buses[m.bus].participants)[m.participant] else 0
  }

  /** `view` holds exactly the members of `buses`, with multiplicity. */
  ghost predicate Agrees(view: multiset<Member>, buses: LocalBuses) {
    forall m :: view[m] == Count(buses, m)
  }

  function AddParticipant(buses: LocalBuses, p: ParticipantId, bus: BusId, name: string): LocalBuses {
    var current := if bus in buses then buses[bus] else LocalBus(name, []);
    buses[bus := current.(participants := current.participants + [p])]
  }

  function RemoveFirst(s: seq<ParticipantId>, p: ParticipantId): seq<ParticipantId> {
    if s == [] then [] else if s[0] == p then s[1..] else [s[0]] + RemoveFirst(s[1..], p)
  }

  lemma {:induction false} RemoveFirstIsDifference(s: seq<ParticipantId>, p: ParticipantId)
    ensures multiset(RemoveFirst(s, p)) == multiset(s) - multiset{p}
  {
    if s != [] {
      var rest := s[1..];
      assert s == [s[0]] + rest;
      assert multiset(s) == multiset{s[0]} + multiset(rest);
      RemoveFirstIsDifference(rest, p);
      assert s[0] != p ==> multiset(RemoveFirst(s, p)) == multiset{s[0]} + multiset(RemoveFirst(rest, p));
    }
  }

  /** The bus goes away with its last participant; an unknown bus or participant changes nothing. */
  function RemoveParticipant(buses: LocalBuses, p: ParticipantId, bus: BusId): LocalBuses {
    if bus !in buses then buses else
      var left := RemoveFirst(buses[bus].participants, p);
      if left == [] then buses - {bus} else buses[bus := buses[bus].(participants := left)]
  }

  // ---- Replaying bus messages ----------------------------------------------------------------

  /** What a list of messages does to the members a listener knows of. */
  function Apply(view: multiset<Member>, m: Msg): multiset<Member> {
    match m
    case BusJoined(p, b, _) => view + multiset{Member(b, p)}
    case BusLeft(p, b, _) => view - multiset{Member(b, p)}
    case _ => view
  }

  function Replay(view: multiset<Member>, msgs: seq<Msg>): multiset<Member> {
    if msgs == [] then view else Apply(Replay(view, msgs[..|msgs| - 1]), msgs[|msgs| - 1])
  }

  lemma {:induction false} ReplayOneMore(view: multiset<Member>, msgs: seq<Msg>, m: Msg)
    ensures Replay(view, msgs + [m]) == Apply(Replay(view, msgs), m)
  {
  }

  lemma {:induction false} ReplayAppend(view: multiset<Member>, a: seq<Msg>, b: seq<Msg>)
    ensures Replay(view, a + b) == Replay(Replay(view, a), b)
  {
    if b == [] {
      assert a + b == a;
    } else {
      var init, last := b[..|b| - 1], b[|b| - 1];
      assert b == init + [last] && a + b == (a + init) + [last];
      ReplayAppend(view, a, init);
      ReplayOneMore(view, a + init, last);
      ReplayOneMore(Replay(view, a), init, last);
    }
  }

  lemma {:induction false} CountAfterRemove(buses: LocalBuses, p: ParticipantId, bus: BusId, m: Member)
    ensures Count(RemoveParticipant(buses, p, bus), m)
            == if m == Member(bus, p) && Count(buses, m) > 0 then Count(buses, m) - 1 else Count(buses, m)
  {
    if bus in buses {
      RemoveFirstIsDifference(buses[bus].participants, p);
    }
  }

  lemma {:induction false} JoinAgrees(view: multiset<Member>, buses: LocalBuses, p: ParticipantId, bus: BusId,
                                      name: string)
    requires Agrees(view, buses)
    ensures Agrees(Apply(view, BusJoined(p, bus, name)), AddParticipant(buses, p, bus, name))
  {
  }

  /** A leave of somebody who is not there is a no-op on both sides. */
  lemma {:induction false} LeaveAgrees(view: multiset<Member>, buses: LocalBuses, p: ParticipantId, bus: BusId,
                                       name: string)
    requires Agrees(view, buses)
    ensures Agrees(Apply(view, BusLeft(p, bus, name)), RemoveParticipant(buses, p, bus))
  {
    forall m ensures Apply(view, BusLeft(p, bus, name))[m] == Count(RemoveParticipant(buses, p, bus), m) {
      CountAfterRemove(buses, p, bus, m);
    }
  }

  /** A join of a local bus, under that bus's name. */
  ghost predicate IsJoinOf(m: Msg, buses: LocalBuses) {
    m.BusJoined? && m.bus in buses && m.name == buses[m.bus].name
  }

  /** Joins that announce every local participant, in whatever order the buses are walked. */
  ghost predicate IsSnapshot(msgs: seq<Msg>, buses: LocalBuses) {
    && (forall i :: 0 <= i < |msgs| ==> IsJoinOf(msgs[i], buses))
    && Agrees(Replay(multiset{}, msgs), buses)
  }

  // ---- Handlers ------------------------------------------------------------------------------

  function Disconnected(n: Node): Node {
    n.(phase := Closed, ready := false, view := multiset{})
  }

  function OnConnected(n: Node): Node {
    n.(phase := Connected, sent := n.sent + [Hello(n.own, n.version)])
  }

  /** Another session, another kernel protocol, or an ether protocol before 2 ends the connection. */
  predicate Accepts(n: Node, info: ProcessInfo, version: Version) {
    info.sessionId == n.own.sessionId && version.kernel == n.version.kernel && version.ether >= MIN_ETHER_VERSION
  }

  function OnHello(n: Node, info: ProcessInfo, version: Version): Node {
    if Accepts(n, info, version) then n.(info := Some(info), sent := n.sent + [Ready]) else Disconnected(n)
  }

  /** The peer becomes a target for later joins and leaves, and gets the existing ones. */
  function OnReady(n: Node, snapshot: seq<Msg>): Node {
    n.(ready := true, procId := if n.info.Some? then n.info.value.processId else n.procId, sent := n.sent + snapshot)
  }

  function OnBus(n: Node, m: Msg): Node {
    n.(view := Apply(n.view, m), reportedAs := n.reportedAs + {n.procId})
  }

  function Handle(n: Node, m: Msg, snapshot: seq<Msg>): Node {
    match m
    case Hello(info, version) => OnHello(n, info, version)
    case Ready => OnReady(n, snapshot)
    case _ => OnBus(n, m)
  }

  function JoinBus(n: Node, p: ParticipantId, bus: BusId, name: string): Node {
    n.(buses := AddParticipant(n.buses, p, bus, name),
       sent := if n.ready then n.sent + [BusJoined(p, bus, name)] else n.sent)
  }

  function LeaveBus(n: Node, p: ParticipantId, bus: BusId, name: string): Node {
    n.(buses := RemoveParticipant(n.buses, p, bus),
       sent := if n.ready then n.sent + [BusLeft(p, bus, name)] else n.sent)
  }

  datatype Event =
    | Connect
    | Receive(snapshot: seq<Msg>)
    | Join(participant: ParticipantId, bus: BusId, name: string)
    | Leave(participant: ParticipantId, bus: BusId, name: string)
    | Disconnect

  ghost predicate Enabled(me: Node, peer: Node, e: Event) {
    match e
    case Connect => me.phase == Idle
    case Receive(snapshot) =>
      && me.phase == Connected && me.received < |peer.sent|
      && (peer.sent[me.received].Ready? ==> IsSnapshot(snapshot, me.buses))
    case _ => true
  }

  ghost function NodeStep(me: Node, peer: Node, e: Event): Node
    requires Enabled(me, peer, e)
  {
    match e
    case Connect => OnConnected(me)
    case Receive(snapshot) => Handle(me, peer.sent[me.received], snapshot).(received := me.received + 1)
    case Join(p, b, name) => JoinBus(me, p, b, name)
    case Leave(p, b, name) => LeaveBus(me, p, b, name)
    case Disconnect => Disconnected(me)
  }

  // ---- Invariant -----------------------------------------------------------------------------

  /** Hello, then at most one Ready, then only bus messages. */
  ghost predicate WellFormedStream(n: Node) {
    && (n.sent != [] ==> n.sent[0] == Hello(n.own, n.version))
    && (|n.sent| > 1 ==> n.sent[1] == Ready)
    && forall i :: 2 <= i < |n.sent| ==> n.sent[i].BusJoined? || n.sent[i].BusLeft?
  }

  /** How far one side has got, by what it has sent and handled. */
  ghost predicate HandshakeInv(me: Node, peer: Node) {
    && WellFormedStream(me)
    && (me.phase == Idle ==> me.sent == [] && me.received == 0)
    && (me.phase == Connected ==> me.sent != [])
    && me.received <= |peer.sent|
    && (me.info.Some? ==> me.received >= 1 && me.info.value == peer.own && Accepts(me, peer.own, peer.version))
    && (me.received >= 2 || |me.sent| >= 2 ==> me.info.Some?)
    && (|me.sent| > 2 ==> me.received >= 2)
    && (me.phase == Connected ==>
          && (me.received >= 1 ==> me.info.Some? && |me.sent| >= 2)
          && (me.ready <==> me.received >= 2))
    && (me.ready ==> me.phase == Connected && me.procId == peer.own.processId)
    && me.reportedAs == (if me.received > 2 then {peer.own.processId} else {})
  }

  /** The members known of the peer are what it has announced so far. */
  ghost predicate ViewInv(me: Node, peer: Node)
    requires me.received <= |peer.sent|
  {
    me.view == if me.phase == Connected then Replay(multiset{}, peer.sent[..me.received]) else multiset{}
  }

  /** A side that is ready has announced exactly its local members. */
  ghost predicate AnnounceInv(me: Node) { me.ready ==> Agrees(Replay(multiset{}, me.sent), me.buses) }

  ghost predicate NodeInv(me: Node, peer: Node) { HandshakeInv(me, peer) && ViewInv(me, peer) && AnnounceInv(me) }

  lemma {:induction false} ReplayOfGreetings(n: Node)
    requires WellFormedStream(n) && |n.sent| <= 2
    ensures Replay(multiset{}, n.sent) == multiset{}
  {
    if |n.sent| == 2 {
      assert Replay(multiset{}, n.sent[..1]) == multiset{};
    } else if |n.sent| == 1 {
    }
  }

  lemma {:induction false} HelloKeeps(me: Node, peer: Node, snapshot: seq<Msg>)
    requires NodeInv(me, peer) && NodeInv(peer, me) && Enabled(me, peer, Receive(snapshot))
    requires me.received == 0
    ensures NodeInv(NodeStep(me, peer, Receive(snapshot)), peer)
  {
  }

  lemma {:induction false} ReadyKeeps(me: Node, peer: Node, snapshot: seq<Msg>)
    requires NodeInv(me, peer) && NodeInv(peer, me) && Enabled(me, peer, Receive(snapshot))
    requires me.received == 1
    ensures NodeInv(NodeStep(me, peer, Receive(snapshot)), peer)
  {
    assert peer.sent[..2] == peer.sent[..1] + [peer.sent[1]];
    ReplayOneMore(multiset{}, peer.sent[..1], peer.sent[1]);
    ReplayOfGreetings(me);
    ReplayAppend(multiset{}, me.sent, snapshot);
  }

  /** One more handled message is one more replayed. */
  lemma {:induction false} HandledOneMore(view: multiset<Member>, sent: seq<Msg>, k: nat)
    requires k < |sent| && view == Replay(multiset{}, sent[..k])
    ensures Apply(view, sent[k]) == Replay(multiset{}, sent[..k + 1])
  {
    var handled := sent[..k + 1];
    assert handled[..k] == sent[..k] && handled[k] == sent[k];
  }

  lemma {:induction false} ReportKeeps(me: Node, peer: Node, m: Msg)
    requires HandshakeInv(me, peer) && me.phase == Connected && 2 <= me.received < |peer.sent|
    ensures HandshakeInv(OnBus(me, m).(received := me.received + 1), peer)
  {
  }

  lemma {:induction false} BusMessageKeeps(me: Node, peer: Node, snapshot: seq<Msg>)
    requires NodeInv(me, peer) && NodeInv(peer, me) && Enabled(me, peer, Receive(snapshot))
    requires me.received >= 2
    ensures NodeInv(NodeStep(me, peer, Receive(snapshot)), peer)
  {
    HandledOneMore(me.view, peer.sent, me.received);
    ReportKeeps(me, peer, peer.sent[me.received]);
  }

  /** A local change, told to a ready peer by a message that does the same to its view. */
  lemma {:induction false} LocalChangeKeeps(me: Node, peer: Node, changed: LocalBuses, m: Msg)
    requires NodeInv(me, peer) && (m.BusJoined? || m.BusLeft?)
    requires me.ready ==> Agrees(Apply(Replay(multiset{}, me.sent), m), changed)
    ensures NodeInv(me.(buses := changed, sent := if me.ready then me.sent + [m] else me.sent), peer)
  {
    ReplayOneMore(multiset{}, me.sent, m);
  }

  lemma {:induction false} JoinKeeps(me: Node, peer: Node, p: ParticipantId, bus: BusId, name: string)
    requires NodeInv(me, peer)
    ensures NodeInv(JoinBus(me, p, bus, name), peer)
  {
    if me.ready {
      JoinAgrees(Replay(multiset{}, me.sent), me.buses, p, bus, name);
    }
    LocalChangeKeeps(me, peer, AddParticipant(me.buses, p, bus, name), BusJoined(p, bus, name));
  }

  lemma {:induction false} LeaveKeeps(me: Node, peer: Node, p: ParticipantId, bus: BusId, name: string)
    requires NodeInv(me, peer)
    ensures NodeInv(LeaveBus(me, p, bus, name), peer)
  {
    if me.ready {
      LeaveAgrees(Replay(multiset{}, me.sent), me.buses, p, bus, name);
    }
    LocalChangeKeeps(me, peer, RemoveParticipant(me.buses, p, bus), BusLeft(p, bus, name));
  }

  lemma {:induction false} ConnectKeeps(me: Node, peer: Node)
    requires NodeInv(me, peer) && me.phase == Idle
    ensures NodeInv(OnConnected(me), peer)
  {
  }

  lemma {:induction false} OwnStepKeeps(me: Node, peer: Node, e: Event)
    requires NodeInv(me, peer) && NodeInv(peer, me) && Enabled(me, peer, e)
    ensures NodeInv(NodeStep(me, peer, e), peer)
  {
    match e
    case Connect => ConnectKeeps(me, peer);
    case Receive(snapshot) =>
      if me.received == 0 {
        HelloKeeps(me, peer, snapshot);
      } else if me.received == 1 {
        ReadyKeeps(me, peer, snapshot);
      } else {
        BusMessageKeeps(me, peer, snapshot);
      }
    case Join(p, b, name) => JoinKeeps(me, peer, p, b, name);
    case Leave(p, b, name) => LeaveKeeps(me, peer, p, b, name);
    case Disconnect =>
  }

  /** Exactly what each event makes a side send: its Hello when connected, Ready for the Hello of a
      process it may talk to, the snapshot for Ready, and every local join and leave while ready, whether
      or not the participant was there. */
  lemma {:induction false} StepSends(me: Node, peer: Node, e: Event)
    requires Enabled(me, peer, e)
    ensures NodeStep(me, peer, e).sent
            == me.sent
               + match e
                 case Connect => [Hello(me.own, me.version)]
                 case Receive(snapshot) =>
                   (match peer.sent[me.received]
                    case Hello(info, version) =>
                      if info.sessionId == me.own.sessionId && version.kernel == me.version.kernel && version.ether >= 2
                      then [Ready] else []
                    case Ready => snapshot
                    case _ => [])
                 case Join(p, b, name) => if me.ready then [BusJoined(p, b, name)] else []
                 case Leave(p, b, name) => if me.ready then [BusLeft(p, b, name)] else []
                 case Disconnect => []
  {
  }

  /** A side only ever adds to what it has sent. */
  lemma {:induction false} StepSendsMore(me: Node, peer: Node, e: Event)
    requires Enabled(me, peer, e)
    ensures var next := NodeStep(me, peer, e);
            next.own == me.own && next.version == me.version && me.sent <= next.sent
  {
  }

  /** What one side has handled stays in place when the other sends more. */
  lemma {:induction false} SendingKeeps(me: Node, peer: Node, next: Node)
    requires NodeInv(peer, me)
    requires next.own == me.own && next.version == me.version && me.sent <= next.sent
    ensures NodeInv(peer, next)
  {
    assert next.sent[..peer.received] == me.sent[..peer.received];
  }

  lemma {:induction false} PeerStepKeeps(me: Node, peer: Node, e: Event)
    requires NodeInv(peer, me) && Enabled(me, peer, e)
    ensures NodeInv(peer, NodeStep(me, peer, e))
  {
    StepSendsMore(me, peer, e);
    SendingKeeps(me, peer, NodeStep(me, peer, e));
  }

  // ---- Runs ----------------------------------------------------------------------------------

  datatype Pair = Pair(left: Node, right: Node)

  datatype Move = Move(left: bool, event: Event)

  function Fresh(own: ProcessInfo, version: Version): Node {
    Node(own, version, Idle, None, 0, false, map[], multiset{}, {}, [], 0)
  }

  ghost predicate MoveEnabled(s: Pair, m: Move) {
    if m.left then Enabled(s.left, s.right, m.event) else Enabled(s.right, s.left, m.event)
  }

  ghost function PairStep(s: Pair, m: Move): Pair
    requires MoveEnabled(s, m)
  {
    if m.left then s.(left := NodeStep(s.left, s.right, m.event))
    else s.(right := NodeStep(s.right, s.left, m.event))
  }

  ghost predicate PairInv(s: Pair) { NodeInv(s.left, s.right) && NodeInv(s.right, s.left) }

  lemma {:induction false} PairStepKeeps(s: Pair, m: Move)
    requires PairInv(s) && MoveEnabled(s, m)
    ensures PairInv(PairStep(s, m))
  {
    var me, peer := if m.left then s.left else s.right, if m.left then s.right else s.left;
    OwnStepKeeps(me, peer, m.event);
    PeerStepKeeps(me, peer, m.event);
  }

  /** A run of two fresh processes, of any ids, sessions and versions. */
  ghost predicate IsRun(states: seq<Pair>, moves: seq<Move>) {
    && |states| == |moves| + 1
    && states[0] == Pair(Fresh(states[0].left.own, states[0].left.version),
                         Fresh(states[0].right.own, states[0].right.version))
    && forall i :: 0 <= i < |moves| ==> StepAt(states, moves, i)
  }

  ghost predicate StepAt(states: seq<Pair>, moves: seq<Move>, i: nat)
    requires |states| == |moves| + 1 && i < |moves|
  {
    MoveEnabled(states[i], moves[i]) && states[i + 1] == PairStep(states[i], moves[i])
  }

  lemma {:induction false} RunKeepsInvariant(states: seq<Pair>, moves: seq<Move>, i: nat)
    requires IsRun(states, moves) && i < |states|
    ensures PairInv(states[i])
  {
    if i > 0 {
      assert StepAt(states, moves, i - 1);
      RunKeepsInvariant(states, moves, i - 1);
      PairStepKeeps(states[i - 1], moves[i - 1]);
    }
  }

  /** `me` as seen from its peer: replaying what is still in flight onto the peer's view gives
      exactly the local members; with nothing in flight the views are equal. */
  ghost predicate ViewsConverge(me: Node, peer: Node) {
    me.ready && peer.phase == Connected ==>
      && peer.received <= |me.sent|
      && Agrees(Replay(peer.view, me.sent[peer.received..]), me.buses)
      && (peer.received == |me.sent| ==> Agrees(peer.view, me.buses))
  }

  /** Two processes may talk: one session, one kernel protocol, and an ether protocol from 2 on. */
  ghost predicate CanTalk(me: Node, peer: Node) {
    && peer.own.sessionId == me.own.sessionId && peer.version.kernel == me.version.kernel
    && peer.version.ether >= 2 && me.version.ether >= 2
  }

  /** Both sides have accepted each other before either handles Ready, and members are reported
      under the peer's own process id, never before Ready. A side that has handled the Hello of a
      process it cannot talk to is closed, and a closed side knows no member. */
  ghost predicate HandshakeIsSound(me: Node, peer: Node) {
    && WellFormedStream(me)
    && (me.phase == Connected ==> me.sent != [] && (me.ready <==> me.received >= 2))
    && (me.phase != Connected ==> !me.ready && me.view == multiset{})
    && (me.phase == Connected && me.received >= 1 ==>
          && me.info == Some(peer.own) && peer.own.sessionId == me.own.sessionId
          && peer.version.kernel == me.version.kernel && peer.version.ether >= 2)
    && (me.received >= 2 ==> me.info == Some(peer.own) && peer.info == Some(me.own) && CanTalk(me, peer))
    && me.reportedAs == (if me.received > 2 then {peer.own.processId} else {})
    && (|me.sent| > 2 ==> me.received >= 2)
  }

  lemma {:induction false} ReplayRest(msgs: seq<Msg>, n: nat)
    requires n <= |msgs|
    ensures Replay(Replay(multiset{}, msgs[..n]), msgs[n..]) == Replay(multiset{}, msgs)
    ensures n == |msgs| ==> Replay(multiset{}, msgs[..n]) == Replay(multiset{}, msgs)
  {
    assert msgs == msgs[..n] + msgs[n..];
    ReplayAppend(multiset{}, msgs[..n], msgs[n..]);
    assert n == |msgs| ==> msgs[..n] == msgs;
  }

  lemma {:induction false} InvariantImpliesConvergence(me: Node, peer: Node)
    requires NodeInv(me, peer) && NodeInv(peer, me)
    ensures ViewsConverge(me, peer) && HandshakeIsSound(me, peer)
  {
    if me.ready && peer.phase == Connected {
      ReplayRest(me.sent, peer.received);
    }
  }

  /** In every reachable state of every run, in both directions. */
  lemma {:induction false} RunIsSound(states: seq<Pair>, moves: seq<Move>, i: nat)
    requires IsRun(states, moves) && i < |states|
    ensures ViewsConverge(states[i].left, states[i].right) && ViewsConverge(states[i].right, states[i].left)
    ensures HandshakeIsSound(states[i].left, states[i].right) && HandshakeIsSound(states[i].right, states[i].left)
  {
    RunKeepsInvariant(states, moves, i);
    InvariantImpliesConvergence(states[i].left, states[i].right);
    InvariantImpliesConvergence(states[i].right, states[i].left);
  }

  // ---- Local members over a run ---------------------------------------------------------------

  function Side(s: Pair, left: bool): Node { if left then s.left else s.right }

  /** The members that the joins and leaves on one side have made. */
  function Members(moves: seq<Move>, left: bool): multiset<Member> {
    if moves == [] then multiset{} else
      var before, m := Members(moves[..|moves| - 1], left), moves[|moves| - 1];
      if m.left == left then AfterEvent(before, m.event) else before
  }

  function AfterEvent(members: multiset<Member>, e: Event): multiset<Member> {
    match e
    case Join(p, b, _) => members + multiset{Member(b, p)}
    case Leave(p, b, _) => members - multiset{Member(b, p)}
    case _ => members
  }

  ghost predicate NoneIsEmpty(buses: LocalBuses) { forall b | b in buses :: buses[b].participants != [] }

  function BusesAfter(buses: LocalBuses, e: Event): LocalBuses {
    match e
    case Join(p, b, name) => AddParticipant(buses, p, b, name)
    case Leave(p, b, _) => RemoveParticipant(buses, p, b)
    case _ => buses
  }

  /** Only joins and leaves change a side's buses. */
  lemma {:induction false} StepChangesBuses(me: Node, peer: Node, e: Event)
    requires Enabled(me, peer, e)
    ensures NodeStep(me, peer, e).buses == BusesAfter(me.buses, e)
  {
  }

  lemma {:induction false} EventCounts(members: multiset<Member>, buses: LocalBuses, e: Event, m: Member)
    requires members[m] == Count(buses, m)
    ensures AfterEvent(members, e)[m] == Count(BusesAfter(buses, e), m)
  {
    if e.Leave? {
      CountAfterRemove(buses, e.participant, e.bus, m);
    }
  }

  lemma {:induction false} EventAgrees(members: multiset<Member>, buses: LocalBuses, e: Event)
    requires Agrees(members, buses)
    ensures Agrees(AfterEvent(members, e), BusesAfter(buses, e))
  {
    forall m ensures AfterEvent(members, e)[m] == Count(BusesAfter(buses, e), m) {
      EventCounts(members, buses, e, m);
    }
  }

  lemma {:induction false} EventLeavesNoneEmpty(buses: LocalBuses, e: Event)
    requires NoneIsEmpty(buses)
    ensures NoneIsEmpty(BusesAfter(buses, e))
  {
  }

  /** In every run a side's buses hold exactly the members that its joins and leaves have made, and
      no bus is empty. */
  lemma {:induction false} MembersAreHistory(states: seq<Pair>, moves: seq<Move>, i: nat, left: bool)
    requires IsRun(states, moves) && i < |states|
    ensures Agrees(Members(moves[..i], left), Side(states[i], left).buses)
    ensures NoneIsEmpty(Side(states[i], left).buses)
  {
    if i > 0 {
      assert StepAt(states, moves, i - 1);
      MembersAreHistory(states, moves, i - 1, left);
      assert moves[..i][..i - 1] == moves[..i - 1];
      if moves[i - 1].left == left {
        var me, e := Side(states[i - 1], left), moves[i - 1].event;
        StepChangesBuses(me, Side(states[i - 1], !left), e);
        EventAgrees(Members(moves[..i - 1], left), me.buses, e);
        EventLeavesNoneEmpty(me.buses, e);
      }
    }
  }

  /** This side has handled the Hello of a process it may not talk to. */
  ghost predicate Refused(me: Node, peer: Node) {
    && me.received >= 1
    && (peer.own.sessionId != me.own.sessionId || peer.version.kernel != me.version.kernel || peer.version.ether < 2)
  }

  lemma {:induction false} StepChangesPhase(me: Node, peer: Node, e: Event, disconnected: bool)
    requires HandshakeInv(me, peer) && HandshakeInv(peer, me) && Enabled(me, peer, e)
    requires me.phase == Closed <==> disconnected || Refused(me, peer)
    ensures var next := NodeStep(me, peer, e);
            && (next.phase == Idle <==> me.phase == Idle && e != Connect && e != Disconnect)
            && (next.phase == Closed <==> disconnected || e == Disconnect || Refused(next, peer))
  {
  }

  /** The phase of one side, given whether it has been connected and disconnected. */
  ghost predicate PhaseIs(s: Pair, left: bool, connected: bool, disconnected: bool) {
    var me := Side(s, left);
    && (me.phase == Idle <==> !connected && !disconnected)
    && (me.phase == Closed <==> disconnected || Refused(me, Side(s, !left)))
  }

  lemma {:induction false} MoveChangesPhase(s: Pair, m: Move, left: bool, connected: bool, disconnected: bool)
    requires PairInv(s) && MoveEnabled(s, m) && PhaseIs(s, left, connected, disconnected)
    ensures PhaseIs(PairStep(s, m), left, connected || m == Move(left, Connect),
                    disconnected || m == Move(left, Disconnect))
  {
    if m.left == left {
      StepChangesPhase(Side(s, left), Side(s, !left), m.event, disconnected);
    } else {
      StepSendsMore(Side(s, !left), Side(s, left), m.event);
    }
  }

  /** In every run a side is idle until it is connected or disconnected, and it is closed exactly when
      it has been disconnected or has handled the Hello of a process it may not talk to. */
  lemma {:induction false} PhaseIsHistory(states: seq<Pair>, moves: seq<Move>, i: nat, left: bool)
    requires IsRun(states, moves) && i < |states|
    ensures PhaseIs(states[i], left, Move(left, Connect) in moves[..i], Move(left, Disconnect) in moves[..i])
  {
    if i > 0 {
      assert StepAt(states, moves, i - 1);
      PhaseIsHistory(states, moves, i - 1, left);
      RunKeepsInvariant(states, moves, i - 1);
      assert moves[..i] == moves[..i - 1] + [moves[i - 1]];
      MoveChangesPhase(states[i - 1], moves[i - 1], left, Move(left, Connect) in moves[..i - 1],
                       Move(left, Disconnect) in moves[..i - 1]);
    }
  }

  /** Every local bus, and every join and leave sent, has the name that `naming` gives the bus. */
  ghost predicate IsNamed(n: Node, naming: BusId -> string) {
    && (forall b | b in n.buses :: n.buses[b].name == naming(b))
    && forall i :: 0 <= i < |n.sent| ==> MessageIsNamed(n.sent[i], naming)
  }

  ghost predicate MessageIsNamed(m: Msg, naming: BusId -> string) {
    m.BusJoined? || m.BusLeft? ==> m.name == naming(m.bus)
  }

  ghost predicate EventIsNamed(e: Event, naming: BusId -> string) {
    e.Join? || e.Leave? ==> e.name == naming(e.bus)
  }

  lemma {:induction false} StepKeepsNames(me: Node, peer: Node, e: Event, naming: BusId -> string)
    requires Enabled(me, peer, e) && EventIsNamed(e, naming) && IsNamed(me, naming)
    ensures IsNamed(NodeStep(me, peer, e), naming)
  {
    var next := NodeStep(me, peer, e);
    forall i | 0 <= i < |next.sent| ensures MessageIsNamed(next.sent[i], naming) {
      assert i < |me.sent| ==> MessageIsNamed(me.sent[i], naming);
      assert e.Receive? && i >= |me.sent| && peer.sent[me.received].Ready? ==>
          IsJoinOf(e.snapshot[i - |me.sent|], me.buses);
    }
  }

  /** Where the callers call each bus by one name, so does every message of the run. */
  lemma {:induction false} NamesAreKept(states: seq<Pair>, moves: seq<Move>, i: nat, naming: BusId -> string)
    requires IsRun(states, moves) && i < |states|
    requires forall k :: 0 <= k < i ==> EventIsNamed(moves[k].event, naming)
    ensures IsNamed(states[i].left, naming) && IsNamed(states[i].right, naming)
  {
    if i > 0 {
      assert StepAt(states, moves, i - 1);
      NamesAreKept(states, moves, i - 1, naming);
      var m := moves[i - 1];
      StepKeepsNames(Side(states[i - 1], m.left), Side(states[i - 1], !m.left), m.event, naming);
    }
  }

  // ---- Agreement is reached ------------------------------------------------------------------

  ghost predicate BothConnected(s: Pair) { s.left.phase == Connected && s.right.phase == Connected }

  /** Nothing is in flight in either direction. */
  ghost predicate Drained(s: Pair) { s.left.received == |s.right.sent| && s.right.received == |s.left.sent| }

  /** Both are ready, and each knows exactly the other's members. */
  ghost predicate Agreed(s: Pair) {
    s.left.ready && s.right.ready && Agrees(s.right.view, s.left.buses) && Agrees(s.left.view, s.right.buses)
  }

  /** In every run: two connected sides with nothing in flight are both ready, can talk to each other,
      and each knows exactly the members that the other's joins and leaves have made. */
  lemma {:induction false} DrainedPairAgrees(states: seq<Pair>, moves: seq<Move>, i: nat)
    requires IsRun(states, moves) && i < |states| && BothConnected(states[i]) && Drained(states[i])
    ensures Agreed(states[i]) && CanTalk(states[i].left, states[i].right)
    ensures states[i].left.view == Members(moves[..i], false) && states[i].right.view == Members(moves[..i], true)
  {
    MembersAreHistory(states, moves, i, true);
    MembersAreHistory(states, moves, i, false);
    RunKeepsInvariant(states, moves, i);
    RunIsSound(states, moves, i);
  }

  /** Handshake messages not yet handled by a side. */
  function Greetings(n: Node): nat { if n.received < 2 then 2 - n.received else 0 }

  /** Messages sent and not yet handled, in both directions. */
  function InFlight(s: Pair): nat {
    if s.left.received <= |s.right.sent| && s.right.received <= |s.left.sent|
    then |s.right.sent| - s.left.received + |s.left.sent| - s.right.received
    else 0
  }

  /** What handling a message leaves alone, on a side that accepts its peer. */
  lemma {:induction false} ReceivingContinues(me: Node, peer: Node, snapshot: seq<Msg>)
    requires HandshakeInv(me, peer) && HandshakeInv(peer, me) && Enabled(me, peer, Receive(snapshot))
    requires Accepts(me, peer.own, peer.version)
    ensures var next := NodeStep(me, peer, Receive(snapshot));
            && next.phase == Connected && next.received == me.received + 1
            && next.own == me.own && next.version == me.version && next.buses == me.buses
            && (me.received >= 2 ==> next.sent == me.sent)
  {
  }

  /** Whatever a side has to handle next, it can. */
  lemma {:induction false} CanReceive(me: Node, peer: Node) returns (snapshot: seq<Msg>)
    requires me.phase == Connected && me.received < |peer.sent|
    ensures Enabled(me, peer, Receive(snapshot))
  {
    snapshot := SomeSnapshot(me.buses);
  }

  lemma {:induction false} RunOneMore(states: seq<Pair>, moves: seq<Move>, m: Move)
    returns (states': seq<Pair>, moves': seq<Move>)
    requires IsRun(states, moves) && MoveEnabled(states[|moves|], m)
    ensures IsRun(states', moves') && moves' == moves + [m] && states' == states + [PairStep(states[|moves|], m)]
  {
    states', moves' := states + [PairStep(states[|moves|], m)], moves + [m];
    forall i | 0 <= i < |moves'| ensures StepAt(states', moves', i) {
      assert i < |moves| ==> StepAt(states, moves, i);
    }
  }

  /** `t` is nearer to rest than `s`, with both sides still connected and able to talk. */
  ghost predicate Nearer(s: Pair, t: Pair) {
    && PairInv(s) && PairInv(t) && BothConnected(t) && CanTalk(t.left, t.right)
    && t.left.buses == s.left.buses && t.right.buses == s.right.buses
    && var before, after := Greetings(s.left) + Greetings(s.right), Greetings(t.left) + Greetings(t.right);
       after < before || (after == before && InFlight(t) < InFlight(s))
  }

  lemma {:induction false} HandlingIsNearer(s: Pair, left: bool, snapshot: seq<Msg>)
    requires PairInv(s) && BothConnected(s) && CanTalk(s.left, s.right)
    requires Enabled(Side(s, left), Side(s, !left), Receive(snapshot))
    ensures MoveEnabled(s, Move(left, Receive(snapshot))) && Nearer(s, PairStep(s, Move(left, Receive(snapshot))))
  {
    PairStepKeeps(s, Move(left, Receive(snapshot)));
    ReceivingContinues(Side(s, left), Side(s, !left), snapshot);
  }

  /** One side handles the next message. */
  lemma {:induction false} HandleOne(states: seq<Pair>, moves: seq<Move>, left: bool)
    returns (states': seq<Pair>, moves': seq<Move>)
    requires IsRun(states, moves) && BothConnected(states[|moves|])
    requires CanTalk(states[|moves|].left, states[|moves|].right)
    requires var s := states[|moves|];
             if left then s.left.received < |s.right.sent| else s.right.received < |s.left.sent|
    ensures IsRun(states', moves') && Handled(states, moves, states', moves') && |moves'| == |moves| + 1
    ensures Nearer(states[|moves|], states'[|moves'|])
  {
    var s := states[|moves|];
    RunKeepsInvariant(states, moves, |moves|);
    var snapshot := CanReceive(Side(s, left), Side(s, !left));
    HandlingIsNearer(s, left, snapshot);
    states', moves' := RunOneMore(states, moves, Move(left, Receive(snapshot)));
  }

  /** The second run goes on from the first one by handling messages only, so no local member changes. */
  ghost predicate Handled(states: seq<Pair>, moves: seq<Move>, states': seq<Pair>, moves': seq<Move>)
    requires |states| == |moves| + 1 && |states'| == |moves'| + 1
  {
    && states <= states' && moves <= moves'
    && (forall i :: |moves| <= i < |moves'| ==> moves'[i].event.Receive?)
    && states'[|moves'|].left.buses == states[|moves|].left.buses
    && states'[|moves'|].right.buses == states[|moves|].right.buses
  }

  /** From every reachable state with both sides connected and compatible, handling messages alone
      leads to agreement, whichever side goes first: each message handled lowers a measure. */
  lemma {:induction false} PairSettles(states: seq<Pair>, moves: seq<Move>)
    returns (states': seq<Pair>, moves': seq<Move>)
    requires IsRun(states, moves) && BothConnected(states[|moves|])
    requires CanTalk(states[|moves|].left, states[|moves|].right)
    ensures IsRun(states', moves') && Handled(states, moves, states', moves')
    ensures BothConnected(states'[|moves'|]) && Drained(states'[|moves'|]) && Agreed(states'[|moves'|])
    decreases Greetings(states[|moves|].left) + Greetings(states[|moves|].right), InFlight(states[|moves|])
  {
    var s := states[|moves|];
    RunKeepsInvariant(states, moves, |moves|);
    if Drained(s) {
      DrainedPairAgrees(states, moves, |moves|);
      states', moves' := states, moves;
    } else {
      var states1, moves1 := HandleOne(states, moves, s.left.received < |s.right.sent|);
      states', moves' := PairSettles(states1, moves1);
    }
  }

  // ---- The transport -------------------------------------------------------------------------

  /** The transport of one process with its handler for one peer, as its methods change it. */
  class Transport {
    const own: ProcessInfo
    const version: Version
    var phase: Phase
    var info: Option<ProcessInfo>
    var procId: nat
    var ready: bool
    var localBuses: LocalBuses
    var outQueue: seq<Msg>
    var received: nat
    var view: multiset<Member>
    var reportedAs: set<nat>

    ghost function View(): Node
      reads this
    {
      Node(own, version, phase, info, procId, ready, localBuses, view, reportedAs, outQueue, received)
    }

    constructor (own: ProcessInfo, version: Version)
      ensures View() == Fresh(own, version)
    {
      this.own, this.version := own, version;
      phase, info, procId, ready, received := Idle, None, 0, false, 0;
      localBuses, outQueue, view, reportedAs := map[], [], multiset{}, {};
    }

    method HandleConnected()
      modifies this
      ensures View() == OnConnected(old(View()))
    {
      phase := Connected;
      outQueue := outQueue + [Hello(own, version)];
    }

    method HandleDisconnected()
      modifies this
      ensures View() == Disconnected(old(View()))
    {
      phase, ready := Closed, false;
      view := multiset{};
    }

    method HandleHello(hello: Msg)
      requires hello.Hello?
      modifies this
      ensures View() == OnHello(old(View()), hello.info, hello.version)
      ensures hello.info.sessionId != own.sessionId || hello.version.kernel != version.kernel || hello.version.ether < 2
              ==> phase == Closed && !ready && view == multiset{} && info == old(info) && outQueue == old(outQueue)
      ensures hello.info.sessionId == own.sessionId && hello.version.kernel == version.kernel &&
              hello.version.ether >= 2
              ==> && phase == old(phase) && ready == old(ready) && view == old(view)
                  && info == Some(hello.info) && outQueue == old(outQueue) + [Ready]
    {
      if hello.info.sessionId != own.sessionId {
        HandleDisconnected();
        return;
      }
      if hello.version.kernel != version.kernel {
        HandleDisconnected();
        return;
      }
      if hello.version.ether < MIN_ETHER_VERSION {
        HandleDisconnected();
        return;
      }
      info := Some(hello.info);
      outQueue := outQueue + [Ready];
    }

    /** Registers the peer and announces every participant of every local bus, bus by bus in the
        unspecified order of the map. */
    method HandleReady() returns (ghost snapshot: seq<Msg>)
      modifies this
      ensures IsSnapshot(snapshot, localBuses)
      ensures View() == OnReady(old(View()), snapshot)
    {
      ready := true;
      snapshot := [];
      var todo := localBuses.Keys;
      while todo != {}
        invariant todo <= localBuses.Keys
        invariant View() == old(View()).(ready := true, sent := old(outQueue) + snapshot)
        invariant AnnouncedOnly(snapshot, localBuses, localBuses.Keys - todo)
      {
        var bus :| bus in todo;
        AnnounceBus(bus, localBuses[bus]);
        ghost var joins := Joins(bus, localBuses[bus].name, localBuses[bus].participants);
        JoinsAnnounce(bus, localBuses[bus]);
        AnnounceExtends(snapshot, localBuses, localBuses.Keys - todo, bus, joins);
        snapshot := snapshot + joins;
        todo := todo - {bus};
      }
      if info.Some? {
        procId := info.value.processId;
      }
    }

    method AnnounceBus(bus: BusId, local: LocalBus)
      modifies `outQueue
      ensures outQueue == old(outQueue) + Joins(bus, local.name, local.participants)
    {
      for i := 0 to |local.participants|
        invariant outQueue == old(outQueue) + Joins(bus, local.name, local.participants[..i])
      {
        outQueue := outQueue + [BusJoined(local.participants[i], bus, local.name)];
      }
      assert local.participants[..|local.participants|] == local.participants;
    }

    method HandleBusMessage(m: Msg)
      requires m.BusJoined? || m.BusLeft?
      modifies this
      ensures View() == OnBus(old(View()), m)
    {
      var member := Member(m.bus, m.participant);
      view := if m.BusJoined? then view + multiset{member} else view - multiset{member};
      reportedAs := reportedAs + {procId};
    }

    method LocalParticipantJoinedBus(p: ParticipantId, bus: BusId, name: string)
      modifies this
      ensures View() == JoinBus(old(View()), p, bus, name)
    {
      if bus !in localBuses {
        localBuses := localBuses[bus := LocalBus(name, [])];
      }
      var local := localBuses[bus];
      localBuses := localBuses[bus := LocalBus(local.name, local.participants + [p])];
      if ready {
        outQueue := outQueue + [BusJoined(p, bus, name)];
      }
    }

    method LocalParticipantLeftBus(p: ParticipantId, bus: BusId, name: string)
      modifies this
      ensures View() == LeaveBus(old(View()), p, bus, name)
    {
      if ready {
        outQueue := outQueue + [BusLeft(p, bus, name)];
      }
      if bus in localBuses {
        var local := localBuses[bus];
        var position := 0;
        while position < |local.participants| && local.participants[position] != p
          invariant position <= |local.participants|
          invariant p !in local.participants[..position]
        {
          position := position + 1;
        }
        RemoveFirstAt(local.participants, p, position);
        var participants := local.participants;
        if position < |participants| {
          participants := participants[..position] + participants[position + 1..];
        }
        if participants == [] {
          localBuses := localBuses - {bus};
        } else {
          localBuses := localBuses[bus := LocalBus(local.name, participants)];
        }
      }
    }
  }

  lemma {:induction false} RemoveFirstAt(s: seq<ParticipantId>, p: ParticipantId, i: nat)
    requires i <= |s| && p !in s[..i] && (i < |s| ==> s[i] == p)
    ensures RemoveFirst(s, p) == if i < |s| then s[..i] + s[i + 1..] else s
  {
    if i > 0 {
      RemoveFirstAt(s[1..], p, i - 1);
    }
  }

  /** One join for each participant of a bus, in order. */
  function Joins(bus: BusId, name: string, participants: seq<ParticipantId>): seq<Msg> {
    seq(|participants|, i requires 0 <= i < |participants| => BusJoined(participants[i], bus, name))
  }

  /** Joins for one bus: each of its participants, as often as it is there. */
  ghost predicate IsAnnouncement(joins: seq<Msg>, bus: BusId, local: LocalBus) {
    && (forall i :: 0 <= i < |joins| ==> joins[i].BusJoined? && joins[i].bus == bus && joins[i].name == local.name)
    && forall m :: Replay(multiset{}, joins)[m]
                   == if m.bus == bus then multiset(local.participants)[m.participant] else 0
  }

  lemma {:induction false} AnnouncementGrows(joins: seq<Msg>, bus: BusId, local: LocalBus, p: ParticipantId)
    requires IsAnnouncement(joins, bus, local)
    ensures IsAnnouncement(joins + [BusJoined(p, bus, local.name)], bus, LocalBus(local.name, local.participants + [p]))
  {
    ReplayOneMore(multiset{}, joins, BusJoined(p, bus, local.name));
  }

  /** Exactly the members of the buses in `done` have been announced. */
  ghost predicate AnnouncedOnly(msgs: seq<Msg>, buses: LocalBuses, done: set<BusId>) {
    && (forall i :: 0 <= i < |msgs| ==> IsJoinOf(msgs[i], buses))
    && forall m :: Replay(multiset{}, msgs)[m] == if m.bus in done then Count(buses, m) else 0
  }

  lemma {:induction false} ReplayOfJoins(view: multiset<Member>, joins: seq<Msg>)
    requires forall i :: 0 <= i < |joins| ==> joins[i].BusJoined?
    ensures Replay(view, joins) == view + Replay(multiset{}, joins)
  {
    if joins != [] {
      ReplayOfJoins(view, joins[..|joins| - 1]);
    }
  }

  lemma {:induction false} AnnounceExtends(msgs: seq<Msg>, buses: LocalBuses, done: set<BusId>, bus: BusId,
                                           joins: seq<Msg>)
    requires AnnouncedOnly(msgs, buses, done) && bus in buses && bus !in done
    requires IsAnnouncement(joins, bus, buses[bus])
    ensures AnnouncedOnly(msgs + joins, buses, done + {bus})
  {
    ReplayAppend(multiset{}, msgs, joins);
    ReplayOfJoins(Replay(multiset{}, msgs), joins);
  }

  lemma {:induction false} JoinsAnnounce(bus: BusId, local: LocalBus)
    ensures IsAnnouncement(Joins(bus, local.name, local.participants), bus, local)
    decreases |local.participants|
  {
    if local.participants != [] {
      var n := |local.participants| - 1;
      var before, p := LocalBus(local.name, local.participants[..n]), local.participants[n];
      JoinsAnnounce(bus, before);
      AnnouncementGrows(Joins(bus, before.name, before.participants), bus, before, p);
      assert before.participants + [p] == local.participants;
      assert Joins(bus, local.name, local.participants)
          == Joins(bus, before.name, before.participants) + [BusJoined(p, bus, local.name)];
    }
  }

  lemma {:induction false} SomeAnnouncements(buses: LocalBuses, done: set<BusId>) returns (msgs: seq<Msg>)
    requires done <= buses.Keys
    ensures AnnouncedOnly(msgs, buses, done)
    decreases done
  {
    msgs := [];
    if done != {} {
      var bus :| bus in done;
      msgs := SomeAnnouncements(buses, done - {bus});
      var joins := Joins(bus, buses[bus].name, buses[bus].participants);
      JoinsAnnounce(bus, buses[bus]);
      AnnounceExtends(msgs, buses, done - {bus}, bus, joins);
      assert done - {bus} + {bus} == done;
      msgs := msgs + joins;
    }
  }

  lemma {:induction false} SomeSnapshot(buses: LocalBuses) returns (snapshot: seq<Msg>)
    ensures IsSnapshot(snapshot, buses)
  {
    snapshot := SomeAnnouncements(buses, buses.Keys);
  }
}
