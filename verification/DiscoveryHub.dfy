/** The TCP discovery hub: clients come and go, and each whole beam one of them sends goes out to all
    the others. */
module DiscoveryHub {
  import opened Bytes
  import opened LittleEndian
  import opened Framing
  import opened Beams
  import Histories

  /** One per connection. */
  type ClientId = nat

  /** A beam written to a client, and whose it was. */
  datatype Relay = Relay(sender: ClientId, beam: Beam)

  function BeamsOf(relays: seq<Relay>): (beams: seq<Beam>)
    ensures |beams| == |relays| && forall i :: 0 <= i < |relays| ==> beams[i] == relays[i].beam
  {
    if relays == [] then [] else BeamsOf(relays[..|relays| - 1]) + [relays[|relays| - 1].beam]
  }

  /** The beams of one sender among those written to a client, in order. */
  function From(sender: ClientId, relays: seq<Relay>): seq<Beam> {
    if relays == [] then []
    else
      var n := |relays| - 1;
      From(sender, relays[..n]) + (if relays[n].sender == sender then [relays[n].beam] else [])
  }

  lemma {:induction false} FromSnoc(sender: ClientId, relays: seq<Relay>, r: Relay)
    ensures From(sender, relays + [r]) == From(sender, relays) + (if r.sender == sender then [r.beam] else [])
  {
    assert (relays + [r])[..|relays|] == relays;
  }

  lemma {:induction false} FromPrefix(sender: ClientId, relays: seq<Relay>, n: nat)
    requires n <= |relays|
    ensures From(sender, relays[..n]) <= From(sender, relays)
  {
    if n < |relays| {
      var last := |relays| - 1;
      FromPrefix(sender, relays[..last], n);
      assert relays[..last][..n] == relays[..n];
    } else {
      assert relays[..n] == relays;
    }
  }

  // ---- One broadcast -------------------------------------------------------------------------

  /** Appends `suffix` for every listed client but the sender, in list order. */
  function RelayedTo<T>(streams: map<ClientId, seq<T>>, clients: seq<ClientId>, sender: ClientId, suffix: seq<T>)
    : map<ClientId, seq<T>>
  {
    if clients == [] then streams else
      var last := clients[|clients| - 1];
      var before := RelayedTo(streams, clients[..|clients| - 1], sender, suffix);
      if last == sender || last !in before then before else before[last := before[last] + suffix]
  }

  ghost predicate Unique(clients: seq<ClientId>) {
    forall i, j :: 0 <= i < j < |clients| ==> clients[i] != clients[j]
  }

  /** Every connected client but the sender gets the beam, once; nobody else gets anything. */
  lemma {:induction false} RelayReachesAllOthers<T>(streams: map<ClientId, seq<T>>, clients: seq<ClientId>,
                                                    sender: ClientId, suffix: seq<T>, c: ClientId)
    requires Unique(clients) && c in streams
    ensures RelayedTo(streams, clients, sender, suffix).Keys == streams.Keys
    ensures RelayedTo(streams, clients, sender, suffix)[c]
            == if c in clients && c != sender then streams[c] + suffix else streams[c]
  {
    if clients != [] {
      var n := |clients| - 1;
      RelayReachesAllOthers(streams, clients[..n], sender, suffix, c);
    }
  }

  /** The bytes are the frames of the beams. */
  ghost predicate Frames(bytes: seq<byte>, relays: seq<Relay>) {
    bytes == Sent(BeamsOf(relays)) && AllSendable(BeamsOf(relays))
  }

  /** The bytes written to each client are the frames of the beams relayed to it. */
  ghost predicate Carries(outgoing: map<ClientId, seq<byte>>, relayed: map<ClientId, seq<Relay>>) {
    outgoing.Keys == relayed.Keys && forall c :: c in outgoing ==> Frames(outgoing[c], relayed[c])
  }

  lemma {:induction false} FramesOneMore(bytes: seq<byte>, relays: seq<Relay>, r: Relay)
    requires Frames(bytes, relays) && Sendable(r.beam)
    ensures Frames(bytes + (Encode(|r.beam|) + r.beam), relays + [r])
  {
    SentSnoc(BeamsOf(relays), r.beam);
    assert BeamsOf(relays + [r]) == BeamsOf(relays) + [r.beam];
    assert bytes + (Encode(|r.beam|) + r.beam) == bytes + Encode(|r.beam|) + r.beam;
  }

  /** A broadcast adds one beam to what each other client has been sent, and nothing else. */
  lemma {:induction false} BroadcastCarries(outgoing: map<ClientId, seq<byte>>, relayed: map<ClientId, seq<Relay>>,
                                            clients: seq<ClientId>, r: Relay, bytes: seq<byte>)
    requires Carries(outgoing, relayed) && Unique(clients) && Sendable(r.beam)
    requires bytes == Encode(|r.beam|) + r.beam
    ensures Carries(RelayedTo(outgoing, clients, r.sender, bytes), RelayedTo(relayed, clients, r.sender, [r]))
  {
    RelayKeepsKeys(outgoing, clients, r.sender, bytes);
    RelayKeepsKeys(relayed, clients, r.sender, [r]);
    var out, log := RelayedTo(outgoing, clients, r.sender, bytes), RelayedTo(relayed, clients, r.sender, [r]);
    forall c | c in out ensures Frames(out[c], log[c]) {
      RelayReachesAllOthers(outgoing, clients, r.sender, bytes, c);
      RelayReachesAllOthers(relayed, clients, r.sender, [r], c);
      FramesOneMore(outgoing[c], relayed[c], r);
    }
  }

  lemma {:induction false} RelayKeepsKeys<T>(streams: map<ClientId, seq<T>>, clients: seq<ClientId>, sender: ClientId,
                                             suffix: seq<T>)
    ensures RelayedTo(streams, clients, sender, suffix).Keys == streams.Keys
  {
    if clients != [] {
      RelayKeepsKeys(streams, clients[..|clients| - 1], sender, suffix);
    }
  }

  /** What a client has decoded at any moment is a prefix of what was relayed to it. */
  lemma {:induction false} ClientSeesRelayed(outgoing: map<ClientId, seq<byte>>, relayed: map<ClientId, seq<Relay>>,
                                             client: ClientId, delivered: seq<byte>)
    requires Carries(outgoing, relayed) && client in outgoing && delivered <= outgoing[client]
    ensures Received(delivered) <= BeamsOf(relayed[client])
    ensures delivered == outgoing[client] ==> Received(delivered) == BeamsOf(relayed[client])
  {
    BeamsTruncated(BeamsOf(relayed[client]), delivered);
    BeamsRoundTrip(BeamsOf(relayed[client]));
  }

  // ---- State ---------------------------------------------------------------------------------

  /** `arrived` holds the bytes read from each client ever connected and `heard` the beams taken out of
      them, `outgoing` the bytes written to it and `relayed` whose beams they were; `stopped` are the
      clients that are read no more because relaying a beam of theirs threw. */
  datatype HubState = HubState(clients: seq<ClientId>, arrived: map<ClientId, seq<byte>>,
                               heard: map<ClientId, seq<Beam>>, outgoing: map<ClientId, seq<byte>>,
                               relayed: map<ClientId, seq<Relay>>, stopped: set<ClientId>)

  function NoClients(): HubState { HubState([], map[], map[], map[], map[], {}) }

  /** The beams the hub has taken out of a client's stream. */
  function HeardFrom(s: HubState, c: ClientId): seq<Beam> { if c in s.heard then s.heard[c] else [] }

  /** RelayFails: a beam is complete, and writing it to the client at position `at` throws. */
  datatype Event =
    | Join(client: ClientId)
    | Arrive(client: ClientId, chunk: seq<byte>)
    | RelayFails(client: ClientId, chunk: seq<byte>, at: nat)
    | Leave(client: ClientId)

  /** A read that had completed when its client was taken off the list is still handled. */
  ghost predicate Enabled(s: HubState, e: Event) {
    match e
    case Join(c) => c !in s.arrived
    case Arrive(c, _) => c in s.arrived && c !in s.stopped
    case RelayFails(c, chunk, at) =>
      && c in s.arrived && c !in s.stopped && |NewBeams(s.arrived[c], chunk)| == 1
      && at < |s.clients| && s.clients[at] != c
    case Leave(_) => true
  }

  function WithoutClient(clients: seq<ClientId>, client: ClientId): (r: seq<ClientId>)
    ensures forall c :: c in r <==> c in clients && c != client
  {
    if clients == [] then [] else
      (if clients[0] == client then [] else [clients[0]]) + WithoutClient(clients[1..], client)
  }

  lemma {:induction false} WithoutKeepsUnique(clients: seq<ClientId>, client: ClientId)
    requires Unique(clients)
    ensures Unique(WithoutClient(clients, client))
  {
    if clients != [] {
      var rest := WithoutClient(clients[1..], client);
      WithoutKeepsUnique(clients[1..], client);
      assert forall i :: 0 <= i < |rest| ==> rest[i] in clients[1..];
    }
  }

  function Broadcasted(s: HubState, reached: seq<ClientId>, sender: ClientId, beam: Beam): HubState {
    s.(outgoing := RelayedTo(s.outgoing, reached, sender, Encode(|beam|) + beam),
       relayed := RelayedTo(s.relayed, reached, sender, [Relay(sender, beam)]))
  }

  function BroadcastAll(s: HubState, reached: seq<ClientId>, sender: ClientId, beams: seq<Beam>): HubState {
    if beams == [] then s
    else Broadcasted(BroadcastAll(s, reached, sender, beams[..|beams| - 1]), reached, sender, beams[|beams| - 1])
  }

  /** The whole beams that a chunk completes. */
  function NewBeams(before: seq<byte>, chunk: seq<byte>): seq<Beam> {
    ReceivedGrows(before, chunk);
    Received(before + chunk)[|Received(before)|..]
  }

  predicate Reads(e: Event) { e.Arrive? || e.RelayFails? }

  /** The clients a broadcast gets to: all, or those listed before the one whose write throws. */
  function Reached(s: HubState, e: Event): seq<ClientId> {
    if e.RelayFails? && e.at <= |s.clients| then s.clients[..e.at] else s.clients
  }

  /** The beams of one chunk, relayed to the clients the broadcasts get to. */
  function Relayed(s: HubState, e: Event): HubState
    requires Reads(e) && e.client in s.arrived
  {
    var before := s.arrived[e.client];
    BroadcastAll(s, Reached(s, e), e.client, NewBeams(before, e.chunk))
      .(arrived := s.arrived[e.client := before + e.chunk],
        heard := s.heard[e.client := HeardFrom(s, e.client) + NewBeams(before, e.chunk)])
  }

  /** Every whole beam is relayed; a header that announces no beam, or a write that throws, ends the
      sender's connection. */
  function Step(s: HubState, e: Event): HubState
    requires Enabled(s, e)
  {
    match e
    case Join(c) =>
      HubState(s.clients + [c], s.arrived[c := []], s.heard[c := []], s.outgoing[c := []], s.relayed[c := []],
               s.stopped)
    case Arrive(c, chunk) =>
      if Read(BEAM_FORMAT, s.arrived[c] + chunk).broken then Relayed(s, e).(clients := WithoutClient(s.clients, c))
      else Relayed(s, e)
    case RelayFails(c, _, _) =>
      Relayed(s, e).(clients := WithoutClient(s.clients, c), stopped := s.stopped + {c})
    case Leave(c) => s.(clients := WithoutClient(s.clients, c))
  }

  /** Clients are listed once, and the same ones are known everywhere. */
  ghost predicate Tidy(s: HubState) {
    Unique(s.clients) && s.arrived.Keys == s.heard.Keys == s.outgoing.Keys == s.relayed.Keys
  }

  ghost predicate HubInv(s: HubState) {
    Tidy(s) && (forall c :: c in s.clients ==> c in s.outgoing) && Carries(s.outgoing, s.relayed)
  }

  function Tagged(sender: ClientId, beams: seq<Beam>): seq<Relay> {
    if beams == [] then [] else Tagged(sender, beams[..|beams| - 1]) + [Relay(sender, beams[|beams| - 1])]
  }

  lemma {:induction false} FromAppend(c: ClientId, first: seq<Relay>, second: seq<Relay>)
    ensures From(c, first + second) == From(c, first) + From(c, second)
  {
    if second == [] {
      assert first + second == first;
    } else {
      var n := |second| - 1;
      FromAppend(c, first, second[..n]);
      assert first + second == (first + second[..n]) + [second[n]];
      FromSnoc(c, first + second[..n], second[n]);
      var last := if second[n].sender == c then [second[n].beam] else [];
      assert From(c, second) == From(c, second[..n]) + last;
      assert From(c, first) + (From(c, second[..n]) + last) == From(c, first) + From(c, second[..n]) + last;
    }
  }

  lemma {:induction false} FromTagged(c: ClientId, sender: ClientId, beams: seq<Beam>)
    ensures From(c, Tagged(sender, beams)) == if c == sender then beams else []
  {
    if beams != [] {
      var n := |beams| - 1;
      FromTagged(c, sender, beams[..n]);
      FromSnoc(c, Tagged(sender, beams[..n]), Relay(sender, beams[n]));
      assert beams == beams[..n] + [beams[n]];
    }
  }

  lemma {:induction false} BroadcastKeeps(s: HubState, reached: seq<ClientId>, sender: ClientId, beam: Beam)
    requires HubInv(s) && Unique(reached) && Sendable(beam)
    ensures HubInv(Broadcasted(s, reached, sender, beam))
  {
    BroadcastCarries(s.outgoing, s.relayed, reached, Relay(sender, beam), Encode(|beam|) + beam);
    RelayKeepsKeys(s.outgoing, reached, sender, Encode(|beam|) + beam);
  }

  lemma {:induction false} BroadcastAllKeeps(s: HubState, reached: seq<ClientId>, sender: ClientId, beams: seq<Beam>)
    requires HubInv(s) && Unique(reached) && AllSendable(beams)
    ensures HubInv(BroadcastAll(s, reached, sender, beams))
  {
    if beams != [] {
      var n := |beams| - 1;
      BroadcastAllKeeps(s, reached, sender, beams[..n]);
      BroadcastKeeps(BroadcastAll(s, reached, sender, beams[..n]), reached, sender, beams[n]);
    }
  }

  lemma {:induction false} BroadcastKeepsRest(s: HubState, reached: seq<ClientId>, sender: ClientId, beams: seq<Beam>)
    ensures var t := BroadcastAll(s, reached, sender, beams);
            t.arrived == s.arrived && t.heard == s.heard && t.clients == s.clients && t.stopped == s.stopped
  {
    if beams != [] {
      BroadcastKeepsRest(s, reached, sender, beams[..|beams| - 1]);
    }
  }

  /** All beams of a chunk get to every client reached but the sender, in order. */
  lemma {:induction false} BroadcastAllReaches(s: HubState, reached: seq<ClientId>, sender: ClientId, beams: seq<Beam>,
                                               d: ClientId)
    requires Unique(reached) && d in s.relayed
    ensures var t := BroadcastAll(s, reached, sender, beams);
            && t.relayed.Keys == s.relayed.Keys
            && t.relayed[d] == if d in reached && d != sender then s.relayed[d] + Tagged(sender, beams)
                               else s.relayed[d]
  {
    if beams == [] {
      assert s.relayed[d] + Tagged(sender, beams) == s.relayed[d];
    } else {
      var n, r := |beams| - 1, Relay(sender, beams[|beams| - 1]);
      var before := BroadcastAll(s, reached, sender, beams[..n]);
      BroadcastAllReaches(s, reached, sender, beams[..n], d);
      RelayReachesAllOthers(before.relayed, reached, sender, [r], d);
      assert s.relayed[d] + Tagged(sender, beams[..n]) + [r] == s.relayed[d] + (Tagged(sender, beams[..n]) + [r]);
    }
  }

  lemma {:induction false} NewBeamsAreSendable(before: seq<byte>, chunk: seq<byte>)
    ensures AllSendable(NewBeams(before, chunk))
    ensures Received(before + chunk) == Received(before) + NewBeams(before, chunk)
  {
    ReceivedGrows(before, chunk);
    ReceivedIsSendable(before + chunk);
    var all, n := Received(before + chunk), |Received(before)|;
    assert all == all[..n] + all[n..] && all[..n] == Received(before);
  }

  lemma {:induction false} RelayedKeeps(s: HubState, e: Event)
    requires HubInv(s) && Reads(e) && e.client in s.arrived
    ensures HubInv(Relayed(s, e)) && Relayed(s, e).clients == s.clients && Relayed(s, e).stopped == s.stopped
  {
    var before := s.arrived[e.client];
    var beams := NewBeams(before, e.chunk);
    NewBeamsAreSendable(before, e.chunk);
    ReachedOnce(s, e);
    BatchKeeps(s, Reached(s, e), e.client, beams, s.arrived[e.client := before + e.chunk],
               s.heard[e.client := HeardFrom(s, e.client) + beams]);
  }

  lemma {:induction false} ReachedOnce(s: HubState, e: Event)
    requires Unique(s.clients)
    ensures Unique(Reached(s, e))
  {
  }

  lemma {:induction false} BatchKeeps(s: HubState, reached: seq<ClientId>, c: ClientId, beams: seq<Beam>,
                                      arrived: map<ClientId, seq<byte>>, heard: map<ClientId, seq<Beam>>)
    requires HubInv(s) && Unique(reached) && AllSendable(beams) && arrived.Keys == heard.Keys == s.arrived.Keys
    ensures var t := BroadcastAll(s, reached, c, beams).(arrived := arrived, heard := heard);
            HubInv(t) && t.clients == s.clients && t.stopped == s.stopped
  {
    BroadcastAllKeeps(s, reached, c, beams);
    BroadcastKeepsRest(s, reached, c, beams);
    ReadingKeeps(BroadcastAll(s, reached, c, beams), arrived, heard);
  }

  lemma {:induction false} ReadingKeeps(s: HubState, arrived: map<ClientId, seq<byte>>, heard: map<ClientId, seq<Beam>>)
    requires HubInv(s) && arrived.Keys == heard.Keys == s.arrived.Keys
    ensures HubInv(s.(arrived := arrived, heard := heard))
  {
  }

  lemma {:induction false} DroppingKeeps(s: HubState, c: ClientId, stopped: set<ClientId>)
    requires HubInv(s)
    ensures HubInv(s.(clients := WithoutClient(s.clients, c), stopped := stopped))
  {
    WithoutKeepsUnique(s.clients, c);
  }

  lemma {:induction false} JoinCarries(outgoing: map<ClientId, seq<byte>>, relayed: map<ClientId, seq<Relay>>,
                                       c: ClientId)
    requires Carries(outgoing, relayed)
    ensures Carries(outgoing[c := []], relayed[c := []])
  {
    assert BeamsOf([]) == [] && Sent([]) == [];
  }

  lemma {:induction false} JoinKeeps(s: HubState, c: ClientId)
    requires HubInv(s) && c !in s.arrived
    ensures HubInv(Step(s, Join(c)))
  {
    JoinCarries(s.outgoing, s.relayed, c);
    JoinIsTidy(s, c);
  }

  lemma {:induction false} JoinIsTidy(s: HubState, c: ClientId)
    requires Tidy(s) && c !in s.arrived && forall d :: d in s.clients ==> d in s.outgoing
    ensures var t := Step(s, Join(c)); Tidy(t) && forall d :: d in t.clients ==> d in t.outgoing
  {
  }

  lemma {:induction false} StepKeeps(s: HubState, e: Event)
    requires HubInv(s) && Enabled(s, e)
    ensures HubInv(Step(s, e))
  {
    match e
    case Join(c) => JoinKeeps(s, c);
    case Arrive(c, _) =>
      RelayedKeeps(s, e);
      DroppingKeeps(Relayed(s, e), c, s.stopped);
    case RelayFails(c, _, _) =>
      RelayedKeeps(s, e);
      DroppingKeeps(Relayed(s, e), c, s.stopped + {c});
    case Leave(c) => DroppingKeeps(s, c, s.stopped);
  }

  lemma {:induction false} RelayedAdds(s: HubState, e: Event, d: ClientId)
    requires Tidy(s) && Reads(e) && e.client in s.arrived && d in s.relayed
    ensures var t := Relayed(s, e);
            && t.clients == s.clients && t.stopped == s.stopped && t.relayed.Keys == s.relayed.Keys
            && t.arrived == s.arrived[e.client := s.arrived[e.client] + e.chunk]
            && t.relayed[d] == if d in Reached(s, e) && d != e.client
                               then s.relayed[d] + Tagged(e.client, NewBeams(s.arrived[e.client], e.chunk))
                               else s.relayed[d]
  {
    var beams := NewBeams(s.arrived[e.client], e.chunk);
    BroadcastAllReaches(s, Reached(s, e), e.client, beams, d);
    BroadcastKeepsRest(s, Reached(s, e), e.client, beams);
  }

  /** What a step adds to the beams relayed to a client: the beams completed by another client's bytes, if
      it is listed and, where a write throws, stands before the client being written to. */
  lemma {:induction false} StepRelays(s: HubState, e: Event, d: ClientId)
    requires Tidy(s) && Enabled(s, e) && d in s.relayed
    ensures var t := Step(s, e);
            && d in t.relayed && (d in t.clients ==> d in s.clients)
            && t.relayed[d] == if && Reads(e) && d != e.client
                                  && d in (if e.RelayFails? then s.clients[..e.at] else s.clients)
                               then s.relayed[d] + Tagged(e.client, NewBeams(s.arrived[e.client], e.chunk))
                               else s.relayed[d]
  {
    if Reads(e) {
      RelayedAdds(s, e, d);
    }
  }

  // ---- Runs ----------------------------------------------------------------------------------

  ghost predicate IsRun(states: seq<HubState>, events: seq<Event>) {
    && |states| == |events| + 1 && states[0] == NoClients()
    && forall i :: 0 <= i < |events| ==> StepAt(states, events, i)
  }

  ghost predicate StepAt(states: seq<HubState>, events: seq<Event>, i: nat)
    requires |states| == |events| + 1 && i < |events|
  {
    Enabled(states[i], events[i]) && states[i + 1] == Step(states[i], events[i])
  }

  lemma {:induction false} RunKeepsInvariant(states: seq<HubState>, events: seq<Event>, i: nat)
    requires IsRun(states, events) && i < |states|
    ensures HubInv(states[i])
  {
    if i > 0 {
      assert StepAt(states, events, i - 1);
      RunKeepsInvariant(states, events, i - 1);
      StepKeeps(states[i - 1], events[i - 1]);
    }
  }

  /** The bytes that a step reads from a client, and the beams it takes out of them. */
  lemma {:induction false} StepArrives(s: HubState, e: Event)
    requires Enabled(s, e)
    ensures Step(s, e).arrived == match e
                                  case Join(c) => s.arrived[c := []]
                                  case Arrive(c, chunk) => s.arrived[c := s.arrived[c] + chunk]
                                  case RelayFails(c, chunk, _) => s.arrived[c := s.arrived[c] + chunk]
                                  case Leave(_) => s.arrived
    ensures Step(s, e).heard == match e
                                case Join(c) => s.heard[c := []]
                                case Arrive(c, chunk) => s.heard[c := HeardFrom(s, c) + NewBeams(s.arrived[c], chunk)]
                                case RelayFails(c, chunk, _) =>
                                  s.heard[c := HeardFrom(s, c) + NewBeams(s.arrived[c], chunk)]
                                case Leave(_) => s.heard
  {
  }

  lemma {:induction false} StepHears(s: HubState, e: Event, c: ClientId)
    requires Tidy(s) && Enabled(s, e)
    ensures HeardFrom(Step(s, e), c)
            == HeardFrom(s, c) + if Reads(e) && e.client == c then NewBeams(s.arrived[c], e.chunk) else []
  {
    StepArrives(s, e);
    assert HeardFrom(s, c) + [] == HeardFrom(s, c);
  }

  /** The beams taken out of a stream are those the stream holds. */
  lemma {:induction false} HeardIsReceived(states: seq<HubState>, events: seq<Event>, i: nat, c: ClientId)
    requires IsRun(states, events) && i < |states| && c in states[i].arrived
    ensures HeardFrom(states[i], c) == Received(states[i].arrived[c])
  {
    var s, e := states[i - 1], events[i - 1];
    assert StepAt(states, events, i - 1);
    StepArrives(s, e);
    if c in s.arrived {
      HeardIsReceived(states, events, i - 1, c);
      if Reads(e) && e.client == c {
        NewBeamsAreSendable(s.arrived[c], e.chunk);
      }
    } else {
      assert Received([]) == [];
    }
  }

  /** The beams of `c` that the hub has taken since `start`. */
  function HeardSince(s: HubState, c: ClientId, start: nat): seq<Beam> {
    if start <= |HeardFrom(s, c)| then HeardFrom(s, c)[start..] else []
  }

  /** What client `d` has been sent of `c`'s beams, of which the hub had heard `start` when `d` joined:
      the first ones, all but at most the last while `d` is connected, and all while `c` is read too. */
  ghost predicate SentSince(s: HubState, d: ClientId, c: ClientId, start: seq<Beam>) {
    && d in s.relayed && start <= HeardFrom(s, c)
    && var sent, heard := From(c, s.relayed[d]), HeardSince(s, c, |start|);
       && sent <= heard
       && (d in s.clients ==> |heard| <= |sent| + 1)
       && (d in s.clients && c !in s.stopped ==> sent == heard)
  }

  /** The beams of `c` that a step takes out of its stream. */
  function Taken(s: HubState, e: Event, c: ClientId): seq<Beam> {
    if Reads(e) && e.client == c && c in s.arrived then NewBeams(s.arrived[c], e.chunk) else []
  }

  lemma {:induction false} StepHearsSince(s: HubState, e: Event, c: ClientId, n: nat)
    requires Tidy(s) && Enabled(s, e) && n <= |HeardFrom(s, c)|
    ensures HeardFrom(s, c) <= HeardFrom(Step(s, e), c)
    ensures HeardSince(Step(s, e), c, n) == HeardSince(s, c, n) + Taken(s, e, c)
  {
    StepHears(s, e, c);
    HeardMore(HeardFrom(s, c), Taken(s, e, c), n);
  }

  lemma {:induction false} FromGrows(c: ClientId, relays: seq<Relay>, sender: ClientId, beams: seq<Beam>)
    ensures From(c, relays + Tagged(sender, beams)) == From(c, relays) + if sender == c then beams else []
  {
    FromAppend(c, relays, Tagged(sender, beams));
    FromTagged(c, sender, beams);
  }

  lemma {:induction false} StepSends(s: HubState, e: Event, d: ClientId, c: ClientId)
    requires Tidy(s) && Enabled(s, e) && c != d && d in s.relayed
    ensures d in Step(s, e).relayed && (d in Step(s, e).clients ==> d in s.clients)
    ensures From(c, Step(s, e).relayed[d])
            == From(c, s.relayed[d]) + if d in Reached(s, e) then Taken(s, e, c) else []
  {
    StepRelays(s, e, d);
    var before := From(c, s.relayed[d]);
    assert before + [] == before;
    if Reads(e) && d in Reached(s, e) && d != e.client {
      FromGrows(c, s.relayed[d], e.client, NewBeams(s.arrived[e.client], e.chunk));
    }
  }

  lemma {:induction false} StepKeepsSent(s: HubState, e: Event, d: ClientId, c: ClientId, start: seq<Beam>)
    requires Tidy(s) && Enabled(s, e) && c != d && SentSince(s, d, c, start)
    ensures SentSince(Step(s, e), d, c, start)
  {
    StepHearsSince(s, e, c, |start|);
    StepSends(s, e, d, c);
    StepStops(s, e, c);
  }

  lemma {:induction false} StepStops(s: HubState, e: Event, c: ClientId)
    requires Enabled(s, e)
    ensures s.stopped <= Step(s, e).stopped && (c in s.stopped ==> Taken(s, e, c) == [])
    ensures e.RelayFails? && e.client == c ==> |Taken(s, e, c)| == 1 && c in Step(s, e).stopped
  {
    if Reads(e) {
      BroadcastKeepsRest(s, Reached(s, e), e.client, NewBeams(s.arrived[e.client], e.chunk));
    }
  }

  /** The step takes a beam of `c` that does not get to `d`. */
  ghost predicate Skips(s: HubState, e: Event, d: ClientId, c: ClientId) {
    e.RelayFails? && e.client == c && d !in Reached(s, e)
  }

  ghost predicate HasAll(s: HubState, d: ClientId, c: ClientId, start: nat) {
    d in s.relayed && From(c, s.relayed[d]) == HeardSince(s, c, start)
  }

  lemma {:induction false} StepSkipsIff(s: HubState, e: Event, d: ClientId, c: ClientId, start: seq<Beam>)
    requires Tidy(s) && Enabled(s, e) && c != d && SentSince(s, d, c, start) && d in Step(s, e).clients
    ensures HasAll(Step(s, e), d, c, |start|) <==> HasAll(s, d, c, |start|) && !Skips(s, e, d, c)
  {
    StepHearsSince(s, e, c, |start|);
    StepSends(s, e, d, c);
    StepStops(s, e, c);
  }

  lemma {:induction false} HeardMore(heard: seq<Beam>, more: seq<Beam>, n: nat)
    requires n <= |heard|
    ensures (heard + more)[n..] == heard[n..] + more && heard + [] == heard
  {
  }

  lemma {:induction false} JoinStarts(s: HubState, d: ClientId, c: ClientId)
    requires d !in s.arrived && c != d
    ensures SentSince(Step(s, Join(d)), d, c, HeardFrom(s, c))
    ensures HasAll(Step(s, Join(d)), d, c, |HeardFrom(s, c)|)
  {
    assert Step(s, Join(d)).relayed[d] == [] && HeardFrom(Step(s, Join(d)), c) == HeardFrom(s, c);
  }

  lemma {:induction false} JoinedAt(states: seq<HubState>, events: seq<Event>, k: nat, d: ClientId, c: ClientId)
    requires IsRun(states, events) && k < |events| && events[k] == Join(d) && c != d
    ensures SentSince(states[k + 1], d, c, HeardFrom(states[k], c))
    ensures HasAll(states[k + 1], d, c, |HeardFrom(states[k], c)|)
  {
    assert StepAt(states, events, k);
    JoinStarts(states[k], d, c);
  }

  lemma {:induction false} RunKeepsSent(states: seq<HubState>, events: seq<Event>, m: nat, d: ClientId, c: ClientId,
                                        start: seq<Beam>)
    requires IsRun(states, events) && m < |events| && c != d && SentSince(states[m], d, c, start)
    ensures SentSince(states[m + 1], d, c, start)
  {
    assert StepAt(states, events, m);
    RunKeepsInvariant(states, events, m);
    StepKeepsSent(states[m], events[m], d, c, start);
  }

  /** Since client `d` joined at `k` it has been sent, of each other client's beams, a prefix of those
      the hub took from then on; while it is connected all of them, or all but the last if relaying
      that one threw. */
  lemma {:induction false} RelaysSinceJoin(states: seq<HubState>, events: seq<Event>, k: nat, i: nat,
                                           d: ClientId, c: ClientId)
    requires IsRun(states, events) && k < i < |states| && events[k] == Join(d) && c != d
    ensures SentSince(states[i], d, c, HeardFrom(states[k], c))
  {
    JoinedAt(states, events, k, d, c);
    SentFollows(states, events, k + 1, i, d, c, HeardFrom(states[k], c));
  }

  lemma {:induction false} SentFollows(states: seq<HubState>, events: seq<Event>, m: nat, i: nat, d: ClientId,
                                       c: ClientId, start: seq<Beam>)
    requires IsRun(states, events) && m <= i < |states| && c != d && SentSince(states[m], d, c, start)
    ensures SentSince(states[i], d, c, start)
    decreases i - m
  {
    if m < i {
      RunKeepsSent(states, events, m, d, c, start);
      SentFollows(states, events, m + 1, i, d, c, start);
    }
  }

  /** No broadcast of `c`'s beams broke off before `d` between steps `k` and `i`. */
  ghost predicate Unbroken(states: seq<HubState>, events: seq<Event>, k: nat, i: nat, d: ClientId, c: ClientId)
    requires |states| == |events| + 1 && i < |states|
  {
    forall m :: k < m < i ==> !Skips(states[m], events[m], d, c)
  }

  ghost predicate Listed(s: HubState, d: ClientId) { d in s.arrived && d in s.clients }

  /** The events that take client `d` off the list: its disconnection, a header of its that announces no
      beam, or a write that throws while one of its beams is relayed. */
  ghost predicate Drops(s: HubState, e: Event, d: ClientId) {
    match e
    case Join(_) => false
    case Arrive(c, chunk) => c == d && c in s.arrived && Read(BEAM_FORMAT, s.arrived[c] + chunk).broken
    case RelayFails(c, _, _) => c == d
    case Leave(c) => c == d
  }

  lemma {:induction false} StepDropsIff(s: HubState, e: Event, d: ClientId)
    requires Enabled(s, e)
    ensures d in Step(s, e).clients <==> e == Join(d) || (d in s.clients && !Drops(s, e, d))
    ensures Step(s, e).stopped == if e.RelayFails? then s.stopped + {e.client} else s.stopped
  {
    if Reads(e) {
      BroadcastKeepsRest(s, Reached(s, e), e.client, NewBeams(s.arrived[e.client], e.chunk));
    }
  }

  lemma {:induction false} RunKnows(states: seq<HubState>, events: seq<Event>, k: nat, i: nat, d: ClientId)
    requires IsRun(states, events) && k < i < |states| && events[k] == Join(d)
    ensures d in states[i].arrived
  {
    assert StepAt(states, events, i - 1);
    StepArrives(states[i - 1], events[i - 1]);
    if k + 1 < i {
      RunKnows(states, events, k, i - 1, d);
    }
  }

  lemma {:induction false} JoinsOnce(states: seq<HubState>, events: seq<Event>, k: nat, m: nat, d: ClientId)
    requires IsRun(states, events) && k < m < |events| && events[k] == Join(d)
    ensures events[m] != Join(d)
  {
    RunKnows(states, events, k, m, d);
    assert StepAt(states, events, m);
  }

  /** In every run a client that joined at `k` is listed exactly when none of those events came since. */
  lemma {:induction false} ListedIff(states: seq<HubState>, events: seq<Event>, k: nat, i: nat, d: ClientId)
    requires IsRun(states, events) && k < i < |states| && events[k] == Join(d)
    ensures d in states[i].clients <==> forall m :: k < m < i ==> !Drops(states[m], events[m], d)
  {
    assert StepAt(states, events, i - 1);
    StepDropsIff(states[i - 1], events[i - 1], d);
    if k + 1 < i {
      JoinsOnce(states, events, k, i - 1, d);
      ListedIff(states, events, k, i - 1, d);
    }
  }

  /** In every run a listed client has only sent headers that announce a beam, as far as they have
      arrived, and is still read. */
  lemma {:induction false} ListedIsReadable(states: seq<HubState>, events: seq<Event>, i: nat, d: ClientId)
    requires IsRun(states, events) && i < |states| && d in states[i].clients
    ensures d in states[i].arrived && !Read(BEAM_FORMAT, states[i].arrived[d]).broken && d !in states[i].stopped
  {
    assert i > 0 && StepAt(states, events, i - 1);
    StepDropsIff(states[i - 1], events[i - 1], d);
    StepArrives(states[i - 1], events[i - 1]);
    if events[i - 1] != Join(d) {
      ListedIsReadable(states, events, i - 1, d);
    } else {
      StoppedIsKnown(states, events, i - 1);
    }
  }

  lemma {:induction false} StoppedIsKnown(states: seq<HubState>, events: seq<Event>, i: nat)
    requires IsRun(states, events) && i < |states|
    ensures states[i].stopped <= states[i].arrived.Keys
  {
    if i > 0 {
      assert StepAt(states, events, i - 1);
      StoppedIsKnown(states, events, i - 1);
      StepDropsIff(states[i - 1], events[i - 1], 0);
      StepArrives(states[i - 1], events[i - 1]);
    }
  }

  /** Who is connected now, after joining at `k`, was connected all along. */
  lemma {:induction false} WasConnected(states: seq<HubState>, events: seq<Event>, k: nat, m: nat, i: nat, d: ClientId)
    requires IsRun(states, events) && k < m <= i < |states| && events[k] == Join(d) && Listed(states[i], d)
    ensures Listed(states[m], d)
  {
    ListedIff(states, events, k, i, d);
    ListedIff(states, events, k, m, d);
    RunKnows(states, events, k, m, d);
  }

  lemma {:induction false} RunSkips(states: seq<HubState>, events: seq<Event>, k: nat, m: nat, d: ClientId, c: ClientId)
    requires IsRun(states, events) && k < m < |events| && events[k] == Join(d) && c != d && d in states[m + 1].clients
    ensures var start := |HeardFrom(states[k], c)|;
            HasAll(states[m + 1], d, c, start)
            <==> HasAll(states[m], d, c, start) && !Skips(states[m], events[m], d, c)
  {
    assert StepAt(states, events, m);
    RunKeepsInvariant(states, events, m);
    RelaysSinceJoin(states, events, k, m, d, c);
    StepSkipsIff(states[m], events[m], d, c, HeardFrom(states[k], c));
  }

  /** A client still connected has been sent every beam the hub took of another since it joined, exactly
      when no broadcast of that one's beams broke off before it. */
  lemma {:induction false} HasAllIff(states: seq<HubState>, events: seq<Event>, k: nat, i: nat, d: ClientId,
                                     c: ClientId)
    requires IsRun(states, events) && k < i < |states| && events[k] == Join(d) && c != d && d in states[i].clients
    ensures HasAll(states[i], d, c, |HeardFrom(states[k], c)|) <==> Unbroken(states, events, k, i, d, c)
  {
    var start := |HeardFrom(states[k], c)|;
    RunKnows(states, events, k, i, d);
    JoinedAt(states, events, k, d, c);
    var flag := seq(|states|, m requires 0 <= m < |states| => HasAll(states[m], d, c, start));
    var clears := seq(|events|, m requires 0 <= m < |events| => Skips(states[m], events[m], d, c));
    forall m | k < m < i ensures Histories.KeepsAt(flag, clears, m) {
      WasConnected(states, events, k, m + 1, i, d);
      RunSkips(states, events, k, m, d, c);
    }
    Histories.SetUnlessCleared(flag, clears, k + 1, i);
    assert forall m :: k < m < i ==> clears[m] == Skips(states[m], events[m], d, c);
  }

  lemma {:induction false} StepRelaysNothingOwn(s: HubState, e: Event, d: ClientId)
    requires Tidy(s) && Enabled(s, e) && d in Step(s, e).relayed
    requires d in s.relayed ==> From(d, s.relayed[d]) == []
    ensures From(d, Step(s, e).relayed[d]) == []
  {
    if d in s.relayed {
      StepRelays(s, e, d);
      if Reads(e) {
        var beams := NewBeams(s.arrived[e.client], e.chunk);
        FromAppend(d, s.relayed[d], Tagged(e.client, beams));
        FromTagged(d, e.client, beams);
      }
    } else {
      NewcomerHasNothing(s, e, d);
    }
  }

  lemma {:induction false} NothingFromOneself(states: seq<HubState>, events: seq<Event>, i: nat, d: ClientId)
    requires IsRun(states, events) && i < |states| && d in states[i].relayed
    ensures From(d, states[i].relayed[d]) == []
  {
    if i > 0 {
      assert StepAt(states, events, i - 1);
      RunKeepsInvariant(states, events, i - 1);
      if d in states[i - 1].relayed {
        NothingFromOneself(states, events, i - 1, d);
      }
      StepRelaysNothingOwn(states[i - 1], events[i - 1], d);
    }
  }

  lemma {:induction false} NewcomerHasNothing(s: HubState, e: Event, d: ClientId)
    requires Tidy(s) && Enabled(s, e) && d !in s.relayed && d in Step(s, e).relayed
    ensures Step(s, e).relayed[d] == []
  {
    if Reads(e) {
      BroadcastAllReaches(s, Reached(s, e), e.client, NewBeams(s.arrived[e.client], e.chunk), e.client);
    }
  }

  /** In every run of joins, arriving bytes, throwing writes and leaves, whatever part of its stream a
      client has got: it has decoded the first beams relayed to it; among them, those of any sender are
      a prefix of what that sender wrote, from the beam the hub had reached when the client joined; and
      none is its own. A connected client that has got everything has all the hub took since it joined
      exactly when no broadcast of the sender's beams broke off before it. */
  lemma {:induction false} ClientsSeeSenders(states: seq<HubState>, events: seq<Event>, k: nat, i: nat, d: ClientId,
                                             c: ClientId, delivered: seq<byte>, written: seq<Beam>)
    requires IsRun(states, events) && k < i < |states| && events[k] == Join(d) && c != d && d in states[i].outgoing
    requires delivered <= states[i].outgoing[d] && AllSendable(written)
    requires c in states[i].arrived ==> states[i].arrived[c] <= Sent(written)
    ensures HeardFrom(states[k], c) <= HeardFrom(states[i], c) && |HeardFrom(states[k], c)| <= |written|
    ensures d in states[i].relayed && |Received(delivered)| <= |states[i].relayed[d]|
    ensures var seen, from := states[i].relayed[d][..|Received(delivered)|], |HeardFrom(states[k], c)|;
            && Received(delivered) == BeamsOf(seen)
            && From(c, seen) <= written[from..] && From(d, seen) == []
            && (delivered == states[i].outgoing[d] && d in states[i].clients ==>
                  (From(c, seen) == HeardSince(states[i], c, from) <==> Unbroken(states, events, k, i, d, c)))
  {
    RunKeepsInvariant(states, events, i);
    RelaysSinceJoin(states, events, k, i, d, c);
    NothingFromOneself(states, events, i, d);
    HeardIsWritten(states, events, i, c, written);
    SeenIsSent(states[i], d, c, HeardFrom(states[k], c), delivered);
    PrefixFrom(From(c, states[i].relayed[d][..|Received(delivered)|]), HeardFrom(states[i], c), written,
               |HeardFrom(states[k], c)|);
    if d in states[i].clients {
      HasAllIff(states, events, k, i, d, c);
    }
  }

  /** What a client has decoded of a sender's beams, in one state. */
  lemma {:induction false} SeenIsSent(s: HubState, d: ClientId, c: ClientId, start: seq<Beam>, delivered: seq<byte>)
    requires HubInv(s) && SentSince(s, d, c, start) && From(d, s.relayed[d]) == []
    requires d in s.outgoing && delivered <= s.outgoing[d]
    ensures |Received(delivered)| <= |s.relayed[d]|
    ensures var seen := s.relayed[d][..|Received(delivered)|];
            && Received(delivered) == BeamsOf(seen) && From(d, seen) == []
            && From(c, seen) <= HeardSince(s, c, |start|)
            && (delivered == s.outgoing[d] ==> seen == s.relayed[d])
  {
    ClientSeesRelayed(s.outgoing, s.relayed, d, delivered);
    var n := |Received(delivered)|;
    FirstBeams(s.relayed[d], n);
    FromPrefix(c, s.relayed[d], n);
    FromPrefix(d, s.relayed[d], n);
  }

  lemma {:induction false} FirstBeams(relays: seq<Relay>, n: nat)
    requires n <= |relays|
    ensures BeamsOf(relays[..n]) == BeamsOf(relays)[..n] && (n == |relays| ==> relays[..n] == relays)
  {
  }

  function Three(): HubState {
    HubState([0, 1, 2], map[0 := [], 1 := [], 2 := []], map[0 := [], 1 := [], 2 := []], map[0 := [], 1 := [], 2 := []],
             map[0 := [], 1 := [], 2 := []], {})
  }

  lemma {:induction false} ThreeJoin() returns (one: HubState, two: HubState)
    ensures one == Step(NoClients(), Join(0))
    ensures Enabled(one, Join(1)) && two == Step(one, Join(1))
    ensures Enabled(two, Join(2)) && Three() == Step(two, Join(2)) && HubInv(Three())
  {
    one := Step(NoClients(), Join(0));
    two := Step(one, Join(1));
    StepKeeps(NoClients(), Join(0));
    StepKeeps(one, Join(1));
    StepKeeps(two, Join(2));
  }

  lemma {:induction false} OneBeamIsNew(beam: Beam)
    requires Sendable(beam)
    ensures Received([]) == [] && NewBeams([], Sent([beam])) == [beam]
  {
    BeamsRoundTrip([beam]);
    assert [] + Sent([beam]) == Sent([beam]);
    NewBeamsAreSendable([], Sent([beam]));
  }

  lemma {:induction false} FirstLeaves()
    ensures WithoutClient([0, 1, 2], 0) == [1, 2]
  {
    assert [0, 1, 2][1..] == [1, 2];
    WithoutAbsent([1, 2], 0);
  }

  /** The first of three clients sends a beam, and the write to the second throws. */
  lemma {:induction false} FirstSends(beam: Beam) returns (end: HubState)
    requires Sendable(beam)
    ensures Enabled(Three(), RelayFails(0, Sent([beam]), 1)) && end == Step(Three(), RelayFails(0, Sent([beam]), 1))
    ensures HeardFrom(end, 0) == [beam] && end.clients == [1, 2]
    ensures 2 in end.relayed && end.relayed[2] == []
  {
    var one, two := ThreeJoin();
    var s, e := Three(), RelayFails(0, Sent([beam]), 1);
    OneBeamIsNew(beam);
    FirstLeaves();
    assert Enabled(s, e) && Reached(s, e) == [0];
    end := Step(s, e);
    StepRelays(s, e, 2);
    StepHears(s, e, 0);
    assert HeardFrom(s, 0) == [];
  }

  lemma {:induction false} RunOneMore(states: seq<HubState>, events: seq<Event>, e: Event, next: HubState)
    returns (states': seq<HubState>, events': seq<Event>)
    requires IsRun(states, events) && Enabled(states[|events|], e) && next == Step(states[|events|], e)
    ensures IsRun(states', events') && events' == events + [e] && states'[|events'|] == next
  {
    states', events' := states + [next], events + [e];
    forall i | 0 <= i < |events'| ensures StepAt(states', events', i) {
      assert i < |events| ==> StepAt(states, events, i);
    }
  }

  lemma {:induction false} RunOfThree() returns (states: seq<HubState>, events: seq<Event>)
    ensures IsRun(states, events) && events == [Join(0), Join(1), Join(2)] && states[3] == Three()
  {
    var one, two := ThreeJoin();
    states, events := RunOneMore([NoClients()], [], Join(0), one);
    states, events := RunOneMore(states, events, Join(1), two);
    states, events := RunOneMore(states, events, Join(2), Three());
  }

  /** A run in which the hub takes a beam, a client stays connected, and the client is not sent it. */
  lemma {:induction false} ThrowingWriteSkips(beam: Beam) returns (states: seq<HubState>, events: seq<Event>)
    requires Sendable(beam)
    ensures IsRun(states, events) && events == [Join(0), Join(1), Join(2), RelayFails(0, Sent([beam]), 1)]
    ensures var end := states[4];
            HeardFrom(end, 0) == [beam] && end.clients == [1, 2] && 2 in end.relayed && end.relayed[2] == []
  {
    var end := FirstSends(beam);
    states, events := RunOfThree();
    states, events := RunOneMore(states, events, RelayFails(0, Sent([beam]), 1), end);
  }

  // ---- How the bytes are cut does not matter -------------------------------------------------

  lemma {:induction false} BroadcastTogether(s: HubState, reached: seq<ClientId>, sender: ClientId, first: seq<Beam>,
                                             second: seq<Beam>)
    ensures BroadcastAll(s, reached, sender, first + second)
            == BroadcastAll(BroadcastAll(s, reached, sender, first), reached, sender, second)
  {
    if second == [] {
      assert first + second == first;
    } else {
      var n, all := |second| - 1, first + second;
      BroadcastTogether(s, reached, sender, first, second[..n]);
      assert all[..|all| - 1] == first + second[..n] && all[|all| - 1] == second[n];
    }
  }

  lemma {:induction false} ReadingIsApart(s: HubState, reached: seq<ClientId>, sender: ClientId, beams: seq<Beam>,
                                          arrived: map<ClientId, seq<byte>>, heard: map<ClientId, seq<Beam>>)
    ensures BroadcastAll(s.(arrived := arrived, heard := heard), reached, sender, beams)
            == BroadcastAll(s, reached, sender, beams).(arrived := arrived, heard := heard)
  {
    if beams != [] {
      ReadingIsApart(s, reached, sender, beams[..|beams| - 1], arrived, heard);
    }
  }

  lemma {:induction false} CancelFirst(first: seq<Beam>, all: seq<Beam>, x: seq<Beam>, y: seq<Beam>)
    requires first + all == first + x + y
    ensures all == x + y
  {
    assert all == (first + all)[|first|..] && x + y == (first + x + y)[|first|..];
  }

  lemma {:induction false} NewBeamsTogether(before: seq<byte>, a: seq<byte>, b: seq<byte>)
    ensures NewBeams(before, a + b) == NewBeams(before, a) + NewBeams(before + a, b)
  {
    var x, y, all := NewBeams(before, a), NewBeams(before + a, b), NewBeams(before, a + b);
    assert Received(before) + all == Received(before) + x + y by {
      NewBeamsAreSendable(before, a);
      NewBeamsAreSendable(before + a, b);
      NewBeamsAreSendable(before, a + b);
      assert before + (a + b) == before + a + b;
    }
    CancelFirst(Received(before), all, x, y);
  }

  lemma {:induction false} NothingNewAfterBreak(stream: seq<byte>, chunk: seq<byte>)
    requires Read(BEAM_FORMAT, stream).broken
    ensures NewBeams(stream, chunk) == [] && Read(BEAM_FORMAT, stream + chunk).broken
  {
    ReadMore(BEAM_FORMAT, stream, chunk);
    assert Received(stream + chunk) == Received(stream);
  }

  lemma {:induction false} WithoutAbsent(clients: seq<ClientId>, c: ClientId)
    requires c !in clients
    ensures WithoutClient(clients, c) == clients
  {
    if clients != [] {
      WithoutAbsent(clients[1..], c);
    }
  }

  lemma {:induction false} TwoBatches(s: HubState, reached: seq<ClientId>, c: ClientId, x: seq<Beam>, y: seq<Beam>,
                                      arrived: map<ClientId, seq<byte>>, heard: map<ClientId, seq<Beam>>)
    ensures BroadcastAll(BroadcastAll(s, reached, c, x).(arrived := arrived, heard := heard), reached, c, y)
            == BroadcastAll(s, reached, c, x + y).(arrived := arrived, heard := heard)
  {
    BroadcastTogether(s, reached, c, x, y);
    ReadingIsApart(BroadcastAll(s, reached, c, x), reached, c, y, arrived, heard);
  }

  lemma {:induction false} OneStream<T>(streams: map<ClientId, seq<T>>, c: ClientId, before: seq<T>, a: seq<T>,
                                        b: seq<T>)
    ensures before + a + b == before + (a + b)
    ensures streams[c := before + a][c := before + a + b] == streams[c := before + (a + b)]
  {
  }

  lemma {:induction false} RelayedTogether(s: HubState, c: ClientId, a: seq<byte>, b: seq<byte>)
    requires c in s.arrived
    ensures var t := Relayed(s, Arrive(c, a));
            && t.clients == s.clients && t.stopped == s.stopped && c in t.arrived && t.arrived[c] == s.arrived[c] + a
            && Relayed(t, Arrive(c, b)) == Relayed(s, Arrive(c, a + b))
  {
    var before := s.arrived[c];
    var x, y := NewBeams(before, a), NewBeams(before + a, b);
    BroadcastKeepsRest(s, s.clients, c, x);
    NewBeamsTogether(before, a, b);
    OneStream(s.arrived, c, before, a, b);
    OneStream(s.heard, c, HeardFrom(s, c), x, y);
    TwoBatches(s, s.clients, c, x, y, s.arrived[c := before + a], s.heard[c := HeardFrom(s, c) + x]);
  }

  /** Two chunks in a row do what they do as one. */
  lemma {:induction false} ChunksTogether(s: HubState, c: ClientId, a: seq<byte>, b: seq<byte>)
    requires Enabled(s, Arrive(c, a))
    ensures Enabled(Step(s, Arrive(c, a)), Arrive(c, b))
    ensures Step(Step(s, Arrive(c, a)), Arrive(c, b)) == Step(s, Arrive(c, a + b))
  {
    var before, left := s.arrived[c], WithoutClient(s.clients, c);
    var t := Relayed(s, Arrive(c, a));
    RelayedTogether(s, c, a, b);
    OneStream(s.arrived, c, before, a, b);
    if Read(BEAM_FORMAT, before + a).broken {
      NothingNewAfterBreak(before + a, b);
      WithoutAbsent(left, c);
      assert Relayed(t.(clients := left), Arrive(c, b)) == Relayed(t, Arrive(c, b)).(clients := left);
    }
  }

  lemma {:induction false} HeardIsWritten(states: seq<HubState>, events: seq<Event>, i: nat, c: ClientId,
                                          written: seq<Beam>)
    requires IsRun(states, events) && i < |states| && AllSendable(written)
    requires c in states[i].arrived ==> states[i].arrived[c] <= Sent(written)
    ensures HeardFrom(states[i], c) <= written
  {
    RunKeepsInvariant(states, events, i);
    if c in states[i].arrived {
      HeardIsReceived(states, events, i, c);
      BeamsTruncated(written, states[i].arrived[c]);
    }
  }

  lemma {:induction false} PrefixFrom(seen: seq<Beam>, heard: seq<Beam>, written: seq<Beam>, n: nat)
    requires n <= |heard| && heard <= written && seen <= heard[n..]
    ensures seen <= written[n..]
  {
  }

  // ---- The hub -------------------------------------------------------------------------------

  /** Relays each whole beam to every connected client but its sender; `outgoing` holds the bytes
      written to each connection. */
  class Hub {
    var clients: seq<ClientId>
    var arrived: map<ClientId, seq<byte>>
    var outgoing: map<ClientId, seq<byte>>
    ghost var heard: map<ClientId, seq<Beam>>
    ghost var relayed: map<ClientId, seq<Relay>>
    ghost var stopped: set<ClientId>

    ghost function View(): HubState
      reads this
    {
      HubState(clients, arrived, heard, outgoing, relayed, stopped)
    }

    constructor ()
      ensures View() == NoClients()
    {
      clients, arrived, outgoing := [], map[], map[];
      heard, relayed, stopped := map[], map[], {};
    }

    method Accept(client: ClientId)
      requires client !in arrived
      modifies this
      ensures View() == Step(old(View()), Join(client))
    {
      clients := clients + [client];
      arrived, heard := arrived[client := []], heard[client := []];
      outgoing, relayed := outgoing[client := []], relayed[client := []];
    }

    /** Reads on in one client's stream and relays every beam that is now whole. */
    method Receive(client: ClientId, chunk: seq<byte>)
      requires client in arrived && client !in stopped
      modifies this
      ensures View() == Step(old(View()), Arrive(client, chunk))
    {
      var stream := arrived[client] + chunk;
      var beams := NewBeams(arrived[client], chunk);
      assert beams[..0] == [];
      for i := 0 to |beams|
        invariant clients == old(clients) && View() == BroadcastAll(old(View()), clients, client, beams[..i])
      {
        assert beams[..i + 1][..i] == beams[..i];
        var ok := Broadcast(client, beams[i], |clients|);
      }
      assert beams[..|beams|] == beams;
      BroadcastKeepsRest(old(View()), old(clients), client, beams);
      heard := heard[client := HeardFrom(View(), client) + beams];
      arrived := arrived[client := stream];
      assert View() == Relayed(old(View()), Arrive(client, chunk));
      if Read(BEAM_FORMAT, stream).broken {
        Disconnect(client);
      }
    }

    /** A beam is complete, but its broadcast throws: the sender is disconnected and read no more. */
    method ReceiveThrowing(client: ClientId, chunk: seq<byte>, throwsAt: nat)
      requires client in arrived && client !in stopped && |NewBeams(arrived[client], chunk)| == 1
      requires throwsAt < |clients| && clients[throwsAt] != client
      modifies this
      ensures View() == Step(old(View()), RelayFails(client, chunk, throwsAt))
    {
      var stream := arrived[client] + chunk;
      var beams := NewBeams(arrived[client], chunk);
      ghost var event := RelayFails(client, chunk, throwsAt);
      assert beams[..0] == [] && Reached(View(), event) == clients[..throwsAt];
      assert BroadcastAll(View(), clients[..throwsAt], client, beams)
             == Broadcasted(View(), clients[..throwsAt], client, beams[0]);
      var ok := Broadcast(client, beams[0], throwsAt);
      heard := heard[client := HeardFrom(View(), client) + beams];
      arrived := arrived[client := stream];
      if !ok {
        stopped := stopped + {client};
        Disconnect(client);
      }
    }

    /** Header and beam go out as one write to each client in turn; the one to the client at position
        `throwsAt`, if there is one and it is not the sender, throws and ends the loop. */
    method Broadcast(sender: ClientId, beam: Beam, throwsAt: nat) returns (ok: bool)
      modifies `outgoing, `relayed
      ensures ok <==> throwsAt >= |clients| || clients[throwsAt] == sender
      ensures View() == Broadcasted(old(View()), if ok then clients else clients[..throwsAt], sender, beam)
    {
      assert clients[..0] == [];
      for i := 0 to |clients|
        invariant outgoing == RelayedTo(old(outgoing), clients[..i], sender, Encode(|beam|) + beam)
        invariant relayed == old(relayed)
        invariant i > throwsAt ==> clients[throwsAt] == sender
      {
        var client := clients[i];
        assert clients[..i + 1][..i] == clients[..i];
        if client != sender {
          if i == throwsAt {
            relayed := RelayedTo(relayed, clients[..i], sender, [Relay(sender, beam)]);
            return false;
          }
          if client in outgoing {
            outgoing := outgoing[client := outgoing[client] + (Encode(|beam|) + beam)];
          }
        }
      }
      assert clients[..|clients|] == clients;
      relayed := RelayedTo(relayed, clients, sender, [Relay(sender, beam)]);
      return true;
    }

    method Disconnect(client: ClientId)
      modifies `clients
      ensures View() == Step(old(View()), Leave(client))
    {
      clients := WithoutClient(clients, client);
    }
  }
}
