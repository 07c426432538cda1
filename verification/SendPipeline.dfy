/** The asynchronous TCP writer of a process handler: any thread pushes and posts a callback, one
    I/O thread moves batches of at most ten messages through a buffer to the socket. */
module SendPipeline {
  import opened Bytes
  import opened Framing
  import DataChannel

  type Packet = seq<byte>

  const BULK_SIZE: nat := 10

  /** `rest` is the part of the bulk buffer not yet handed to the socket; `unposted` counts
      producers between their push and their post. */
  datatype Pipeline = Pipeline(accepted: seq<Packet>, queue: seq<Packet>, rest: seq<Packet>, written: seq<Packet>,
                               sending: bool, writing: bool, posted: nat, unposted: nat, open: bool)

  function Start(): Pipeline { Pipeline([], [], [], [], false, false, 0, 0, true) }

  datatype Event =
    | Push(packet: Packet)
    | Post
    | RunPosted(count: nat, throws: bool)
    | WriteDone(count: nat, throws: bool)
    | WriteFailed
    | Close

  /** `count` is what the bulk dequeue yields: at most a buffer full, and something whenever the
      queue is not empty. */
  ghost predicate Dequeues(queue: seq<Packet>, count: nat) {
    count <= BULK_SIZE && count <= |queue| && (count == 0 <==> queue == [])
  }

  ghost predicate Enabled(s: Pipeline, e: Event) {
    match e
    case Push(_) => true
    case Post => s.unposted > 0
    case RunPosted(count, _) => s.posted > 0 && Dequeues(s.queue, count)
    case WriteDone(count, _) => s.writing && Dequeues(s.queue, count)
    case WriteFailed => s.writing
    case Close => true
  }

  /** Refills the buffer and starts a write, unless one is under way or the socket is closed. Starting
      the write may throw, which ends the connection with the batch unsent. */
  function MaybeSend(s: Pipeline, count: nat, throws: bool): Pipeline
    requires count <= |s.queue|
  {
    if s.sending || !s.open || count == 0 then s
    else if throws then s.(queue := s.queue[count..], rest := s.queue[..count], sending := true, writing := false,
                             open := false)
    else s.(queue := s.queue[count..], rest := s.queue[1..count], written := s.written + [s.queue[0]],
            sending := true, writing := true)
  }

  function Step(s: Pipeline, e: Event): Pipeline
    requires Enabled(s, e)
  {
    match e
    case Push(packet) =>
      s.(accepted := s.accepted + [packet], queue := s.queue + [packet], unposted := s.unposted + 1)
    case Post => s.(unposted := s.unposted - 1, posted := s.posted + 1)
    case RunPosted(count, throws) => MaybeSend(s.(posted := s.posted - 1), count, throws)
    case WriteDone(count, throws) =>
      if s.rest != [] && throws then s.(writing := false, open := false)
      else if s.rest != [] then s.(written := s.written + [s.rest[0]], rest := s.rest[1..])
      else MaybeSend(s.(sending := false, writing := false), count, throws)
    case WriteFailed => s.(writing := false, open := false)
    case Close => s.(open := false)
  }

  ghost predicate Invariant(s: Pipeline) {
    && s.accepted == s.written + s.rest + s.queue
    && (s.writing ==> s.sending)
    && (s.open ==> (s.sending <==> s.writing))
    && (s.open && !s.writing ==> s.rest == [])
    && (s.open && s.queue != [] ==> s.posted > 0 || s.unposted > 0 || s.writing)
    && |s.rest| <= BULK_SIZE
  }

  lemma {:induction false} RefillKeepsOrder(s: Pipeline, count: nat, throws: bool)
    requires count <= |s.queue| && s.rest == []
    requires s.accepted == s.written + s.rest + s.queue
    ensures var t := MaybeSend(s, count, throws); t.accepted == t.written + t.rest + t.queue
  {
    if count > 0 {
      assert s.queue == [s.queue[0]] + s.queue[1..count] + s.queue[count..] == s.queue[..count] + s.queue[count..];
      assert s.written + s.queue == s.written + [s.queue[0]] + s.queue[1..count] + s.queue[count..];
    }
  }

  lemma {:induction false} StepKeepsOrder(s: Pipeline, e: Event)
    requires Invariant(s) && Enabled(s, e)
    ensures var t := Step(s, e); t.accepted == t.written + t.rest + t.queue
  {
    match e
    case RunPosted(count, throws) =>
      if s.open && !s.sending {
        RefillKeepsOrder(s.(posted := s.posted - 1), count, throws);
      }
    case WriteDone(count, throws) =>
      if s.rest != [] {
        assert s.written + s.rest == s.written + [s.rest[0]] + s.rest[1..];
      } else {
        RefillKeepsOrder(s.(sending := false, writing := false), count, throws);
      }
    case Push(packet) =>
      assert s.written + s.rest + (s.queue + [packet]) == s.written + s.rest + s.queue + [packet];
    case _ =>
  }

  lemma {:induction false} StepKeepsInvariant(s: Pipeline, e: Event)
    requires Invariant(s) && Enabled(s, e)
    ensures Invariant(Step(s, e))
  {
    StepKeepsOrder(s, e);
  }

  /** States along a sequence of events from the start. */
  ghost predicate IsRun(states: seq<Pipeline>, events: seq<Event>) {
    && |states| == |events| + 1 && states[0] == Start()
    && forall i :: 0 <= i < |events| ==> StepAt(states, events, i)
  }

  ghost predicate StepAt(states: seq<Pipeline>, events: seq<Event>, i: nat)
    requires |states| == |events| + 1 && i < |events|
  {
    Enabled(states[i], events[i]) && states[i + 1] == Step(states[i], events[i])
  }

  lemma {:induction false} RunKeepsInvariant(states: seq<Pipeline>, events: seq<Event>, i: nat)
    requires IsRun(states, events) && i < |states|
    ensures Invariant(states[i])
  {
    if i > 0 {
      assert StepAt(states, events, i - 1);
      RunKeepsInvariant(states, events, i - 1);
      StepKeepsInvariant(states[i - 1], events[i - 1]);
    }
  }

  /** In every run: order is kept, nothing is lost or doubled, and no wake-up is missed. */
  lemma {:induction false} RunIsOrderly(states: seq<Pipeline>, events: seq<Event>, i: nat)
    requires IsRun(states, events) && i < |states|
    ensures states[i].written + states[i].rest + states[i].queue == states[i].accepted
    ensures states[i].open && states[i].queue != [] ==>
              states[i].posted > 0 || states[i].unposted > 0 || states[i].writing
    ensures i < |events| && |states[i + 1].queue| < |states[i].queue| ==>
              states[i].rest == [] && (states[i].writing ==> events[i].WriteDone?)
  {
    RunKeepsInvariant(states, events, i);
    assert i < |events| ==> StepAt(states, events, i);
  }

  // ---- Each step, and what the events add up to -----------------------------------------------

  /** The packets pushed, in order. */
  function Pushes(events: seq<Event>): seq<Packet> {
    if events == [] then [] else
      var before, e := Pushes(events[..|events| - 1]), events[|events| - 1];
      if e.Push? then before + [e.packet] else before
  }

  /** The event hands a packet to the socket: the next one of the batch, or the first one of a new batch
      while the socket is open and no write is under way. */
  ghost predicate StartsWrite(s: Pipeline, e: Event) {
    match e
    case RunPosted(count, throws) => !throws && s.open && !s.writing && count > 0
    case WriteDone(count, throws) => !throws && (s.rest != [] || (s.open && count > 0))
    case _ => false
  }

  /** The event ends the connection. */
  ghost predicate Breaks(s: Pipeline, e: Event) {
    match e
    case RunPosted(count, throws) => throws && s.open && !s.writing && count > 0
    case WriteDone(count, throws) => throws && (s.rest != [] || (s.open && count > 0))
    case WriteFailed => true
    case Close => true
    case _ => false
  }

  ghost predicate IsExact(s: Pipeline, e: Event, t: Pipeline) {
    && (StartsWrite(s, e) ==> |s.written| < |s.accepted|)
    && t.written == s.written + (if StartsWrite(s, e) then [s.accepted[|s.written|]] else [])
    && (t.writing <==> StartsWrite(s, e) || (s.writing && !e.WriteDone? && !e.WriteFailed?))
    && (t.open <==> s.open && !Breaks(s, e))
    && t.accepted == s.accepted + (if e.Push? then [e.packet] else [])
    && t.posted == s.posted + (if e.Post? then 1 else if e.RunPosted? then -1 else 0)
    && t.unposted == s.unposted + (if e.Push? then 1 else if e.Post? then -1 else 0)
  }

  /** A step writes the next packet not yet written, exactly when it starts a write; a write is under way
      from its start to its completion; and the socket closes exactly when a step breaks the connection. */
  lemma {:induction false} StepIsExact(s: Pipeline, e: Event)
    requires Invariant(s) && Enabled(s, e)
    ensures IsExact(s, e, Step(s, e))
  {
    if StartsWrite(s, e) {
      assert s.accepted[|s.written|] == (s.rest + s.queue)[0] by {
        assert s.accepted == s.written + (s.rest + s.queue);
      }
    }
  }

  /** In every run: what is written, in the batch and queued is what was pushed, in that order; a batch
      has at most ten packets; and every step is exact. */
  lemma {:induction false} RunIsExact(states: seq<Pipeline>, events: seq<Event>, i: nat)
    requires IsRun(states, events) && i < |states|
    ensures states[i].written + states[i].rest + states[i].queue == Pushes(events[..i])
    ensures |states[i].rest| <= 10
    ensures states[i].open <==> forall m :: 0 <= m < i ==> !Breaks(states[m], events[m])
    ensures i < |events| ==> IsExact(states[i], events[i], states[i + 1])
  {
    RunKeepsInvariant(states, events, i);
    if i < |events| {
      assert StepAt(states, events, i);
      StepIsExact(states[i], events[i]);
    }
    if i > 0 {
      assert events[..i][..i - 1] == events[..i - 1];
      RunKeepsInvariant(states, events, i - 1);
      RunIsExact(states, events, i - 1);
    }
  }

  // ---- Draining ------------------------------------------------------------------------------

  /** Nothing is pending: no callback, no producer about to post one, no write. */
  ghost predicate Quiescent(s: Pipeline) { s.posted == 0 && s.unposted == 0 && !s.writing }

  /** Upper bound on the steps left before an open pipeline comes to rest without new pushes. */
  function Work(s: Pipeline): nat {
    3 * s.unposted + 2 * s.posted + 3 * |s.queue| + 3 * |s.rest| + if s.writing then 1 else 0
  }

  ghost predicate IsProgress(e: Event) { e.Post? || ((e.RunPosted? || e.WriteDone?) && !e.throws) }

  lemma {:induction false} ProgressUsesWork(s: Pipeline, e: Event)
    requires Invariant(s) && Enabled(s, e) && IsProgress(e)
    ensures Work(Step(s, e)) < Work(s)
    ensures s.open ==> Step(s, e).open
  {
  }

  /** A pipeline that is not at rest can always take another step. */
  lemma {:induction false} NotQuiescentCanStep(s: Pipeline) returns (e: Event)
    requires !Quiescent(s)
    ensures IsProgress(e) && Enabled(s, e)
  {
    var count := if |s.queue| < BULK_SIZE then |s.queue| else BULK_SIZE;
    assert Dequeues(s.queue, count);
    e := if s.writing then WriteDone(count, false) else if s.posted > 0 then RunPosted(count, false) else Post;
  }

  /** Left alone, an open pipeline comes to rest within `Work` steps, however they interleave, and
      then every accepted packet has been handed to the socket. */
  lemma {:induction false} EverythingIsSent(s: Pipeline, events: seq<Event>, states: seq<Pipeline>)
    requires Invariant(s) && s.open
    requires |states| == |events| + 1 && states[0] == s
    requires forall i :: 0 <= i < |events| ==>
               IsProgress(events[i]) && Enabled(states[i], events[i]) && states[i + 1] == Step(states[i], events[i])
    ensures |events| <= Work(s)
    ensures states[|events|].accepted == s.accepted
    ensures Quiescent(states[|events|]) ==> states[|events|].written == s.accepted
    decreases |events|
  {
    if events == [] {
      assert s.accepted == s.written + s.rest + s.queue;
      if Quiescent(s) {
        assert s.written + [] + [] == s.written;
      }
    } else {
      StepKeepsInvariant(s, events[0]);
      ProgressUsesWork(s, events[0]);
      var later, after := events[1..], states[1..];
      forall i | 0 <= i < |later|
        ensures IsProgress(later[i]) && Enabled(after[i], later[i]) && after[i + 1] == Step(after[i], later[i])
      {
        assert later[i] == events[i + 1] && after[i] == states[i + 1] && after[i + 1] == states[i + 2];
      }
      EverythingIsSent(states[1], later, after);
      assert after[|later|] == states[|events|];
    }
  }

  // ---- From one process to the other ---------------------------------------------------------

  function WireBytes(packets: seq<Packet>): seq<byte> {
    if packets == [] then [] else packets[0] + WireBytes(packets[1..])
  }

  function Packets(messages: seq<DataChannel.Message>): seq<Packet> {
    if messages == [] then [] else
      var frame := DataChannel.FrameOf(messages[0]);
      [frame.header + frame.payload] + Packets(messages[1..])
  }

  lemma {:induction false} PacketBytes(messages: seq<DataChannel.Message>)
    ensures WireBytes(Packets(messages)) == Write(DataChannel.FramesOf(messages))
  {
    if messages != [] {
      PacketBytes(messages[1..]);
      assert Packets(messages)[1..] == Packets(messages[1..]);
      assert DataChannel.FramesOf(messages)[1..] == DataChannel.FramesOf(messages[1..]);
    }
  }

  lemma {:induction false} BytesOfPrefix(a: seq<Packet>, b: seq<Packet>)
    ensures WireBytes(a) <= WireBytes(a + b)
  {
    if a != [] {
      BytesOfPrefix(a[1..], b);
      assert (a + b)[1..] == a[1..] + b;
    }
  }

  /** Whatever part of the written bytes the peer has received, it has dispatched the first messages
      pushed, in order and unaltered; once the pipeline is at rest and all written
      bytes are in, it has dispatched all of them. */
  lemma {:induction false} EndToEnd(states: seq<Pipeline>, events: seq<Event>, i: nat,
                                    messages: seq<DataChannel.Message>, arrived: seq<byte>)
    requires IsRun(states, events) && i < |states|
    requires Pushes(events[..i]) == Packets(messages) && DataChannel.AllRepresentable(messages)
    requires arrived <= WireBytes(states[i].written)
    ensures DataChannel.Dispatched(arrived) <= DataChannel.All(messages)
    ensures Quiescent(states[i]) && states[i].open && arrived == WireBytes(states[i].written) ==>
              DataChannel.Dispatched(arrived) == DataChannel.All(messages)
  {
    var s := states[i];
    RunKeepsInvariant(states, events, i);
    RunIsExact(states, events, i);
    assert Packets(messages) == s.written + (s.rest + s.queue);
    BytesOfPrefix(s.written, s.rest + s.queue);
    PacketBytes(messages);
    assert arrived <= Write(DataChannel.FramesOf(messages));
    DataChannel.ChannelIsFaithful(messages, arrived);
    if Quiescent(s) && s.open {
      assert s.rest + s.queue == [] && s.written + [] == s.written;
    }
  }

  // ---- The handler ---------------------------------------------------------------------------

  /** The sending half of a process handler. Callbacks, completions and the socket are the
      environment's; `posted`, `unposted` and `writing` count what it still owes. */
  class Sender {
    var queue: seq<Packet>
    var bulk: array<Packet>
    var next: nat
    var end: nat
    var sendingTcp: bool
    var socketOpen: bool
    var written: seq<Packet>
    ghost var accepted: seq<Packet>
    ghost var writing: bool
    ghost var posted: nat
    ghost var unposted: nat

    ghost predicate Valid()
      reads this, bulk
    {
      && bulk.Length == BULK_SIZE && next <= end <= BULK_SIZE && (!sendingTcp ==> next == end)
    }

    ghost function View(): Pipeline
      requires Valid()
      reads this, bulk
    {
      Pipeline(accepted, queue, bulk[next..end], written, sendingTcp, writing, posted, unposted,
               socketOpen)
    }

    constructor ()
      ensures Valid() && View() == Start() && fresh(bulk)
    {
      queue, written, next, end, sendingTcp, socketOpen := [], [], 0, 0, false, true;
      bulk := new Packet[BULK_SIZE](_ => []);
      accepted, writing, posted, unposted := [], false, 0, 0;
    }

    /** A producer's push; its post follows as a step of its own. */
    method PushPacket(packet: Packet)
      requires Valid()
      modifies this
      ensures Valid() && bulk == old(bulk) && View() == Step(old(View()), Push(packet))
    {
      queue := queue + [packet];
      accepted, unposted := accepted + [packet], unposted + 1;
    }

    method MaybeSendTcp(count: nat, throws: bool)
      requires Valid() && Dequeues(queue, count)
      modifies this, bulk
      ensures Valid() && bulk == old(bulk) && View() == MaybeSend(old(View()), count, throws)
      decreases 1
    {
      if sendingTcp {
        return;
      }
      if !socketOpen {
        return;
      }
      ghost var before := queue;
      forall i | 0 <= i < count {
        bulk[i] := queue[i];
      }
      queue := queue[count..];
      if count == 0 {
        assert queue == before && bulk[next..end] == [];
        return;
      }
      assert bulk[1..count] == before[1..count] && bulk[0..count] == before[..count];
      SendTcp(0, count, 0, throws);
    }

    /** Hands over the packet at `first`, or looks for more when the batch is through. A write that
        throws when it is started ends the connection. */
    method SendTcp(first: nat, last: nat, count: nat, throws: bool)
      requires Valid() && first <= last <= BULK_SIZE
      requires first == last ==> Dequeues(queue, count)
      modifies this, bulk
      ensures Valid() && bulk == old(bulk)
      ensures first < last && !throws ==>
                && View() == old(View()).(written := old(written) + [old(bulk[first])], sending := true,
                                          writing := true, rest := old(bulk[first + 1..last]))
      ensures first < last && throws ==>
                View() == old(View()).(sending := true, writing := false, open := false, rest := old(bulk[first..last]))
      ensures first == last ==>
                View() == MaybeSend(old(View()).(sending := false, writing := false, rest := []), count, throws)
      decreases if first == last then 2 else 0
    {
      sendingTcp := true;
      next, end := first, last;
      if first == last {
        sendingTcp, writing := false, false;
        MaybeSendTcp(count, throws);
        return;
      }
      if throws {
        writing, socketOpen := false, false;
        return;
      }
      written := written + [bulk[first]];
      next := first + 1;
      writing := true;
    }

    /** Completion of the write in flight. */
    method OnWritten(ok: bool, count: nat, throws: bool)
      requires Valid() && Invariant(View()) && writing && Dequeues(queue, count)
      modifies this, bulk
      ensures Valid() && bulk == old(bulk)
      ensures View() == Step(old(View()), if ok then WriteDone(count, throws) else WriteFailed)
    {
      if ok {
        SendTcp(next, end, count, throws);
      } else {
        writing, socketOpen := false, false;
      }
    }

    /** A posted callback runs on the I/O thread. */
    method RunPostedCallback(count: nat, throws: bool)
      requires Valid() && Invariant(View()) && posted > 0 && Dequeues(queue, count)
      modifies this, bulk
      ensures Valid() && bulk == old(bulk) && View() == Step(old(View()), RunPosted(count, throws))
    {
      posted := posted - 1;
      MaybeSendTcp(count, throws);
    }
  }
}
