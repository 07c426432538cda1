/** The TCP data channel between two processes: control messages and confirmed bus messages, each
    behind a five-byte header of category and size. */
module DataChannel {
  import opened Wrappers
  import opened Bytes
  import opened LittleEndian
  import opened Framing

  const BUS_MESSAGE: byte := 0
  const CONTROL_MESSAGE: byte := 1
  const HEADER_SIZE: nat := 5
  const BUS_HEADER_SIZE: nat := 8

  datatype Message =
    | Control(content: seq<byte>)
    | Bus(to: uint32, bus: uint32, payload: seq<byte>)

  /** The size field is 32 bits wide and wraps. */
  function FrameOf(m: Message): Frame {
    match m
    case Control(content) => Frame([CONTROL_MESSAGE] + Encode(|content|), content)
    case Bus(to, bus, payload) =>
      Frame([BUS_MESSAGE] + Encode(BUS_HEADER_SIZE + |payload|), Encode(to) + Encode(bus) + payload)
  }

  function AnnouncedSize(header: seq<byte>): Option<nat> {
    if |header| != HEADER_SIZE then None else Some(Decode(header[1..]))
  }

  const CHANNEL_FORMAT := Format(HEADER_SIZE, AnnouncedSize)

  /** Any category but control is a bus message; one shorter than its own header has no reading. */
  function MessageOf(frame: Frame): Option<Message>
    requires |frame.header| == HEADER_SIZE
  {
    if frame.header[0] == CONTROL_MESSAGE then Some(Control(frame.payload))
    else if |frame.payload| < BUS_HEADER_SIZE then None
    else Some(Bus(Decode(frame.payload[..4]), Decode(frame.payload[4..8]), frame.payload[8..]))
  }

  /** Size of the payload behind the five-byte header. */
  function WireSize(m: Message): nat {
    match m
    case Control(content) => |content|
    case Bus(_, _, payload) => BUS_HEADER_SIZE + |payload|
  }

  ghost predicate Representable(m: Message) { WireSize(m) < 0x1_0000_0000 }

  lemma {:induction false} FrameRoundTrip(m: Message)
    ensures |FrameOf(m).header| == HEADER_SIZE && |FrameOf(m).payload| == WireSize(m)
    ensures MessageOf(FrameOf(m)) == Some(m)
    ensures Fits(CHANNEL_FORMAT, FrameOf(m)) <==> Representable(m)
  {
    FrameShape(m);
    FrameFitsIff(FrameOf(m), WireSize(m));
    if m.Bus? {
      BusContent(FrameOf(m), m.to, m.bus, m.payload);
    }
  }

  lemma {:induction false} FrameFitsIff(frame: Frame, size: nat)
    requires |frame.header| == HEADER_SIZE && |frame.payload| == size
    requires frame.header == [frame.header[0]] + Encode(size)
    ensures Fits(CHANNEL_FORMAT, frame) <==> size < 0x1_0000_0000
  {
    HeaderAnnounces(frame.header[0], size);
  }

  lemma {:induction false} FrameShape(m: Message)
    ensures var frame := FrameOf(m);
            && |frame.header| == HEADER_SIZE && |frame.payload| == WireSize(m)
            && frame.header[0] == (if m.Bus? then BUS_MESSAGE else CONTROL_MESSAGE)
            && frame.header == [frame.header[0]] + Encode(WireSize(m))
  {
  }

  lemma {:induction false} HeaderAnnounces(category: byte, size: nat)
    ensures AnnouncedSize([category] + Encode(size)) == Some(size % 0x1_0000_0000)
  {
    assert ([category] + Encode(size))[1..] == Encode(size);
    RoundTrip32(size, Encode(0));
  }

  lemma {:induction false} BusContent(frame: Frame, to: uint32, bus: uint32, payload: seq<byte>)
    requires |frame.header| == HEADER_SIZE && frame.header[0] == BUS_MESSAGE
    requires frame.payload == Encode(to) + Encode(bus) + payload
    ensures MessageOf(frame) == Some(Bus(to, bus, payload))
  {
    Slices(Encode(to), Encode(bus), payload);
    DecodesBack(to);
    DecodesBack(bus);
  }

  lemma {:induction false} DecodesBack(value: uint32)
    ensures Decode(Encode(value)) == value
  {
    RoundTrip32(value, Encode(value));
  }

  lemma {:induction false} Slices(a: seq<byte>, b: seq<byte>, c: seq<byte>)
    ensures var all := a + b + c;
            all[..|a|] == a && all[|a|..|a| + |b|] == b && all[|a| + |b|..] == c
  {
  }

  /** The bytes of one message on the wire: category, size, and for a bus message recipient and bus, each
      number in four bytes. */
  lemma {:induction false} WireLayout(m: Message)
    ensures Write(FramesOf([m]))
            == match m
               case Control(content) => [1] + Encode(|content|) + content
               case Bus(to, bus, payload) => [0] + Encode(8 + |payload|) + Encode(to) + Encode(bus) + payload
  {
    assert FramesOf([m])[1..] == [] && Write(FramesOf([m])) == FrameOf(m).header + FrameOf(m).payload + [];
  }

  /** What a reader makes of any five-byte header and the bytes it announces: category 1 is a control
      message, every other one a bus message. */
  lemma {:induction false} AnyFrameIsRead(category: byte, size: uint32, bytes: seq<byte>, tail: seq<byte>)
    requires |bytes| == size
    ensures var dispatched := Dispatched([category] + Encode(size) + bytes + tail);
            && dispatched != []
            && dispatched[1..] == Dispatched(tail)
            && dispatched[0] == if category == 1 then Some(Control(bytes))
                                else if size < 8 then None
                                else Some(Bus(Decode(bytes[..4]), Decode(bytes[4..8]), bytes[8..]))
  {
    var frame := Frame([category] + Encode(size), bytes);
    FrameFitsIff(frame, size);
    ReadOne(CHANNEL_FORMAT, frame, tail);
    FirstThenRest(frame, Read(CHANNEL_FORMAT, tail).frames);
  }

  function FramesOf(messages: seq<Message>): (frames: seq<Frame>)
    ensures |frames| == |messages| && forall i :: 0 <= i < |messages| ==> frames[i] == FrameOf(messages[i])
  {
    if messages == [] then [] else [FrameOf(messages[0])] + FramesOf(messages[1..])
  }

  /** The messages a reader dispatches, one for each whole frame. */
  function Dispatched(stream: seq<byte>): (r: seq<Option<Message>>) {
    Decoded(Read(CHANNEL_FORMAT, stream).frames)
  }

  function Decoded(frames: seq<Frame>): (r: seq<Option<Message>>)
    ensures |r| == |frames|
    ensures forall i :: 0 <= i < |frames| ==>
              r[i] == if |frames[i].header| == HEADER_SIZE then MessageOf(frames[i]) else None
  {
    if frames == [] then [] else
      [if |frames[0].header| == HEADER_SIZE then MessageOf(frames[0]) else None] + Decoded(frames[1..])
  }

  function All(messages: seq<Message>): (r: seq<Option<Message>>)
    ensures |r| == |messages| && forall i :: 0 <= i < |messages| ==> r[i] == Some(messages[i])
  {
    if messages == [] then [] else [Some(messages[0])] + All(messages[1..])
  }

  ghost predicate AllRepresentable(messages: seq<Message>) {
    forall i :: 0 <= i < |messages| ==> Representable(messages[i])
  }

  /** Any part of the stream that has arrived decodes to the first messages sent, unaltered; all
      of it decodes to all of them. */
  lemma {:induction false} ChannelIsFaithful(messages: seq<Message>, stream: seq<byte>)
    requires AllRepresentable(messages) && stream <= Write(FramesOf(messages))
    ensures Dispatched(stream) <= All(messages)
    ensures stream == Write(FramesOf(messages)) ==> Dispatched(stream) == All(messages)
  {
    var frames := FramesOf(messages);
    forall i | 0 <= i < |messages|
      ensures Fits(CHANNEL_FORMAT, frames[i]) && MessageOf(frames[i]) == Some(messages[i])
    {
      FrameRoundTrip(messages[i]);
    }
    Truncation(CHANNEL_FORMAT, frames, stream);
    RoundTrip(CHANNEL_FORMAT, frames);
  }

  /** A list of messages comes out as it went in exactly when every size fits the 32-bit size field. */
  lemma {:induction false} MessagesSurviveIff(messages: seq<Message>)
    ensures Dispatched(Write(FramesOf(messages))) == All(messages) <==> AllRepresentable(messages)
  {
    if AllRepresentable(messages) {
      ChannelIsFaithful(messages, Write(FramesOf(messages)));
    } else {
      var m, rest := messages[0], messages[1..];
      var frame, tail := FrameOf(m), Write(FramesOf(rest));
      assert Write(FramesOf(messages)) == frame.header + frame.payload + tail;
      FrameRoundTrip(m);
      if Representable(m) {
        MessagesSurviveIff(rest);
        assert !AllRepresentable(rest);
        ReadOne(CHANNEL_FORMAT, frame, tail);
        FirstThenRest(frame, Read(CHANNEL_FORMAT, tail).frames);
        assert All(messages)[1..] == All(rest);
      } else {
        OversizedIsAltered(m, tail);
      }
    }
  }

  lemma {:induction false} FirstThenRest(frame: Frame, frames: seq<Frame>)
    ensures Decoded([frame] + frames)[1..] == Decoded(frames)
  {
    assert ([frame] + frames)[1..] == frames;
  }

  /** A message whose size does not fit is not what the reader dispatches first. */
  lemma {:induction false} OversizedIsAltered(m: Message, tail: seq<byte>)
    requires !Representable(m)
    ensures var dispatched := Dispatched(FrameOf(m).header + FrameOf(m).payload + tail);
            dispatched != [] && dispatched[0] != Some(m)
  {
    var frame := FrameOf(m);
    FrameRoundTrip(m);
    HeaderAnnounces(frame.header[0], WireSize(m));
    var stream := frame.header + frame.payload + tail;
    assert stream[..HEADER_SIZE] == frame.header;
    var read := Read(CHANNEL_FORMAT, stream).frames;
    ShorterIsDifferent(m, read[0]);
  }

  lemma {:induction false} ShorterIsDifferent(m: Message, frame: Frame)
    requires |frame.header| == HEADER_SIZE && |frame.payload| < WireSize(m)
    ensures MessageOf(frame) != Some(m)
  {
  }
}
