/** Discovery beams over TCP: what a beamer writes and a tracker or the hub reads. */
module Beams {
  import opened Wrappers
  import opened Bytes
  import opened LittleEndian
  import opened Framing

  type Beam = seq<byte>

  const MAX_BEAM_SIZE: nat := 508
  const BEAM_HEADER_SIZE: nat := 4

  /** Zero, or more than a beam can hold, means the stream is out of step. */
  function AnnouncedBeam(header: seq<byte>): Option<nat> {
    if |header| != 4 then None else
      var size := Decode(header);
      if size == 0 || size > MAX_BEAM_SIZE then None else Some(size)
  }

  const BEAM_FORMAT := Format(BEAM_HEADER_SIZE, AnnouncedBeam)

  function BeamFrame(beam: Beam): Frame { Frame(Encode(|beam|), beam) }

  function BeamFrames(beams: seq<Beam>): (frames: seq<Frame>)
    ensures |frames| == |beams| && forall i :: 0 <= i < |beams| ==> frames[i] == BeamFrame(beams[i])
  {
    if beams == [] then [] else [BeamFrame(beams[0])] + BeamFrames(beams[1..])
  }

  /** The bytes a sender puts on the wire for a list of beams. */
  function Sent(beams: seq<Beam>): seq<byte> { Write(BeamFrames(beams)) }

  /** The beams a reader takes out of a stream. */
  function Received(stream: seq<byte>): seq<Beam> { Payloads(Read(BEAM_FORMAT, stream).frames) }

  function Payloads(frames: seq<Frame>): (beams: seq<Beam>)
    ensures |beams| == |frames| && forall i :: 0 <= i < |frames| ==> beams[i] == frames[i].payload
  {
    if frames == [] then [] else [frames[0].payload] + Payloads(frames[1..])
  }

  ghost predicate Sendable(beam: Beam) { 1 <= |beam| <= 508 }

  ghost predicate AllSendable(beams: seq<Beam>) {
    forall i :: 0 <= i < |beams| ==> Sendable(beams[i])
  }

  /** A frame announces its own payload exactly when the beam has 1 to 508 bytes. */
  lemma {:induction false} FitsIffSendable(beam: Beam)
    ensures Fits(BEAM_FORMAT, BeamFrame(beam)) <==> Sendable(beam)
  {
    RoundTrip32(|beam|, Encode(|beam|));
  }

  /** What a reader makes of any header and what follows: a size of 1 to 508 and a beam of that size, or
      a stream out of step. */
  lemma {:induction false} AnyHeaderIsRead(stream: seq<byte>)
    requires |stream| >= 4
    ensures var size := Decode(stream[..4]);
            && (Read(BEAM_FORMAT, stream) == Reading([], stream, true) <==> !(1 <= size <= 508))
            && (1 <= size <= 508 && 4 + size <= |stream| ==>
                  Received(stream) == [stream[4..4 + size]] + Received(stream[4 + size..]))
            && (1 <= size <= 508 && 4 + size > |stream| ==> Received(stream) == [])
  {
  }

  lemma {:induction false} SendableFit(beams: seq<Beam>)
    requires AllSendable(beams)
    ensures AllFit(BEAM_FORMAT, BeamFrames(beams))
    ensures Payloads(BeamFrames(beams)) == beams
  {
    forall i | 0 <= i < |beams| ensures Fits(BEAM_FORMAT, BeamFrames(beams)[i]) {
      FitsIffSendable(beams[i]);
    }
  }

  /** The reader gets back exactly the beams written, and never loses step. */
  lemma {:induction false} BeamsRoundTrip(beams: seq<Beam>)
    requires AllSendable(beams)
    ensures Received(Sent(beams)) == beams
    ensures !Read(BEAM_FORMAT, Sent(beams)).broken && Read(BEAM_FORMAT, Sent(beams)).rest == []
  {
    SendableFit(beams);
    RoundTrip(BEAM_FORMAT, BeamFrames(beams));
  }

  /** A list of beams comes back exactly when every one has a size a beamer accepts; the first other
      one stops the reader or, where its size does not fit the header, comes back cut. */
  lemma {:induction false} BeamsComeBackIff(beams: seq<Beam>)
    ensures Received(Sent(beams)) == beams <==> AllSendable(beams)
  {
    if AllSendable(beams) {
      BeamsRoundTrip(beams);
    } else {
      var beam, rest := beams[0], beams[1..];
      assert Sent(beams) == Encode(|beam|) + beam + Sent(rest);
      if Sendable(beam) {
        BeamsComeBackIff(rest);
        assert !AllSendable(rest);
        FitsIffSendable(beam);
        ReadOne(BEAM_FORMAT, BeamFrame(beam), Sent(rest));
        var later := Read(BEAM_FORMAT, Sent(rest)).frames;
        assert ([BeamFrame(beam)] + later)[1..] == later;
      } else {
        UnsendableIsAltered(beam, Sent(rest));
      }
    }
  }

  lemma {:induction false} UnsendableIsAltered(beam: Beam, tail: seq<byte>)
    requires !Sendable(beam)
    ensures var received := Received(Encode(|beam|) + beam + tail); received == [] || received[0] != beam
  {
    var stream := Encode(|beam|) + beam + tail;
    RoundTrip32(|beam|, Encode(|beam|));
    assert stream[..4] == Encode(|beam|);
  }

  /** A stream cut anywhere yields a prefix of the beams written. */
  lemma {:induction false} BeamsTruncated(beams: seq<Beam>, stream: seq<byte>)
    requires AllSendable(beams) && stream <= Sent(beams)
    ensures Received(stream) <= beams
    ensures !Read(BEAM_FORMAT, stream).broken
  {
    SendableFit(beams);
    Truncation(BEAM_FORMAT, BeamFrames(beams), stream);
    var frames := Read(BEAM_FORMAT, stream).frames;
  }

  /** Everything a reader takes out of any stream can be sent on. */
  lemma {:induction false} ReceivedIsSendable(stream: seq<byte>)
    ensures AllSendable(Received(stream))
  {
    ReadFits(BEAM_FORMAT, stream);
    var frames := Read(BEAM_FORMAT, stream).frames;
  }

  /** One hop through the hub: the hub reads any part of what was sent and sends on what it read;
      the far end, cut off anywhere too, still sees a prefix of the original beams. */
  lemma {:induction false} RelayPreservesBeams(beams: seq<Beam>, atHub: seq<byte>, atReader: seq<byte>)
    requires AllSendable(beams)
    requires atHub <= Sent(beams) && atReader <= Sent(Received(atHub))
    ensures Received(atReader) <= Received(atHub) <= beams
    ensures atHub == Sent(beams) && atReader == Sent(Received(atHub)) ==> Received(atReader) == beams
  {
    BeamsTruncated(beams, atHub);
    ReceivedIsSendable(atHub);
    BeamsTruncated(Received(atHub), atReader);
    BeamsRoundTrip(beams);
  }

  /** On the wire every beam is its size in four bytes and then its content. */
  lemma {:induction false} SentSnoc(beams: seq<Beam>, beam: Beam)
    ensures Sent(beams + [beam]) == Sent(beams) + Encode(|beam|) + beam
  {
    var longer := beams + [beam];
    if beams == [] {
      assert BeamFrames(longer)[1..] == [];
    } else {
      assert longer[1..] == beams[1..] + [beam];
      SentSnoc(beams[1..], beam);
    }
  }

  /** Bytes that arrive later only add to the beams a reader has taken out. */
  lemma {:induction false} ReceivedGrows(stream: seq<byte>, chunk: seq<byte>)
    ensures Received(stream) <= Received(stream + chunk)
  {
    ReadMore(BEAM_FORMAT, stream, chunk);
    var before, after := Read(BEAM_FORMAT, stream).frames, Read(BEAM_FORMAT, stream + chunk).frames;
    assert before <= after;
    assert forall i :: 0 <= i < |before| ==> Payloads(before)[i] == Payloads(after)[i];
  }
}
