/** Length-prefixed framing over a byte stream: a header of fixed size announces how many payload
    bytes follow. Used for discovery beams and for the data channel between two processes. */
module Framing {
  import opened Wrappers
  import opened Bytes

  datatype Frame = Frame(header: seq<byte>, payload: seq<byte>)

  /** How a stream is framed; `announce` gives the payload size, or nothing when the header shows
      that the stream is out of step. */
  datatype Format = Format(headerSize: nat, announce: seq<byte> -> Option<nat>)

  /** Whole frames, the bytes left over, and whether reading stopped at a bad header. */
  datatype Reading = Reading(frames: seq<Frame>, rest: seq<byte>, broken: bool)

  function Write(frames: seq<Frame>): seq<byte> {
    if frames == [] then [] else frames[0].header + frames[0].payload + Write(frames[1..])
  }

  function Read(format: Format, stream: seq<byte>): (r: Reading)
    requires format.headerSize > 0
    decreases |stream|
  {
    var h := format.headerSize;
    if |stream| < h then Reading([], stream, false) else
      match format.announce(stream[..h])
      case None => Reading([], stream, true)
      case Some(n) =>
        if |stream| < h + n then Reading([], stream, false) else
          After([Frame(stream[..h], stream[h..h + n])], Read(format, stream[h + n..]))
  }

  /** A reading that starts with frames already read. */
  function After(frames: seq<Frame>, later: Reading): Reading {
    Reading(frames + later.frames, later.rest, later.broken)
  }

  lemma {:induction false} AfterIsAssociative(a: seq<Frame>, b: seq<Frame>, later: Reading)
    ensures After(a, After(b, later)) == After(a + b, later)
    ensures After([], later) == later
  {
  }

  /** The header announces exactly the payload behind it. */
  ghost predicate Fits(format: Format, frame: Frame) {
    |frame.header| == format.headerSize && format.announce(frame.header) == Some(|frame.payload|)
  }

  ghost predicate AllFit(format: Format, frames: seq<Frame>) {
    forall i :: 0 <= i < |frames| ==> Fits(format, frames[i])
  }

  lemma {:induction false} ReadOne(format: Format, frame: Frame, tail: seq<byte>)
    requires format.headerSize > 0 && Fits(format, frame)
    ensures Read(format, frame.header + frame.payload + tail) == After([frame], Read(format, tail))
  {
    var h, n := format.headerSize, |frame.payload|;
    var stream := frame.header + frame.payload + tail;
    assert stream[..h] == frame.header && stream[h..h + n] == frame.payload && stream[h + n..] == tail;
  }

  /** Reading what was written gives the frames back, and goes on with what follows them. */
  lemma {:induction false} ReadWritten(format: Format, frames: seq<Frame>, tail: seq<byte>)
    requires format.headerSize > 0 && AllFit(format, frames)
    ensures Read(format, Write(frames) + tail) == After(frames, Read(format, tail))
    decreases frames
  {
    AfterIsAssociative(frames, [], Read(format, tail));
    if frames == [] {
      assert Write(frames) + tail == tail;
    } else {
      ReadWritten(format, frames[1..], tail);
      AfterIsAssociative([frames[0]], frames[1..], Read(format, tail));
      assert [frames[0]] + frames[1..] == frames;
      ReadOne(format, frames[0], Write(frames[1..]) + tail);
      WriteCons(frames[0], frames[1..], tail);
    }
  }

  lemma {:induction false} RoundTrip(format: Format, frames: seq<Frame>)
    requires format.headerSize > 0 && AllFit(format, frames)
    ensures Read(format, Write(frames)) == Reading(frames, [], false)
  {
    ReadWritten(format, frames, []);
    assert Write(frames) + [] == Write(frames);
  }

  /** What a cut-off stream yields: only whole frames, in order, none of them altered. */
  lemma {:induction false} Truncation(format: Format, frames: seq<Frame>, stream: seq<byte>)
    requires format.headerSize > 0 && AllFit(format, frames)
    requires stream <= Write(frames)
    ensures Read(format, stream).frames <= frames && !Read(format, stream).broken
    decreases frames
  {
    if frames != [] {
      var frame := frames[0];
      var first := frame.header + frame.payload;
      if |first| <= |stream| {
        var tail := stream[|first|..];
        assert stream == first + tail;
        Truncation(format, frames[1..], tail);
        ReadOne(format, frame, tail);
      } else if format.headerSize <= |stream| {
        assert stream[..format.headerSize] == frame.header;
      }
    }
  }

  /** The frames of a reading and its rest are the stream. */
  ghost predicate Faithful(r: Reading, stream: seq<byte>) { Write(r.frames) + r.rest == stream }

  lemma {:induction false} FaithfulAfter(frame: Frame, later: Reading, tail: seq<byte>)
    requires Faithful(later, tail)
    ensures Faithful(After([frame], later), frame.header + frame.payload + tail)
  {
    WriteCons(frame, later.frames, later.rest);
  }

  lemma {:induction false} FirstFrame(format: Format, stream: seq<byte>, n: nat) returns (frame: Frame)
    requires format.headerSize > 0 && format.headerSize + n <= |stream|
    requires format.announce(stream[..format.headerSize]) == Some(n)
    ensures stream == frame.header + frame.payload + stream[format.headerSize + n..]
    ensures Read(format, stream) == After([frame], Read(format, stream[format.headerSize + n..]))
  {
    var h := format.headerSize;
    frame := Frame(stream[..h], stream[h..h + n]);
  }

  /** Nothing is lost or invented: the frames read and the rest are the stream. */
  lemma {:induction false} ReadIsFaithful(format: Format, stream: seq<byte>)
    requires format.headerSize > 0
    ensures Write(Read(format, stream).frames) + Read(format, stream).rest == stream
    decreases |stream|
  {
    var h := format.headerSize;
    assert Faithful(Reading([], stream, false), stream);
    if h <= |stream| && format.announce(stream[..h]).Some? && h + format.announce(stream[..h]).value <= |stream| {
      var n := format.announce(stream[..h]).value;
      var frame := FirstFrame(format, stream, n);
      ReadIsFaithful(format, stream[h + n..]);
      FaithfulAfter(frame, Read(format, stream[h + n..]), stream[h + n..]);
    }
  }

  /** Every frame read carries the payload its header announces. */
  lemma {:induction false} ReadFits(format: Format, stream: seq<byte>)
    requires format.headerSize > 0
    ensures AllFit(format, Read(format, stream).frames)
    decreases |stream|
  {
    var h := format.headerSize;
    if h <= |stream| && format.announce(stream[..h]).Some? {
      var n := format.announce(stream[..h]).value;
      if h + n <= |stream| {
        ReadFits(format, stream[h + n..]);
      }
    }
  }

  lemma {:induction false} WriteCons(frame: Frame, frames: seq<Frame>, rest: seq<byte>)
    ensures Write([frame] + frames) + rest == frame.header + frame.payload + (Write(frames) + rest)
  {
  }

  /** Bytes that arrive later only add to what has been read. */
  lemma {:induction false} ReadMore(format: Format, stream: seq<byte>, chunk: seq<byte>)
    requires format.headerSize > 0
    ensures Read(format, stream + chunk) == Extended(format, Read(format, stream), chunk)
    decreases |stream|
  {
    var h := format.headerSize;
    AfterIsAssociative([], [], Read(format, stream + chunk));
    if h <= |stream| {
      assert (stream + chunk)[..h] == stream[..h];
      var size := format.announce(stream[..h]);
      if size.Some? && h + size.value <= |stream| {
        var n := size.value;
        var frame, tail := Frame(stream[..h], stream[h..h + n]), stream[h + n..];
        assert stream == frame.header + frame.payload + tail;
        assert stream + chunk == frame.header + frame.payload + (tail + chunk);
        ReadOne(format, frame, tail);
        ReadOne(format, frame, tail + chunk);
        ReadMore(format, tail, chunk);
        var r := Read(format, tail);
        AfterIsAssociative([frame], r.frames, Read(format, r.rest + chunk));
      }
    }
  }

  /** A reading carried on with more bytes. */
  function Extended(format: Format, first: Reading, chunk: seq<byte>): Reading
    requires format.headerSize > 0
  {
    if first.broken then Reading(first.frames, first.rest + chunk, true)
    else After(first.frames, Read(format, first.rest + chunk))
  }

  /** The reader as it runs: it asks for one header, then for exactly the payload announced, and
      starts over; bytes arrive in chunks of any size. */
  class StreamReader {
    const format: Format
    var header: Option<seq<byte>>
    var buffer: seq<byte>
    var delivered: seq<Frame>
    var closed: bool
    ghost var received: seq<byte>

    ghost predicate Valid()
      reads this
    {
      && format.headerSize > 0
      && Read(format, received) == Reading(delivered, Pending(), closed)
      && (header.Some? ==>
            && |header.value| == format.headerSize && format.announce(header.value).Some?
            && !closed && |buffer| < format.announce(header.value).value)
      && (header.None? && !closed ==> |buffer| < format.headerSize)
    }

    ghost function Pending(): seq<byte>
      reads this
    {
      (if header.Some? then header.value else []) + buffer
    }

    constructor (format: Format)
      requires format.headerSize > 0
      ensures Valid() && this.format == format && received == [] && delivered == [] && !closed
    {
      this.format := format;
      header, buffer, delivered, closed := None, [], [], false;
      received := [];
    }

    /** Frames delivered, then what the pending bytes still hold, are the stream received. */
    ghost predicate Consistent()
      reads this
    {
      && format.headerSize > 0
      && Read(format, received) == After(delivered, Read(format, Pending()))
      && (header.Some? ==> |header.value| == format.headerSize && format.announce(header.value).Some? && !closed)
      && (closed ==> Read(format, Pending()) == Reading([], Pending(), true))
    }

    /** The header is complete: stop at a bad one, otherwise wait for its payload. */
    method TakeHeader()
      requires Consistent() && !closed && header.None? && Ready()
      modifies this
      ensures Consistent()
      ensures received == old(received) && delivered == old(delivered)
      ensures var next := old(buffer)[..format.headerSize];
              if format.announce(next).None? then closed && header.None? && buffer == old(buffer)
              else !closed && header == Some(next) && buffer == old(buffer)[format.headerSize..]
    {
      var next := buffer[..format.headerSize];
      assert Pending() == buffer;
      if format.announce(next).None? {
        closed := true;
      } else {
        ghost var pending := buffer;
        header, buffer := Some(next), buffer[format.headerSize..];
        assert Pending() == pending;
      }
    }

    /** The payload is complete: deliver the frame and go back to reading a header. */
    method TakePayload()
      requires Consistent() && !closed && header.Some? && Ready()
      modifies this
      ensures Consistent() && !closed && header.None?
      ensures received == old(received) && |buffer| <= old(|buffer|)
      ensures var n := format.announce(old(header.value)).value;
              delivered == old(delivered) + [Frame(old(header.value), old(buffer)[..n])]
    {
      var n := format.announce(header.value).value;
      var frame, tail := Frame(header.value, buffer[..n]), buffer[n..];
      assert Pending() == frame.header + frame.payload + tail;
      ReadOne(format, frame, tail);
      AfterIsAssociative(delivered, [frame], Read(format, tail));
      delivered := delivered + [frame];
      header, buffer := None, tail;
      assert Pending() == tail;
    }

    method Arrive(chunk: seq<byte>)
      requires Valid() && !closed
      modifies this
      ensures Consistent() && !closed
      ensures received == old(received) + chunk && delivered == old(delivered)
    {
      ReadMore(format, received, chunk);
      ghost var pending := Pending();
      received, buffer := received + chunk, buffer + chunk;
      assert Pending() == pending + chunk;
    }

    /** Whatever the chunking, the frames delivered are those of the whole stream so far. */
    method Feed(chunk: seq<byte>)
      requires Valid() && !closed
      modifies this
      ensures Valid() && received == old(received) + chunk
      ensures delivered == Read(format, received).frames && closed == Read(format, received).broken
      ensures old(delivered) <= delivered
    {
      Arrive(chunk);
      while !closed && Ready()
        invariant Consistent()
        invariant old(delivered) <= delivered
        invariant received == old(received) + chunk
        decreases !closed, |buffer|, header.Some?
      {
        if header.Some? {
          TakePayload();
        } else {
          TakeHeader();
        }
      }
      Stopped();
    }

    /** A reader with nothing more to take is up to date with the whole stream. */
    lemma {:induction false} Stopped()
      requires Consistent() && (closed || !Ready())
      ensures Valid()
    {
    }

    /** Enough bytes are buffered for the read in progress. */
    predicate Ready()
      requires header.Some? ==> format.announce(header.value).Some?
      reads this
    {
      if header.Some? then format.announce(header.value).value <= |buffer| else format.headerSize <= |buffer|
    }
  }
}
