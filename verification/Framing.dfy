/** Length-prefixed frames over a byte stream: the two whole-frame codecs and the stream reader. */
module Framing {
  import opened Results
  import opened Bytes

  const MAX_FRAME_BYTES: nat := 1024 * 1024
  const HEADER_BYTES: nat := 4

  datatype FrameError = FrameTooLarge | TruncatedFrame | Io

  predicate Fits(size: nat, limit: nat) {
    0 < size <= limit && size <= MAX_FRAME_BYTES
  }

  function Encode(body: seq<byte>, limit: nat): Result<seq<byte>, FrameError> {
    if !Fits(|body|, limit) then Err(FrameTooLarge) else Ok(BigEndian(|body|, HEADER_BYTES) + body)
  }

  function Decode(frame: seq<byte>, limit: nat): Result<seq<byte>, FrameError> {
    if |frame| < HEADER_BYTES then Err(TruncatedFrame)
    else
      var size := FromBigEndian(frame[..HEADER_BYTES]);
      if !Fits(size, limit) then Err(FrameTooLarge)
      else if |frame| != size + HEADER_BYTES then Err(TruncatedFrame)
      else Ok(frame[HEADER_BYTES..])
  }

  /** A frame is accepted exactly when it encodes its body, which therefore is the only body it can carry. */
  lemma DecodeIsCanonical(frame: seq<byte>, limit: nat, body: seq<byte>)
    ensures Decode(frame, limit) == Ok(body) <==> Encode(body, limit) == Ok(frame)
  {
    FourBytes();
    if Decode(frame, limit) == Ok(body) {
      BytesReadBack(frame[..HEADER_BYTES]);
      assert frame == frame[..HEADER_BYTES] + frame[HEADER_BYTES..];
    }
    if Encode(body, limit) == Ok(frame) {
      NumberReadsBack(|body|, HEADER_BYTES);
      assert frame[..HEADER_BYTES] == BigEndian(|body|, HEADER_BYTES) && frame[HEADER_BYTES..] == body;
    }
  }

  /** No strict prefix of a frame is a frame, for any reader limit at least as large as the writer's. */
  lemma StrictPrefixIsTruncated(body: seq<byte>, writer: nat, reader: nat, n: nat)
    requires Encode(body, writer).Ok? && n < |Encode(body, writer).value| && writer <= reader
    ensures Decode(Encode(body, writer).value[..n], reader) == Err(TruncatedFrame)
  {
    FourBytes();
    var frame := Encode(body, writer).value;
    NumberReadsBack(|body|, HEADER_BYTES);
    if n >= HEADER_BYTES {
      assert frame[..n][..HEADER_BYTES] == BigEndian(|body|, HEADER_BYTES);
    }
  }

  // ----- reading from a stream

  datatype Read = Read(result: Result<seq<byte>, FrameError>, rest: seq<byte>)

  /** One read of a frame from the bytes the peer has sent; a short stream is drained. */
  function ReadStep(pending: seq<byte>, limit: nat): Read {
    if |pending| < HEADER_BYTES then Read(Err(Io), [])
    else
      var size := FromBigEndian(pending[..HEADER_BYTES]);
      if !Fits(size, limit) then Read(Err(FrameTooLarge), pending[HEADER_BYTES..])
      else if |pending| < HEADER_BYTES + size then Read(Err(Io), [])
      else Read(Ok(pending[..HEADER_BYTES + size]), pending[HEADER_BYTES + size..])
  }

  class Stream {
    var pending: seq<byte>
    const limit: nat

    constructor (bytes: seq<byte>, limit: nat)
      ensures pending == bytes && this.limit == limit
    {
      pending := bytes;
      this.limit := limit;
    }

    /** Fills a buffer of n bytes, or drains a stream that ends first. */
    method ReadExact(n: nat) returns (bytes: Option<seq<byte>>)
      modifies this
      ensures n <= old(|pending|) ==> bytes == Some(old(pending)[..n]) && pending == old(pending)[n..]
      ensures n > old(|pending|) ==> bytes == None && pending == []
    {
      if n > |pending| {
        pending := [];
        return None;
      }
      bytes := Some(pending[..n]);
      pending := pending[n..];
    }

    method ReadFrame() returns (frame: Result<seq<byte>, FrameError>)
      modifies this
      ensures Read(frame, pending) == ReadStep(old(pending), limit)
    {
      var header := ReadExact(HEADER_BYTES);
      if header.None? {
        return Err(Io);
      }
      var size := FromBigEndian(header.value);
      if size == 0 || size > limit || size > MAX_FRAME_BYTES {
        return Err(FrameTooLarge);
      }
      var body := ReadExact(size);
      if body.None? {
        return Err(Io);
      }
      frame := Ok(header.value + body.value);
      assert old(pending)[HEADER_BYTES..][size..] == old(pending)[HEADER_BYTES + size..];
      assert header.value + body.value == old(pending)[..HEADER_BYTES + size];
    }
  }

  function Prepend(done: seq<seq<byte>>, r: (Result<seq<seq<byte>>, FrameError>, seq<byte>))
    : (Result<seq<seq<byte>>, FrameError>, seq<byte>)
  {
    if r.0.Ok? then (Ok(done + r.0.value), r.1) else r
  }

  /** What reading and decoding n frames one after another gives, and what it leaves. */
  function ReadAll(pending: seq<byte>, limit: nat, n: nat): (Result<seq<seq<byte>>, FrameError>, seq<byte>) {
    if n == 0 then (Ok([]), pending)
    else
      var step := ReadStep(pending, limit);
      if step.result.Err? then (Err(step.result.error), step.rest)
      else
        var body := Decode(step.result.value, limit);
        if body.Err? then (Err(body.error), step.rest)
        else Prepend([body.value], ReadAll(step.rest, limit, n - 1))
  }

  /** The frames of a list of bodies, one after the other. */
  function Wire(bodies: seq<seq<byte>>, limit: nat): seq<byte>
    requires forall i :: 0 <= i < |bodies| ==> Fits(|bodies[i]|, limit)
  {
    if bodies == [] then [] else Encode(bodies[0], limit).value + Wire(bodies[1..], limit)
  }

  /** One read from a stream that starts with a frame takes that frame and nothing more. */
  lemma ReadTakesOneFrame(body: seq<byte>, writer: nat, reader: nat, tail: seq<byte>)
    requires Fits(|body|, writer) && writer <= reader
    ensures ReadStep(Encode(body, writer).value + tail, reader) == Read(Encode(body, reader), tail)
  {
    FourBytes();
    NumberReadsBack(|body|, HEADER_BYTES);
    var frame := Encode(body, writer).value;
    assert (frame + tail)[..HEADER_BYTES] == BigEndian(|body|, HEADER_BYTES);
    assert (frame + tail)[..|frame|] == frame && (frame + tail)[|frame|..] == tail;
  }

  /** A read succeeds only on a stream that starts with the frame it returns, and that frame decodes. */
  lemma ReadIsSound(pending: seq<byte>, limit: nat)
    requires ReadStep(pending, limit).result.Ok?
    ensures var step := ReadStep(pending, limit);
      pending == step.result.value + step.rest
      && Decode(step.result.value, limit).Ok? && Encode(Decode(step.result.value, limit).value, limit) == step.result
  {
    var frame := ReadStep(pending, limit).result.value;
    assert frame[..HEADER_BYTES] == pending[..HEADER_BYTES];
    DecodeIsCanonical(frame, limit, frame[HEADER_BYTES..]);
  }

  /** The concatenation of any list of frames reads back as exactly those bodies, leaving exactly the tail. */
  lemma {:induction false} FramesReadBack(bodies: seq<seq<byte>>, writer: nat, reader: nat, tail: seq<byte>)
    requires writer <= reader && forall i :: 0 <= i < |bodies| ==> Fits(|bodies[i]|, writer)
    ensures ReadAll(Wire(bodies, writer) + tail, reader, |bodies|) == (Ok(bodies), tail)
  {
    if bodies == [] {
      assert Wire(bodies, writer) + tail == tail;
    } else {
      var frame, rest := Encode(bodies[0], writer).value, Wire(bodies[1..], writer);
      assert [bodies[0]] + bodies[1..] == bodies;
      WireOfOneMore(bodies[0], bodies[1..], writer, tail);
      ReadTakesOneFrame(bodies[0], writer, reader, rest + tail);
      DecodeIsCanonical(frame, reader, bodies[0]);
      FramesReadBack(bodies[1..], writer, reader, tail);
    }
  }

  lemma WireOfOneMore(body: seq<byte>, more: seq<seq<byte>>, limit: nat, rest: seq<byte>)
    requires Fits(|body|, limit) && forall i :: 0 <= i < |more| ==> Fits(|more[i]|, limit)
    ensures forall i :: 0 <= i < |more| + 1 ==> Fits(|([body] + more)[i]|, limit)
    ensures Wire([body] + more, limit) + rest == Encode(body, limit).value + (Wire(more, limit) + rest)
  {
    assert ([body] + more)[1..] == more;
    var frame, wire := Encode(body, limit).value, Wire(more, limit);
    assert (frame + wire) + rest == frame + (wire + rest);
  }

  /** Whatever n reads return, the stream was the frames of exactly those bodies and then what is left. */
  lemma {:induction false} ReadBodiesAreTheStream(pending: seq<byte>, limit: nat, n: nat)
    requires ReadAll(pending, limit, n).0.Ok?
    ensures var (result, rest) := ReadAll(pending, limit, n);
      |result.value| == n && (forall i :: 0 <= i < n ==> Fits(|result.value[i]|, limit))
      && pending == Wire(result.value, limit) + rest
    decreases n
  {
    if n == 0 {
      assert Wire([], limit) + pending == pending;
    } else {
      ReadIsSound(pending, limit);
      var step := ReadStep(pending, limit);
      var body := Decode(step.result.value, limit).value;
      ReadBodiesAreTheStream(step.rest, limit, n - 1);
      var (tail, rest) := ReadAll(step.rest, limit, n - 1);
      WireOfOneMore(body, tail.value, limit, rest);
    }
  }

  /** Frames followed by a strict prefix of one more: the whole frames are read, the cut one fails and drains. */
  lemma CutStreamFails(bodies: seq<seq<byte>>, last: seq<byte>, writer: nat, reader: nat, n: nat)
    requires writer <= reader && forall i :: 0 <= i < |bodies| ==> Fits(|bodies[i]|, writer)
    requires Fits(|last|, writer) && n < |Encode(last, writer).value|
    ensures var cut := Encode(last, writer).value[..n];
      ReadAll(Wire(bodies, writer) + cut, reader, |bodies|) == (Ok(bodies), cut)
      && ReadStep(cut, reader) == Read(Err(Io), [])
  {
    var frame := Encode(last, writer).value;
    FramesReadBack(bodies, writer, reader, frame[..n]);
    FourBytes();
    NumberReadsBack(|last|, HEADER_BYTES);
    if n >= HEADER_BYTES {
      assert frame[..n][..HEADER_BYTES] == BigEndian(|last|, HEADER_BYTES);
    }
  }
}
