// The receiving side of a connection: bytes arrive in arbitrary pieces, frames come out.
module Frames {
  import opened Sequences

  newtype byte = x: int | 0 <= x < 256

  /** AMQP 0-9-1, section 4.2.3: type (1 octet), channel (2), payload size (4), payload, frame-end. */
  const HEADER_SIZE := 7
  const FRAME_END: byte := 206

  datatype Head = Incomplete | Malformed | Whole(size: nat)

  function PayloadSize(buffer: seq<byte>): nat
    requires |buffer| >= HEADER_SIZE
  {
    ((buffer[3] as nat * 256 + buffer[4] as nat) * 256 + buffer[5] as nat) * 256 + buffer[6] as nat
  }

  /** What stands at the head of the receive buffer. */
  function Next(buffer: seq<byte>): (head: Head)
    ensures head.Whole? ==> HEADER_SIZE < head.size <= |buffer|
  {
    if |buffer| < HEADER_SIZE then Incomplete
    else
      var size := HEADER_SIZE + PayloadSize(buffer) + 1;
      if |buffer| < size then Incomplete
      else if buffer[size - 1] != FRAME_END then Malformed
      else Whole(size)
  }

  /** The complete frames at the head of `buffer`, and what follows them. */
  function Delivered(buffer: seq<byte>): seq<seq<byte>> {
    match Next(buffer)
    case Whole(size) => [buffer[..size]] + Delivered(buffer[size..])
    case _ => []
  }

  function Rest(buffer: seq<byte>): seq<byte> {
    match Next(buffer)
    case Whole(size) => Rest(buffer[size..])
    case _ => buffer
  }

  predicate Corrupt(buffer: seq<byte>) {
    Next(Rest(buffer)).Malformed?
  }

  /** The contract of `expected()`: never more than the size of a frame that is all there. */
  predicate ExpectationOk(buffer: seq<byte>, expected: nat) {
    && |buffer| >= HEADER_SIZE
    && |buffer| >= HEADER_SIZE + PayloadSize(buffer) + 1
    ==> expected <= HEADER_SIZE + PayloadSize(buffer) + 1
  }

  /** The receive buffer and, as history, all bytes read and all frames delivered. */
  datatype Reader = Reader(buffer: seq<byte>, corrupt: bool, received: seq<byte>, frames: seq<seq<byte>>)

  const NOTHING_READ := Reader([], false, [], [])

  /** One completed read: the parser is called only if at least `expected` bytes are there. */
  function OnBytes(r: Reader, bytes: seq<byte>, expected: nat): Reader {
    var buffer := r.buffer + bytes;
    var received := r.received + bytes;
    if |buffer| >= expected then
      Reader(Rest(buffer), Corrupt(buffer), received, r.frames + Delivered(buffer))
    else
      r.(buffer := buffer, received := received)
  }

  // ----- the parser loses nothing and does not care where the cuts are -----

  lemma PutInFront(frame: seq<byte>, frames: seq<seq<byte>>, rest: seq<byte>, tail: seq<byte>)
    requires Flatten(frames) + rest == tail
    ensures Flatten([frame] + frames) + rest == frame + tail
  {
    FlattenCons(frame, frames);
    Associative(frame, Flatten(frames), rest);
  }

  lemma OneFrameMore(buffer: seq<byte>, size: nat)
    requires Next(buffer) == Whole(size)
    requires Flatten(Delivered(buffer[size..])) + Rest(buffer[size..]) == buffer[size..]
    ensures Flatten(Delivered(buffer)) + Rest(buffer) == buffer
  {
    PutInFront(buffer[..size], Delivered(buffer[size..]), Rest(buffer[size..]), buffer[size..]);
    SplitAt(buffer, size);
  }

  /** The parser loses nothing. */
  lemma {:induction false} FramesAndRest(buffer: seq<byte>)
    ensures Flatten(Delivered(buffer)) + Rest(buffer) == buffer
    decreases |buffer|
  {
    match Next(buffer)
    case Whole(size) =>
      FramesAndRest(buffer[size..]);
      OneFrameMore(buffer, size);
    case _ =>
      assert Flatten<byte>([]) + buffer == buffer;
  }

  lemma {:induction false} CutAnywhere(a: seq<byte>, b: seq<byte>)
    ensures Delivered(a + b) == Delivered(a) + Delivered(Rest(a) + b)
    ensures Rest(a + b) == Rest(Rest(a) + b)
    ensures Corrupt(a) ==> Corrupt(a + b)
    decreases |a|
  {
    match Next(a)
    case Whole(size) =>
      var tail := a[size..];
      assert Next(a + b) == Whole(size);
      assert (a + b)[..size] == a[..size] && (a + b)[size..] == tail + b;
      CutAnywhere(tail, b);
      Associative([a[..size]], Delivered(tail), Delivered(Rest(tail) + b));
    case Malformed =>
      assert Next(a + b).Malformed?;
    case Incomplete =>
  }

  // ----- frames as the protocol lays them out are what the parser finds -----

  type Size = n: nat | n < 0x1_0000_0000

  /** Big-endian, 4 octets. */
  function Octets(n: Size): seq<byte> {
    var n1 := n / 256;
    var n2 := n1 / 256;
    [(n2 / 256) as byte, (n2 % 256) as byte, (n1 % 256) as byte, (n % 256) as byte]
  }

  /** Type, channel, payload size, payload, frame-end. */
  function Framed(kind: byte, channel: (byte, byte), payload: seq<byte>): seq<byte>
    requires |payload| < 0x1_0000_0000
  {
    [kind, channel.0, channel.1] + Octets(|payload|) + payload + [206]
  }

  lemma OctetsBack(n: Size)
    ensures var o := Octets(n);
      ((o[0] as nat * 256 + o[1] as nat) * 256 + o[2] as nat) * 256 + o[3] as nat == n
  {
  }

  /** Whatever follows it, a frame is found whole. */
  lemma FrameIsFound(kind: byte, channel: (byte, byte), payload: seq<byte>, rest: seq<byte>)
    requires |payload| < 0x1_0000_0000
    ensures Next(Framed(kind, channel, payload) + rest) == Whole(|Framed(kind, channel, payload)|)
  {
    var frame, octets := Framed(kind, channel, payload), Octets(|payload|);
    var buffer := frame + rest;
    assert buffer[3] == octets[0] && buffer[4] == octets[1] && buffer[5] == octets[2] && buffer[6] == octets[3];
    OctetsBack(|payload|);
  }

  /** A frame as section 4.2.3 lays it out. */
  datatype Frame = Frame(kind: byte, channel: (byte, byte), payload: seq<byte>)

  ghost predicate Sendable(frames: seq<Frame>) {
    forall i :: 0 <= i < |frames| ==> |frames[i].payload| < 0x1_0000_0000
  }

  function Encoded(frames: seq<Frame>): seq<seq<byte>>
    requires forall i :: 0 <= i < |frames| ==> |frames[i].payload| < 0x1_0000_0000
  {
    if frames == [] then []
    else [Framed(frames[0].kind, frames[0].channel, frames[0].payload)] + Encoded(frames[1..])
  }

  /** Round trip: the frames delivered from an encoded stream are the frames encoded, and what is
      left over is what follows them. */
  lemma {:induction false} DeliveredAsEncoded(frames: seq<Frame>, rest: seq<byte>)
    requires Sendable(frames) && !Next(rest).Whole?
    ensures Delivered(Flatten(Encoded(frames)) + rest) == Encoded(frames)
    ensures Rest(Flatten(Encoded(frames)) + rest) == rest
  {
    if frames == [] {
      assert Flatten(Encoded(frames)) + rest == rest;
    } else {
      var first := Framed(frames[0].kind, frames[0].channel, frames[0].payload);
      var tail := Flatten(Encoded(frames[1..])) + rest;
      DeliveredAsEncoded(frames[1..], rest);
      FlattenCons(first, Encoded(frames[1..]));
      Associative(first, Flatten(Encoded(frames[1..])), rest);
      FrameIsFound(frames[0].kind, frames[0].channel, frames[0].payload, tail);
      assert (first + tail)[..|first|] == first && (first + tail)[|first|..] == tail;
    }
  }

  /** What a reader must look like, given nothing but the bytes received so far. */
  ghost predicate Faithful(r: Reader) {
    && r.frames == Delivered(r.received)
    && r.buffer == Rest(r.received)
    && r.corrupt == Corrupt(r.received)
  }

  lemma SkippedParse(buffer: seq<byte>, expected: nat)
    requires ExpectationOk(buffer, expected) && |buffer| < expected
    ensures Delivered(buffer) == [] && Rest(buffer) == buffer && !Corrupt(buffer)
  {
  }

  lemma ReadKeepsFaithful(r: Reader, bytes: seq<byte>, expected: nat)
    requires Faithful(r) && !r.corrupt && ExpectationOk(r.buffer + bytes, expected)
    ensures Faithful(OnBytes(r, bytes, expected))
  {
    CutAnywhere(r.received, bytes);
    if |r.buffer + bytes| < expected {
      SkippedParse(r.buffer + bytes, expected);
    }
  }

  /** Reads end at the first corrupt frame. */
  function ReadAll(pieces: seq<(seq<byte>, nat)>): Reader {
    if pieces == [] then NOTHING_READ
    else
      var r, last := ReadAll(pieces[..|pieces| - 1]), pieces[|pieces| - 1];
      if r.corrupt then r else OnBytes(r, last.0, last.1)
  }

  function Stream(pieces: seq<(seq<byte>, nat)>): seq<byte> {
    if pieces == [] then [] else Stream(pieces[..|pieces| - 1]) + pieces[|pieces| - 1].0
  }

  ghost predicate ExpectationsOk(pieces: seq<(seq<byte>, nat)>) {
    forall k :: 0 <= k < |pieces| ==> ExpectationOk(ReadAll(pieces[..k]).buffer + pieces[k].0, pieces[k].1)
  }

  lemma {:induction false} AlwaysFaithful(pieces: seq<(seq<byte>, nat)>)
    requires ExpectationsOk(pieces)
    ensures var r := ReadAll(pieces);
      && Faithful(r) && r.received <= Stream(pieces)
      && (!r.corrupt ==> r.received == Stream(pieces))
      && r.frames == Delivered(Stream(pieces)) && r.corrupt == Corrupt(Stream(pieces))
  {
    if pieces != [] {
      var front, last := pieces[..|pieces| - 1], pieces[|pieces| - 1];
      forall k | 0 <= k < |front| ensures ExpectationOk(ReadAll(front[..k]).buffer + front[k].0, front[k].1) {
        assert front[..k] == pieces[..k];
      }
      AlwaysFaithful(front);
      var r := ReadAll(front);
      assert ExpectationOk(ReadAll(pieces[..|pieces| - 1]).buffer + last.0, last.1);
      if r.corrupt {
        CutAnywhere(Stream(front), last.0);
        AfterCorruption(Stream(front), last.0);
      } else {
        ReadKeepsFaithful(r, last.0, last.1);
      }
    }
  }

  /** Nothing is delivered from behind a corrupt frame. */
  lemma AfterCorruption(a: seq<byte>, b: seq<byte>)
    requires Corrupt(a)
    ensures Delivered(Rest(a) + b) == []
  {
    assert Next(Rest(a) + b).Malformed?;
  }

  /** Fragmentation does not matter: two ways of cutting the same bytes into reads deliver the
      same frames, and unless those bytes are corrupt leave the same bytes in the buffer. */
  lemma FragmentationIndependent(pieces: seq<(seq<byte>, nat)>, others: seq<(seq<byte>, nat)>)
    requires ExpectationsOk(pieces) && ExpectationsOk(others) && Stream(pieces) == Stream(others)
    ensures var r, o := ReadAll(pieces), ReadAll(others);
      && r.frames == o.frames && r.corrupt == o.corrupt
      && (!r.corrupt ==> r.buffer == o.buffer && Flatten(r.frames) + r.buffer == Stream(pieces))
  {
    AlwaysFaithful(pieces);
    AlwaysFaithful(others);
    FramesAndRest(Stream(pieces));
  }
}
