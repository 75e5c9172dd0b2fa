/** The DCA0 container as nutbot reads it: a headerless sequence of records,
    each a 16-bit little-endian SIGNED length followed by that many bytes of
    opaque Opus payload. There is no header, footer or checksum; the end of
    the clip is the end of the input. */
module Dca {
  import opened Seqs

  /** One byte of a file. */
  newtype Byte = b: int | 0 <= b < 256

  /** One opaque Opus frame, as the decoder appends it to the buffer. */
  type Frame = seq<Byte>

  /** The largest length a non-negative int16 prefix can declare. */
  const MaxFrameLen: nat := 32767

  predicate ValidFrames(frames: seq<Frame>)
  {
    forall i :: 0 <= i < |frames| ==> |frames[i]| <= MaxFrameLen
  }

  /** The int16 that binary.Read decodes from two little-endian bytes:
      the two's complement reading of lo + 256 * hi. */
  function Int16LE(lo: Byte, hi: Byte): (n: int)
    ensures -32768 <= n <= MaxFrameLen
    ensures n < 0 <==> hi >= 0x80
  {
    var u := lo as int + 256 * hi as int;
    if u >= 0x8000 then u - 0x1_0000 else u
  }

  /** The two-byte length prefix of a frame of n bytes. */
  function Header(n: nat): (h: seq<Byte>)
    requires n <= MaxFrameLen
    ensures |h| == 2 && Int16LE(h[0], h[1]) == n
  {
    [(n % 256) as Byte, (n / 256) as Byte]
  }

  /** A non-negative prefix is the header of the length it declares. */
  lemma HeaderOfInt16(lo: Byte, hi: Byte)
    requires Int16LE(lo, hi) >= 0
    ensures Header(Int16LE(lo, hi)) == [lo, hi]
  {
    var n := lo as int + 256 * hi as int;
    assert n % 256 == lo as int && n / 256 == hi as int;
  }

  /** The reference encoder: what a DCA0 writer produces for these frames.
      Nutbot itself only reads the format. */
  function Encode(frames: seq<Frame>): (data: seq<Byte>)
    requires ValidFrames(frames)
  {
    if frames == [] then [] else Header(|frames[0]|) + frames[0] + Encode(frames[1..])
  }

  /** Why the read loop of loadSound stopped. */
  datatype Stop =
    | EndOfStream     // io.EOF or io.ErrUnexpectedEOF while reading a length
    | TruncatedFrame  // a length read whole, its payload not
    | NegativeLength  // a length with the high bit set: make() panics

  datatype Decoded = Decoded(frames: seq<Frame>, stop: Stop)

  /** What is left after the last whole record, and how it stops the loop. */
  predicate StopsWith(tail: seq<Byte>, stop: Stop)
  {
    match stop
    case EndOfStream => |tail| <= 1
    case NegativeLength => |tail| >= 2 && Int16LE(tail[0], tail[1]) < 0
    case TruncatedFrame =>
      |tail| >= 2 && 0 <= Int16LE(tail[0], tail[1]) && |tail| - 2 < Int16LE(tail[0], tail[1])
  }

  /** The frames the loop of loadSound appends, one record at a time, and why
      it stops. Every frame it yields fits a non-negative int16 length. */
  function Decode(data: seq<Byte>): (d: Decoded)
    ensures ValidFrames(d.frames)
    decreases |data|
  {
    if |data| < 2 then Decoded([], EndOfStream)
    else
      var n := Int16LE(data[0], data[1]);
      if n < 0 then Decoded([], NegativeLength)
      else if |data| - 2 < n then Decoded([], TruncatedFrame)
      else
        var rest := Decode(data[2 + n..]);
        Decoded([data[2..2 + n]] + rest.frames, rest.stop)
  }

  /** What Decode yields accounts for the whole input: the input is the
      encoding of the frames followed by a tail that is a stray byte at most,
      a negative length, or a length that exceeds what remains. */
  lemma {:induction false} DecodeSplits(data: seq<Byte>)
    ensures var d := Decode(data);
      Encode(d.frames) <= data && StopsWith(data[|Encode(d.frames)|..], d.stop)
    decreases |data|, 1
  {
    if |data| >= 2 && 0 <= Int16LE(data[0], data[1]) <= |data| - 2 {
      DecodeSplitsRecord(data);
    } else {
      DecodeSplitsStop(data);
    }
  }

  /** The case where the input starts with a whole record. */
  lemma {:induction false} DecodeSplitsRecord(data: seq<Byte>)
    requires |data| >= 2 && 0 <= Int16LE(data[0], data[1]) <= |data| - 2
    ensures var d := Decode(data);
      Encode(d.frames) <= data && StopsWith(data[|Encode(d.frames)|..], d.stop)
    decreases |data|, 0
  {
    var n := Int16LE(data[0], data[1]);
    var frame, after := data[2..2 + n], data[2 + n..];
    var rest := Decode(after);
    assert Decode(data) == Decoded([frame] + rest.frames, rest.stop);
    DecodeSplits(after);
    RecordAtFront(data);
    PrependRecord(data, frame, rest.frames, after, rest.stop);
  }

  /** The case where the input does not start with a whole record. */
  lemma DecodeSplitsStop(data: seq<Byte>)
    requires !(|data| >= 2 && 0 <= Int16LE(data[0], data[1]) <= |data| - 2)
    ensures var d := Decode(data);
      Encode(d.frames) <= data && StopsWith(data[|Encode(d.frames)|..], d.stop)
  {
    var d := Decode(data);
    assert d.frames == [] && Encode(d.frames) == [];
    assert data[0..] == data;
  }

  /** A whole record at the front of the input is its header, its payload
      and what follows. */
  lemma RecordAtFront(data: seq<Byte>)
    requires |data| >= 2 && 0 <= Int16LE(data[0], data[1]) <= |data| - 2
    ensures var n := Int16LE(data[0], data[1]);
      data == Header(|data[2..2 + n]|) + data[2..2 + n] + data[2 + n..]
  {
    HeaderOfInt16(data[0], data[1]);
  }

  /** One more whole record in front keeps the input split into encoded
      frames and a stopping tail. */
  lemma PrependRecord(data: seq<Byte>, f: Frame, frames: seq<Frame>, after: seq<Byte>, stop: Stop)
    requires |f| <= MaxFrameLen && ValidFrames(frames)
    requires data == Header(|f|) + f + after
    requires Encode(frames) <= after && StopsWith(after[|Encode(frames)|..], stop)
    ensures ValidFrames([f] + frames)
    ensures Encode([f] + frames) <= data && StopsWith(data[|Encode([f] + frames)|..], stop)
  {
    assert ([f] + frames)[1..] == frames;
    var e := Encode(frames);
    assert Encode([f] + frames) == Header(|f|) + f + e;
    assert data[|Header(|f|) + f + e|..] == after[|e|..];
  }

  /** Decoding reads whole records off the front: after the encoding of some
      frames, it yields those frames and then whatever the tail yields. */
  lemma {:induction false} DecodeAfterFrames(frames: seq<Frame>, tail: seq<Byte>)
    requires ValidFrames(frames)
    ensures Decode(Encode(frames) + tail) == Decoded(frames + Decode(tail).frames, Decode(tail).stop)
  {
    if frames == [] {
      assert Encode(frames) + tail == tail;
    } else {
      var f := frames[0];
      var after := Encode(frames[1..]) + tail;
      assert Encode(frames) + tail == Header(|f|) + f + after;
      DecodeRecord(f, after);
      DecodeAfterFrames(frames[1..], tail);
      ConsAppend(frames, Decode(tail).frames);
    }
  }

  /** A whole record yields its payload as the next frame, then decoding
      goes on after it. */
  lemma DecodeRecord(f: Frame, after: seq<Byte>)
    requires |f| <= MaxFrameLen
    ensures Decode(Header(|f|) + f + after) == Decoded([f] + Decode(after).frames, Decode(after).stop)
  {
    var data := Header(|f|) + f + after;
    assert data[0] == Header(|f|)[0] && data[1] == Header(|f|)[1];
    assert data[2..2 + |f|] == f;
    assert data[2 + |f|..] == after;
  }

  /** Round trip: a well-formed clip decodes to exactly its frames, in order
      and byte for byte, and ends normally. */
  lemma {:induction false} DecodeEncode(frames: seq<Frame>)
    requires ValidFrames(frames)
    ensures Decode(Encode(frames)) == Decoded(frames, EndOfStream)
  {
    DecodeAfterFrames(frames, []);
    assert Encode(frames) + [] == Encode(frames);
    assert frames + [] == frames;
  }

  /** A clip that ends at a record boundary, or one stray byte after it,
      yields the complete frames before it and ends normally. */
  lemma DecodeStopsAtBoundary(frames: seq<Frame>, tail: seq<Byte>)
    requires ValidFrames(frames)
    requires |tail| <= 1
    ensures Decode(Encode(frames) + tail) == Decoded(frames, EndOfStream)
  {
    DecodeAfterFrames(frames, tail);
    assert frames + [] == frames;
  }

  /** A declared length that exceeds the remaining bytes stops the loop with
      an error; the frames before it are kept and no partial frame is. */
  lemma DecodeTruncatedFrame(frames: seq<Frame>, n: nat, partial: seq<Byte>)
    requires ValidFrames(frames)
    requires n <= MaxFrameLen && |partial| < n
    ensures Decode(Encode(frames) + Header(n) + partial) == Decoded(frames, TruncatedFrame)
  {
    assert Encode(frames) + Header(n) + partial == Encode(frames) + (Header(n) + partial);
    DecodeAfterFrames(frames, Header(n) + partial);
    assert frames + [] == frames;
  }

  /** A record whose length has the high bit set stops the loop; the frames
      before it are kept. */
  lemma DecodeNegativeLength(frames: seq<Frame>, lo: Byte, hi: Byte, rest: seq<Byte>)
    requires ValidFrames(frames)
    requires hi >= 0x80
    ensures Decode(Encode(frames) + [lo, hi] + rest) == Decoded(frames, NegativeLength)
  {
    assert Encode(frames) + [lo, hi] + rest == Encode(frames) + ([lo, hi] + rest);
    DecodeAfterFrames(frames, [lo, hi] + rest);
    assert frames + [] == frames;
  }

  /** A zero length is legal: it yields an empty frame and decoding goes on. */
  lemma DecodeEmptyFrame(tail: seq<Byte>)
    ensures Decode([0, 0] + tail) == Decoded([[]] + Decode(tail).frames, Decode(tail).stop)
  {
    assert Header(0) == [0, 0];
    DecodeRecord([], tail);
    assert Header(0) + [] + tail == [0, 0] + tail;
  }
}
