/** The length-prefixed frames between manager, bootstrap, runner and guardian. */
module Frames {
  import opened JobState
  import opened PartialWrites

  type Byte = b: int | 0 <= b < 256

  const MAGIC: seq<Byte> := [65, 77, 66, 49]
  const VERSION: Byte := 1
  const MAXIMUM_FRAME_BYTES := 131072
  const HEADER_BYTES := 10

  datatype Frame = Frame(kind: Byte, payload: seq<Byte>)

  datatype ReadError = ShortHeader | BadHeader | TooLong | ShortPayload | BadPayload

  datatype ReadResult = ReadFailed(error: ReadError) | Read(frame: Frame)

  function LowByte(n: nat): Byte {
    var low: int := n % 0x100;
    low
  }

  /** `binary.BigEndian.PutUint32`: most significant byte first. */
  function BigEndian(n: nat): (r: seq<Byte>)
    requires n < 0x1_0000_0000
    ensures |r| == 4
  {
    var n1: nat := n / 0x100;
    var n2: nat := n1 / 0x100;
    var n3: nat := n2 / 0x100;
    [LowByte(n3), LowByte(n2), LowByte(n1), LowByte(n)]
  }

  function FromBigEndian(b: seq<Byte>): (n: nat)
    requires |b| == 4
    ensures n < 0x1_0000_0000
  {
    ((b[0] as int * 0x100 + b[1] as int) * 0x100 + b[2] as int) * 0x100 + b[3] as int
  }

  /** The most significant byte comes first. */
  lemma BigEndianBytes(n: nat)
    requires n < 0x1_0000_0000
    ensures var b := BigEndian(n); n == 0x100_0000 * b[0] as int + 0x1_0000 * b[1] as int + 0x100 * b[2] as int + b[3] as int
  {
    BigEndianRoundTrip(n);
  }

  lemma BigEndianRoundTrip(n: nat)
    requires n < 0x1_0000_0000
    ensures FromBigEndian(BigEndian(n)) == n
  {
    var n1 := n / 0x100;
    var n2 := n1 / 0x100;
    assert n2 / 0x100 < 0x100;
  }

  lemma BigEndianUnique(b: seq<Byte>)
    requires |b| == 4
    ensures BigEndian(FromBigEndian(b)) == b
  {
    var n := FromBigEndian(b);
    var n1 := n / 0x100;
    assert n1 == (b[0] as int * 0x100 + b[1] as int) * 0x100 + b[2] as int;
    var n2 := n1 / 0x100;
    assert n2 == b[0] as int * 0x100 + b[1] as int;
    assert n2 / 0x100 == b[0] as int;
  }

  predicate Sendable(f: Frame) { |f.payload| <= MAXIMUM_FRAME_BYTES }

  function Encode(f: Frame): (r: seq<Byte>)
    requires Sendable(f)
    ensures |r| == HEADER_BYTES + |f.payload|
  {
    MAGIC + [VERSION, f.kind] + BigEndian(|f.payload|) + f.payload
  }

  /** "AMB1", the version, the kind, the length and the payload. */
  lemma EncodedLayout(f: Frame)
    requires Sendable(f)
    ensures var r := Encode(f);
      && |r| == 10 + |f.payload| && r[..4] == ['A' as int, 'M' as int, 'B' as int, '1' as int] && r[4] == 1 && r[5] == f.kind
      && |f.payload| == 0x100_0000 * r[6] as int + 0x1_0000 * r[7] as int + 0x100 * r[8] as int + r[9] as int
      && r[10..] == f.payload
  {
    BigEndianBytes(|f.payload|);
    assert Encode(f)[6..10] == BigEndian(|f.payload|);
  }

  function EncodeAll(frames: seq<Frame>): seq<Byte>
    requires forall f :: f in frames ==> Sendable(f)
  {
    if frames == [] then [] else Encode(frames[0]) + EncodeAll(frames[1..])
  }

  /** A writer that takes as much of each write as its next size allows, until it breaks. */
  class Pipe {
    var content: seq<Byte>
    var sizes: seq<nat>

    constructor (sizes: seq<nat>)
      ensures content == [] && this.sizes == sizes
    {
      content, this.sizes := [], sizes;
    }

    /** One `Write` call: a count of 0 or an exhausted writer reads as an error. */
    method Write(raw: seq<Byte>) returns (written: nat)
      requires raw != []
      modifies this
      ensures written == Taken(old(sizes), |raw|) && content == old(content) + raw[..written]
      ensures sizes == if old(sizes) == [] then [] else old(sizes)[1..]
    {
      written := Taken(sizes, |raw|);
      if sizes != [] { sizes := sizes[1..]; }
      content := content + raw[..written];
    }
  }

  method WriteFull(pipe: Pipe, raw: seq<Byte>) returns (ok: bool)
    modifies pipe
    ensures ok <==> Carries(old(pipe.sizes), |raw|)
    ensures ok ==> pipe.content == old(pipe.content) + raw && pipe.sizes == Unspent(old(pipe.sizes), |raw|)
    ensures !ok ==> exists n :: 0 <= n < |raw| && pipe.content == old(pipe.content) + raw[..n]
  {
    var rest := raw;
    ghost var done := 0;
    assert old(pipe.content) + raw[..0] == pipe.content;
    while |rest| > 0
      invariant 0 <= done <= |raw| && rest == raw[done..]
      invariant pipe.content == old(pipe.content) + raw[..done]
      invariant Carries(pipe.sizes, |rest|) <==> Carries(old(pipe.sizes), |raw|)
      invariant Carries(pipe.sizes, |rest|) ==> Unspent(pipe.sizes, |rest|) == Unspent(old(pipe.sizes), |raw|)
      decreases |rest|
    {
      var written := pipe.Write(rest);
      assert raw[..done + written] == raw[..done] + rest[..written];
      done := done + written;
      if written == 0 { return false; }
      rest := rest[written..];
    }
    assert raw[..done] == raw;
    return true;
  }

  method WriteFrame(pipe: Pipe, kind: Byte, payload: seq<Byte>) returns (ok: bool)
    modifies pipe
    ensures ok <==>
      && Sendable(Frame(kind, payload)) && Carries(old(pipe.sizes), HEADER_BYTES)
      && Carries(Unspent(old(pipe.sizes), HEADER_BYTES), |payload|)
    ensures ok ==> pipe.content == old(pipe.content) + Encode(Frame(kind, payload))
    ensures !Sendable(Frame(kind, payload)) ==> !ok && pipe.content == old(pipe.content)
    ensures !ok && Sendable(Frame(kind, payload)) ==>
      exists n :: 0 <= n < HEADER_BYTES + |payload|
        && pipe.content == old(pipe.content) + Encode(Frame(kind, payload))[..n]
  {
    if |payload| > MAXIMUM_FRAME_BYTES { return false; }
    var header := MAGIC + [VERSION, kind] + BigEndian(|payload|);
    ghost var whole := Encode(Frame(kind, payload));
    assert whole == header + payload;
    ok := WriteFull(pipe, header);
    if !ok {
      ghost var n :| 0 <= n < |header| && pipe.content == old(pipe.content) + header[..n];
      assert header[..n] == whole[..n];
      return false;
    }
    label headerDone:
    ok := WriteFull(pipe, payload);
    if !ok {
      ghost var n :| 0 <= n < |payload| && pipe.content == old@headerDone(pipe.content) + payload[..n];
      assert header + payload[..n] == whole[..|header| + n];
      assert pipe.content == old(pipe.content) + whole[..|header| + n];
      return false;
    }
  }

  /** A reader consumes its stream from the front. `valid` is the JSON check of a payload. */
  class Source {
    var stream: seq<Byte>
    const valid: seq<Byte> -> bool

    constructor (stream: seq<Byte>, valid: seq<Byte> -> bool)
      ensures this.stream == stream && this.valid == valid
    {
      this.stream, this.valid := stream, valid;
    }

    /** `io.ReadFull`: all of it, or what there was and an error. */
    method Take(count: nat) returns (ok: bool, raw: seq<Byte>)
      modifies this
      ensures ok <==> count <= |old(stream)|
      ensures ok ==> raw == old(stream)[..count] && stream == old(stream)[count..]
      ensures !ok ==> raw == old(stream) && stream == []
    {
      ok := count <= |stream|;
      raw := if ok then stream[..count] else stream;
      stream := if ok then stream[count..] else [];
    }

    method ReadFrame() returns (r: ReadResult)
      modifies this
      ensures r == Decode(old(stream), valid)
      ensures r.Read? ==> Sendable(r.frame) && old(stream) == Encode(r.frame) + stream
    {
      ghost var input := stream;
      var ok, header := Take(HEADER_BYTES);
      if !ok { return ReadFailed(ShortHeader); }
      if header[..4] != MAGIC || header[4] != VERSION { return ReadFailed(BadHeader); }
      var size := FromBigEndian(header[6..]);
      if size > MAXIMUM_FRAME_BYTES { return ReadFailed(TooLong); }
      var payload;
      ok, payload := Take(size);
      if !ok { return ReadFailed(ShortPayload); }
      assert payload == input[HEADER_BYTES..][..size];
      if !valid(payload) { return ReadFailed(BadPayload); }
      r := Read(Frame(header[5], payload));
      DecodeExact(input, valid);
      assert input == input[..HEADER_BYTES] + input[HEADER_BYTES..][..size] + input[HEADER_BYTES..][size..];
    }
  }

  /** What a stream starts with. */
  function Decode(stream: seq<Byte>, valid: seq<Byte> -> bool): ReadResult {
    if |stream| < HEADER_BYTES then ReadFailed(ShortHeader)
    else if stream[..4] != MAGIC || stream[4] != VERSION then ReadFailed(BadHeader)
    else
      var size := FromBigEndian(stream[..HEADER_BYTES][6..]);
      if size > MAXIMUM_FRAME_BYTES then ReadFailed(TooLong)
      else if |stream| < HEADER_BYTES + size then ReadFailed(ShortPayload)
      else if !valid(stream[HEADER_BYTES..][..size]) then ReadFailed(BadPayload)
      else Read(Frame(stream[5], stream[HEADER_BYTES..][..size]))
  }

  lemma DecodeExact(stream: seq<Byte>, valid: seq<Byte> -> bool)
    requires Decode(stream, valid).Read?
    ensures var f := Decode(stream, valid).frame;
      Sendable(f) && valid(f.payload) && |stream| >= |Encode(f)| && stream[..|Encode(f)|] == Encode(f)
  {
    var f := Decode(stream, valid).frame;
    var size := stream[..HEADER_BYTES][6..];
    BigEndianUnique(size);
    assert stream[..HEADER_BYTES] == MAGIC + [VERSION, f.kind] + BigEndian(|f.payload|);
    assert stream[..HEADER_BYTES + |f.payload|] == stream[..HEADER_BYTES] + f.payload;
  }

  lemma DecodeEncode(f: Frame, rest: seq<Byte>, valid: seq<Byte> -> bool)
    requires Sendable(f) && valid(f.payload)
    ensures Decode(Encode(f) + rest, valid) == Read(f)
  {
    var stream := Encode(f) + rest;
    assert stream[..4] == MAGIC && stream[4] == VERSION && stream[5] == f.kind;
    assert stream[..HEADER_BYTES][6..] == BigEndian(|f.payload|);
    BigEndianRoundTrip(|f.payload|);
    assert stream[HEADER_BYTES..][..|f.payload|] == f.payload;
  }

  /** A stream yields a frame exactly when it starts with the encoding of a sendable frame whose payload
      is JSON; the rest of the stream plays no part. */
  lemma ReadsExactlyEncodings(stream: seq<Byte>, f: Frame, valid: seq<Byte> -> bool)
    ensures Decode(stream, valid) == Read(f) <==>
      Sendable(f) && valid(f.payload) && Encode(f) <= stream
  {
    if Decode(stream, valid) == Read(f) { DecodeExact(stream, valid); }
    if Sendable(f) && valid(f.payload) && Encode(f) <= stream {
      DecodeEncode(f, stream[|Encode(f)|..], valid);
      assert stream == Encode(f) + stream[|Encode(f)|..];
    }
  }

  /** No frame's encoding starts another's, and equal starts mean equal frames. */
  lemma EncodingIsPrefixFree(f: Frame, g: Frame)
    requires Sendable(f) && Sendable(g) && Encode(f) <= Encode(g)
    ensures f == g
  {
    var valid := (_: seq<Byte>) => true;
    ReadsExactlyEncodings(Encode(g), f, valid);
    ReadsExactlyEncodings(Encode(g), g, valid);
  }

  /** Reading `count` frames in a row: the frames and what is left of the stream. */
  function ReadMany(stream: seq<Byte>, count: nat, valid: seq<Byte> -> bool): Option<(seq<Frame>, seq<Byte>)> {
    if count == 0 then Some(([], stream))
    else
      var first := Decode(stream, valid);
      if first.ReadFailed? || |stream| < HEADER_BYTES + |first.frame.payload| then None
      else
        var rest := ReadMany(stream[HEADER_BYTES + |first.frame.payload|..], count - 1, valid);
        if rest.None? then None else Some(([first.frame] + rest.value.0, rest.value.1))
  }

  lemma ReadManyStep(f: Frame, tail: seq<Byte>, count: nat, valid: seq<Byte> -> bool)
    requires Sendable(f) && valid(f.payload) && count > 0
    ensures ReadMany(Encode(f) + tail, count, valid) ==
      var rest := ReadMany(tail, count - 1, valid);
      if rest.None? then None else Some(([f] + rest.value.0, rest.value.1))
  {
    hide Encode, Decode, Sendable;
    DecodeEncode(f, tail, valid);
    assert (Encode(f) + tail)[|Encode(f)|..] == tail;
  }

  /** Frames written one after the other read back the same, and what follows them is left alone. */
  lemma {:induction false} FramesRoundTrip(frames: seq<Frame>, rest: seq<Byte>, valid: seq<Byte> -> bool)
    requires forall f :: f in frames ==> Sendable(f) && valid(f.payload)
    ensures ReadMany(EncodeAll(frames) + rest, |frames|, valid) == Some((frames, rest))
  {
    if frames == [] {
      assert EncodeAll(frames) + rest == rest;
    } else {
      hide Encode, Decode, Sendable, ReadMany;
      var f, tail := frames[0], EncodeAll(frames[1..]) + rest;
      assert EncodeAll(frames) + rest == Encode(f) + tail;
      ReadManyStep(f, tail, |frames|, valid);
      FramesRoundTrip(frames[1..], rest, valid);
      assert frames == [f] + frames[1..];
    }
  }
}
