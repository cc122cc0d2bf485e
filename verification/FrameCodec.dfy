/**
 Length-prefixed framing over a byte stream: `[u32 LE length][payload]`.  The
 payload codec is a parameter; `RoundTrips` is what is asked of it.
 */
module FrameCodec {
  import opened Options
  import opened Bytes

  const MAX_FRAME_LEN: nat := 64 * 1024 * 1024

  datatype WireError = FrameTooLarge(len: nat) | Encode | Decode

  /** Serialisation of one frame; `None` is a serialiser error. */
  datatype Codec<!F> = Codec(enc: F -> Option<seq<byte>>, dec: seq<byte> -> Option<F>) {

    /** Payload of a frame the free `encode` accepts. */
    function Payload(f: F): Result<seq<byte>, WireError> {
      match enc(f)
      case None => Err(WireError.Encode)
      case Some(p) => if |p| > MAX_FRAME_LEN then Err(FrameTooLarge(|p|)) else Ok(p)
    }

    ghost predicate RoundTrips(f: F) {
      Payload(f).Ok? && dec(Payload(f).value) == Some(f)
    }
  }

  function Le4(n: nat): seq<byte>
    requires n < 0x1_0000_0000
  {
    [(n % 256) as byte, (n / 256 % 256) as byte, (n / 65536 % 256) as byte, (n / 16777216) as byte]
  }

  function FromLe4(b: seq<byte>): nat
    requires |b| == 4
  {
    b[0] as nat + 256 * b[1] as nat + 65536 * b[2] as nat + 16777216 * b[3] as nat
  }

  lemma Le4RoundTrip(n: nat)
    requires n < 0x1_0000_0000
    ensures FromLe4(Le4(n)) == n
  {
    var a := n / 256;
    var b := a / 256;
    assert n / 65536 == b && n / 16777216 == b / 256;
    assert n == 256 * a + n % 256 && a == 256 * b + a % 256 && b == 256 * (b / 256) + b % 256;
  }

  // -------------------------------------------------------------------------
  // One decode
  // -------------------------------------------------------------------------

  datatype Decoded<F> = Decoded(result: Result<Option<F>, WireError>, rest: seq<byte>)

  function DecodeOne<F>(c: Codec<F>, b: seq<byte>): Decoded<F> {
    if |b| < 4 then Decoded(Ok(None), b)
    else
      var len := FromLe4(b[..4]);
      if len > MAX_FRAME_LEN then Decoded(Err(FrameTooLarge(len)), b)
      else if |b| < 4 + len then Decoded(Ok(None), b)
      else
        var rest := b[4 + len..];
        match c.dec(b[4..4 + len])
        case None => Decoded(Err(WireError.Decode), rest)
        case Some(f) => Decoded(Ok(Some(f)), rest)
  }

  class Buffer {
    var bytes: seq<byte>

    constructor ()
      ensures bytes == []
    {
      bytes := [];
    }
  }

  /** One call of the decoder: `None` consumes nothing. */
  method Decode<F>(c: Codec<F>, src: Buffer) returns (r: Result<Option<F>, WireError>)
    modifies src
    ensures Decoded(r, src.bytes) == DecodeOne(c, old(src.bytes))
    ensures r == Ok(None) ==> src.bytes == old(src.bytes)
  {
    if |src.bytes| < 4 {
      return Ok(None);
    }
    var len := FromLe4(src.bytes[..4]);
    if len > MAX_FRAME_LEN {
      return Err(FrameTooLarge(len));
    }
    if |src.bytes| < 4 + len {
      return Ok(None);
    }
    src.bytes := src.bytes[4..];
    var payload := src.bytes[..len];
    src.bytes := src.bytes[len..];
    assert payload == old(src.bytes)[4..4 + len] && src.bytes == old(src.bytes)[4 + len..];
    match c.dec(payload) {
      case None => return Err(WireError.Decode);
      case Some(f) => return Ok(Some(f));
    }
  }

  /** The length in four bytes, lowest first, and then the payload. */
  function Prefixed(payload: seq<byte>): seq<byte>
    requires |payload| <= 67_108_864
  {
    var n := |payload|;
    [(n % 0x100) as byte, (n / 0x100 % 0x100) as byte, (n / 0x1_0000 % 0x100) as byte, (n / 0x100_0000) as byte]
    + payload
  }

  /** One call of the encoder; a refused frame appends nothing. */
  method Encode<F>(c: Codec<F>, item: F, dst: Buffer) returns (r: Result<(), WireError>)
    modifies dst
    ensures r.Ok? <==> c.enc(item).Some? && |c.enc(item).value| <= 67_108_864
    ensures r.Ok? ==> dst.bytes == old(dst.bytes) + Prefixed(c.enc(item).value)
    ensures c.enc(item).None? ==> r == Err(WireError.Encode)
    ensures c.enc(item).Some? && |c.enc(item).value| > 67_108_864 ==> r == Err(FrameTooLarge(|c.enc(item).value|))
    ensures r.Ok? ==> dst.bytes == old(dst.bytes) + Framed(c, item)
    ensures r.Err? ==> dst.bytes == old(dst.bytes) && r.error == c.Payload(item).error
  {
    var p := c.Payload(item);
    if p.Err? {
      return Err(p.error);
    }
    dst.bytes := dst.bytes + Le4(|p.value|);
    dst.bytes := dst.bytes + p.value;
    assert dst.bytes == old(dst.bytes) + Framed(c, item);
    return Ok(());
  }

  /** What one decode does, by the length its first four bytes spell. */
  lemma DecodeByLength<F>(c: Codec<F>, b: seq<byte>)
    requires |b| >= 4
    ensures var n := b[0] as int + 0x100 * b[1] as int + 0x1_0000 * b[2] as int + 0x100_0000 * b[3] as int;
            DecodeOne(c, b) ==
              if n > 67_108_864 then Decoded(Err(FrameTooLarge(n)), b)
              else if |b| < 4 + n then Decoded(Ok(None), b)
              else Decoded(if c.dec(b[4..4 + n]).None? then Err(WireError.Decode) else Ok(c.dec(b[4..4 + n])),
                           b[4 + n..])
  {
  }

  lemma DecodeTooShort<F>(c: Codec<F>, b: seq<byte>)
    requires |b| < 4
    ensures DecodeOne(c, b) == Decoded(Ok(None), b)
  {
  }

  function Framed<F>(c: Codec<F>, f: F): seq<byte>
    requires c.Payload(f).Ok?
  {
    Le4(|c.Payload(f).value|) + c.Payload(f).value
  }

  // -------------------------------------------------------------------------
  // Decoding until nothing more comes
  // -------------------------------------------------------------------------

  datatype Drained<F> = Drained(frames: seq<F>, rest: seq<byte>, error: Option<WireError>)

  function Drain<F>(c: Codec<F>, b: seq<byte>): Drained<F>
    decreases |b|
  {
    var d := DecodeOne(c, b);
    match d.result
    case Err(e) => Drained([], d.rest, Some(e))
    case Ok(None) => Drained([], d.rest, None)
    case Ok(Some(f)) =>
      var more := Drain(c, d.rest);
      Drained([f] + more.frames, more.rest, more.error)
  }

  method DrainBuffer<F>(c: Codec<F>, src: Buffer) returns (frames: seq<F>, error: Option<WireError>)
    modifies src
    ensures Drained(frames, src.bytes, error) == Drain(c, old(src.bytes))
  {
    frames, error := [], None;
    while true
      invariant error == None
      invariant var more := Drain(c, src.bytes);
                Drain(c, old(src.bytes)) == Drained(frames + more.frames, more.rest, more.error)
      decreases |src.bytes|
    {
      ghost var before := src.bytes;
      assert frames + [] == frames;
      var r := Decode(c, src);
      match r {
        case Err(e) => DrainStops(c, before); error := Some(e); return;
        case Ok(None) => DrainStops(c, before); return;
        case Ok(Some(f)) =>
          DrainFrame(c, before);
          Regroup(frames, [f], Drain(c, src.bytes).frames);
          frames := frames + [f];
      }
    }
  }

  lemma SlicesAppend(a: seq<byte>, b: seq<byte>, n: nat)
    requires 4 + n <= |a|
    ensures (a + b)[..4] == a[..4] && (a + b)[4..4 + n] == a[4..4 + n] && (a + b)[4 + n..] == a[4 + n..] + b
  {
  }

  lemma DecodeOneAppend<F>(c: Codec<F>, a: seq<byte>, b: seq<byte>)
    requires DecodeOne(c, a).result != Ok(None)
    ensures DecodeOne(c, a + b) == DecodeOne(c, a).(rest := DecodeOne(c, a).rest + b)
  {
    SlicesAppend(a, b, 0);
    var len := FromLe4(a[..4]);
    if len <= MAX_FRAME_LEN { SlicesAppend(a, b, len); }
  }

  lemma DrainFrame<F>(c: Codec<F>, b: seq<byte>)
    requires DecodeOne(c, b).result.Ok? && DecodeOne(c, b).result.value.Some?
    ensures var d := DecodeOne(c, b);
            var more := Drain(c, d.rest);
            Drain(c, b) == Drained([d.result.value.value] + more.frames, more.rest, more.error)
  {
  }

  lemma DrainStops<F>(c: Codec<F>, b: seq<byte>)
    requires DecodeOne(c, b).result.Err? || DecodeOne(c, b).result.value.None?
    ensures var d := DecodeOne(c, b);
            Drain(c, b) == Drained([], d.rest, if d.result.Err? then Some(d.result.error) else None)
    ensures DecodeOne(c, b).result.Ok? ==> DecodeOne(c, b).rest == b
  {
  }

  /** What a longer stream drains to, given how its beginning drained: errors and frames stand. */
  lemma {:induction false} DrainAppend<F>(c: Codec<F>, a: seq<byte>, b: seq<byte>)
    ensures var x, y := Drain(c, a), Drain(c, a + b);
            if x.error.Some? then y.frames == x.frames && y.error == x.error
            else var z := Drain(c, x.rest + b); y == Drained(x.frames + z.frames, z.rest, z.error)
    decreases |a|
  {
    var d := DecodeOne(c, a);
    if d.result.Ok? && d.result.value.Some? {
      DecodeOneAppend(c, a, b);
      DrainFrame(c, a);
      DrainFrame(c, a + b);
      DrainAppend(c, d.rest, b);
      var x := Drain(c, d.rest);
      Regroup([d.result.value.value], x.frames, Drain(c, x.rest + b).frames);
    } else {
      DrainStops(c, a);
      if d.result.Err? {
        DecodeOneAppend(c, a, b);
        DrainStops(c, a + b);
      }
    }
  }

  /** Append a chunk, decode until `None`, and so on; an error ends the stream. */
  function ReadChunks<F>(c: Codec<F>, chunks: seq<seq<byte>>): Drained<F>
    decreases |chunks|
  {
    if chunks == [] then Drained([], [], None)
    else
      var before := ReadChunks(c, chunks[..|chunks| - 1]);
      if before.error.Some? then before
      else
        var d := Drain(c, before.rest + chunks[|chunks| - 1]);
        Drained(before.frames + d.frames, d.rest, d.error)
  }

  /** Any chunking of any byte string yields the frames, and the failure if any, of the whole. */
  lemma {:induction false} ChunkingIrrelevant<F>(c: Codec<F>, chunks: seq<seq<byte>>)
    ensures var r, whole := ReadChunks(c, chunks), Drain(c, Flatten(chunks));
            && r.frames == whole.frames && r.error == whole.error
            && (whole.error.None? ==> r.rest == whole.rest)
    decreases |chunks|
  {
    if chunks != [] {
      ChunkingIrrelevant(c, chunks[..|chunks| - 1]);
      DrainAppend(c, Flatten(chunks[..|chunks| - 1]), chunks[|chunks| - 1]);
    }
  }

  // -------------------------------------------------------------------------
  // Encoded streams
  // -------------------------------------------------------------------------

  ghost predicate AllRoundTrip<F>(c: Codec<F>, frames: seq<F>) {
    forall i :: 0 <= i < |frames| ==> c.RoundTrips(frames[i])
  }

  ghost function Stream<F>(c: Codec<F>, frames: seq<F>): seq<byte>
    requires AllRoundTrip(c, frames)
  {
    if frames == [] then [] else Framed(c, frames[0]) + Stream(c, frames[1..])
  }

  lemma DecodeFramed<F>(c: Codec<F>, f: F, tail: seq<byte>)
    requires c.RoundTrips(f)
    ensures DecodeOne(c, Framed(c, f) + tail) == Decoded(Ok(Some(f)), tail)
  {
    var p := c.Payload(f).value;
    var b := Framed(c, f) + tail;
    Le4RoundTrip(|p|);
    assert b[..4] == Le4(|p|) && b[4..4 + |p|] == p && b[4 + |p|..] == tail;
  }

  /** A frame of which a byte is missing is not decoded and not consumed. */
  lemma DecodePartial<F>(c: Codec<F>, f: F, part: seq<byte>)
    requires c.RoundTrips(f) && part < Framed(c, f)
    ensures DecodeOne(c, part) == Decoded(Ok(None), part)
  {
    var p := c.Payload(f).value;
    Le4RoundTrip(|p|);
    if |part| >= 4 {
      assert part[..4] == Framed(c, f)[..4] == Le4(|p|);
    }
  }

  /** Exactly the first `k` frames came out, and what is kept is the beginning of the next one. */
  ghost predicate Received<F>(c: Codec<F>, frames: seq<F>, prefix: seq<byte>, k: nat)
    requires AllRoundTrip(c, frames)
  {
    var d := Drain(c, prefix);
    && k <= |frames|
    && d.frames == frames[..k] && d.error == None
    && prefix == Stream(c, frames[..k]) + d.rest
    && (if k < |frames| then d.rest < Framed(c, frames[k]) else d.rest == [])
  }

  lemma ReceivedOneMore<F>(c: Codec<F>, frames: seq<F>, tail: seq<byte>, j: nat)
    requires AllRoundTrip(c, frames) && frames != [] && Received(c, frames[1..], tail, j)
    ensures Received(c, frames, Framed(c, frames[0]) + tail, j + 1)
  {
    var first, rest := Framed(c, frames[0]), frames[1..];
    DrainOneMore(c, frames[0], tail);
    assert j < |rest| ==> rest[j] == frames[j + 1];
    assert frames[..j + 1] == [frames[0]] + rest[..j];
    StreamHead(c, frames, j);
    Regroup(first, Stream(c, rest[..j]), Drain(c, tail).rest);
  }

  lemma DrainOneMore<F>(c: Codec<F>, f: F, tail: seq<byte>)
    requires c.RoundTrips(f)
    ensures var d := Drain(c, tail);
            Drain(c, Framed(c, f) + tail) == Drained([f] + d.frames, d.rest, d.error)
  {
    DecodeFramed(c, f, tail);
    DrainFrame(c, Framed(c, f) + tail);
  }

  lemma StreamHead<F>(c: Codec<F>, frames: seq<F>, j: nat)
    requires AllRoundTrip(c, frames) && frames != [] && j <= |frames| - 1
    ensures Stream(c, frames[..j + 1]) == Framed(c, frames[0]) + Stream(c, frames[1..][..j])
  {
    assert frames[..j + 1][1..] == frames[1..][..j];
  }

  lemma PrefixOfConcat(a: seq<byte>, b: seq<byte>, prefix: seq<byte>)
    requires prefix <= a + b && |prefix| >= |a|
    ensures prefix == a + prefix[|a|..] && prefix[|a|..] <= b
  {
    assert prefix == (a + b)[..|prefix|];
    assert prefix[|a|..] == b[..|prefix| - |a|];
  }

  /**
   On any prefix of an encoded stream the decoder yields exactly the frames received
   in full and keeps exactly the bytes after them.
   */
  lemma {:induction false} PrefixYieldsReceived<F>(c: Codec<F>, frames: seq<F>, prefix: seq<byte>) returns (k: nat)
    requires AllRoundTrip(c, frames) && prefix <= Stream(c, frames)
    ensures Received(c, frames, prefix, k)
  {
    if frames == [] {
      return 0;
    }
    var first := Framed(c, frames[0]);
    if |prefix| < |first| {
      assert prefix == Stream(c, frames)[..|prefix|] == first[..|prefix|];
      DecodePartial(c, frames[0], prefix);
      assert [] + prefix == prefix;
      return 0;
    }
    var tail := prefix[|first|..];
    PrefixOfConcat(first, Stream(c, frames[1..]), prefix);
    var j := PrefixYieldsReceived(c, frames[1..], tail);
    ReceivedOneMore(c, frames, tail, j);
    return j + 1;
  }

  /** The whole stream, however it was cut, gives back exactly the frames and an empty buffer. */
  lemma StreamRoundTrip<F>(c: Codec<F>, frames: seq<F>, chunks: seq<seq<byte>>)
    requires AllRoundTrip(c, frames) && Flatten(chunks) == Stream(c, frames)
    ensures ReadChunks(c, chunks) == Drained(frames, [], None)
  {
    ChunkingIrrelevant(c, chunks);
    var k := PrefixYieldsReceived(c, frames, Stream(c, frames));
    if k < |frames| {
      StreamSplits(c, frames, k);
      assert false;
    }
    assert frames[..k] == frames;
  }

  lemma {:induction false} StreamSplits<F>(c: Codec<F>, frames: seq<F>, k: nat)
    requires AllRoundTrip(c, frames) && k < |frames|
    ensures |Stream(c, frames)| >= |Stream(c, frames[..k])| + |Framed(c, frames[k])|
  {
    if k > 0 {
      assert frames[..k][1..] == frames[1..][..k - 1];
      StreamSplits(c, frames[1..], k - 1);
    }
  }
}
