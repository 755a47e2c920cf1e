/** Length-prefixed frames over a byte stream that arrives in arbitrary chunks
    (authority_ipc.py, `recv_exact`, `send_frame`, `recv_frame`), and what the serving loop
    does after each kind of frame.
 */
module Framing {
  import opened JsonTerms
  import opened ServingLoop

  newtype byte = x: int | 0 <= x < 256

  const HEADER_SIZE := 4

  /** `struct.pack("!I", n)` raises for larger numbers. */
  const HEADER_LIMIT := 0x1_0000_0000

  /** Canonical encoding and strict decoding. */
  datatype Codec = Codec(encode: Json -> seq<byte>, decode: seq<byte> -> Option<Json>)

  /** The strict decoder accepts what was encoded: it refuses, for one, deeper nesting than 64. */
  predicate Readable(c: Codec, v: Json) {
    c.decode(c.encode(v)) == Some(v)
  }

  function Pack(n: nat): (header: seq<byte>)
    requires n < HEADER_LIMIT
    ensures |header| == HEADER_SIZE
  {
    [(n / 0x100_0000) as byte, (n / 0x1_0000 % 256) as byte, (n / 256 % 256) as byte, (n % 256) as byte]
  }

  function Unpack(header: seq<byte>): (n: nat)
    requires |header| == HEADER_SIZE
    ensures n < HEADER_LIMIT
  {
    header[0] as nat * 0x100_0000 + header[1] as nat * 0x1_0000 + header[2] as nat * 256 + header[3] as nat
  }

  lemma PackRoundTrip(n: nat)
    requires n < HEADER_LIMIT
    ensures Unpack(Pack(n)) == n
  {
    assert n / 256 / 256 == n / 0x1_0000;
    assert n / 0x1_0000 / 256 == n / 0x100_0000;
  }

  /** The most significant byte comes first. */
  lemma HeaderIsBigEndian(header: seq<byte>)
    requires |header| == HEADER_SIZE
    ensures header[0] as int == Unpack(header) / 0x100_0000 && header[3] as int == Unpack(header) % 256
    ensures Pack(0x0102_0304) == [1, 2, 3, 4]
  {
  }

  datatype FrameResult = Decoded(value: Json) | MalformedJson | FrameTooLarge | Incomplete

  /** What one `recv_frame` yields on a stream, and the bytes it leaves unread. */
  function ReadFrame(c: Codec, max: nat, stream: seq<byte>): (FrameResult, seq<byte>) {
    if |stream| < HEADER_SIZE then (Incomplete, [])
    else
      var size := Unpack(stream[..HEADER_SIZE]);
      var rest := stream[HEADER_SIZE..];
      if size > max then (FrameTooLarge, rest)
      else if |rest| < size then (Incomplete, [])
      else
        match c.decode(rest[..size])
        case Some(v) => (Decoded(v), rest[size..])
        case None => (MalformedJson, rest[size..])
  }

  predicate Fits(c: Codec, max: nat, v: Json) {
    |c.encode(v)| <= max && |c.encode(v)| < HEADER_LIMIT
  }

  function Wire(c: Codec, v: Json): seq<byte>
    requires |c.encode(v)| < HEADER_LIMIT
  {
    Pack(|c.encode(v)|) + c.encode(v)
  }

  function Stream(c: Codec, max: nat, values: seq<Json>): seq<byte>
    requires forall i :: 0 <= i < |values| ==> Fits(c, max, values[i])
  {
    if values == [] then []
    else assert Fits(c, max, values[0]); Wire(c, values[0]) + Stream(c, max, values[1..])
  }

  datatype SendResult = FrameSent | FrameSizeError | StructError

  class Connection {
    var inbox: seq<byte>    // sent by the peer, not yet read; the peer then closes
    var cuts: seq<nat>      // how many bytes each later `recv` yields at most
    var outbox: seq<byte>

    /** At least one byte unless the stream has ended, at most `size`. */
    method Recv(size: nat) returns (chunk: seq<byte>)
      requires size > 0
      modifies this`inbox, this`cuts
      ensures chunk + inbox == old(inbox) && |chunk| <= size
      ensures chunk == [] ==> inbox == []
    {
      var n := if cuts == [] then size else if cuts[0] == 0 then 1 else cuts[0];
      cuts := if cuts == [] then [] else cuts[1..];
      if n > size {
        n := size;
      }
      if n > |inbox| {
        n := |inbox|;
      }
      chunk := inbox[..n];
      inbox := inbox[n..];
    }

    method RecvExact(size: nat) returns (data: Option<seq<byte>>)
      modifies this`inbox, this`cuts
      ensures
        if |old(inbox)| >= size then data == Some(old(inbox)[..size]) && inbox == old(inbox)[size..]
        else data == None && inbox == []
    {
      var left := size;
      var got: seq<byte> := [];
      while left > 0
        invariant 0 <= left && got + inbox == old(inbox) && |got| + left == size
      {
        var chunk := Recv(left);
        if chunk == [] {
          return None;
        }
        got := got + chunk;
        left := left - |chunk|;
      }
      assert got == old(inbox)[..size];
      return Some(got);
    }

    method RecvFrame(c: Codec, max: nat) returns (r: FrameResult)
      modifies this`inbox, this`cuts
      ensures (r, inbox) == ReadFrame(c, max, old(inbox))
    {
      var header := RecvExact(HEADER_SIZE);
      if header.None? {
        return Incomplete;
      }
      var size := Unpack(header.value);
      if size > max {
        return FrameTooLarge;
      }
      var body := RecvExact(size);
      if body.None? {
        return Incomplete;
      }
      var v := c.decode(body.value);
      r := if v.Some? then Decoded(v.value) else MalformedJson;
    }

    method SendFrame(c: Codec, max: nat, v: Json) returns (r: SendResult)
      modifies this`outbox
      ensures r.FrameSent? <==> Fits(c, max, v)
      ensures r.FrameSizeError? <==> |c.encode(v)| > max
      ensures outbox == old(outbox) + (if r.FrameSent? then Wire(c, v) else [])
    {
      var encoded := c.encode(v);
      if |encoded| > max {
        return FrameSizeError;
      }
      if |encoded| >= HEADER_LIMIT {
        return StructError;
      }
      outbox := outbox + (Pack(|encoded|) + encoded);
      r := FrameSent;
    }

    /** However the bytes are cut into chunks, a stream of sent frames is received as the same
        frames in the same order, and nothing after them is touched. */
    method RecvAll(c: Codec, max: nat, ghost sent: seq<Json>, ghost tail: seq<byte>, n: nat) returns (received: seq<FrameResult>)
      requires n == |sent|
      requires forall i :: 0 <= i < |sent| ==> Fits(c, max, sent[i]) && Readable(c, sent[i])
      requires inbox == Stream(c, max, sent) + tail
      modifies this`inbox, this`cuts
      ensures |received| == |sent|
      ensures forall i :: 0 <= i < |sent| ==> received[i] == Decoded(sent[i])
      ensures inbox == tail
    {
      received := [];
      while |received| < n
        invariant |received| <= n
        invariant forall i :: 0 <= i < |received| ==> received[i] == Decoded(sent[i])
        invariant inbox == Stream(c, max, sent[|received|..]) + tail
      {
        ghost var left := sent[|received|..];
        assert left[1..] == sent[|received| + 1..];
        FrameRoundTrip(c, max, left[0], Stream(c, max, left[1..]) + tail);
        assert inbox == Wire(c, left[0]) + (Stream(c, max, left[1..]) + tail);
        var r := RecvFrame(c, max);
        received := received + [r];
      }
      assert sent[|received|..] == [];
    }
  }

  /** Reading stops right after a sent frame, and yields the value that was sent exactly when the
      decoder accepts its encoding. */
  lemma FrameRoundTrip(c: Codec, max: nat, v: Json, tail: seq<byte>)
    requires Fits(c, max, v)
    ensures ReadFrame(c, max, Wire(c, v) + tail).1 == tail
    ensures ReadFrame(c, max, Wire(c, v) + tail).0 == Decoded(v) <==> Readable(c, v)
  {
    var encoded := c.encode(v);
    var stream := Wire(c, v) + tail;
    PackRoundTrip(|encoded|);
    assert stream[..HEADER_SIZE] == Pack(|encoded|);
    assert stream[HEADER_SIZE..] == encoded + tail;
    assert (encoded + tail)[..|encoded|] == encoded;
  }

  /** A frame is refused as too large exactly when its header announces more than the limit,
      before any of its payload is read; it is incomplete exactly when the stream ends inside
      its header or inside an announced payload within the limit. */
  lemma RefusedIff(c: Codec, max: nat, stream: seq<byte>)
    ensures
      var (r, rest) := ReadFrame(c, max, stream);
      && (r.FrameTooLarge? <==> |stream| >= HEADER_SIZE && Unpack(stream[..HEADER_SIZE]) > max)
      && (r.FrameTooLarge? ==> rest == stream[HEADER_SIZE..])
      && (r.Incomplete? <==>
            || |stream| < HEADER_SIZE
            || |stream| - HEADER_SIZE < Unpack(stream[..HEADER_SIZE]) <= max)
  {
  }

  /** Reading with a lower limit than the sender's refuses exactly the frames above it. */
  lemma SentFrameIsRefusedIff(c: Codec, max: nat, v: Json, tail: seq<byte>)
    requires |c.encode(v)| < HEADER_LIMIT
    ensures ReadFrame(c, max, Wire(c, v) + tail).0.FrameTooLarge? <==> |c.encode(v)| > max
  {
    PackRoundTrip(|c.encode(v)|);
    assert (Wire(c, v) + tail)[..HEADER_SIZE] == Pack(|c.encode(v)|);
  }

  // --------------------------------------------------------- frame boundaries

  /** The header at `p` announces a frame that ends at `q`. */
  ghost predicate Hop(stream: seq<byte>, p: nat, q: nat) {
    && p + HEADER_SIZE <= |stream|
    && q == p + HEADER_SIZE + Unpack(stream[p..p + HEADER_SIZE])
    && q <= |stream|
  }

  /** Positions where a frame starts, defined by the headers alone. */
  ghost predicate Boundary(stream: seq<byte>, p: nat) {
    p == 0 || exists q :: 0 <= q < p && Hop(stream, q, p) && Boundary(stream, q)
  }

  function InputOf(r: FrameResult): Input {
    match r
    case Decoded(v) => Request(v)
    case MalformedJson => Malformed
    case FrameTooLarge => Oversized
    case Incomplete => Broken
  }

  /** The unread bytes of a reader that stands on a boundary. */
  ghost predicate OnBoundary(stream: seq<byte>, unread: seq<byte>) {
    |unread| <= |stream| && unread == stream[|stream| - |unread|..] && Boundary(stream, |stream| - |unread|)
  }

  /** A complete frame, readable or not, leaves the reader on the next boundary. */
  lemma ReadLandsOnBoundary(c: Codec, max: nat, stream: seq<byte>, unread: seq<byte>)
    requires OnBoundary(stream, unread)
    ensures
      var (r, rest) := ReadFrame(c, max, unread);
      r.Decoded? || r.MalformedJson? ==> OnBoundary(stream, rest)
  {
    var (r, rest) := ReadFrame(c, max, unread);
    var p := |stream| - |unread|;
    if r.Decoded? || r.MalformedJson? {
      assert unread[..HEADER_SIZE] == stream[p..p + HEADER_SIZE];
      var q := p + HEADER_SIZE + Unpack(stream[p..p + HEADER_SIZE]);
      assert rest == stream[q..];
      assert Hop(stream, p, q);
    }
  }

  /** Turns on one channel whose input is read off one stream, one frame after another. */
  ghost predicate FedFrom(c: Codec, max: nat, unread: seq<byte>, turns: seq<Turn>)
    decreases |turns|
  {
    turns == [] ||
    (var (r, rest) := ReadFrame(c, max, unread);
     turns[0].input == InputOf(r) && FedFrom(c, max, rest, turns[1..]))
  }

  ghost function Unread(c: Codec, max: nat, unread: seq<byte>, turns: seq<Turn>): seq<byte>
    decreases |turns|
  {
    if turns == [] then unread else Unread(c, max, ReadFrame(c, max, unread).1, turns[1..])
  }

  ghost predicate Runnable(l: Loop, ch: Channel, turns: seq<Turn>)
    decreases |turns|
  {
    turns == [] ||
    (&& Consistent(l) && ch in l.open && turns[0].channel == ch && ValidTurn(turns[0])
     && Runnable(ServeTurn(l, turns[0]), ch, turns[1..]))
  }

  ghost function ServeAll(l: Loop, ch: Channel, turns: seq<Turn>): Loop
    requires Runnable(l, ch, turns)
    decreases |turns|
  {
    if turns == [] then l else ServeAll(ServeTurn(l, turns[0]), ch, turns[1..])
  }

  lemma BadFramesDropChannel(l: Loop, t: Turn)
    requires Consistent(l) && ValidTurn(t)
    ensures t.input.Oversized? || t.input.Broken? ==> t.channel !in ServeTurn(l, t).open
  {
  }

  /** The loop never reads from the middle of a frame: after any sequence of frames, valid,
      malformed, oversized or cut short, the channel is gone or its next read starts on a
      boundary of the peer's stream. */
  lemma {:induction false} OpenMeansOnBoundary(c: Codec, max: nat, stream: seq<byte>, unread: seq<byte>,
                                               l: Loop, ch: Channel, turns: seq<Turn>)
    requires OnBoundary(stream, unread)
    requires Runnable(l, ch, turns) && FedFrom(c, max, unread, turns)
    ensures ch in ServeAll(l, ch, turns).open ==> OnBoundary(stream, Unread(c, max, unread, turns))
    decreases |turns|
  {
    if turns != [] {
      var (r, rest) := ReadFrame(c, max, unread);
      ReadLandsOnBoundary(c, max, stream, unread);
      if r.Decoded? || r.MalformedJson? {
        OpenMeansOnBoundary(c, max, stream, rest, ServeTurn(l, turns[0]), ch, turns[1..]);
      } else {
        BadFramesDropChannel(l, turns[0]);
        ClosedStaysClosed(ServeTurn(l, turns[0]), ch, turns[1..]);
      }
    }
  }

  lemma ClosedStaysClosed(l: Loop, ch: Channel, turns: seq<Turn>)
    requires ch !in l.open && Runnable(l, ch, turns)
    ensures turns == [] && ch !in ServeAll(l, ch, turns).open
  {
  }
}
