/** Message framing between machines: serialisation, the receiver's parser and its read loop. */
module Wire {
  import opened Bytes
  import opened Options
  import opened Address

  datatype Header = Header(addr: Addr, behaviour: nat, srcShard: nat, prId: nat, mType: nat, fromNetwork: bool)
  datatype Message = Message(hdr: Header, payload: seq<seq<byte>>)
  /** How the read loop ended: at the end of the stream, or by reading past a buffer. */
  datatype End = Closed | Overrun
  datatype Inbox = Inbox(msgs: seq<Message>, end: End)

  const ADDR_BYTES: nat := 53
  const HEADER_BYTES: nat := 68
  const FIXED_BYTES: nat := 72

  predicate HeaderFits(h: Header) {
    && h.addr.length < 256 && |h.addr.data| == MAX_BYTES
    && h.behaviour < 256 && h.srcShard < U32 && h.prId < U32 && h.mType < 256
  }

  // ----- Sender -----

  /** The header structure as it lies in memory; `pad` holds its four alignment bytes. */
  function HeaderBytes(h: Header, pad: seq<byte>): (s: seq<byte>)
    requires HeaderFits(h) && |pad| == 4
    ensures |s| == HEADER_BYTES
  {
    var len: byte := h.addr.length;
    var behaviour: byte := h.behaviour;
    var mType: byte := h.mType;
    [len] + h.addr.data + [behaviour] + pad[..2] + WordBytes(h.srcShard) + WordBytes(h.prId)
    + [mType, if h.fromNetwork then 1 else 0] + pad[2..]
  }

  function BufferBytes(bufs: seq<seq<byte>>): seq<byte> {
    if bufs == [] then [] else WordBytes(|bufs[0]|) + bufs[0] + BufferBytes(bufs[1..])
  }

  /** `get_buffer_size`. */
  function TotalSize(bufs: seq<seq<byte>>): nat {
    if bufs == [] then 0 else |bufs[0]| + TotalSize(bufs[1..])
  }

  /** The length the sender announces, before it is cut to 32 bits. */
  function MsgLen(m: Message): nat {
    FIXED_BYTES + 4 * |m.payload| + TotalSize(m.payload)
  }

  function Body(m: Message, pad: seq<byte>): seq<byte>
    requires HeaderFits(m.hdr) && |pad| == 4
  {
    HeaderBytes(m.hdr, pad) + WordBytes(|m.payload|) + BufferBytes(m.payload)
  }

  function Frame(m: Message, pad: seq<byte>): seq<byte>
    requires HeaderFits(m.hdr) && |pad| == 4
  {
    WordBytes(MsgLen(m)) + Body(m, pad)
  }

  /** `serialize`: announce the length, then drain the payload queue into the stream. */
  method Serialize(m: Message, pad: seq<byte>) returns (out: seq<byte>)
    requires HeaderFits(m.hdr) && |pad| == 4
    ensures out == Frame(m, pad)
  {
    var su := m.payload;
    out := WordBytes(FIXED_BYTES + 4 * |su| + TotalSize(su)) + HeaderBytes(m.hdr, pad);
    out := out + WordBytes(|su|);
    while su != []
      invariant out + BufferBytes(su) == Frame(m, pad)
    {
      var buf := su[0];
      su := su[1..];
      ghost var before := out;
      out := out + WordBytes(|buf|) + buf;
      assert out + BufferBytes(su) == before + (WordBytes(|buf|) + buf + BufferBytes(su));
    }
  }

  // ----- Receiver -----

  function LoadHeader(s: seq<byte>): Header
    requires |s| == HEADER_BYTES
  {
    Header(Addr(s[0], s[1..ADDR_BYTES]), s[53], Word(s[56..60]), Word(s[60..64]), s[64], true)
  }

  /** The length word at `at` and the bytes it announces lie inside the buffer. */
  predicate Inside(buf: seq<byte>, at: nat) {
    at + 4 <= |buf| && at + 4 + Word(buf[at..at + 4]) <= |buf|
  }

  /** `n` length-prefixed buffers from offset `at`; nothing when one of them runs past the end. */
  function ParseBuffers(buf: seq<byte>, at: nat, n: nat): Option<seq<seq<byte>>>
    decreases n
  {
    if n == 0 then Some([])
    else if !Inside(buf, at) then None
    else Found([Piece(buf, at)], ParseBuffers(buf, Next(buf, at), n - 1))
  }

  /** The buffer whose length word is at `at`. */
  function Piece(buf: seq<byte>, at: nat): seq<byte>
    requires Inside(buf, at)
  {
    buf[at + 4..at + 4 + Word(buf[at..at + 4])]
  }

  /** Where the reading position moves to: `len + 4` is computed in 32 bits. */
  function Next(buf: seq<byte>, at: nat): nat
    requires Inside(buf, at)
  {
    at + Wrap(Word(buf[at..at + 4]) + 4)
  }

  function Found(done: seq<seq<byte>>, rest: Option<seq<seq<byte>>>): Option<seq<seq<byte>>> {
    if rest.None? then None else Some(done + rest.value)
  }

  function ParseBody(s: seq<byte>): Option<Message> {
    if |s| < FIXED_BYTES then None
    else
      var bufs := ParseBuffers(s, FIXED_BYTES, Word(s[HEADER_BYTES..FIXED_BYTES]));
      if bufs.None? then None else Some(Message(LoadHeader(s[..HEADER_BYTES]), bufs.value))
  }

  /** `network_delegater::deserialize`. */
  method Deserialize(buf: seq<byte>) returns (m: Option<Message>)
    ensures m == ParseBody(buf)
  {
    if |buf| < FIXED_BYTES {
      return None;
    }
    var qu := ReadBuffers(buf, FIXED_BYTES, Word(buf[HEADER_BYTES..FIXED_BYTES]));
    m := if qu.None? then None else Some(Message(LoadHeader(buf[..HEADER_BYTES]), qu.value));
  }

  /** Its loop: a position that moves over the payload and pushes one buffer a turn. */
  method ReadBuffers(buf: seq<byte>, start: nat, nr: nat) returns (r: Option<seq<seq<byte>>>)
    ensures r == ParseBuffers(buf, start, nr)
  {
    var qu: seq<seq<byte>> := [];
    var at: nat := start;
    var i := 0;
    FoundNothing(ParseBuffers(buf, start, nr));
    while i < nr
      invariant 0 <= i <= nr
      invariant ParseBuffers(buf, start, nr) == Found(qu, ParseBuffers(buf, at, nr - i))
    {
      if !Inside(buf, at) {
        return None;
      }
      FoundTwice(qu, Piece(buf, at), ParseBuffers(buf, Next(buf, at), nr - i - 1));
      qu := qu + [Piece(buf, at)];
      at := Next(buf, at);
      i := i + 1;
    }
    assert qu + [] == qu;
    r := Some(qu);
  }

  lemma FoundNothing(rest: Option<seq<seq<byte>>>)
    ensures Found([], rest) == rest
  {
    if rest.Some? { assert [] + rest.value == rest.value; }
  }

  lemma FoundTwice(done: seq<seq<byte>>, one: seq<byte>, rest: Option<seq<seq<byte>>>)
    ensures Found(done, Found([one], rest)) == Found(done + [one], rest)
  {
    if rest.Some? { assert done + ([one] + rest.value) == done + [one] + rest.value; }
  }

  /** What `read_exactly` returns for the length at the front, and what it leaves in the stream. */
  function Chunk(s: seq<byte>): seq<byte>
    requires |s| >= 4
  {
    var end := 4 + Word(s[..4]);
    if end <= |s| then s[4..end] else s[4..]
  }

  function Rest(s: seq<byte>): (r: seq<byte>)
    requires |s| >= 4
    ensures |r| < |s|
  {
    var end := 4 + Word(s[..4]);
    if end <= |s| then s[end..] else []
  }

  /** The messages `first`, then what a later part of the stream gives. */
  function Before(first: seq<Message>, rest: Inbox): Inbox {
    Inbox(first + rest.msgs, rest.end)
  }

  /** Everything the receiver hands to `send` from this stream. */
  function Received(s: seq<byte>): Inbox
    decreases |s|
  {
    if |s| < 4 then Inbox([], Closed)
    else
      var m := ParseBody(Chunk(s));
      if m.None? then Inbox([], Overrun) else Before([m.value], Received(Rest(s)))
  }

  /** `run_receivers`: read four bytes, read that many, deserialise, send on. */
  method RunReceiver(stream: seq<byte>) returns (sent: seq<Message>, end: End)
    ensures Inbox(sent, end) == Received(stream)
  {
    var s := stream;
    sent := [];
    BeforeNothing(Received(stream));
    while |s| >= 4
      invariant Received(stream) == Before(sent, Received(s))
      decreases |s|
    {
      var m := Deserialize(Chunk(s));
      if m.None? {
        return sent, Overrun;
      }
      BeforeBoth(sent, [m.value], Received(Rest(s)));
      s := Rest(s);
      sent := sent + [m.value];
    }
    end := Closed;
  }

  lemma BeforeNothing(rest: Inbox)
    ensures Before([], rest) == rest
  {
    assert [] + rest.msgs == rest.msgs;
  }

  lemma BeforeBoth(a: seq<Message>, b: seq<Message>, rest: Inbox)
    ensures Before(a, Before(b, rest)) == Before(a + b, rest)
  {
    assert a + (b + rest.msgs) == a + b + rest.msgs;
  }

  // ----- Lengths -----

  lemma {:induction false} BufferLength(bufs: seq<seq<byte>>)
    ensures |BufferBytes(bufs)| == 4 * |bufs| + TotalSize(bufs)
  {
    if bufs != [] { BufferLength(bufs[1..]); }
  }

  /** The announced length is the number of bytes that follow, exactly when it fits 32 bits. */
  lemma PrefixTrueIff(m: Message, pad: seq<byte>)
    requires HeaderFits(m.hdr) && |pad| == 4
    ensures |Frame(m, pad)| == 4 + MsgLen(m)
    ensures Word(Frame(m, pad)[..4]) == |Frame(m, pad)| - 4 <==> MsgLen(m) < U32
  {
    BufferLength(m.payload);
    assert Frame(m, pad)[..4] == WordBytes(MsgLen(m));
    WordWraps(MsgLen(m));
  }

  // ----- Round trip -----

  /** What the receiver is to see: the same message, marked as coming from the network. */
  function Arrived(m: Message): Message {
    m.(hdr := m.hdr.(fromNetwork := true))
  }

  lemma HeaderRoundTrip(h: Header, pad: seq<byte>)
    requires HeaderFits(h) && |pad| == 4
    ensures LoadHeader(HeaderBytes(h, pad)) == h.(fromNetwork := true)
  {
    var s := HeaderBytes(h, pad);
    WordWraps(h.srcShard);
    WordWraps(h.prId);
    assert s[1..53] == h.addr.data;
    assert s[56..60] == WordBytes(h.srcShard);
    assert s[60..64] == WordBytes(h.prId);
  }

  lemma Cuts(a: seq<byte>, b: seq<byte>, c: seq<byte>)
    ensures (a + b + c)[..|a|] == a && (a + b + c)[|a|..|a| + |b|] == b && (a + b + c)[|a| + |b|..] == c
  {
  }

  lemma ParseFirst(s: seq<byte>, at: nat, n: nat, buf: seq<byte>)
    requires StartsWith(s, at, buf)
    ensures ParseBuffers(s, at, n + 1) == Found([buf], ParseBuffers(s, at + 4 + |buf|, n))
  {
  }

  /** A buffer written at `at`, with `rest` after it. */
  lemma BufferAt(s: seq<byte>, at: nat, buf: seq<byte>, rest: seq<byte>)
    requires at <= |s| && s[at..] == WordBytes(|buf|) + buf + rest && 4 + |buf| < U32
    ensures Inside(s, at) && Piece(s, at) == buf && Next(s, at) == at + 4 + |buf|
    ensures s[at + 4 + |buf|..] == rest
  {
    Cuts(WordBytes(|buf|), buf, rest);
    WordWraps(|buf|);
    assert s[at..at + 4] == s[at..][..4];
    assert s[at + 4..at + 4 + |buf|] == s[at..][4..4 + |buf|];
    assert s[at + 4 + |buf|..] == s[at..][4 + |buf|..];
  }

  /** The buffer at `at` is `buf`, and the next one follows it. */
  predicate StartsWith(s: seq<byte>, at: nat, buf: seq<byte>) {
    Inside(s, at) && Piece(s, at) == buf && Next(s, at) == at + 4 + |buf|
  }

  /** The buffers lie one after the other where the parser will look for them. */
  predicate LaidOut(s: seq<byte>, at: nat, bufs: seq<seq<byte>>)
    decreases |bufs|
  {
    bufs != [] ==> StartsWith(s, at, bufs[0]) && LaidOut(s, at + 4 + |bufs[0]|, bufs[1..])
  }

  lemma HeadWritten(s: seq<byte>, at: nat, bufs: seq<seq<byte>>)
    requires at <= |s| < at + U32 && s[at..] == BufferBytes(bufs) && bufs != []
    ensures StartsWith(s, at, bufs[0])
    ensures at + 4 + |bufs[0]| <= |s| && s[at + 4 + |bufs[0]|..] == BufferBytes(bufs[1..])
  {
    assert |s[at..]| == 4 + |bufs[0]| + |BufferBytes(bufs[1..])|;
    BufferAt(s, at, bufs[0], BufferBytes(bufs[1..]));
  }

  lemma {:induction false} WrittenLaidOut(s: seq<byte>, at: nat, bufs: seq<seq<byte>>)
    requires at <= |s| < at + U32 && s[at..] == BufferBytes(bufs)
    ensures LaidOut(s, at, bufs)
    decreases |bufs|
  {
    if bufs != [] {
      HeadWritten(s, at, bufs);
      WrittenLaidOut(s, at + 4 + |bufs[0]|, bufs[1..]);
    }
  }

  lemma {:induction false} LaidOutParses(s: seq<byte>, at: nat, bufs: seq<seq<byte>>)
    requires LaidOut(s, at, bufs)
    ensures ParseBuffers(s, at, |bufs|) == Some(bufs)
    decreases |bufs|
  {
    if bufs != [] {
      var head, rest := bufs[0], bufs[1..];
      assert bufs == [head] + rest;
      LaidOutParses(s, at + 4 + |head|, rest);
      ParseStep(s, at, head, rest);
    }
  }

  lemma ParseStep(s: seq<byte>, at: nat, head: seq<byte>, rest: seq<seq<byte>>)
    requires StartsWith(s, at, head) && ParseBuffers(s, at + 4 + |head|, |rest|) == Some(rest)
    ensures ParseBuffers(s, at, |rest| + 1) == Some([head] + rest)
  {
    ParseFirst(s, at, |rest|, head);
  }

  lemma BuffersRoundTrip(s: seq<byte>, at: nat, bufs: seq<seq<byte>>)
    requires at <= |s| < at + U32 && s[at..] == BufferBytes(bufs)
    ensures ParseBuffers(s, at, |bufs|) == Some(bufs)
  {
    WrittenLaidOut(s, at, bufs);
    LaidOutParses(s, at, bufs);
  }

  /** Too few bytes for the first buffer. */
  lemma BufferShort(s: seq<byte>, at: nat, buf: seq<byte>, rest: seq<byte>)
    requires at <= |s| < at + 4 + |buf| < at + U32
    requires s[at..] <= WordBytes(|buf|) + buf + rest
    ensures !Inside(s, at)
  {
    if at + 4 <= |s| {
      WordWraps(|buf|);
      assert s[at..at + 4] == s[at..][..4] == WordBytes(|buf|);
    }
  }

  /** A payload that lost its last bytes never parses: some read runs past its end. */
  lemma {:induction false} BuffersCut(s: seq<byte>, at: nat, bufs: seq<seq<byte>>)
    requires at <= |s| && s[at..] < BufferBytes(bufs) && |BufferBytes(bufs)| < U32
    ensures ParseBuffers(s, at, |bufs|) == None
    decreases |bufs|
  {
    var head := WordBytes(|bufs[0]|) + bufs[0];
    var rest := BufferBytes(bufs[1..]);
    if |s| - at < |head| {
      BufferShort(s, at, bufs[0], rest);
    } else {
      var k := |s| - at - |head|;
      assert s[at..] == (head + rest)[..|s| - at] == head + rest[..k];
      BufferAt(s, at, bufs[0], rest[..k]);
      BuffersCut(s, at + |head|, bufs[1..]);
    }
  }

  predicate Sendable(m: Message) {
    HeaderFits(m.hdr) && MsgLen(m) < U32
  }

  lemma BodyParts(m: Message, pad: seq<byte>)
    requires Sendable(m) && |pad| == 4
    ensures |Body(m, pad)| == MsgLen(m)
    ensures Body(m, pad)[..HEADER_BYTES] == HeaderBytes(m.hdr, pad)
    ensures Word(Body(m, pad)[HEADER_BYTES..FIXED_BYTES]) == |m.payload|
    ensures Body(m, pad)[FIXED_BYTES..] == BufferBytes(m.payload)
  {
    BufferLength(m.payload);
    WordWraps(|m.payload|);
    assert Body(m, pad)[HEADER_BYTES..FIXED_BYTES] == WordBytes(|m.payload|);
  }

  /** A body parses to its message when it is whole, and to nothing when it is cut short anywhere. */
  lemma BodyParsesIffWhole(m: Message, pad: seq<byte>, k: nat)
    requires Sendable(m) && |pad| == 4 && k <= |Body(m, pad)|
    ensures ParseBody(Body(m, pad)[..k]) == if k == MsgLen(m) then Some(Arrived(m)) else None
  {
    var body := Body(m, pad);
    var s := body[..k];
    BodyParts(m, pad);
    if k == MsgLen(m) {
      assert s == body;
      HeaderRoundTrip(m.hdr, pad);
      BuffersRoundTrip(s, FIXED_BYTES, m.payload);
    } else if k >= FIXED_BYTES {
      assert s[HEADER_BYTES..FIXED_BYTES] == body[HEADER_BYTES..FIXED_BYTES];
      assert s[FIXED_BYTES..] == body[FIXED_BYTES..][..k - FIXED_BYTES];
      BuffersCut(s, FIXED_BYTES, m.payload);
    }
  }

  // ----- Streams -----

  /** Every message is sendable, and has its four alignment bytes. */
  predicate AllSendable(ms: seq<Message>, pads: seq<seq<byte>>) {
    && |pads| == |ms|
    && (ms != [] ==> Sendable(ms[0]) && |pads[0]| == 4 && AllSendable(ms[1..], pads[1..]))
  }

  function Stream(ms: seq<Message>, pads: seq<seq<byte>>): seq<byte>
    requires AllSendable(ms, pads)
  {
    if ms == [] then [] else Frame(ms[0], pads[0]) + Stream(ms[1..], pads[1..])
  }

  function AllArrived(ms: seq<Message>): (r: seq<Message>)
    ensures |r| == |ms| && forall i :: 0 <= i < |ms| ==> r[i] == Arrived(ms[i])
  {
    if ms == [] then [] else [Arrived(ms[0])] + AllArrived(ms[1..])
  }

  lemma FrameReceived(m: Message, pad: seq<byte>, tail: seq<byte>)
    requires Sendable(m) && |pad| == 4
    ensures Received(Frame(m, pad) + tail) == Before([Arrived(m)], Received(tail))
  {
    var s, body := Frame(m, pad) + tail, Body(m, pad);
    WordWraps(MsgLen(m));
    BodyParts(m, pad);
    BodyParsesIffWhole(m, pad, MsgLen(m));
    Cuts(WordBytes(MsgLen(m)), body, tail);
    assert body == body[..MsgLen(m)];
  }

  lemma StreamHead(ms: seq<Message>, pads: seq<seq<byte>>, tail: seq<byte>)
    requires AllSendable(ms, pads) && ms != []
    ensures Stream(ms, pads) + tail == Frame(ms[0], pads[0]) + (Stream(ms[1..], pads[1..]) + tail)
  {
    Associates(Frame(ms[0], pads[0]), Stream(ms[1..], pads[1..]), tail);
  }

  lemma Associates(a: seq<byte>, b: seq<byte>, c: seq<byte>)
    ensures (a + b) + c == a + (b + c)
  {
  }

  /** Any whole frames are received in order, whatever the stream holds after them. */
  lemma {:induction false} FramesReceived(ms: seq<Message>, pads: seq<seq<byte>>, tail: seq<byte>)
    requires AllSendable(ms, pads)
    ensures Received(Stream(ms, pads) + tail) == Before(AllArrived(ms), Received(tail))
  {
    if ms == [] {
      assert Stream(ms, pads) + tail == tail;
      assert AllArrived(ms) + Received(tail).msgs == Received(tail).msgs;
    } else {
      var rest := Stream(ms[1..], pads[1..]) + tail;
      StreamHead(ms, pads, tail);
      FramesReceived(ms[1..], pads[1..], tail);
      FrameReceived(ms[0], pads[0], rest);
      BeforeBoth([Arrived(ms[0])], AllArrived(ms[1..]), Received(tail));
    }
  }

  /**
   The framing round trip: when the peer closes after any number of whole frames, or inside a
   length prefix, the receiver has sent on exactly those messages.
   */
  lemma FramingRoundTrip(ms: seq<Message>, pads: seq<seq<byte>>, tail: seq<byte>)
    requires AllSendable(ms, pads) && |tail| < 4
    ensures Received(Stream(ms, pads) + tail) == Inbox(AllArrived(ms), Closed)
  {
    FramesReceived(ms, pads, tail);
    assert AllArrived(ms) + [] == AllArrived(ms);
  }

  /** A stream cut inside a frame's body makes the receiver parse a short buffer. */
  lemma CutFrameOverruns(ms: seq<Message>, pads: seq<seq<byte>>, m: Message, pad: seq<byte>, k: nat)
    requires AllSendable(ms, pads)
    requires Sendable(m) && |pad| == 4 && 4 <= k < |Frame(m, pad)|
    ensures Received(Stream(ms, pads) + Frame(m, pad)[..k]) == Inbox(AllArrived(ms), Overrun)
  {
    FramesReceived(ms, pads, Frame(m, pad)[..k]);
    CutFrame(m, pad, k);
    assert AllArrived(ms) + [] == AllArrived(ms);
  }

  lemma CutFrame(m: Message, pad: seq<byte>, k: nat)
    requires Sendable(m) && |pad| == 4 && 4 <= k < |Frame(m, pad)|
    ensures Received(Frame(m, pad)[..k]) == Inbox([], Overrun)
  {
    var tail := Frame(m, pad)[..k];
    WordWraps(MsgLen(m));
    BodyParts(m, pad);
    BodyParsesIffWhole(m, pad, k - 4);
    assert tail[..4] == WordBytes(MsgLen(m));
    assert tail[4..] == Body(m, pad)[..k - 4];
  }
}
