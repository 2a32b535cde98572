/**
  The session wire format: the frame encoder (MsgNode.cpp) and the callback-driven frame
  reader of a session (CSession.cpp).

  A frame is a 2-byte id, a 2-byte body length, both in network byte order, and the body.
  `Parse` says what a byte stream means, without any reader state. The reader is a machine
  that is handed whatever `async_read_some` happens to deliver.
*/
module Wire {
  const MAX_LENGTH := 2048
  const HEAD_ID_LEN := 2
  const HEAD_DATA_LEN := 2
  const HEAD_TOTAL_LEN := 4

  type Byte = b: int | 0 <= b < 256
  /** A C `short`. */
  type Short = n: int | -32768 <= n <= 32767

  datatype Frame = Frame(id: Short, body: seq<Byte>)

  /** A body whose length still fits a `short` once the header is added to it. */
  predicate Encodable(f: Frame) {
    |f.body| + HEAD_TOTAL_LEN <= 32767
  }

  /** A frame the reader on the other side does not refuse. */
  predicate Deliverable(f: Frame) {
    Encodable(f) && f.id <= MAX_LENGTH && |f.body| <= MAX_LENGTH
  }

  predicate AllEncodable(fs: seq<Frame>) {
    forall i :: 0 <= i < |fs| ==> Encodable(fs[i])
  }

  predicate AllDeliverable(fs: seq<Frame>)
    ensures AllDeliverable(fs) ==> AllEncodable(fs)
  {
    forall i :: 0 <= i < |fs| ==> Deliverable(fs[i])
  }

  // ---------------------------------------------------------------- byte order

  /** The 16 bits of a `short`, as a number. */
  function Bits(n: Short): nat {
    if n < 0 then n + 65536 else n
  }

  /** The more significant byte comes first. */
  function HostToNetwork(n: Short): (b: seq<Byte>)
    ensures |b| == 2
    ensures 256 * (b[0] as int) + b[1] as int == Bits(n)
    ensures NetworkToHost(b[0], b[1]) == n
  {
    [Bits(n) / 256, Bits(n) % 256]
  }

  function NetworkToHost(hi: Byte, lo: Byte): Short {
    var u := 256 * hi + lo;
    if u < 32768 then u else u - 65536
  }

  /** Two bytes are the image of one `short` only. */
  lemma NetworkToHostInverse(hi: Byte, lo: Byte)
    ensures HostToNetwork(NetworkToHost(hi, lo)) == [hi, lo]
  {
    var u := 256 * hi + lo;
    assert u / 256 == hi && u % 256 == lo;
  }

  function Encode(f: Frame): seq<Byte>
    requires Encodable(f)
  {
    HostToNetwork(f.id) + HostToNetwork(|f.body|) + f.body
  }

  /** A frame on the wire, byte by byte: id, then length of the body, then the body. */
  lemma EncodeLayout(f: Frame)
    requires Encodable(f)
    ensures var e := Encode(f);
            && |e| == 4 + |f.body|
            && 256 * (e[0] as int) + e[1] as int == (if f.id < 0 then f.id + 65536 else f.id)
            && 256 * (e[2] as int) + e[3] as int == |f.body|
            && e[4..] == f.body
  {
    var i, n := HostToNetwork(f.id), HostToNetwork(|f.body|);
    assert Encode(f) == i + n + f.body;
  }

  function EncodeAll(fs: seq<Frame>): seq<Byte>
    requires AllEncodable(fs)
  {
    if fs == [] then [] else Encode(fs[0]) + EncodeAll(fs[1..])
  }

  lemma {:induction false} EncodeAllAppend(fs: seq<Frame>, gs: seq<Frame>)
    requires AllEncodable(fs) && AllEncodable(gs)
    ensures EncodeAll(fs + gs) == EncodeAll(fs) + EncodeAll(gs)
  {
    if fs == [] {
      assert fs + gs == gs;
    } else {
      assert (fs + gs)[1..] == fs[1..] + gs;
      EncodeAllAppend(fs[1..], gs);
    }
  }

  // ---------------------------------------------------------------- what a stream means

  /** How a stream ends: inside a frame, at a refused header, or at a negative length
      (which the original passes on as a buffer size, so nothing is said after it). */
  datatype End = NeedMore(rest: seq<Byte>) | Refused | NegativeLength

  datatype Parsed = Parsed(frames: seq<Frame>, end: End)

  function Prepend(fs: seq<Frame>, p: Parsed): Parsed {
    Parsed(fs + p.frames, p.end)
  }

  function HeaderId(s: seq<Byte>): Short
    requires |s| >= HEAD_TOTAL_LEN
  {
    NetworkToHost(s[0], s[1])
  }

  function HeaderLength(s: seq<Byte>): Short
    requires |s| >= HEAD_TOTAL_LEN
  {
    NetworkToHost(s[2], s[3])
  }

  function Parse(s: seq<Byte>): Parsed
    decreases |s|
  {
    if |s| < HEAD_TOTAL_LEN then Parsed([], NeedMore(s))
    else
      var len := HeaderLength(s);
      if HeaderId(s) > MAX_LENGTH || len > MAX_LENGTH then Parsed([], Refused)
      else if len < 0 then Parsed([], NegativeLength)
      else if |s| < HEAD_TOTAL_LEN + len then Parsed([], NeedMore(s))
      else
        var f := Frame(HeaderId(s), s[HEAD_TOTAL_LEN..HEAD_TOTAL_LEN + len]);
        Prepend([f], Parse(s[HEAD_TOTAL_LEN + len..]))
  }

  /** A stream by its first four bytes: an id or a length above 2048 is refused, a negative length
      is where the reader loses its way, and otherwise the frame is taken off as soon as it is
      complete. */
  lemma ParseByHeader(s: seq<Byte>)
    ensures |s| < 4 ==> Parse(s) == Parsed([], NeedMore(s))
    ensures |s| >= 4 ==>
              var i, n := 256 * (s[0] as int) + s[1] as int, 256 * (s[2] as int) + s[3] as int;
              var id: int := if i < 32768 then i else i - 65536;
              var len: int := if n < 32768 then n else n - 65536;
              if id > 2048 || len > 2048 then Parse(s) == Parsed([], Refused)
              else if len < 0 then Parse(s) == Parsed([], NegativeLength)
              else if |s| < 4 + len then Parse(s) == Parsed([], NeedMore(s))
              else Parse(s) == Prepend([Frame(id, s[4..4 + len])], Parse(s[4 + len..]))
  {
  }

  /** A stream that starts with a whole accepted frame. */
  predicate StartsWithFrame(s: seq<Byte>) {
    && |s| >= HEAD_TOTAL_LEN
    && HeaderId(s) <= MAX_LENGTH && 0 <= HeaderLength(s) <= MAX_LENGTH
    && |s| >= HEAD_TOTAL_LEN + HeaderLength(s)
  }

  lemma HeaderOfExtension(a: seq<Byte>, b: seq<Byte>)
    requires |a| >= HEAD_TOTAL_LEN
    ensures HeaderId(a + b) == HeaderId(a) && HeaderLength(a + b) == HeaderLength(a)
  {
  }

  lemma ParseExtendFrame(a: seq<Byte>, b: seq<Byte>)
    requires StartsWithFrame(a)
    ensures var n := HEAD_TOTAL_LEN + HeaderLength(a);
            var f := Frame(HeaderId(a), a[HEAD_TOTAL_LEN..n]);
            && Parse(a) == Prepend([f], Parse(a[n..]))
            && Parse(a + b) == Prepend([f], Parse(a[n..] + b))
  {
    HeaderOfExtension(a, b);
    var n := HEAD_TOTAL_LEN + HeaderLength(a);
    assert (a + b)[HEAD_TOTAL_LEN..n] == a[HEAD_TOTAL_LEN..n];
    assert (a + b)[n..] == a[n..] + b;
  }

  lemma PrependPrepend(fs: seq<Frame>, gs: seq<Frame>, p: Parsed)
    ensures Prepend(fs, Prepend(gs, p)) == Prepend(fs + gs, p)
    ensures Prepend([], p) == p
  {
    assert fs + (gs + p.frames) == fs + gs + p.frames;
    assert [] + p.frames == p.frames;
  }

  /** A stream without a whole frame at its front is all rest, or ends for good. */
  lemma ParseExtendNoFrame(a: seq<Byte>, b: seq<Byte>)
    requires !StartsWithFrame(a)
    ensures Parse(a).frames == []
    ensures Parse(a).end.NeedMore? ==> Parse(a).end.rest == a
    ensures !Parse(a).end.NeedMore? ==> Parse(a + b) == Parse(a)
  {
    if |a| >= HEAD_TOTAL_LEN {
      HeaderOfExtension(a, b);
    }
  }

  /** Bytes that come later never change the frames already found. */
  lemma {:induction false} ParseExtend(a: seq<Byte>, b: seq<Byte>)
    ensures Parse(a).end.NeedMore? ==> Parse(a + b) == Prepend(Parse(a).frames, Parse(Parse(a).end.rest + b))
    ensures !Parse(a).end.NeedMore? ==> Parse(a + b) == Parse(a)
    decreases |a|
  {
    if StartsWithFrame(a) {
      var n := HEAD_TOTAL_LEN + HeaderLength(a);
      var f := Frame(HeaderId(a), a[HEAD_TOTAL_LEN..n]);
      var tail := a[n..];
      ParseExtendFrame(a, b);
      ParseExtend(tail, b);
      var p := Parse(tail);
      if p.end.NeedMore? {
        PrependPrepend([f], p.frames, Parse(p.end.rest + b));
      }
    } else {
      ParseExtendNoFrame(a, b);
      PrependPrepend([], [], Parse(a + b));
    }
  }

  /** One encoded frame in front of any stream is read as that frame. */
  lemma ParseEncoded(f: Frame, rest: seq<Byte>)
    requires Deliverable(f)
    ensures Parse(Encode(f) + rest) == Prepend([f], Parse(rest))
  {
    var s := Encode(f) + rest;
    assert s[0..2] == HostToNetwork(f.id);
    assert s[2..4] == HostToNetwork(|f.body|);
    assert [s[0], s[1]] == HostToNetwork(f.id) && [s[2], s[3]] == HostToNetwork(|f.body|);
    assert HeaderId(s) == f.id && HeaderLength(s) == |f.body|;
    assert s[4..4 + |f.body|] == f.body;
    assert s[4 + |f.body|..] == rest;
  }

  /** Reading back what was encoded. */
  lemma {:induction false} RoundTrip(fs: seq<Frame>)
    requires AllDeliverable(fs)
    ensures Parse(EncodeAll(fs)) == Parsed(fs, NeedMore([]))
  {
    if fs != [] {
      RoundTrip(fs[1..]);
      ParseEncoded(fs[0], EncodeAll(fs[1..]));
    }
  }

  /** A proper prefix of one encoded frame holds no frame and is not refused. */
  lemma ParseTruncated(f: Frame, k: nat)
    requires Deliverable(f) && k < |Encode(f)|
    ensures Parse(Encode(f)[..k]) == Parsed([], NeedMore(Encode(f)[..k]))
  {
    var s := Encode(f)[..k];
    if k >= HEAD_TOTAL_LEN {
      var e := Encode(f);
      assert e[0..2] == HostToNetwork(f.id) && e[2..4] == HostToNetwork(|f.body|);
      assert HeaderId(s) == f.id && HeaderLength(s) == |f.body|;
    }
  }

  lemma TakeParts(x: seq<Byte>, y: seq<Byte>, k: nat)
    requires |x| <= k <= |x| + |y|
    ensures (x + y)[..k] == x + (x + y)[|x|..k]
    ensures (x + y)[|x|..k] == y[..k - |x|]
  {
  }

  /** On every prefix of an encoded stream exactly the frames wholly inside it are found. */
  lemma PrefixFrames(fs: seq<Frame>, n: nat, k: nat)
    requires AllDeliverable(fs) && n <= |fs|
    requires |EncodeAll(fs[..n])| <= k <= |EncodeAll(fs)|
    requires n < |fs| ==> k < |EncodeAll(fs[..n])| + |Encode(fs[n])|
    ensures Parse(EncodeAll(fs)[..k]).frames == fs[..n]
    ensures Parse(EncodeAll(fs)[..k]).end.NeedMore?
  {
    var whole := EncodeAll(fs[..n]);
    var part := EncodeAll(fs)[|whole|..k];
    assert fs == fs[..n] + fs[n..];
    EncodeAllAppend(fs[..n], fs[n..]);
    TakeParts(whole, EncodeAll(fs[n..]), k);
    RoundTrip(fs[..n]);
    ParseExtend(whole, part);
    assert [] + part == part;
    if n < |fs| {
      assert part == Encode(fs[n])[..|part|];
      ParseTruncated(fs[n], |part|);
    } else {
      assert part == [];
    }
  }

  // ---------------------------------------------------------------- the reader

  /** What the outstanding read is for. */
  datatype Phase =
    | Head                  // asyncReadHead: four header bytes
    | Body(head: seq<Byte>) // asyncReadBody: the body announced by `head`
    | Closed                // close() was called
    | Lost                  // a negative length was passed on as a size

  /** `data` is the filled part of the session's buffer; `posted` what reached the logic queue. */
  datatype Reader = Reader(phase: Phase, data: seq<Byte>, posted: seq<Frame>)

  function Start(): Reader {
    Reader(Head, [], [])
  }

  predicate Reading(r: Reader) {
    r.phase.Head? || r.phase.Body?
  }

  predicate AcceptedHeader(h: seq<Byte>) {
    |h| == HEAD_TOTAL_LEN && HeaderId(h) <= MAX_LENGTH && 0 <= HeaderLength(h) <= MAX_LENGTH
  }

  predicate ValidReader(r: Reader) {
    match r.phase
    case Head => |r.data| < HEAD_TOTAL_LEN
    case Body(h) => AcceptedHeader(h) && |r.data| <= HeaderLength(h) && (|r.data| == HeaderLength(h) ==> r.data == [])
    case _ => true
  }

  /** total_len of the read in progress. */
  function TotalLen(r: Reader): nat
    requires Reading(r) && ValidReader(r)
  {
    if r.phase.Head? then HEAD_TOTAL_LEN else HeaderLength(r.phase.head)
  }

  /** Size of the buffer handed to `async_read_some`. */
  function Wanted(r: Reader): nat
    requires Reading(r) && ValidReader(r)
  {
    TotalLen(r) - |r.data|
  }

  /** What one completion may carry: at least a byte, at most what was asked for; a read of
      zero bytes completes with none. */
  predicate Fits(r: Reader, chunk: seq<Byte>)
    requires Reading(r) && ValidReader(r)
  {
    |chunk| <= Wanted(r) && (chunk == [] <==> Wanted(r) == 0)
  }

  /** The completion handler of `asyncReadLen` and the two handlers it calls. */
  function Complete(r: Reader, chunk: seq<Byte>): (r': Reader)
    requires Reading(r) && ValidReader(r) && Fits(r, chunk)
    ensures ValidReader(r')
  {
    var data := r.data + chunk;
    if |data| < TotalLen(r) then r.(data := data)
    else match r.phase
      case Head =>
        if HeaderId(data) > MAX_LENGTH || HeaderLength(data) > MAX_LENGTH then r.(phase := Closed, data := data)
        else if HeaderLength(data) < 0 then r.(phase := Lost, data := data)
        else Reader(Body(data), [], r.posted)
      case Body(h) =>
        Reader(Head, [], r.posted + [Frame(HeaderId(h), data)])
  }

  /** A list of completions, each of which the reader was waiting for. */
  predicate Admissible(r: Reader, chunks: seq<seq<Byte>>)
    requires ValidReader(r)
    decreases |chunks|
  {
    chunks == [] ||
    (Reading(r) && Fits(r, chunks[0]) && Admissible(Complete(r, chunks[0]), chunks[1..]))
  }

  function Run(r: Reader, chunks: seq<seq<Byte>>): (r': Reader)
    requires ValidReader(r) && Admissible(r, chunks)
    ensures ValidReader(r')
    decreases |chunks|
  {
    if chunks == [] then r else Run(Complete(r, chunks[0]), chunks[1..])
  }

  function Flatten(chunks: seq<seq<Byte>>): seq<Byte> {
    if chunks == [] then [] else chunks[0] + Flatten(chunks[1..])
  }

  /** The bytes read since the last posted frame. */
  function Unposted(r: Reader): seq<Byte> {
    if r.phase.Body? then r.phase.head + r.data else r.data
  }

  /** The reader's state, read back as a parse result. */
  ghost predicate Represents(r: Reader, s: seq<Byte>) {
    && Parse(s) == Prepend(r.posted, Parse(Unposted(r)))
    && (r.phase.Closed? ==> Parse(Unposted(r)) == Parsed([], Refused))
    && (r.phase.Lost? ==> Parse(Unposted(r)) == Parsed([], NegativeLength))
  }

  lemma ReadingEnd(r: Reader)
    requires Reading(r) && ValidReader(r) && Wanted(r) > 0
    ensures Parse(Unposted(r)) == Parsed([], NeedMore(Unposted(r)))
  {
    if r.phase.Body? {
      var s := Unposted(r);
      assert s[0] == r.phase.head[0] && s[1] == r.phase.head[1] && s[2] == r.phase.head[2] && s[3] == r.phase.head[3];
      assert HeaderId(s) == HeaderId(r.phase.head) && HeaderLength(s) == HeaderLength(r.phase.head);
    }
  }

  /** A whole body behind its header is one frame and nothing else. */
  lemma ParseWhole(h: seq<Byte>, body: seq<Byte>)
    requires AcceptedHeader(h) && |body| == HeaderLength(h)
    ensures Parse(h + body) == Parsed([Frame(HeaderId(h), body)], NeedMore([]))
  {
    var s := h + body;
    assert HeaderId(s) == HeaderId(h) && HeaderLength(s) == HeaderLength(h);
    assert s[HEAD_TOTAL_LEN..HEAD_TOTAL_LEN + |body|] == body;
    assert s[HEAD_TOTAL_LEN + |body|..] == [];
  }

  /** Before the handlers look at it: the stream is the posted frames and what was read since. */
  lemma ReadRepresents(r: Reader, chunk: seq<Byte>, s: seq<Byte>)
    requires Reading(r) && ValidReader(r) && Fits(r, chunk) && Represents(r, s)
    ensures Parse(s + chunk) == Prepend(r.posted, Parse(Unposted(r) + chunk))
  {
    var u := Unposted(r);
    if Wanted(r) == 0 {
      assert u + chunk == u && s + chunk == s;
    } else {
      ReadingEnd(r);
      ParseExtend(s, chunk);
      assert r.posted + [] == r.posted;
    }
  }

  lemma HeadRepresents(r: Reader, chunk: seq<Byte>, s: seq<Byte>)
    requires r.phase.Head? && ValidReader(r) && Fits(r, chunk) && Represents(r, s)
    ensures Represents(Complete(r, chunk), s + chunk)
  {
    ReadRepresents(r, chunk, s);
    var whole := r.data + chunk;
    assert Unposted(r) + chunk == whole;
    if |whole| == HEAD_TOTAL_LEN && AcceptedHeader(whole) {
      assert whole + [] == whole;
    }
  }

  lemma BodyRepresents(r: Reader, chunk: seq<Byte>, s: seq<Byte>)
    requires r.phase.Body? && ValidReader(r) && Fits(r, chunk) && Represents(r, s)
    ensures Represents(Complete(r, chunk), s + chunk)
  {
    ReadRepresents(r, chunk, s);
    var h := r.phase.head;
    var data := r.data + chunk;
    assert Unposted(r) + chunk == h + data;
    if |data| == TotalLen(r) {
      ParseWhole(h, data);
      var f := Frame(HeaderId(h), data);
      PrependPrepend(r.posted, [f], Parsed([], NeedMore([])));
      assert Parse([]) == Parsed([], NeedMore([]));
      assert [f] + [] == [f];
    }
  }

  lemma CompleteRepresents(r: Reader, chunk: seq<Byte>, s: seq<Byte>)
    requires Reading(r) && ValidReader(r) && Fits(r, chunk) && Represents(r, s)
    ensures Represents(Complete(r, chunk), s + chunk)
  {
    if r.phase.Head? {
      HeadRepresents(r, chunk, s);
    } else {
      BodyRepresents(r, chunk, s);
    }
  }

  /** Chunking independence: whatever completions a byte stream arrives in, well formed or
      not, the reader's state is the parse of the stream. */
  lemma {:induction false} RunRepresents(r: Reader, chunks: seq<seq<Byte>>, s: seq<Byte>)
    requires ValidReader(r) && Admissible(r, chunks) && Represents(r, s)
    ensures Represents(Run(r, chunks), s + Flatten(chunks))
    decreases |chunks|
  {
    if chunks == [] {
      assert s + Flatten(chunks) == s;
    } else {
      CompleteRepresents(r, chunks[0], s);
      RunRepresents(Complete(r, chunks[0]), chunks[1..], s + chunks[0]);
      assert s + Flatten(chunks) == s + chunks[0] + Flatten(chunks[1..]);
    }
  }

  /** What a reader has posted, against what the stream holds: all of its frames, in order,
      up to where it is refused; only an empty body may still wait for its zero-byte read. */
  ghost predicate Meets(r: Reader, p: Parsed)
    requires ValidReader(r)
  {
    match r.phase
    case Closed => p == Parsed(r.posted, Refused)
    case Lost => p == Parsed(r.posted, NegativeLength)
    case Head => p == Parsed(r.posted, NeedMore(Unposted(r)))
    case Body(h) =>
      if Wanted(r) > 0 then p == Parsed(r.posted, NeedMore(Unposted(r)))
      else p == Parsed(r.posted + [Frame(HeaderId(h), [])], NeedMore([]))
  }

  lemma RepresentsMeets(r: Reader, s: seq<Byte>)
    requires ValidReader(r) && Represents(r, s)
    ensures Meets(r, Parse(s))
  {
    assert r.posted + [] == r.posted;
    if Reading(r) {
      if Wanted(r) > 0 {
        ReadingEnd(r);
      } else {
        ParseWhole(r.phase.head, []);
      }
    }
  }

  /** For every byte stream and every way it is cut into completions. */
  lemma ReaderMeetsParse(chunks: seq<seq<Byte>>)
    requires Admissible(Start(), chunks)
    ensures Meets(Run(Start(), chunks), Parse(Flatten(chunks)))
  {
    assert Represents(Start(), []);
    RunRepresents(Start(), chunks, []);
    assert [] + Flatten(chunks) == Flatten(chunks);
    RepresentsMeets(Run(Start(), chunks), Flatten(chunks));
  }

  /** Encoder against reader: any cutting of an encoded stream into completions posts exactly
      the encoded frames. */
  lemma EncodedFramesArePosted(fs: seq<Frame>, chunks: seq<seq<Byte>>)
    requires AllDeliverable(fs)
    requires Admissible(Start(), chunks) && Flatten(chunks) == EncodeAll(fs)
    ensures var r := Run(Start(), chunks);
            && Reading(r)
            && (Wanted(r) > 0 ==> r.posted == fs)
            && (Wanted(r) == 0 ==> fs != [] && r.posted == fs[..|fs| - 1] && fs[|fs| - 1].body == [])
  {
    RoundTrip(fs);
    ReaderMeetsParse(chunks);
    var r := Run(Start(), chunks);
    if Wanted(r) == 0 {
      assert fs == r.posted + [Frame(HeaderId(r.phase.head), [])];
      assert fs[..|fs| - 1] == r.posted;
    }
  }

  lemma SplitJoin(was: seq<Byte>, segment: seq<Byte>, n: nat)
    requires n <= |segment|
    ensures was + segment[..n] + segment[n..] == was + segment
  {
    assert segment[..n] + segment[n..] == segment;
  }

  /** A read of zero bytes ends the body it was for. */
  lemma ZeroRead(r: Reader, chunk: seq<Byte>)
    requires Reading(r) && ValidReader(r) && Fits(r, chunk)
    ensures Wanted(r) == 0 ==> chunk == [] && Complete(r, chunk).phase.Head?
  {
  }

  /** Once a reader has nothing left to do for a segment, its posts are the whole parse. */
  lemma PumpEnd(r: Reader, s: seq<Byte>, left: seq<Byte>)
    requires ValidReader(r) && Represents(r, s)
    requires Reading(r) ==> left == [] && Wanted(r) > 0
    ensures Parse(s + left).frames == r.posted
  {
    ParseExtend(s, left);
    assert r.posted + [] == r.posted;
    if Reading(r) {
      ReadingEnd(r);
      assert s + left == s;
    }
  }

  // ---------------------------------------------------------------- imperative form

  /** MsgNode: an owned buffer one byte longer than the message. */
  class MsgNode {
    var data: array<Byte>
    const totalLen: nat
    var currentLen: nat
    const msgId: Short

    ghost predicate Valid()
      reads this
    {
      data.Length == totalLen + 1
    }

    /** SendNode: header and body copied to their offsets. */
    constructor Send(body: seq<Byte>, id: Short)
      requires Encodable(Frame(id, body))
      ensures Valid() && fresh(data)
      ensures totalLen == |body| + HEAD_TOTAL_LEN && currentLen == 0 && msgId == id
      ensures data[..totalLen] == Encode(Frame(id, body)) && data[totalLen] == 0
      ensures 256 * (data[0] as int) + data[1] as int == (if id < 0 then id + 65536 else id)
      ensures 256 * (data[2] as int) + data[3] as int == |body| && data[4..totalLen] == body
    {
      totalLen := |body| + HEAD_TOTAL_LEN;
      currentLen := 0;
      msgId := id;
      data := new Byte[|body| + HEAD_TOTAL_LEN + 1](_ => 0);
      new;
      var idNet := HostToNetwork(id);
      data[0], data[1] := idNet[0], idNet[1];
      var lenNet := HostToNetwork(|body|);
      data[HEAD_ID_LEN], data[HEAD_ID_LEN + 1] := lenNet[0], lenNet[1];
      var at := HEAD_ID_LEN + HEAD_DATA_LEN;
      for i := 0 to |body|
        invariant fresh(data) && data.Length == totalLen + 1 && totalLen == |body| + 4
        invariant currentLen == 0
        invariant [data[0], data[1]] == idNet && [data[2], data[3]] == lenNet
        invariant forall j :: 0 <= j < i ==> data[at + j] == body[j]
        invariant data[totalLen] == 0
      {
        data[at + i] := body[i];
      }
      assert data[..totalLen] == idNet + lenNet + body;
    }
  }

  /** The read side of a session. */
  class SessionReader {
    const data: array<Byte>   // char _data[MAX_LENGTH]
    var readLen: nat
    var phase: Phase
    var posted: seq<Frame>
    var failed: bool          // a read completed with an error and close() was called
    ghost var consumed: seq<Byte>

    ghost predicate Valid()
      reads this, data
    {
      && data.Length == MAX_LENGTH
      && readLen <= MAX_LENGTH
      && ValidReader(Abs())
    }

    /** The reader's state is the parse of everything read so far. */
    ghost predicate Tracks()
      reads this, data
    {
      Valid() && Represents(Abs(), consumed)
    }

    ghost function Abs(): Reader
      reads this, data
      requires readLen <= data.Length
    {
      Reader(phase, data[..readLen], posted)
    }

    constructor ()
      ensures Tracks() && fresh(data)
      ensures Abs() == Start() && consumed == [] && !failed
    {
      data := new Byte[MAX_LENGTH](_ => 0);
      readLen, phase, posted, consumed, failed := 0, Head, [], [], false;
    }

    /** The socket fills `_data + read_len`. */
    method CopyIn(chunk: seq<Byte>)
      requires readLen + |chunk| <= data.Length
      modifies data
      ensures data[..readLen + |chunk|] == old(data[..readLen]) + chunk
    {
      for i := 0 to |chunk|
        invariant data[..readLen] == old(data[..readLen])
        invariant forall j :: 0 <= j < i ==> data[readLen + j] == chunk[j]
      {
        data[readLen + i] := chunk[i];
      }
    }

    /** Completion of `async_read_some`. The copy never leaves the buffer. An error closes the
        session: whatever came with it is dropped and nothing is posted. */
    method OnRead(chunk: seq<Byte>, error: bool)
      requires Valid() && Reading(Abs()) && !failed
      requires if error then |chunk| <= Wanted(Abs()) else Fits(Abs(), chunk)
      modifies this, data
      ensures Valid() && failed == error
      ensures Abs() == if error then old(Abs()) else Complete(old(Abs()), chunk)
      ensures consumed == if error then old(consumed) else old(consumed) + chunk
    {
      if error {
        CopyIn(chunk);
        assert data[..readLen] == data[..readLen + |chunk|][..readLen];
        failed := true;
        return;
      }
      var totalLen := if phase.Head? then HEAD_TOTAL_LEN else HeaderLength(phase.head);
      CopyIn(chunk);
      var filled := readLen + |chunk|;
      consumed := consumed + chunk;
      readLen := filled;
      if filled >= totalLen {
        var got := data[..filled];
        match phase {
          case Head =>
            var msgId, msgLen := HeaderId(got), HeaderLength(got);
            if msgId > MAX_LENGTH || msgLen > MAX_LENGTH {
              phase := Closed;
            } else if msgLen < 0 {
              phase := Lost;
            } else {
              phase, readLen := Body(got), 0;
            }
          case Body(h) =>
            posted := posted + [Frame(HeaderId(h), got)];
            phase, readLen := Head, 0;
        }
      }
    }

    /** Size of the read in progress. */
    function WantedNow(): nat
      requires Valid() && Reading(Abs())
      reads this, data
      ensures WantedNow() == Wanted(Abs())
    {
      (if phase.Head? then HEAD_TOTAL_LEN else HeaderLength(phase.head)) - readLen
    }

    /** One completion out of a segment; empty only for a read of zero bytes. */
    method ReadSome(segment: seq<Byte>) returns (left: seq<Byte>)
      requires Tracks() && Reading(Abs()) && !failed && (segment != [] || Wanted(Abs()) == 0)
      modifies this, data
      ensures Tracks() && !failed && consumed + left == old(consumed) + segment
      ensures |left| < |segment| || (left == segment && old(Wanted(Abs())) == 0 && phase.Head?)
    {
      var wanted := WantedNow();
      var n := if wanted <= |segment| then wanted else |segment|;
      ghost var was, before := consumed, Abs();
      var chunk := segment[..n];
      left := segment[n..];
      assert Fits(before, chunk);
      ZeroRead(before, chunk);
      SplitJoin(was, segment, n);
      CompleteRepresents(before, chunk, was);
      OnRead(chunk, false);
    }

    /** A segment that arrives on the socket is read in as many completions as it takes, unless
        completion number `failsAt` has an error. At its end every frame of the stream so far
        has been posted; after an error, those of the part that was read. */
    method Pump(segment: seq<Byte>, failsAt: nat)
      requires Tracks() && !failed && (Reading(Abs()) ==> Wanted(Abs()) > 0)
      modifies this, data
      ensures Tracks() && (Reading(Abs()) && !failed ==> Wanted(Abs()) > 0)
      ensures !failed ==> Parse(old(consumed) + segment).frames == posted
      ensures !failed && Reading(Abs()) ==> consumed == old(consumed) + segment
      ensures consumed <= old(consumed) + segment && Meets(Abs(), Parse(consumed))
    {
      var left, count := segment, 0;
      while (phase.Head? || phase.Body?) && (left != [] || WantedNow() == 0)
        invariant Tracks() && !failed && consumed + left == old(consumed) + segment
        decreases |left|, phase.Body?
      {
        if count == failsAt {
          OnRead([], true);
          RepresentsMeets(Abs(), consumed);
          return;
        }
        left := ReadSome(left);
        count := count + 1;
      }
      PumpEnd(Abs(), consumed, left);
      RepresentsMeets(Abs(), consumed);
    }
  }
}
