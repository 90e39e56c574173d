/** Length-prefixed frames over a byte stream. */
module Framing {
  import opened Base
  import opened Digest
  import opened Wire

  const LENGTH_PREFIX: nat := 4

  // The serializer, by its contract: what it encodes it decodes.
  datatype Codec<!M> = Codec(encode: M -> Option<Bytes>, decode: Bytes -> Option<M>)

  ghost predicate Sound<M(!new)>(c: Codec<M>) {
    forall m :: c.encode(m).Some? ==> c.decode(c.encode(m).value) == Some(m)
  }

  // A byte stream read to its end: `Next` is a frame and what follows it; an error also ends the reading.
  datatype Read<M> = Next(message: M, rest: Bytes) | Closed | FrameTooLarge(size: nat) | Truncated | Malformed

  datatype Encoding = Encoded | Oversized(size: nat) | Unencodable

  // ---------- the length prefix ----------

  function BigEndian(n: int): Bytes
    requires 0 <= n <= U32_MAX
  {
    [n / 0x100_0000, n / 0x1_0000 % 256, n / 256 % 256, n % 256]
  }

  function FromBigEndian(p: Bytes): int
    requires |p| == 4
  {
    ((p[0] as int * 256 + p[1]) * 256 + p[2]) * 256 + p[3]
  }

  lemma PrefixReadsBack(n: int)
    requires 0 <= n <= U32_MAX
    ensures FromBigEndian(BigEndian(n)) == n
  {
    assert n / 0x100_0000 == n / 0x1_0000 / 256;
    assert n / 0x1_0000 == n / 256 / 256;
  }

  // The most significant byte goes first.
  lemma KnownPrefix()
    ensures BigEndian(0x0102_0304) == [1, 2, 3, 4]
  {
  }

  // ---------- one frame ----------

  predicate Encodable<M>(c: Codec<M>, m: M) {
    c.encode(m).Some? && |c.encode(m).value| <= MAX_FRAME
  }

  predicate AllEncodable<M>(c: Codec<M>, ms: seq<M>) {
    forall i :: 0 <= i < |ms| ==> Encodable(c, ms[i])
  }

  function FrameOf<M>(c: Codec<M>, m: M): Bytes
    requires Encodable(c, m)
  {
    BigEndian(|c.encode(m).value|) + c.encode(m).value
  }

  // The caller-owned buffer a frame is appended to.
  class OutBuffer {
    var bytes: Bytes

    constructor ()
      ensures bytes == []
    {
      bytes := [];
    }

    // `encode_frame`: appends a whole frame, or refuses and leaves the buffer as it was.
    method EncodeFrame<M>(c: Codec<M>, m: M) returns (r: Encoding)
      modifies this
      ensures r.Encoded? <==> Encodable(c, m)
      ensures bytes == old(bytes) + if Encodable(c, m) then FrameOf(c, m) else []
      ensures c.encode(m).None? ==> r == Unencodable
      ensures c.encode(m).Some? && !r.Encoded? ==> r == Oversized(|c.encode(m).value|)
    {
      var body := c.encode(m);
      if body.None? {
        return Unencodable;
      }
      if |body.value| > MAX_FRAME {
        return Oversized(|body.value|);
      }
      bytes := bytes + BigEndian(|body.value|);
      bytes := bytes + body.value;
      return Encoded;
    }
  }

  // `read_frame`. A stream that ends inside a length prefix counts as closed, as `read_exact` reports it.
  function ReadFrame<M>(c: Codec<M>, stream: Bytes): Read<M> {
    if |stream| < LENGTH_PREFIX then Closed
    else
      var size := FromBigEndian(stream[..4]);
      if size > MAX_FRAME then FrameTooLarge(size)
      else if |stream| < 4 + size then Truncated
      else
        match c.decode(stream[4..4 + size])
        case Some(m) => Next(m, stream[4 + size..])
        case None => Malformed
  }

  // The reader task: frames until the stream stops yielding one.
  function ReadAll<M>(c: Codec<M>, stream: Bytes): seq<M>
    decreases |stream|
  {
    match ReadFrame(c, stream)
    case Next(m, rest) => [m] + ReadAll(c, rest)
    case _ => []
  }

  function Concat<M>(c: Codec<M>, ms: seq<M>): Bytes
    requires AllEncodable(c, ms)
  {
    if ms == [] then [] else FrameOf(c, ms[0]) + Concat(c, ms[1..])
  }

  // ---------- round trips ----------

  lemma FrameReadsBack<M(!new)>(c: Codec<M>, m: M, rest: Bytes)
    requires Sound(c) && Encodable(c, m)
    ensures ReadFrame(c, FrameOf(c, m) + rest) == Next(m, rest)
  {
    var body := c.encode(m).value;
    var stream := FrameOf(c, m) + rest;
    PrefixReadsBack(|body|);
    assert stream[..4] == BigEndian(|body|);
    assert stream[4..4 + |body|] == body;
    assert stream[4 + |body|..] == rest;
  }

  // Cutting a frame short yields no message at all.
  lemma CutFrameYieldsNothing<M>(c: Codec<M>, m: M, n: nat)
    requires Encodable(c, m) && n < |FrameOf(c, m)|
    ensures ReadFrame(c, FrameOf(c, m)[..n]) == if n < LENGTH_PREFIX then Closed else Truncated
  {
    var body := c.encode(m).value;
    PrefixReadsBack(|body|);
    if n >= 4 {
      assert FrameOf(c, m)[..n][..4] == BigEndian(|body|);
    }
  }

  // How many whole frames the first `n` bytes hold.
  function WholeFrames<M>(c: Codec<M>, ms: seq<M>, n: nat): (k: nat)
    requires AllEncodable(c, ms)
    ensures k <= |ms|
  {
    if ms == [] || n < |FrameOf(c, ms[0])| then 0
    else 1 + WholeFrames(c, ms[1..], n - |FrameOf(c, ms[0])|)
  }

  lemma FirstIsRead<M(!new)>(c: Codec<M>, m: M, rest: Bytes, n: nat)
    requires Sound(c) && Encodable(c, m) && n <= |FrameOf(c, m)| + |rest|
    ensures ReadAll(c, (FrameOf(c, m) + rest)[..n])
         == if n < |FrameOf(c, m)| then [] else [m] + ReadAll(c, rest[..n - |FrameOf(c, m)|])
  {
    hide FrameOf, ReadFrame, Encodable, Sound;
    var first := FrameOf(c, m);
    if n < |first| {
      assert (first + rest)[..n] == first[..n];
      CutFrameYieldsNothing(c, m, n);
    } else {
      assert (first + rest)[..n] == first + rest[..n - |first|];
      FrameReadsBack(c, m, rest[..n - |first|]);
    }
  }

  // The first `n` bytes of a sent stream read back as exactly the messages they hold in full:
  // always a prefix of what was sent, and never a message that was not.
  lemma {:induction false} PrefixReadsAPrefix<M(!new)>(c: Codec<M>, ms: seq<M>, n: nat)
    requires Sound(c) && AllEncodable(c, ms)
    requires n <= |Concat(c, ms)|
    ensures ReadAll(c, Concat(c, ms)[..n]) == ms[..WholeFrames(c, ms, n)]
    decreases |ms|
  {
    hide FrameOf, ReadFrame, ReadAll, Encodable, Sound;
    if ms == [] {
      NothingIsRead(c);
      assert Concat(c, ms)[..n] == [];
    } else {
      var first, rest := FrameOf(c, ms[0]), Concat(c, ms[1..]);
      FirstIsRead(c, ms[0], rest, n);
      if n >= |first| {
        PrefixReadsAPrefix(c, ms[1..], n - |first|);
        TakeCons(ms, WholeFrames(c, ms[1..], n - |first|));
      }
    }
  }

  lemma NothingIsRead<M>(c: Codec<M>)
    ensures ReadAll(c, []) == []
  {
  }

  lemma TakeCons<M>(ms: seq<M>, k: nat)
    requires k < |ms|
    ensures [ms[0]] + ms[1..][..k] == ms[..k + 1]
  {
  }

  lemma {:induction false} WholeStreamHoldsAll<M>(c: Codec<M>, ms: seq<M>)
    requires AllEncodable(c, ms)
    ensures WholeFrames(c, ms, |Concat(c, ms)|) == |ms|
    decreases |ms|
  {
    if ms != [] { WholeStreamHoldsAll(c, ms[1..]); }
  }

  // The whole stream reads back as the list that was sent.
  lemma StreamRoundTrip<M(!new)>(c: Codec<M>, ms: seq<M>)
    requires Sound(c) && AllEncodable(c, ms)
    ensures ReadAll(c, Concat(c, ms)) == ms
  {
    var stream := Concat(c, ms);
    assert stream[..|stream|] == stream;
    PrefixReadsAPrefix(c, ms, |stream|);
    WholeStreamHoldsAll(c, ms);
  }

  // ---------- room for the envelope ----------

  // Bytes of a base-128 varint.
  function VarintLen(n: nat): nat { if n < 128 then 1 else 1 + VarintLen(n / 128) }

  lemma {:induction false} VarintLenBound(n: nat, bits: nat)
    requires n < Pow2(7 * bits) && bits > 0
    ensures VarintLen(n) <= bits
    decreases bits
  {
    if bits == 1 {
      assert Pow2(7) == 128;
    } else if n >= 128 {
      Pow2Adds(7, 7 * (bits - 1));
      assert Pow2(7) == 128;
      VarintLenBound(n / 128, bits - 1);
    }
  }

  lemma U64VarintFits(n: u64)
    ensures VarintLen(n) <= 10
  {
    assert Pow2(7) == 128;
    Pow2Adds(7, 7);
    Pow2Adds(14, 14);
    Pow2Adds(28, 28);
    Pow2Adds(56, 14);
    VarintLenBound(n, 10);
  }

  // postcard: a variant index, then the fields; a byte string is its length and its bytes.
  function ArtifactSize(a: Artifact): nat
  {
    VarintLen(|a.bytes|) + |a.bytes| + VarintLen(a.digest)
  }

  function ProducedSize(task: TaskId, a: Artifact): nat { 1 + VarintLen(task) + ArtifactSize(a) }

  function WireSpecSize(w: WireSpec): nat {
    match w
    case WireSleep(millis) => 1 + VarintLen(millis)
    case WirePrimes(start, end) => 1 + VarintLen(start) + VarintLen(end)
    case WireAnalysis(version, algorithm, partition, input) =>
      1 + VarintLen(version) + VarintLen(algorithm) + VarintLen(partition) + ArtifactSize(input)
  }

  function AssignSize(task: TaskId, w: WireSpec): nat { 1 + VarintLen(task) + WireSpecSize(w) }

  lemma ArtifactSizeBound(a: Artifact)
    requires |a.bytes| <= MAX_ARTIFACT
    ensures ArtifactSize(a) <= |a.bytes| + 20
  {
    U64VarintFits(|a.bytes|);
    U64VarintFits(a.digest);
  }

  // A result within the artifact cap always fits a frame.
  lemma ProducedFits(task: TaskId, a: Artifact)
    requires |a.bytes| <= MAX_ARTIFACT
    ensures ProducedSize(task, a) <= MAX_FRAME
  {
    ArtifactSizeBound(a);
    U64VarintFits(task);
  }

  // Whatever `WireTaskSpec::of` agrees to ship fits a frame, so the encoder never refuses an assignment.
  lemma ShippedFits(task: TaskId, spec: Jobs.TaskSpec, input: Option<Bytes>)
    requires ToWire(spec, input).Ship?
    ensures AssignSize(task, ToWire(spec, input).wire) <= MAX_FRAME
  {
    U64VarintFits(task);
    match ToWire(spec, input).wire
    case WireSleep(millis) => U64VarintFits(millis);
    case WirePrimes(start, end) => U64VarintFits(start); U64VarintFits(end);
    case WireAnalysis(version, algorithm, partition, a) =>
      U64VarintFits(version);
      U64VarintFits(algorithm);
      U64VarintFits(partition);
      ArtifactSizeBound(a);
  }

  // ---------- every outcome of a read ----------

  // The first four bytes announce this many.
  ghost predicate Announces(stream: Bytes, size: int) {
    |stream| >= LENGTH_PREFIX && 0 <= size <= U32_MAX && stream[..4] == BigEndian(size)
  }

  lemma AnnouncedIsRead(stream: Bytes, size: int)
    ensures Announces(stream, size) <==> |stream| >= 4 && FromBigEndian(stream[..4]) == size
  {
    if Announces(stream, size) {
      PrefixReadsBack(size);
    }
    if |stream| >= 4 && FromBigEndian(stream[..4]) == size {
      ReadIsWritten(stream[..4]);
    }
  }

  lemma ReadIsWritten(p: Bytes)
    requires |p| == 4
    ensures 0 <= FromBigEndian(p) <= U32_MAX && BigEndian(FromBigEndian(p)) == p
  {
    var n := FromBigEndian(p);
    var high := (p[0] as int * 256 + p[1]) * 256 + p[2];
    assert n / 256 == high && n % 256 == p[3];
    assert high / 256 == p[0] as int * 256 + p[1] && high % 256 == p[2];
    assert n / 0x1_0000 == high / 256;
    assert n / 0x100_0000 == high / 0x1_0000 == p[0];
  }

  // The announced size is read, and is the only one announced.
  lemma OneAnnouncement(stream: Bytes) returns (n: int)
    requires |stream| >= 4
    ensures n == FromBigEndian(stream[..4]) && Announces(stream, n) && forall k :: Announces(stream, k) ==> k == n
  {
    hide FromBigEndian, BigEndian;
    n := FromBigEndian(stream[..4]);
    AnnouncedIsRead(stream, n);
    forall k | Announces(stream, k)
      ensures k == n
    {
      AnnouncedIsRead(stream, k);
    }
  }

  // An announcement over the cap is refused whatever follows, even nothing; and a stream that ends early is closed or
  // cut.
  lemma RefusalsAre<M>(c: Codec<M>, stream: Bytes, size: int)
    ensures ReadFrame(c, stream).FrameTooLarge? && ReadFrame(c, stream).size == size
       <==> Announces(stream, size) && size > MAX_FRAME
    ensures ReadFrame(c, stream).Closed? <==> |stream| < LENGTH_PREFIX
    ensures ReadFrame(c, stream).Truncated? <==> exists n :: Announces(stream, n) && n <= MAX_FRAME && |stream| < 4 + n
  {
    if |stream| >= 4 {
      var n := OneAnnouncement(stream);
      hide FromBigEndian, Announces;
    }
  }

  // A message is read exactly when a whole body of an allowed size is there and decodes to it.
  lemma ReadFrameIs<M>(c: Codec<M>, stream: Bytes, m: M, rest: Bytes)
    ensures ReadFrame(c, stream) == Next(m, rest)
       <==> exists body: Bytes ::
              |body| <= MAX_FRAME && stream == BigEndian(|body|) + body + rest && c.decode(body) == Some(m)
  {
    hide FromBigEndian, BigEndian;
    if ReadFrame(c, stream) == Next(m, rest) {
      var n := OneAnnouncement(stream);
      var body := stream[4..4 + n];
      assert stream == stream[..4] + body + stream[4 + n..];
      assert |body| <= MAX_FRAME && stream == BigEndian(|body|) + body + rest && c.decode(body) == Some(m);
    }
    if body: Bytes :| |body| <= MAX_FRAME && stream == BigEndian(|body|) + body + rest && c.decode(body) == Some(m) {
      BodyIsRead(c, body, rest);
    }
  }

  lemma BodyIsRead<M>(c: Codec<M>, body: Bytes, rest: Bytes)
    requires |body| <= MAX_FRAME && c.decode(body).Some?
    ensures ReadFrame(c, BigEndian(|body|) + body + rest) == Next(c.decode(body).value, rest)
  {
    var stream := BigEndian(|body|) + body + rest;
    PrefixReadsBack(|body|);
    assert stream[..4] == BigEndian(|body|) && stream[4..4 + |body|] == body && stream[4 + |body|..] == rest;
  }

  // A message can be framed exactly when the reader would take its frame.
  lemma FramedIfReadable<M(!new)>(c: Codec<M>, m: M)
    requires Sound(c) && c.encode(m).Some? && |c.encode(m).value| <= U32_MAX
    ensures Encodable(c, m)
       <==> ReadFrame(c, BigEndian(|c.encode(m).value|) + c.encode(m).value + []) == Next(m, [])
  {
    var body := c.encode(m).value;
    var stream := BigEndian(|body|) + body + [];
    ReadFrameIs(c, stream, m, []);
    PrefixReadsBack(|body|);
    assert stream[..4] == BigEndian(|body|);
    hide BigEndian, FromBigEndian;
  }
}
