/** internal/avatarimage/image.go: the walk over the RIFF chunks of a WebP file (section 2.3 of RFC 9649).
    The VP8 and VP8L header decoders are parameters. */
module WebP {
  import opened Prelude
  import opened Bytes

  datatype Size = Size(width: int, height: int)

  datatype Decoders = Decoders(lossy: seq<Byte> -> Option<Size>, lossless: seq<Byte> -> Option<Size>)

  datatype Inspection = Inspection(animated: bool, width: int, height: int)

  datatype Chunk = Chunk(id: seq<Byte>, data: seq<Byte>, padding: seq<Byte>)

  datatype Kind = Extended | Animation | Lossy | Lossless | Unknown

  const RIFF: seq<Byte> := [82, 73, 70, 70]
  const WEBP: seq<Byte> := [87, 69, 66, 80]

  function KindOf(id: seq<Byte>): Kind {
    if id == [86, 80, 56, 88] then Extended
    else if id == [65, 78, 73, 77] || id == [65, 78, 77, 70] then Animation
    else if id == [86, 80, 56, 32] then Lossy
    else if id == [86, 80, 56, 76] then Lossless
    else Unknown
  }

  const TWO_TO_32 := 0x1_0000_0000

  /** The `width` low bytes of `n`, least significant first. */
  function Little(n: nat, width: nat): (bytes: seq<Byte>)
    ensures |bytes| == width
  {
    if width == 0 then [] else [n % 256] + Little(n / 256, width - 1)
  }

  function FromLittle(bytes: seq<Byte>): nat {
    if bytes == [] then 0 else bytes[0] as int + 256 * FromLittle(bytes[1..])
  }

  lemma {:induction false} LittleRoundTrip(n: nat, width: nat)
    requires n < Power256(width)
    ensures FromLittle(Little(n, width)) == n
  {
    if width > 0 {
      LittleRoundTrip(n / 256, width - 1);
      assert Little(n, width)[1..] == Little(n / 256, width - 1);
    }
  }

  lemma {:induction false} FromLittleRoundTrip(bytes: seq<Byte>)
    ensures FromLittle(bytes) < Power256(|bytes|) && Little(FromLittle(bytes), |bytes|) == bytes
  {
    if bytes != [] {
      FromLittleRoundTrip(bytes[1..]);
      var n := FromLittle(bytes);
      assert n / 256 == FromLittle(bytes[1..]) && n % 256 == bytes[0];
      assert bytes == [bytes[0]] + bytes[1..];
    }
  }

  lemma Power256Of4()
    ensures Power256(4) == TWO_TO_32
  {
    assert Power256(2) == 65536;
  }

  function LittleEndian(n: nat): (bytes: seq<Byte>)
    ensures |bytes| == 4
  {
    Little(n, 4)
  }

  function FromLittleEndian(bytes: seq<Byte>): nat {
    FromLittle(bytes)
  }

  lemma LittleEndianRoundTrip(n: nat)
    requires n < TWO_TO_32
    ensures FromLittleEndian(LittleEndian(n)) == n
  {
    Power256Of4();
    LittleRoundTrip(n, 4);
  }

  lemma FromLittleEndianRoundTrip(bytes: seq<Byte>)
    requires |bytes| == 4
    ensures FromLittleEndian(bytes) < TWO_TO_32 && LittleEndian(FromLittleEndian(bytes)) == bytes
  {
    Power256Of4();
    FromLittleRoundTrip(bytes);
  }

  // ----- the file format -----

  ghost predicate WellFormed(c: Chunk) {
    |c.id| == 4 && |c.data| < TWO_TO_32 && |c.padding| == |c.data| % 2
  }

  ghost predicate AllWellFormed(chunks: seq<Chunk>) {
    forall k :: 0 <= k < |chunks| ==> WellFormed(chunks[k])
  }

  ghost function ChunkBytes(c: Chunk): seq<Byte> {
    c.id + LittleEndian(|c.data|) + c.data + c.padding
  }

  ghost function Body(chunks: seq<Chunk>): seq<Byte> {
    if chunks == [] then [] else ChunkBytes(chunks[0]) + Body(chunks[1..])
  }

  /** Chunks that fit into a container. */
  ghost predicate Fits(chunks: seq<Chunk>) {
    chunks != [] && AllWellFormed(chunks) && |Body(chunks)| + 4 < TWO_TO_32
  }

  /** A RIFF file of form WEBP; `rest` is whatever follows the container. */
  ghost function File(chunks: seq<Chunk>, rest: seq<Byte>): seq<Byte> {
    Container(Body(chunks), rest)
  }

  ghost function Container(body: seq<Byte>, rest: seq<Byte>): seq<Byte> {
    [82, 73, 70, 70] + LittleEndian(|body| + 4) + [87, 69, 66, 80] + body + rest
  }

  // ----- what the chunks say -----

  datatype Walk = Walk(animated: bool, extended: bool, frame: Option<Size>)

  predicate Flagged(data: seq<Byte>) {
    |data| > 0 && data[0] / 2 % 2 == 1
  }

  function Frame(w: Walk, size: Option<Size>): Option<Walk> {
    if w.frame.Some? || size.None? || size.value.width <= 0 || size.value.height <= 0 then None
    else Some(w.(frame := size))
  }

  function Step(d: Decoders, w: Walk, id: seq<Byte>, data: seq<Byte>): Option<Walk> {
    match KindOf(id)
    case Extended => if w.extended || |data| != 10 then None else Some(w.(extended := true, animated := Flagged(data)))
    case Animation => Some(w.(animated := true))
    case Lossy => Frame(w, d.lossy(data))
    case Lossless => Frame(w, d.lossless(data))
    case Unknown => Some(w)
  }

  function Fold(d: Decoders, chunks: seq<Chunk>): Option<Walk> {
    if chunks == [] then Some(Walk(false, false, None))
    else
      var before := Fold(d, chunks[..|chunks| - 1]);
      if before.None? then None else Step(d, before.value, chunks[|chunks| - 1].id, chunks[|chunks| - 1].data)
  }

  function Conclude(w: Walk): Option<Inspection> {
    if !w.animated && w.frame.None? then None
    else if w.frame.None? then Some(Inspection(w.animated, 0, 0))
    else Some(Inspection(w.animated, w.frame.value.width, w.frame.value.height))
  }

  function Verdict(d: Decoders, chunks: seq<Chunk>): Option<Inspection> {
    var w := Fold(d, chunks);
    if w.None? then None else Conclude(w.value)
  }

  lemma {:induction false} FoldFails(d: Decoders, chunks: seq<Chunk>, more: seq<Chunk>)
    requires Fold(d, chunks).None?
    ensures Fold(d, chunks + more).None?
  {
    if more == [] {
      assert chunks + more == chunks;
    } else {
      FoldFails(d, chunks, more[..|more| - 1]);
      assert (chunks + more)[..|chunks + more| - 1] == chunks + more[..|more| - 1];
    }
  }

  // ----- parsing -----

  function SizeField(bytes: seq<Byte>): nat
    requires |bytes| >= 8
  {
    FromLittleEndian(bytes[4..8])
  }

  /** Where the chunk at the front of `bytes` ends, padding included. */
  function ChunkEnd(bytes: seq<Byte>): (end: nat)
    requires |bytes| >= 8
    ensures end >= 8 + SizeField(bytes) >= 8
  {
    8 + SizeField(bytes) + SizeField(bytes) % 2
  }

  function FirstChunk(bytes: seq<Byte>): Chunk
    requires |bytes| >= 8 && ChunkEnd(bytes) <= |bytes|
  {
    Chunk(bytes[..4], bytes[8..8 + SizeField(bytes)], bytes[8 + SizeField(bytes)..ChunkEnd(bytes)])
  }

  /** The chunks that tile `bytes`, if any do. */
  function Parse(bytes: seq<Byte>): Option<seq<Chunk>> {
    if bytes == [] then Some([])
    else if |bytes| < 8 || ChunkEnd(bytes) > |bytes| then None
    else
      var rest := Parse(bytes[ChunkEnd(bytes)..]);
      if rest.None? then None else Some([FirstChunk(bytes)] + rest.value)
  }

  lemma Parts(bytes: seq<Byte>, end: nat, size: nat)
    requires 8 + size <= end <= |bytes|
    ensures bytes[..4] + bytes[4..8] + bytes[8..8 + size] + bytes[8 + size..end] == bytes[..end]
  {
  }

  lemma FirstChunkBytes(bytes: seq<Byte>)
    requires |bytes| >= 8 && ChunkEnd(bytes) <= |bytes|
    ensures WellFormed(FirstChunk(bytes)) && ChunkBytes(FirstChunk(bytes)) == bytes[..ChunkEnd(bytes)]
  {
    FromLittleEndianRoundTrip(bytes[4..8]);
    Parts(bytes, ChunkEnd(bytes), SizeField(bytes));
  }

  lemma BodyMore(c: Chunk, tail: seq<Chunk>)
    ensures Body([c] + tail) == ChunkBytes(c) + Body(tail)
    ensures AllWellFormed([c] + tail) <==> WellFormed(c) && AllWellFormed(tail)
  {
    var all := [c] + tail;
    assert all[1..] == tail && all[0] == c;
    assert forall k :: 0 <= k < |tail| ==> tail[k] == all[k + 1];
  }

  lemma {:induction false} ParseSound(bytes: seq<Byte>)
    requires Parse(bytes).Some?
    ensures AllWellFormed(Parse(bytes).value) && Body(Parse(bytes).value) == bytes
    decreases |bytes|
  {
    if bytes != [] {
      var c, end := FirstChunk(bytes), ChunkEnd(bytes);
      var tail := Parse(bytes[end..]).value;
      assert AllWellFormed(tail) && Body(tail) == bytes[end..] by {
        ParseSound(bytes[end..]);
      }
      assert WellFormed(c) && ChunkBytes(c) == bytes[..end] by {
        FirstChunkBytes(bytes);
      }
      assert bytes == bytes[..end] + bytes[end..];
      BodyMore(c, tail);
    }
  }

  lemma ChunkIsFirst(c: Chunk, tail: seq<Byte>)
    requires WellFormed(c)
    ensures var bytes := ChunkBytes(c) + tail;
      |bytes| >= 8 && ChunkEnd(bytes) <= |bytes| && FirstChunk(bytes) == c && bytes[ChunkEnd(bytes)..] == tail
  {
    var bytes := ChunkBytes(c) + tail;
    assert bytes[4..8] == LittleEndian(|c.data|);
    LittleEndianRoundTrip(|c.data|);
    assert ChunkEnd(bytes) == |ChunkBytes(c)|;
    var body := c.data + c.padding + tail;
    assert bytes[8..] == body;
    assert bytes[..4] == c.id;
    assert bytes[8..8 + |c.data|] == body[..|c.data|] == c.data;
    assert bytes[8 + |c.data|..ChunkEnd(bytes)] == body[|c.data|..|c.data| + |c.padding|] == c.padding;
  }

  lemma {:induction false} ParseComplete(chunks: seq<Chunk>)
    requires AllWellFormed(chunks)
    ensures Parse(Body(chunks)) == Some(chunks)
  {
    if chunks != [] {
      var tail := chunks[1..];
      ParseComplete(tail);
      ChunkIsFirst(chunks[0], Body(tail));
      assert chunks == [chunks[0]] + tail;
    }
  }

  lemma ChunkIsEven(c: Chunk)
    requires WellFormed(c)
    ensures |ChunkBytes(c)| % 2 == 0 && |ChunkBytes(c)| >= 8
  {
  }

  lemma EvenSum(a: int, b: int)
    requires a % 2 == 0 && b % 2 == 0
    ensures (a + b) % 2 == 0
  {
  }

  lemma {:induction false} BodyIsEven(chunks: seq<Chunk>)
    requires AllWellFormed(chunks)
    ensures |Body(chunks)| % 2 == 0 && (chunks == [] <==> Body(chunks) == []) && (chunks != [] ==> |Body(chunks)| >= 8)
  {
    if chunks != [] {
      var a, b := |ChunkBytes(chunks[0])|, |Body(chunks[1..])|;
      assert |Body(chunks)| == a + b;
      assert b % 2 == 0 by {
        BodyIsEven(chunks[1..]);
      }
      ChunkIsEven(chunks[0]);
      EvenSum(a, b);
    }
  }

  // ----- the code -----

  /** The end of the container that the header declares, if the header is in order. */
  function Header(data: seq<Byte>): (end: Option<nat>)
    ensures end.Some? ==> 16 <= end.value <= |data|
  {
    if |data| < 16 || data[..4] != RIFF || data[8..12] != WEBP then None
    else
      var declared := FromLittleEndian(data[4..8]) + 8;
      if declared < 16 || declared > |data| then None else Some(declared)
  }

  function Inspected(d: Decoders, data: seq<Byte>): Option<Inspection> {
    var end := Header(data);
    if end.None? then None
    else
      var chunks := Parse(data[12..end.value]);
      if chunks.None? then None else Verdict(d, chunks.value)
  }

  /** Parsing has found `done` on the way to `all` and still has to parse `bytes`. */
  ghost predicate Resumes(all: Option<seq<Chunk>>, done: seq<Chunk>, bytes: seq<Byte>) {
    var rest := Parse(bytes);
    if rest.None? then all.None? else all == Some(done + rest.value)
  }

  lemma ResumesNext(all: Option<seq<Chunk>>, done: seq<Chunk>, bytes: seq<Byte>)
    requires bytes != [] && Resumes(all, done, bytes)
    ensures if |bytes| < 8 || ChunkEnd(bytes) > |bytes| then all.None?
      else Resumes(all, done + [FirstChunk(bytes)], bytes[ChunkEnd(bytes)..])
  {
    if |bytes| >= 8 && ChunkEnd(bytes) <= |bytes| {
      var rest := Parse(bytes[ChunkEnd(bytes)..]);
      if rest.Some? {
        assert done + ([FirstChunk(bytes)] + rest.value) == done + [FirstChunk(bytes)] + rest.value;
      }
    }
  }

  lemma SubSlice(s: seq<Byte>, a: nat, b: nat, c: nat, d: nat)
    requires a <= b <= |s| && c <= d <= b - a
    ensures s[a..b][c..d] == s[a + c..a + d]
  {
    var x, y := s[a..b][c..d], s[a + c..a + d];
    forall k | 0 <= k < |x| ensures x[k] == y[k] {
      assert x[k] == s[a..b][c + k] == s[a + c + k];
    }
  }

  lemma FirstChunkAt(data: seq<Byte>, offset: nat, end: nat)
    requires offset + 8 <= end <= |data|
    ensures var bytes, size := data[offset..end], FromLittleEndian(data[offset + 4..offset + 8]);
      var next := offset + 8 + size + size % 2;
      && ChunkEnd(bytes) == next - offset
      && (next <= end ==>
            FirstChunk(bytes) == ChunkAt(data, offset, size) && bytes[ChunkEnd(bytes)..] == data[next..end])
  {
    SubSlice(data, offset, end, 0, 4);
    SubSlice(data, offset, end, 4, 8);
    var bytes := data[offset..end];
    if offset + ChunkEnd(bytes) <= end {
      SubSlice(data, offset, end, 8, 8 + SizeField(bytes));
      SubSlice(data, offset, end, 8 + SizeField(bytes), ChunkEnd(bytes));
      SubSlice(data, offset, end, ChunkEnd(bytes), end - offset);
    }
  }

  ghost function ChunkAt(data: seq<Byte>, offset: nat, size: nat): Chunk
    requires offset + 8 + size + size % 2 <= |data|
  {
    Chunk(data[offset..offset + 4], data[offset + 8..offset + 8 + size],
      data[offset + 8 + size..offset + 8 + size + size % 2])
  }

  lemma ResumesAt(data: seq<Byte>, offset: nat, end: nat, all: Option<seq<Chunk>>, done: seq<Chunk>)
    requires offset < end <= |data| && Resumes(all, done, data[offset..end])
    ensures offset + 8 > end ==> all.None?
    ensures offset + 8 <= end ==>
      var size := FromLittleEndian(data[offset + 4..offset + 8]);
      var next := offset + 8 + size + size % 2;
      if next > end then all.None? else Resumes(all, done + [ChunkAt(data, offset, size)], data[next..end])
  {
    ResumesNext(all, done, data[offset..end]);
    if offset + 8 <= end {
      FirstChunkAt(data, offset, end);
    }
  }

  /** The switch of inspectWebP over one chunk */
  method Apply(d: Decoders, w: Walk, id: seq<Byte>, chunkData: seq<Byte>) returns (r: Option<Walk>)
    ensures r == Step(d, w, id, chunkData)
  {
    match KindOf(id) {
      case Extended =>
        if w.extended || |chunkData| != 10 {
          return None;
        }
        return Some(w.(extended := true, animated := chunkData[0] / 2 % 2 == 1));
      case Animation =>
        return Some(w.(animated := true));
      case Lossy =>
        if w.frame.Some? {
          return None;
        }
        var frame := d.lossy(chunkData);
        if frame.None? || frame.value.width <= 0 || frame.value.height <= 0 {
          return None;
        }
        return Some(w.(frame := frame));
      case Lossless =>
        if w.frame.Some? {
          return None;
        }
        var frame := d.lossless(chunkData);
        if frame.None? || frame.value.width <= 0 || frame.value.height <= 0 {
          return None;
        }
        return Some(w.(frame := frame));
      case Unknown =>
        return Some(w);
    }
  }

  /** One turn of the loop: the next offset and walk. */
  method Advance(d: Decoders, data: seq<Byte>, offset: nat, end: nat, w: Walk) returns (r: Option<(nat, Walk)>)
    requires offset < end <= |data|
    ensures r == Turn(d, data, offset, end, w)
  {
    if offset + 8 > end {
      return None;
    }
    var size, payload := FromLittleEndian(data[offset + 4..offset + 8]), offset + 8;
    if size > end - payload {
      return None;
    }
    var step := Apply(d, w, data[offset..offset + 4], data[payload..payload + size]);
    var next := payload + size + size % 2;
    if step.None? || next > end {
      return None;
    }
    return Some((next, step.value));
  }

  /** A turn over a chunk that is there and has a meaning. */
  function Turn(d: Decoders, data: seq<Byte>, offset: nat, end: nat, w: Walk): Option<(nat, Walk)>
    requires offset < end <= |data|
  {
    if offset + 8 > end then None
    else
      var size := FromLittleEndian(data[offset + 4..offset + 8]);
      var next := offset + 8 + size + size % 2;
      if next > end then None
      else
        var step := Step(d, w, data[offset..offset + 4], data[offset + 8..offset + 8 + size]);
        if step.None? then None else Some((next, step.value))
  }

  ghost predicate Fails(d: Decoders, all: Option<seq<Chunk>>) {
    all.None? || Verdict(d, all.value).None?
  }

  lemma FoldMore(d: Decoders, done: seq<Chunk>, c: Chunk)
    requires Fold(d, done).Some?
    ensures Fold(d, done + [c]) == Step(d, Fold(d, done).value, c.id, c.data)
  {
    assert (done + [c])[..|done|] == done;
  }

  lemma StepFails(d: Decoders, all: Option<seq<Chunk>>, done: seq<Chunk>, bytes: seq<Byte>)
    requires Fold(d, done).None? && Resumes(all, done, bytes)
    ensures Fails(d, all)
  {
    if all.Some? {
      FoldFails(d, done, Parse(bytes).value);
    }
  }

  /** The walk has folded `done` and stands at `offset`. */
  ghost predicate Stands(d: Decoders, data: seq<Byte>, offset: nat, end: nat, w: Walk, all: Option<seq<Chunk>>,
          done: seq<Chunk>)
    requires offset <= end <= |data|
  {
    Fold(d, done) == Some(w) && Resumes(all, done, data[offset..end])
  }

  lemma TurnStands(d: Decoders, data: seq<Byte>, offset: nat, end: nat, w: Walk, all: Option<seq<Chunk>>,
          done: seq<Chunk>)
    returns (more: seq<Chunk>)
    requires offset < end <= |data| && Stands(d, data, offset, end, w, all, done)
    ensures var turn := Turn(d, data, offset, end, w);
      if turn.None? then Fails(d, all)
      else offset < turn.value.0 <= end && Stands(d, data, turn.value.0, end, turn.value.1, all, more)
  {
    ResumesAt(data, offset, end, all, done);
    more := done;
    if offset + 8 <= end {
      var size := FromLittleEndian(data[offset + 4..offset + 8]);
      var next := offset + 8 + size + size % 2;
      if next <= end {
        var c := ChunkAt(data, offset, size);
        more := done + [c];
        FoldMore(d, done, c);
        if Fold(d, more).None? {
          StepFails(d, all, more, data[next..end]);
        }
      }
    }
  }

  /** inspectWebP; None is an invalid file */
  method Inspect(d: Decoders, data: seq<Byte>) returns (r: Option<Inspection>)
    ensures r == Inspected(d, data)
  {
    if |data| < 16 || data[..4] != RIFF || data[8..12] != WEBP {
      return None;
    }
    var declared := FromLittleEndian(data[4..8]) + 8;
    if declared < 16 || declared > |data| {
      return None;
    }
    ghost var all := Parse(data[12..declared]);
    var offset, w := 12, Walk(false, false, None);
    ghost var done: seq<Chunk> := [];
    assert all.Some? ==> done + all.value == all.value;
    while offset < declared
      invariant 12 <= offset <= declared && Stands(d, data, offset, declared, w, all, done)
    {
      done := TurnStands(d, data, offset, declared, w, all, done);
      var step := Advance(d, data, offset, declared, w);
      if step.None? {
        return None;
      }
      offset, w := step.value.0, step.value.1;
    }
    assert done + [] == done;
    r := Conclude(w);
  }

  // ----- what success means -----

  lemma FileHeader(chunks: seq<Chunk>, rest: seq<Byte>)
    requires Fits(chunks)
    ensures var data := File(chunks, rest);
      Header(data) == Some(|Body(chunks)| + 12) && data[12..|Body(chunks)| + 12] == Body(chunks)
  {
    BodyIsEven(chunks);
    var data, size := File(chunks, rest), |Body(chunks)| + 4;
    LittleEndianRoundTrip(size);
    assert data[..4] == RIFF && data[4..8] == LittleEndian(size) && data[8..12] == WEBP;
  }

  /** Every well-formed file gets the verdict on its chunks. */
  lemma FilesAreJudged(d: Decoders, chunks: seq<Chunk>, rest: seq<Byte>)
    requires Fits(chunks)
    ensures Inspected(d, File(chunks, rest)) == Verdict(d, chunks)
  {
    FileHeader(chunks, rest);
    ParseComplete(chunks);
  }

  lemma Cut(data: seq<Byte>, end: nat)
    requires 12 <= end <= |data|
    ensures data == data[..4] + data[4..8] + data[8..12] + data[12..end] + data[end..]
  {
  }

  lemma HeaderCuts(data: seq<Byte>, end: nat, body: seq<Byte>)
    requires Header(data) == Some(end) && body == data[12..end]
    ensures |body| == end - 12 && 4 <= |body| && |body| + 4 < TWO_TO_32
    ensures data == Container(body, data[end..])
  {
    FromLittleEndianRoundTrip(data[4..8]);
    Cut(data, end);
  }

  lemma BodyFits(chunks: seq<Chunk>, end: nat)
    requires AllWellFormed(chunks) && 16 <= end == |Body(chunks)| + 12 && end - 8 < TWO_TO_32
    ensures Fits(chunks) && end % 2 == 0
  {
    BodyIsEven(chunks);
    EvenSum(|Body(chunks)|, 12);
  }

  lemma HeaderParses(data: seq<Byte>) returns (chunks: seq<Chunk>)
    requires Header(data).Some? && Parse(data[12..Header(data).value]).Some?
    ensures chunks == Parse(data[12..Header(data).value]).value && AllWellFormed(chunks)
    ensures Body(chunks) == data[12..Header(data).value]
  {
    var bytes := data[12..Header(data).value];
    chunks := Parse(bytes).value;
    ParseSound(bytes);
  }

  /** A file that passes is a well-formed file: its chunks, padded to even length, tile the container
      from byte 12 to the declared end, which is even. */
  lemma PassingIsWellFormed(d: Decoders, data: seq<Byte>) returns (chunks: seq<Chunk>)
    requires Inspected(d, data).Some?
    ensures Fits(chunks) && Header(data) == Some(|Body(chunks)| + 12) && Header(data).value % 2 == 0
    ensures data == File(chunks, data[Header(data).value..]) && Inspected(d, data) == Verdict(d, chunks)
  {
    var end := Header(data).value;
    chunks := HeaderParses(data);
    HeaderCuts(data, end, Body(chunks));
    BodyFits(chunks, end);
  }

  /** So a file passes if and only if it is the serialization of chunks that pass. */
  lemma PassesIff(d: Decoders, data: seq<Byte>, result: Inspection)
    ensures Inspected(d, data) == Some(result) <==>
      exists chunks, rest ::
        Fits(chunks) && data == File(chunks, rest) && Verdict(d, chunks) == Some(result)
  {
    if Inspected(d, data) == Some(result) {
      var chunks := PassingIsWellFormed(d, data);
      assert data == File(chunks, data[Header(data).value..]);
    }
    forall chunks, rest | Fits(chunks) && data == File(chunks, rest)
      ensures Inspected(d, data) == Verdict(d, chunks)
    {
      FilesAreJudged(d, chunks, rest);
    }
  }

  // ----- the rules for chunks -----

  predicate IsExtended(c: Chunk) {
    c.id == [86, 80, 56, 88]
  }

  predicate IsAnimation(c: Chunk) {
    c.id == [65, 78, 73, 77] || c.id == [65, 78, 77, 70]
  }

  function FrameSize(d: Decoders, c: Chunk): Option<Size> {
    if c.id == [86, 80, 56, 32] then d.lossy(c.data) else d.lossless(c.data)
  }

  predicate IsFrame(c: Chunk) {
    c.id == [86, 80, 56, 32] || c.id == [86, 80, 56, 76]
  }

  predicate GoodFrame(d: Decoders, c: Chunk) {
    FrameSize(d, c).Some? && FrameSize(d, c).value.width > 0 && FrameSize(d, c).value.height > 0
  }

  ghost predicate Has(chunks: seq<Chunk>, p: Chunk -> bool) {
    exists k :: 0 <= k < |chunks| && p(chunks[k])
  }

  ghost predicate AtMostOne(chunks: seq<Chunk>, p: Chunk -> bool) {
    forall j, k :: 0 <= j < k < |chunks| ==> !(p(chunks[j]) && p(chunks[k]))
  }

  /** At most one extended header, of ten bytes, and at most one frame, with a readable size. */
  ghost predicate Lawful(d: Decoders, chunks: seq<Chunk>) {
    && AtMostOne(chunks, IsExtended)
    && (forall k :: 0 <= k < |chunks| && IsExtended(chunks[k]) ==> |chunks[k].data| == 10)
    && AtMostOne(chunks, IsFrame)
    && (forall k :: 0 <= k < |chunks| && IsFrame(chunks[k]) ==> GoodFrame(d, chunks[k]))
  }

  /** A flagged extended header, or an animation chunk that no extended header follows. */
  ghost predicate Animates(chunks: seq<Chunk>) {
    exists k :: 0 <= k < |chunks| && AnimatesAt(chunks, k)
  }

  ghost predicate AnimatesAt(chunks: seq<Chunk>, k: nat)
    requires k < |chunks|
  {
    if IsExtended(chunks[k]) then Flagged(chunks[k].data)
    else IsAnimation(chunks[k]) && forall j :: k < j < |chunks| ==> !IsExtended(chunks[j])
  }

  ghost predicate Shows(d: Decoders, chunks: seq<Chunk>, frame: Option<Size>) {
    if frame.None? then !Has(chunks, IsFrame)
    else exists k :: 0 <= k < |chunks| && IsFrame(chunks[k]) && FrameSize(d, chunks[k]) == frame
  }

  lemma HasMore(chunks: seq<Chunk>, c: Chunk, p: Chunk -> bool)
    ensures Has(chunks + [c], p) <==> Has(chunks, p) || p(c)
    ensures AtMostOne(chunks + [c], p) <==> AtMostOne(chunks, p) && !(Has(chunks, p) && p(c))
  {
    var more := chunks + [c];
    assert more[|chunks|] == c;
    assert forall k :: 0 <= k < |chunks| ==> more[k] == chunks[k];
  }

  lemma AnimatesMore(chunks: seq<Chunk>, c: Chunk)
    requires AtMostOne(chunks + [c], IsExtended)
    ensures Animates(chunks + [c]) <==> if IsExtended(c) then Flagged(c.data) else Animates(chunks) || IsAnimation(c)
  {
    var more := chunks + [c];
    assert more[|chunks|] == c;
    assert AnimatesAt(more, |chunks|) <==> if IsExtended(c) then Flagged(c.data) else IsAnimation(c);
    forall k | 0 <= k < |chunks| ensures AnimatesAt(more, k) <==> !IsExtended(c) && AnimatesAt(chunks, k) {
      assert more[k] == chunks[k];
      if AnimatesAt(more, k) {
        forall j | k < j < |chunks| && !IsExtended(chunks[k]) ensures !IsExtended(chunks[j]) {
          assert more[j] == chunks[j];
        }
      }
    }
    if Animates(chunks) {
      var k :| 0 <= k < |chunks| && AnimatesAt(chunks, k);
      assert AnimatesAt(more, k) <==> !IsExtended(c);
    }
  }

  lemma LawfulMore(d: Decoders, chunks: seq<Chunk>, c: Chunk)
    ensures Lawful(d, chunks + [c]) <==>
      && Lawful(d, chunks)
      && (IsExtended(c) ==> !Has(chunks, IsExtended) && |c.data| == 10)
      && (IsFrame(c) ==> !Has(chunks, IsFrame) && GoodFrame(d, c))
  {
    var more := chunks + [c];
    HasMore(chunks, c, IsExtended);
    HasMore(chunks, c, IsFrame);
    assert more[|chunks|] == c;
    assert forall k :: 0 <= k < |chunks| ==> more[k] == chunks[k];
  }

  lemma ShowsMore(d: Decoders, chunks: seq<Chunk>, c: Chunk, frame: Option<Size>)
    requires Shows(d, chunks, frame) && (IsFrame(c) ==> frame.None? && GoodFrame(d, c))
    ensures Shows(d, chunks + [c], if IsFrame(c) then FrameSize(d, c) else frame)
  {
    var more := chunks + [c];
    HasMore(chunks, c, IsFrame);
    assert more[|chunks|] == c;
    if !IsFrame(c) && frame.Some? {
      var k :| 0 <= k < |chunks| && IsFrame(chunks[k]) && FrameSize(d, chunks[k]) == frame;
      assert more[k] == chunks[k];
    }
  }

  /** The walk is what the rules say of the chunks. */
  ghost predicate Agrees(d: Decoders, chunks: seq<Chunk>, w: Walk) {
    && w.animated == Animates(chunks) && w.extended == Has(chunks, IsExtended)
    && w.frame.Some? == Has(chunks, IsFrame) && Shows(d, chunks, w.frame)
  }

  lemma StepIsLawful(d: Decoders, chunks: seq<Chunk>, c: Chunk, w: Walk)
    requires Lawful(d, chunks) && Agrees(d, chunks, w)
    ensures var next := Step(d, w, c.id, c.data);
      && (next.Some? <==> Lawful(d, chunks + [c]))
      && (next.Some? ==> Agrees(d, chunks + [c], next.value))
  {
    LawfulMore(d, chunks, c);
    HasMore(chunks, c, IsExtended);
    HasMore(chunks, c, IsFrame);
    if Step(d, w, c.id, c.data).Some? {
      AnimatesMore(chunks, c);
      ShowsMore(d, chunks, c, w.frame);
    }
  }

  lemma {:induction false} FoldIsLawful(d: Decoders, chunks: seq<Chunk>)
    ensures Fold(d, chunks).Some? <==> Lawful(d, chunks)
    ensures Fold(d, chunks).Some? ==> Agrees(d, chunks, Fold(d, chunks).value)
  {
    if chunks != [] {
      var init, c := chunks[..|chunks| - 1], chunks[|chunks| - 1];
      assert chunks == init + [c];
      FoldIsLawful(d, init);
      if Fold(d, init).Some? {
        StepIsLawful(d, init, c, Fold(d, init).value);
      } else {
        LawfulMore(d, init, c);
      }
    }
  }

  /** Chunks pass exactly when they obey the rules and animate or show something; the result says whether
      they animate, and the size of the one frame. */
  lemma VerdictIff(d: Decoders, chunks: seq<Chunk>)
    ensures Verdict(d, chunks).Some? <==> Lawful(d, chunks) && (Animates(chunks) || Has(chunks, IsFrame))
    ensures Verdict(d, chunks).Some? ==>
      var i := Verdict(d, chunks).value;
      && i.animated == Animates(chunks)
      && (if Has(chunks, IsFrame) then i.width > 0 && i.height > 0 && Shows(d, chunks, Some(Size(i.width, i.height)))
         else i.width == i.height == 0)
  {
    FoldIsLawful(d, chunks);
    if Verdict(d, chunks).Some? && Has(chunks, IsFrame) {
      var w := Fold(d, chunks).value;
      var k :| 0 <= k < |chunks| && IsFrame(chunks[k]) && FrameSize(d, chunks[k]) == w.frame;
      assert GoodFrame(d, chunks[k]);
    }
  }

  // ----- the animation flag -----

  /** A flagged extended header or any animation chunk. */
  ghost predicate Declares(chunks: seq<Chunk>) {
    exists k :: 0 <= k < |chunks| && (IsAnimation(chunks[k]) || (IsExtended(chunks[k]) && Flagged(chunks[k].data)))
  }

  /** An unflagged extended header behind all animation chunks, and there are some. */
  ghost predicate Masked(chunks: seq<Chunk>) {
    && Has(chunks, IsAnimation)
    && exists x :: 0 <= x < |chunks| && MaskedBy(chunks, x)
  }

  ghost predicate MaskedBy(chunks: seq<Chunk>, x: nat)
    requires x < |chunks|
  {
    IsExtended(chunks[x]) && !Flagged(chunks[x].data) && forall k :: x < k < |chunks| ==> !IsAnimation(chunks[k])
  }

  /** The reported flag is the declared one if and only if no extended header masks it. */
  lemma FlagIsRightIff(chunks: seq<Chunk>)
    requires AtMostOne(chunks, IsExtended)
    ensures (Animates(chunks) <==> Declares(chunks)) <==> !Masked(chunks)
  {
    if Animates(chunks) {
      var k :| 0 <= k < |chunks| && AnimatesAt(chunks, k);
      assert IsAnimation(chunks[k]) || (IsExtended(chunks[k]) && Flagged(chunks[k].data));
    } else if Declares(chunks) {
      var k :| 0 <= k < |chunks| && (IsAnimation(chunks[k]) || (IsExtended(chunks[k]) && Flagged(chunks[k].data)));
      assert !AnimatesAt(chunks, k);
      assert IsAnimation(chunks[k]);
      var x :| k < x < |chunks| && IsExtended(chunks[x]);
      assert !AnimatesAt(chunks, x);
      forall j | x < j < |chunks| ensures !IsAnimation(chunks[j]) {
        assert !AnimatesAt(chunks, j);
      }
      assert MaskedBy(chunks, x);
    }
  }

  /** With the extended header in front, as the extended layout has it, the flag is right. */
  lemma HeaderFirstIsRight(chunks: seq<Chunk>)
    requires AtMostOne(chunks, IsExtended) && chunks != [] && IsExtended(chunks[0])
    ensures Animates(chunks) <==> Declares(chunks)
  {
    FlagIsRightIff(chunks);
    if x :| 0 <= x < |chunks| && MaskedBy(chunks, x) {
      assert x == 0;
    }
  }

  /** An animation chunk, an unflagged extended header, and a frame. */
  function MaskedChunks(frame: Chunk): seq<Chunk> {
    [Chunk([65, 78, 73, 77], [], []), Chunk([86, 80, 56, 88], [0, 0, 0, 0, 0, 0, 0, 0, 0, 0], []), frame]
  }

  lemma MaskedVerdict(d: Decoders, frame: Chunk)
    requires IsFrame(frame) && GoodFrame(d, frame)
    ensures var chunks := MaskedChunks(frame);
      Verdict(d, chunks).Some? && !Verdict(d, chunks).value.animated && Declares(chunks)
  {
    var three := MaskedChunks(frame);
    var none: seq<Chunk> := [];
    var one, two := three[..1], three[..2];
    assert one[..0] == none && two[..1] == one;
    assert Fold(d, none) == Some(Walk(false, false, None));
    assert Fold(d, one) == Some(Walk(true, false, None));
    assert Fold(d, two) == Some(Walk(false, true, None));
    assert IsAnimation(three[0]);
  }

  lemma MaskedFits(frame: Chunk)
    requires WellFormed(frame) && |frame.data| < TWO_TO_32 - 64
    ensures Fits(MaskedChunks(frame))
  {
    var chunks := MaskedChunks(frame);
    var two, one := chunks[1..], chunks[2..];
    assert two[1..] == one && one[1..] == [];
    assert |Body(one)| == |ChunkBytes(frame)|;
    assert |Body(two)| == |ChunkBytes(chunks[1])| + |Body(one)|;
  }

  /** An animation chunk before an unflagged extended header goes unnoticed: the file passes as a still image. */
  lemma MaskedAnimation(d: Decoders, frame: Chunk, rest: seq<Byte>)
    requires IsFrame(frame) && GoodFrame(d, frame) && WellFormed(frame) && |frame.data| < TWO_TO_32 - 64
    ensures var data := File(MaskedChunks(frame), rest);
      Inspected(d, data).Some? && !Inspected(d, data).value.animated && Declares(MaskedChunks(frame))
  {
    MaskedVerdict(d, frame);
    MaskedFits(frame);
    FilesAreJudged(d, MaskedChunks(frame), rest);
  }

  // ----- dimensions -----

  const MAX_DIMENSION := 4096
  const MAX_PIXELS := 16_000_000

  /** The size check of Validate, with its division. */
  predicate SizeAccepted(width: int, height: int) {
    width > 0 && height > 0 && !(width > MAX_DIMENSION || height > MAX_DIMENSION || width > MAX_PIXELS / height)
  }

  lemma Multiples(a: int, b: int, n: int)
    requires a <= b && n > 0
    ensures a * n <= b * n
  {
  }

  lemma QuotientBound(m: int, n: int, width: int)
    requires n > 0
    ensures width <= m / n <==> width * n <= m
  {
    var q := m / n;
    assert m == q * n + m % n;
    if width <= q {
      Multiples(width, q, n);
    } else {
      Multiples(q + 1, width, n);
      assert (q + 1) * n == q * n + n;
    }
  }

  lemma SizeAcceptedIff(width: int, height: int)
    ensures SizeAccepted(width, height) <==>
      0 < width <= 4096 && 0 < height <= 4096 && width * height <= 16_000_000
  {
    if height > 0 {
      QuotientBound(MAX_PIXELS, height, width);
    }
  }
}
