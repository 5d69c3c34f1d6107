/** The chunk walk of the icon script over the PNG datastream (RFC 2083, sections 3.1 and 3.2):
    a signature, then chunks of length, type, data and check. */
module PngChunks {
  newtype Byte = b: int | 0 <= b < 256

  type Bytes = seq<Byte>

  const SIGNATURE: Bytes := [0x89, 0x50, 0x4E, 0x47, 0x0D, 0x0A, 0x1A, 0x0A]
  const IHDR: Bytes := [0x49, 0x48, 0x44, 0x52]
  const TRNS: Bytes := [0x74, 0x52, 0x4E, 0x53]
  const IEND: Bytes := [0x49, 0x45, 0x4E, 0x44]

  // ----- big-endian words -----

  const LIMIT := 0x1_0000_0000

  function Word(n: nat): (w: Bytes)
    requires n < LIMIT
    ensures |w| == 4
  {
    var a, b := n / 256, n / 256 / 256;
    [(b / 256) as Byte, (b % 256) as Byte, (a % 256) as Byte, (n % 256) as Byte]
  }

  /** `struct.unpack(">I", data[at:at + 4])` */
  function ReadWord(data: Bytes, at: nat): (n: nat)
    requires at + 4 <= |data|
    ensures n < LIMIT
  {
    data[at] as int * 0x100_0000 + data[at + 1] as int * 0x1_0000 + data[at + 2] as int * 0x100 + data[at + 3] as int
  }

  lemma WordReadsBack(n: nat, data: Bytes, at: nat)
    requires n < LIMIT && at + 4 <= |data| && data[at..at + 4] == Word(n)
    ensures ReadWord(data, at) == n
  {
    var b := data[at..at + 4];
    assert data[at] == b[0] && data[at + 1] == b[1] && data[at + 2] == b[2] && data[at + 3] == b[3];
  }

  // ----- the reader -----

  datatype Error = NotAPng | Truncated
  datatype Info = Info(width: nat, height: nat, colourType: Byte, hasTrns: bool)
  datatype Result = Success(info: Info) | Failure(error: Error)

  /** Whether a tRNS chunk comes up before the walk from `pos` meets an IEND or runs out. */
  function SeesTrns(data: Bytes, pos: nat): bool
    decreases |data| - pos
  {
    if pos + 8 > |data| then false
    else
      var kind := data[pos + 4..pos + 8];
      kind == TRNS || (kind != IEND && SeesTrns(data, pos + 12 + ReadWord(data, pos)))
  }

  /** `png_info` */
  method PngInfo(data: Bytes) returns (r: Result)
    ensures r == Parsed(data)
    ensures r == Failure(NotAPng) <==> !([0x89, 0x50, 0x4E, 0x47, 0x0D, 0x0A, 0x1A, 0x0A] <= data)
    ensures r == Failure(Truncated) <==> [0x89, 0x50, 0x4E, 0x47, 0x0D, 0x0A, 0x1A, 0x0A] <= data && |data| <= 25
  {
    if |data| < 8 || data[..8] != SIGNATURE {
      return Failure(NotAPng);
    }
    if |data| < 24 {
      return Failure(Truncated);
    }
    var width, height := ReadWord(data, 16), ReadWord(data, 20);
    if |data| <= 25 {
      return Failure(Truncated);
    }
    var hasTrns := false;
    var pos := 8;
    while pos + 8 <= |data|
      invariant SeesTrns(data, 8) == (hasTrns || SeesTrns(data, pos))
      decreases |data| - pos
    {
      var length := ReadWord(data, pos);
      var kind := data[pos + 4..pos + 8];
      if kind == TRNS {
        hasTrns := true;
      }
      if kind == IEND {
        break;
      }
      pos := pos + 12 + length;
    }
    r := Success(Info(width, height, data[25], hasTrns));
  }

  function Parsed(data: Bytes): Result {
    if |data| < 8 || data[..8] != SIGNATURE then Failure(NotAPng)
    else if |data| <= 25 then Failure(Truncated)
    else Success(Info(ReadWord(data, 16), ReadWord(data, 20), data[25], SeesTrns(data, 8)))
  }

  // ----- the writer it is checked against -----

  datatype Chunk = Chunk(kind: Bytes, data: Bytes, check: Bytes)

  predicate Wellformed(c: Chunk) {
    |c.kind| == 4 && |c.check| == 4 && |c.data| < LIMIT
  }

  function EncodeChunk(c: Chunk): (b: Bytes)
    requires Wellformed(c)
    ensures |b| == 12 + |c.data|
  {
    Word(|c.data|) + c.kind + c.data + c.check
  }

  function EncodeChunks(cs: seq<Chunk>): Bytes
    requires forall c :: c in cs ==> Wellformed(c)
  {
    if cs == [] then [] else EncodeChunk(cs[0]) + EncodeChunks(cs[1..])
  }

  /** IHDR data: width, height, depth, colour type, compression, filter and interlace. */
  datatype Header = Header(width: nat, height: nat, depth: Byte, colourType: Byte, rest: Bytes, check: Bytes)

  predicate ValidHeader(h: Header) {
    h.width < LIMIT && h.height < LIMIT && |h.rest| == 3 && |h.check| == 4
  }

  function HeaderChunk(h: Header): (c: Chunk)
    requires ValidHeader(h)
    ensures Wellformed(c) && |c.data| == 13
  {
    Chunk(IHDR, Word(h.width) + Word(h.height) + [h.depth, h.colourType] + h.rest, h.check)
  }

  function EncodePng(h: Header, cs: seq<Chunk>): Bytes
    requires ValidHeader(h) && forall c :: c in cs ==> Wellformed(c)
  {
    SIGNATURE + EncodeChunks([HeaderChunk(h)] + cs)
  }

  /** A tRNS chunk precedes the first IEND. */
  predicate TrnsBeforeEnd(cs: seq<Chunk>) {
    exists i :: 0 <= i < |cs| && cs[i].kind == TRNS && forall j | 0 <= j < i :: cs[j].kind != IEND
  }

  lemma ChunkAt(before: Bytes, c: Chunk, after: Bytes)
    requires Wellformed(c)
    ensures var data, pos := before + EncodeChunk(c) + after, |before|;
            && ReadWord(data, pos) == |c.data|
            && data[pos + 4..pos + 8] == c.kind
  {
    var data, pos := before + EncodeChunk(c) + after, |before|;
    assert data[pos..pos + 4] == Word(|c.data|);
    assert data[pos + 4..pos + 8] == c.kind;
    WordReadsBack(|c.data|, data, pos);
  }

  lemma WalkStep(before: Bytes, c: Chunk, after: Bytes)
    requires Wellformed(c)
    ensures var data := before + EncodeChunk(c) + after;
            SeesTrns(data, |before|) ==
            (c.kind == TRNS || (c.kind != IEND && SeesTrns(data, |before + EncodeChunk(c)|)))
  {
    ChunkAt(before, c, after);
    assert |before + EncodeChunk(c)| == |before| + 12 + |c.data|;
  }

  lemma EncodeUnfolds(before: Bytes, cs: seq<Chunk>)
    requires cs != [] && forall c :: c in cs ==> Wellformed(c)
    ensures before + EncodeChunks(cs) == before + EncodeChunk(cs[0]) + EncodeChunks(cs[1..])
  {
  }

  /** The walk sees a chunk list chunk by chunk. */
  lemma {:induction false} WalkFollowsChunks(before: Bytes, cs: seq<Chunk>)
    requires forall c :: c in cs ==> Wellformed(c)
    ensures SeesTrns(before + EncodeChunks(cs), |before|) == TrnsBeforeEnd(cs)
    decreases |cs|
  {
    if cs == [] {
      assert before + EncodeChunks(cs) == before;
    } else {
      var c, rest := cs[0], cs[1..];
      var through := before + EncodeChunk(c);
      EncodeUnfolds(before, cs);
      WalkStep(before, c, EncodeChunks(rest));
      WalkFollowsChunks(through, rest);
      TrnsByFirst(cs);
    }
  }

  lemma TrnsByFirst(cs: seq<Chunk>)
    requires cs != []
    ensures TrnsBeforeEnd(cs) <==> cs[0].kind == TRNS || (cs[0].kind != IEND && TrnsBeforeEnd(cs[1..]))
  {
    if cs[0].kind != TRNS && cs[0].kind != IEND && TrnsBeforeEnd(cs[1..]) {
      var i :| 0 <= i < |cs[1..]| && cs[1..][i].kind == TRNS && forall j | 0 <= j < i :: cs[1..][j].kind != IEND;
      assert cs[i + 1].kind == TRNS;
      forall j | 0 <= j < i + 1 ensures cs[j].kind != IEND {
        if j > 0 { assert cs[j] == cs[1..][j - 1]; }
      }
    }
    if TrnsBeforeEnd(cs) && cs[0].kind != TRNS {
      var i :| 0 <= i < |cs| && cs[i].kind == TRNS && forall j | 0 <= j < i :: cs[j].kind != IEND;
      assert cs[1..][i - 1].kind == TRNS;
      assert cs[0].kind != IEND;
      forall j | 0 <= j < i - 1 ensures cs[1..][j].kind != IEND {
        assert cs[1..][j] == cs[j + 1];
      }
    }
  }

  /** Reading a written file gives back its header, and tells whether a tRNS chunk precedes the
      first IEND, whatever the chunks hold. */
  lemma ReadingInvertsWriting(h: Header, cs: seq<Chunk>)
    requires ValidHeader(h) && forall c :: c in cs ==> Wellformed(c)
    ensures Parsed(EncodePng(h, cs)) == Success(Info(h.width, h.height, h.colourType, TrnsBeforeEnd(cs)))
  {
    var data := EncodePng(h, cs);
    var first := HeaderChunk(h);
    var all := [first] + cs;
    assert all[0] == first && all[1..] == cs;
    assert data == SIGNATURE + EncodeChunk(first) + EncodeChunks(cs);
    assert data[..8] == SIGNATURE;
    assert data[16..20] == Word(h.width) && data[20..24] == Word(h.height) && data[25] == h.colourType;
    WordReadsBack(h.width, data, 16);
    WordReadsBack(h.height, data, 20);
    WalkFollowsChunks(SIGNATURE, all);
    TrnsByFirst(all);
  }
}
