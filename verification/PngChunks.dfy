/** The PNG chunk filter of the brand renderer and the independent checker of the public
  * bundle, against chunk sequences (sections 3.1, 3.2 and 3.4 of RFC 2083).
  */
module PngChunks {
  import opened Common

  /** One chunk: its four-byte type, its data, and the four bytes of its stored CRC. */
  datatype Chunk = Chunk(kind: Bytes, body: Bytes, crc: Bytes)

  const WORD: int := 0x1_0000_0000
  const SIGNATURE: Bytes := [0x89, 0x50, 0x4E, 0x47, 0x0D, 0x0A, 0x1A, 0x0A]
  const IHDR: Bytes := [0x49, 0x48, 0x44, 0x52]
  const IEND: Bytes := [0x49, 0x45, 0x4E, 0x44]
  const PLTE: Bytes := [0x50, 0x4C, 0x54, 0x45]
  const TRNS: Bytes := [0x74, 0x52, 0x4E, 0x53]
  const IDAT: Bytes := [0x49, 0x44, 0x41, 0x54]
  const SRGB: Bytes := [0x73, 0x52, 0x47, 0x42]
  const GAMA: Bytes := [0x67, 0x41, 0x4D, 0x41]
  const CHRM: Bytes := [0x63, 0x48, 0x52, 0x4D]
  const PHYS: Bytes := [0x70, 0x48, 0x59, 0x73]

  /** Both scripts list these nine types; a byte outside ASCII never spells one of them. */
  predicate Allowed(kind: Bytes) {
    kind in {IHDR, PLTE, TRNS, IDAT, IEND, SRGB, GAMA, CHRM, PHYS}
  }

  // ---- big-endian words ----

  function Word(b: Bytes): nat
    requires |b| == 4
  {
    ((b[0] as int * 256 + b[1] as int) * 256 + b[2] as int) * 256 + b[3] as int
  }

  function WordBytes(n: nat): (b: Bytes)
    requires n < WORD
    ensures |b| == 4
  {
    var a := n / 256;
    var b := a / 256;
    var c := b / 256;
    [c as Byte, (b % 256) as Byte, (a % 256) as Byte, (n % 256) as Byte]
  }

  // ---- chunk sequences ----

  predicate Valid(c: Chunk) {
    |c.kind| == 4 && |c.crc| == 4 && |c.body| < WORD
  }

  function Encode(c: Chunk): Bytes
    requires Valid(c)
  {
    WordBytes(|c.body|) + c.kind + c.body + c.crc
  }

  ghost predicate AllValid(cs: seq<Chunk>) {
    forall c :: c in cs ==> Valid(c)
  }

  function EncodeAll(cs: seq<Chunk>): Bytes
    requires forall c :: c in cs ==> Valid(c)
  {
    if cs == [] then [] else Encode(cs[0]) + EncodeAll(cs[1..])
  }

  /** Reads one chunk; None when the stream is too short for the length it declares. */
  function Read(rest: Bytes): Option<(Chunk, Bytes)> {
    if |rest| < 8 then None
    else
      var n := Word(rest[..4]);
      if 12 + n > |rest| then None
      else Some((Chunk(rest[4..8], rest[8..8 + n], rest[8 + n..12 + n]), rest[12 + n..]))
  }

  lemma ReadEncode(c: Chunk, tail: Bytes)
    requires Valid(c)
    ensures Read(Encode(c) + tail) == Some((c, tail))
    ensures |Encode(c)| == 12 + |c.body|
  {
    var s := Encode(c) + tail;
    var n := |c.body|;
    assert s[..4] == WordBytes(n);
    assert s[4..8] == c.kind && s[8..8 + n] == c.body && s[8 + n..12 + n] == c.crc && s[12 + n..] == tail;
  }

  lemma WordRead(b: Bytes)
    requires |b| == 4
    ensures Word(b) < WORD && WordBytes(Word(b)) == b
  {
    var one := b[0] as int * 256 + b[1] as int;
    var two := one * 256 + b[2] as int;
    var three := two * 256 + b[3] as int;
    assert three / 256 == two && three % 256 == b[3] as int;
    assert two / 256 == one && two % 256 == b[2] as int;
    assert one / 256 == b[0] as int && one % 256 == b[1] as int;
  }

  lemma EncodeRead(rest: Bytes)
    requires Read(rest).Some?
    ensures var (c, tail) := Read(rest).value;
      Valid(c) && rest == Encode(c) + tail && rest[..12 + |c.body|] == Encode(c)
  {
    var (c, tail) := Read(rest).value;
    var n := |c.body|;
    WordRead(rest[..4]);
    assert WordBytes(n) == rest[..4];
    assert rest[..4] + rest[4..8] + rest[8..8 + n] + rest[8 + n..12 + n] == rest[..12 + n];
    assert rest == rest[..12 + n] + rest[12 + n..];
  }

  // ---- the filter ----

  datatype FilterError = NotPng | Truncated | NoEnd

  /** `pixel_chunks_only` on the rest of the file, with what was kept so far. */
  function Keep(ok: Bytes -> bool, rest: Bytes, kept: Bytes): Result<Bytes, FilterError>
    decreases |rest|
  {
    if |rest| < 8 then Err(NoEnd)
    else match Read(rest)
      case None => Err(Truncated)
      case Some((c, tail)) =>
        var more := if ok(c.kind) then kept + rest[..12 + |c.body|] else kept;
        if c.kind == IEND then Ok(more) else Keep(ok, tail, more)
  }

  predicate Signed(data: Bytes) {
    |data| >= 8 && data[..8] == SIGNATURE
  }

  function PixelChunksOnly(data: Bytes): Result<Bytes, FilterError> {
    if !Signed(data) then Err(NotPng) else Keep(Allowed, data[8..], SIGNATURE)
  }

  /** The fields of the chunk at an offset, as both scripts slice them. */
  lemma ChunkAt(data: Bytes, offset: nat)
    requires offset + 8 <= |data|
    ensures var length := Word(data[offset..offset + 4]); var end := offset + 12 + length;
      Read(data[offset..]) ==
        if end > |data| then None
        else Some((Chunk(data[offset + 4..offset + 8], data[offset + 8..end - 4], data[end - 4..end]), data[end..]))
    ensures var end := offset + 12 + Word(data[offset..offset + 4]);
      end <= |data| ==>
        && data[offset..][..end - offset] == data[offset..end]
        && data[offset + 4..end - 4] == data[offset + 4..offset + 8] + data[offset + 8..end - 4]
  {
    var rest := data[offset..];
    var length := Word(data[offset..offset + 4]);
    assert rest[..4] == data[offset..offset + 4];
    var end := offset + 12 + length;
    if end <= |data| {
      assert rest[4..8] == data[offset + 4..offset + 8];
      assert rest[8..8 + length] == data[offset + 8..end - 4];
      assert rest[8 + length..12 + length] == data[end - 4..end];
      assert rest[12 + length..] == data[end..];
    }
  }

  lemma KeepStep(ok: Bytes -> bool, data: Bytes, offset: nat, kept: Bytes)
    requires offset + 8 <= |data|
    ensures var kind := data[offset + 4..offset + 8]; var end := offset + 12 + Word(data[offset..offset + 4]);
      Keep(ok, data[offset..], kept) ==
        if end > |data| then Err(Truncated)
        else
          var more := if ok(kind) then kept + data[offset..end] else kept;
          if kind == IEND then Ok(more) else Keep(ok, data[end..], more)
  {
    ChunkAt(data, offset);
  }

  /** The loop of `pixel_chunks_only`, moving an offset over the file. */
  method KeepChunks(ok: Bytes -> bool, data: Bytes, start: Bytes) returns (r: Result<Bytes, FilterError>)
    requires |data| >= 8
    ensures r == Keep(ok, data[8..], start)
  {
    var kept := start;
    var offset := 8;
    ghost var goal := Keep(ok, data[offset..], kept);
    while offset + 8 <= |data|
      invariant 8 <= offset <= |data|
      invariant goal == Keep(ok, data[offset..], kept)
      decreases |data| - offset
    {
      KeepStep(ok, data, offset, kept);
      var length := Word(data[offset..offset + 4]);
      var kind := data[offset + 4..offset + 8];
      var end := offset + 12 + length;
      if end > |data| { return Err(Truncated); }
      var more := if ok(kind) then kept + data[offset..end] else kept;
      if kind == IEND { return Ok(more); }
      assert goal == Keep(ok, data[end..], more);
      kept, offset := more, end;
    }
    return Err(NoEnd);
  }

  method FilterPng(data: Bytes) returns (r: Result<Bytes, FilterError>)
    ensures r == PixelChunksOnly(data)
  {
    if !Signed(data) { return Err(NotPng); }
    r := KeepChunks(Allowed, data, SIGNATURE);
  }

  /** The chunks of the types that `ok` lets through, in order. */
  function Filtered(ok: Bytes -> bool, cs: seq<Chunk>): (r: seq<Chunk>)
    ensures forall c :: c in r <==> c in cs && ok(c.kind)
  {
    if cs == [] then [] else (if ok(cs[0].kind) then [cs[0]] else []) + Filtered(ok, cs[1..])
  }

  /** The first IEND is the last chunk. */
  predicate EndsOnce(cs: seq<Chunk>) {
    cs != [] && cs[|cs| - 1].kind == IEND && forall i :: 0 <= i < |cs| - 1 ==> cs[i].kind != IEND
  }

  /** A PNG stream: the signature, chunks up to the first IEND, and whatever follows it. */
  ghost predicate IsStream(data: Bytes, cs: seq<Chunk>, tail: Bytes) {
    AllValid(cs) && EndsOnce(cs) && data == SIGNATURE + EncodeAll(cs) + tail
  }

  lemma EndsOnceTail(cs: seq<Chunk>)
    requires EndsOnce(cs) && cs[0].kind != IEND
    ensures EndsOnce(cs[1..])
  {
  }

  lemma KeepEncoded(ok: Bytes -> bool, c: Chunk, tail: Bytes, kept: Bytes)
    requires Valid(c)
    ensures var more := if ok(c.kind) then kept + Encode(c) else kept;
      Keep(ok, Encode(c) + tail, kept) == if c.kind == IEND then Ok(more) else Keep(ok, tail, more)
  {
    ReadEncode(c, tail);
    assert (Encode(c) + tail)[..12 + |c.body|] == Encode(c);
  }

  lemma {:induction false} KeepStream(ok: Bytes -> bool, cs: seq<Chunk>, tail: Bytes, kept: Bytes)
    requires AllValid(cs) && EndsOnce(cs)
    ensures Keep(ok, EncodeAll(cs) + tail, kept) == Ok(kept + EncodeAll(Filtered(ok, cs)))
  {
    var c, rest := cs[0], cs[1..];
    assert EncodeAll(cs) + tail == Encode(c) + (EncodeAll(rest) + tail);
    KeepEncoded(ok, c, EncodeAll(rest) + tail, kept);
    var more := if ok(c.kind) then kept + Encode(c) else kept;
    assert cs == [c] + rest;
    EncodeFiltered(ok, c, rest, kept);
    if c.kind == IEND {
      assert rest == [] && more + [] == more;
    } else {
      EndsOnceTail(cs);
      KeepStream(ok, rest, tail, more);
    }
  }

  lemma EncodeFiltered(ok: Bytes -> bool, c: Chunk, rest: seq<Chunk>, kept: Bytes)
    requires Valid(c) && AllValid(rest)
    ensures Filtered(ok, [c] + rest) == (if ok(c.kind) then [c] else []) + Filtered(ok, rest)
    ensures kept + EncodeAll(Filtered(ok, [c] + rest))
         == (if ok(c.kind) then kept + Encode(c) else kept) + EncodeAll(Filtered(ok, rest))
  {
    assert ([c] + rest)[1..] == rest;
    var filtered := Filtered(ok, rest);
    if ok(c.kind) {
      assert ([c] + filtered)[1..] == filtered;
    } else {
      assert [] + filtered == filtered;
    }
  }

  lemma {:induction false} KeepOnlyStreams(ok: Bytes -> bool, rest: Bytes, kept: Bytes)
      returns (cs: seq<Chunk>, tail: Bytes)
    requires Keep(ok, rest, kept).Ok?
    ensures AllValid(cs) && EndsOnce(cs) && rest == EncodeAll(cs) + tail
    decreases |rest|
  {
    var (c, next) := Read(rest).value;
    EncodeRead(rest);
    if c.kind == IEND {
      cs, tail := [c], next;
      EncodedStart(c, []);
      assert [c] + [] == [c] && Encode(c) + [] == Encode(c);
    } else {
      var more := if ok(c.kind) then kept + rest[..12 + |c.body|] else kept;
      var cs', tail' := KeepOnlyStreams(ok, next, more);
      cs, tail := [c] + cs', tail';
      EncodedStart(c, cs');
      Associate(Encode(c), EncodeAll(cs'), tail);
    }
  }

  /** The filter returns exactly on PNG streams, and then returns the signature and the allowed
    * chunks up to the first IEND, in order and byte for byte.
    */
  lemma FilterMeaning(data: Bytes)
    ensures PixelChunksOnly(data).Ok? <==> exists cs, tail :: IsStream(data, cs, tail)
    ensures forall cs, tail :: IsStream(data, cs, tail) ==>
      PixelChunksOnly(data) == Ok(SIGNATURE + EncodeAll(Filtered(Allowed, cs)))
  {
    forall cs, tail | IsStream(data, cs, tail)
      ensures PixelChunksOnly(data) == Ok(SIGNATURE + EncodeAll(Filtered(Allowed, cs)))
    {
      assert data == SIGNATURE + (EncodeAll(cs) + tail);
      assert data[..8] == SIGNATURE && data[8..] == EncodeAll(cs) + tail;
      KeepStream(Allowed, cs, tail, SIGNATURE);
    }
    if PixelChunksOnly(data).Ok? {
      var cs, tail := KeepOnlyStreams(Allowed, data[8..], SIGNATURE);
      assert data == data[..8] + data[8..];
      assert IsStream(data, cs, tail);
    }
  }

  // ---- the checker ----

  datatype Problem = TooLarge | MustBePng | TrailingBytes | TruncatedChunk | ForeignChunk | CorruptChunk | MissingEnd

  const MAX_IMAGE_BYTES: nat := 200_000

  predicate Intact(crc: Bytes -> nat, c: Chunk)
    requires Valid(c)
  {
    Word(c.crc) == crc(c.kind + c.body) % WORD
  }

  /** The loop of `_validate_reviewed_image` on the rest of the file. */
  function Walk(ok: Bytes -> bool, crc: Bytes -> nat, rest: Bytes, seenEnd: bool): Option<Problem>
    decreases |rest|
  {
    if rest == [] then (if seenEnd then None else Some(MissingEnd))
    else if seenEnd then Some(TrailingBytes)
    else match Read(rest)
      case None => Some(TruncatedChunk)
      case Some((c, tail)) =>
        if !ok(c.kind) then Some(ForeignChunk)
        else if Word(c.crc) != crc(c.kind + c.body) % WORD then Some(CorruptChunk)
        else Walk(ok, crc, tail, c.kind == IEND)
  }

  /** The first problem the checker appends, if any. */
  function ReviewImage(crc: Bytes -> nat, data: Bytes): Option<Problem> {
    if |data| > MAX_IMAGE_BYTES then Some(TooLarge)
    else if !Signed(data) then Some(MustBePng)
    else Walk(Allowed, crc, data[8..], false)
  }

  method CheckImage(crc: Bytes -> nat, data: Bytes, errors: seq<Problem>) returns (errors': seq<Problem>)
    ensures errors' == errors + (match ReviewImage(crc, data) case None => [] case Some(p) => [p])
  {
    if |data| > MAX_IMAGE_BYTES { return errors + [TooLarge]; }
    if !Signed(data) { return errors + [MustBePng]; }
    var offset, seenEnd := 8, false;
    while offset < |data|
      invariant 8 <= offset <= |data|
      invariant ReviewImage(crc, data) == Walk(Allowed, crc, data[offset..], seenEnd)
      decreases |data| - offset
    {
      if seenEnd { return errors + [TrailingBytes]; }
      if offset + 8 > |data| { return errors + [TruncatedChunk]; }
      ChunkAt(data, offset);
      var length := Word(data[offset..offset + 4]);
      var kind := data[offset + 4..offset + 8];
      var end := offset + 12 + length;
      if length > |data| || end > |data| { return errors + [TruncatedChunk]; }
      if !Allowed(kind) { return errors + [ForeignChunk]; }
      var stored := Word(data[end - 4..end]);
      if crc(data[offset + 4..end - 4]) % WORD != stored { return errors + [CorruptChunk]; }
      seenEnd := kind == IEND;
      offset := end;
    }
    return if seenEnd then errors else errors + [MissingEnd];
  }

  /** An acceptable image: allowed chunks with intact checksums, closed by the only IEND. */
  ghost predicate IsReviewed(crc: Bytes -> nat, data: Bytes, cs: seq<Chunk>) {
    && |data| <= MAX_IMAGE_BYTES && IsStream(data, cs, []) && AllGood(Allowed, crc, cs)
  }

  ghost predicate AllGood(ok: Bytes -> bool, crc: Bytes -> nat, cs: seq<Chunk>) {
    AllValid(cs) && forall c :: c in cs ==> ok(c.kind) && Intact(crc, c)
  }

  lemma {:induction false} WalkAccepts(ok: Bytes -> bool, crc: Bytes -> nat, cs: seq<Chunk>)
    requires EndsOnce(cs) && AllGood(ok, crc, cs)
    ensures Walk(ok, crc, EncodeAll(cs), false) == None
  {
    var c, rest := cs[0], cs[1..];
    assert EncodeAll(cs) == Encode(c) + EncodeAll(rest);
    ReadEncode(c, EncodeAll(rest));
    assert Intact(crc, c);
    if c.kind == IEND {
      assert rest == [];
    } else {
      EndsOnceTail(cs);
      WalkAccepts(ok, crc, rest);
    }
  }

  lemma {:induction false} WalkAcceptsOnly(ok: Bytes -> bool, crc: Bytes -> nat, rest: Bytes) returns (cs: seq<Chunk>)
    requires Walk(ok, crc, rest, false) == None
    ensures EndsOnce(cs) && AllGood(ok, crc, cs) && rest == EncodeAll(cs)
    decreases |rest|
  {
    var (c, tail) := Read(rest).value;
    EncodeRead(rest);
    if c.kind == IEND {
      cs := [c];
      assert EncodeAll([c]) == Encode(c) + EncodeAll([]);
    } else {
      var cs' := WalkAcceptsOnly(ok, crc, tail);
      cs := [c] + cs';
      EncodedStart(c, cs');
    }
  }

  /** The checker reports nothing exactly on acceptable images. */
  lemma ReviewMeaning(crc: Bytes -> nat, data: Bytes)
    ensures ReviewImage(crc, data).None? <==> exists cs :: IsReviewed(crc, data, cs)
  {
    if ReviewImage(crc, data).None? {
      var cs := WalkAcceptsOnly(Allowed, crc, data[8..]);
      assert data == SIGNATURE + EncodeAll(cs) + [];
      assert IsReviewed(crc, data, cs);
    }
    if cs :| IsReviewed(crc, data, cs) {
      assert data == SIGNATURE + EncodeAll(cs);
      assert data[..8] == SIGNATURE && data[8..] == EncodeAll(cs);
      WalkAccepts(Allowed, crc, cs);
    }
  }

  // ---- the two together ----

  lemma {:induction false} FilteredEndsOnce(ok: Bytes -> bool, cs: seq<Chunk>)
    requires EndsOnce(cs) && ok(IEND)
    ensures EndsOnce(Filtered(ok, cs))
  {
    var c, rest := cs[0], cs[1..];
    if c.kind == IEND {
      assert rest == [];
      assert Filtered(ok, cs) == [c] + Filtered(ok, rest) == [c];
    } else {
      EndsOnceTail(cs);
      FilteredEndsOnce(ok, rest);
    }
  }

  lemma {:induction false} FilteredTwice(ok: Bytes -> bool, cs: seq<Chunk>)
    requires forall c :: c in cs ==> ok(c.kind)
    ensures Filtered(ok, cs) == cs
  {
    if cs != [] {
      FilteredTwice(ok, cs[1..]);
      assert cs == [cs[0]] + cs[1..];
    }
  }

  /** The filter's output is itself a stream, with nothing after its IEND. */
  lemma OutputIsStream(data: Bytes, cs: seq<Chunk>, tail: Bytes)
    requires IsStream(data, cs, tail)
    ensures PixelChunksOnly(data) == Ok(SIGNATURE + EncodeAll(Filtered(Allowed, cs)))
    ensures IsStream(PixelChunksOnly(data).value, Filtered(Allowed, cs), [])
  {
    FilterMeaning(data);
    assert Allowed(IEND);
    FilteredEndsOnce(Allowed, cs);
    var out := SIGNATURE + EncodeAll(Filtered(Allowed, cs));
    assert out + [] == out;
  }

  /** Filtering twice changes nothing. */
  lemma FilterIsIdempotent(data: Bytes)
    requires PixelChunksOnly(data).Ok?
    ensures PixelChunksOnly(PixelChunksOnly(data).value) == PixelChunksOnly(data)
  {
    FilterMeaning(data);
    var cs, tail :| IsStream(data, cs, tail);
    OutputIsStream(data, cs, tail);
    FilteredTwice(Allowed, Filtered(Allowed, cs));
    FilterMeaning(PixelChunksOnly(data).value);
  }

  /** The checker accepts the filter's output exactly when it is small enough and the checksums
    * of the kept chunks are intact: nothing else can go wrong.
    */
  lemma FilteredImagePassesReview(crc: Bytes -> nat, data: Bytes, cs: seq<Chunk>, tail: Bytes)
    requires IsStream(data, cs, tail)
    ensures PixelChunksOnly(data).Ok?
    ensures var out := PixelChunksOnly(data).value;
      ReviewImage(crc, out).None? <==>
        |out| <= MAX_IMAGE_BYTES && forall c :: c in cs && Allowed(c.kind) ==> Intact(crc, c)
  {
    OutputIsStream(data, cs, tail);
    var out, kept := PixelChunksOnly(data).value, Filtered(Allowed, cs);
    ReviewMeaning(crc, out);
    if ReviewImage(crc, out).None? {
      var other :| IsReviewed(crc, out, other);
      SameStream(out, kept, other);
    } else if |out| <= MAX_IMAGE_BYTES && forall c :: c in cs && Allowed(c.kind) ==> Intact(crc, c) {
      assert IsReviewed(crc, out, kept);
    }
  }

  lemma SameStream(data: Bytes, a: seq<Chunk>, b: seq<Chunk>)
    requires IsStream(data, a, []) && IsStream(data, b, [])
    ensures a == b
  {
    Unsigned(EncodeAll(a));
    Unsigned(EncodeAll(b));
    StreamIsUnique(a, b);
  }

  lemma Unsigned(encoded: Bytes)
    ensures (SIGNATURE + encoded + [])[8..] == encoded
  {
  }

  lemma EncodeLength(cs: seq<Chunk>)
    requires AllValid(cs) && cs != []
    ensures |EncodeAll(cs)| >= 12
  {
    ReadEncode(cs[0], EncodeAll(cs[1..]));
  }

  /** A byte stream has at most one reading as chunks. */
  lemma {:induction false} StreamIsUnique(a: seq<Chunk>, b: seq<Chunk>)
    requires AllValid(a) && AllValid(b) && EncodeAll(a) == EncodeAll(b)
    ensures a == b
  {
    if a != [] { EncodeLength(a); }
    if b != [] { EncodeLength(b); }
    if a != [] {
      ReadEncode(a[0], EncodeAll(a[1..]));
      ReadEncode(b[0], EncodeAll(b[1..]));
      StreamIsUnique(a[1..], b[1..]);
      assert a == [a[0]] + a[1..] && b == [b[0]] + b[1..];
    }
  }

  /** `png_size`: the two words after the first chunk header; None where unpacking would fail. */
  function PngSize(data: Bytes): Option<(nat, nat)> {
    if |data| < 24 then None else Some((Word(data[16..20]), Word(data[20..24])))
  }

  lemma EncodedStart(c: Chunk, rest: seq<Chunk>)
    requires Valid(c) && AllValid(rest)
    ensures AllValid([c] + rest) && EncodeAll([c] + rest) == Encode(c) + EncodeAll(rest)
  {
    assert ([c] + rest)[1..] == rest;
  }

  lemma KeptHead(ok: Bytes -> bool, cs: seq<Chunk>)
    requires cs != [] && AllValid(cs) && ok(cs[0].kind)
    ensures Filtered(ok, cs) == [cs[0]] + Filtered(ok, cs[1..])
    ensures EncodeAll(cs) == Encode(cs[0]) + EncodeAll(cs[1..])
    ensures EncodeAll(Filtered(ok, cs)) == Encode(cs[0]) + EncodeAll(Filtered(ok, cs[1..]))
  {
    EncodedStart(cs[0], Filtered(ok, cs[1..]));
  }

  lemma DigitsAreUnique(x: int, a: Byte, y: int, b: Byte)
    ensures x * 256 + a as int == y * 256 + b as int <==> x == y && a == b
  {
  }

  lemma WordIsInjective(a: Bytes, b: Bytes)
    requires |a| == 4 && |b| == 4
    ensures Word(a) == Word(b) <==> a == b
  {
    DigitsAreUnique(a[0] as int, a[1], b[0] as int, b[1]);
    DigitsAreUnique(a[0] as int * 256 + a[1] as int, a[2], b[0] as int * 256 + b[1] as int, b[2]);
    DigitsAreUnique((a[0] as int * 256 + a[1] as int) * 256 + a[2] as int, a[3],
                    (b[0] as int * 256 + b[1] as int) * 256 + b[2] as int, b[3]);
    if a[0] == b[0] && a[1] == b[1] && a[2] == b[2] && a[3] == b[3] {
      assert a == b;
    }
  }

  lemma SizesAgree(a: Bytes, b: Bytes)
    requires |a| >= 24 && |b| >= 24
    ensures PngSize(a) == PngSize(b) <==> a[16..24] == b[16..24]
  {
    WordIsInjective(a[16..20], b[16..20]);
    WordIsInjective(a[20..24], b[20..24]);
    assert a[16..24] == a[16..20] + a[20..24] && b[16..24] == b[16..20] + b[20..24];
    assert a[16..24] == b[16..24] ==> a[16..24][..4] == b[16..24][..4] && a[16..24][4..] == b[16..24][4..];
  }

  /** The eight bytes that `png_size` reads: a short header lets it run into the next chunk. */
  function SizeField(c: Chunk, next: Chunk): (r: Bytes)
    requires Valid(c) && Valid(next)
    ensures |r| == 8
  {
    (c.body + c.crc + WordBytes(|next.body|))[..8]
  }

  lemma SizeBytes(c: Chunk, next: Chunk, more: Bytes)
    requires Valid(c) && Valid(next)
    ensures var data := SIGNATURE + (Encode(c) + (Encode(next) + more));
      |data| >= 24 && data[16..24] == SizeField(c, next)
  {
    var head, field := SIGNATURE + WordBytes(|c.body|) + c.kind, c.body + c.crc + WordBytes(|next.body|);
    var rest := next.kind + next.body + next.crc + more;
    var data := SIGNATURE + (Encode(c) + (Encode(next) + more));
    assert data == head + field + rest && |head| == 16;
    assert data[16..24] == field[..8];
  }

  lemma FieldsAgree(c: Chunk, a: Chunk, b: Chunk)
    requires Valid(c) && Valid(a) && Valid(b)
    ensures SizeField(c, a) == SizeField(c, b) <==>
      |c.body| >= 4 || WordBytes(|a.body|)[..4 - |c.body|] == WordBytes(|b.body|)[..4 - |c.body|]
  {
    var own, x, y := c.body + c.crc, WordBytes(|a.body|), WordBytes(|b.body|);
    if |c.body| >= 4 {
      assert (own + x)[..8] == own[..8] == (own + y)[..8];
    } else {
      var n := 4 - |c.body|;
      assert (own + x)[..8] == own + x[..n] && (own + y)[..8] == own + y[..n];
      assert (own + x[..n])[|own|..] == x[..n] && (own + y[..n])[|own|..] == y[..n];
    }
  }

  lemma SecondChunk(data: Bytes, cs: seq<Chunk>, tail: Bytes)
    requires IsStream(data, cs, tail) && |cs| >= 2
    ensures |data| >= 24 && data[16..24] == SizeField(cs[0], cs[1])
  {
    var c, next, rest := cs[0], cs[1], cs[2..];
    assert cs[1..][1..] == rest && cs[1..][0] == next && c in cs && next in cs;
    assert EncodeAll(cs[1..]) == Encode(next) + EncodeAll(rest);
    Reassociate(Encode(c), EncodeAll(cs[1..]), tail);
    Associate(Encode(next), EncodeAll(rest), tail);
    SizeBytes(c, next, EncodeAll(rest) + tail);
  }

  lemma Reassociate(a: Bytes, b: Bytes, c: Bytes)
    ensures SIGNATURE + (a + b) + c == SIGNATURE + (a + (b + c))
  {
  }

  /** Behind a header chunk there is another chunk, and one that is kept. */
  lemma HeaderIsNotLast(cs: seq<Chunk>)
    requires AllValid(cs) && EndsOnce(cs) && cs[0].kind == IHDR
    ensures |cs| >= 2 && Valid(cs[1])
    ensures Filtered(Allowed, cs[1..]) != [] && Valid(Filtered(Allowed, cs[1..])[0])
  {
    assert IHDR[0] != IEND[0] || IHDR[1] != IEND[1];
    var last := cs[|cs| - 1];
    assert last in cs[1..] && cs[1] in cs && Allowed(last.kind);
    var kept := Filtered(Allowed, cs[1..]);
    assert last in kept;
    assert kept[0] in kept;
  }

  /** Two streams with one header show the same size exactly when the bytes borrowed from their second chunks agree. */
  lemma SecondDecides(data: Bytes, cs: seq<Chunk>, tail: Bytes, out: Bytes, kept: seq<Chunk>)
    requires IsStream(data, cs, tail) && IsStream(out, kept, [])
    requires |cs| >= 2 && |kept| >= 2 && kept[0] == cs[0]
    ensures Valid(cs[1]) && Valid(kept[1]) && PngSize(data) != None
    ensures var n := |cs[0].body|;
      PngSize(out) == PngSize(data) <==>
      n >= 4 || WordBytes(|cs[1].body|)[..4 - n] == WordBytes(|kept[1].body|)[..4 - n]
  {
    assert cs[0] in cs && cs[1] in cs && kept[1] in kept;
    SecondChunk(data, cs, tail);
    SecondChunk(out, kept, []);
    SizesAgree(out, data);
    FieldsAgree(cs[0], cs[1], kept[1]);
  }

  /** When the header chunk comes first, filtering keeps the size that `png_size` reads exactly when that
    * size lies within the chunk, or the bytes it borrows from the next chunk's length stay the same.
    */
  lemma FilterKeepsSize(data: Bytes, cs: seq<Chunk>, tail: Bytes)
    requires IsStream(data, cs, tail) && cs[0].kind == IHDR
    ensures PixelChunksOnly(data).Ok? && PngSize(data) != None && |cs| >= 2 && Valid(cs[1])
    ensures Filtered(Allowed, cs[1..]) != [] && Valid(Filtered(Allowed, cs[1..])[0])
    ensures var n, next := |cs[0].body|, Filtered(Allowed, cs[1..])[0];
      PngSize(PixelChunksOnly(data).value) == PngSize(data) <==>
      n >= 4 || WordBytes(|cs[1].body|)[..4 - n] == WordBytes(|next.body|)[..4 - n]
  {
    OutputIsStream(data, cs, tail);
    var kept, out := Filtered(Allowed, cs), PixelChunksOnly(data).value;
    HeaderIsNotLast(cs);
    KeptHead(Allowed, cs);
    assert |kept| >= 2 && kept[1] == Filtered(Allowed, cs[1..])[0];
    SecondDecides(data, cs, tail, out, kept);
  }

  lemma MiddleDropped(ok: Bytes -> bool, t: Chunk, e: Chunk)
    requires !ok(t.kind) && ok(e.kind)
    ensures Filtered(ok, [t, e]) == [e]
  {
    assert [t, e][1..] == [e] && Filtered(ok, [e]) == [e];
  }

  /** An empty header before a dropped chunk and the end, whose lengths differ. */
  lemma BorrowedSizeChanges(h: Chunk, t: Chunk, e: Chunk) returns (data: Bytes)
    requires Valid(h) && Valid(t) && Valid(e) && h.kind == IHDR && h.body == [] && e.kind == IEND
    requires t.kind != IEND && !Allowed(t.kind) && WordBytes(|t.body|) != WordBytes(|e.body|)
    ensures PixelChunksOnly(data).Ok? && PngSize(PixelChunksOnly(data).value) != PngSize(data)
  {
    var cs := [h, t, e];
    data := SIGNATURE + EncodeAll(cs) + [];
    assert IHDR[0] != IEND[0] || IHDR[1] != IEND[1];
    assert IsStream(data, cs, []);
    assert cs[1..] == [t, e];
    MiddleDropped(Allowed, t, e);
    FilterKeepsSize(data, cs, []);
    assert WordBytes(|t.body|)[..4] == WordBytes(|t.body|) && WordBytes(|e.body|)[..4] == WordBytes(|e.body|);
  }

  /** It can fail: an empty header, a one-byte text chunk that is dropped, and the end. */
  lemma SizeCanChange() returns (data: Bytes)
    ensures PixelChunksOnly(data).Ok? && PngSize(PixelChunksOnly(data).value) != PngSize(data)
  {
    var zero: Bytes := [0, 0, 0, 0];
    var text: Bytes := [0x74, 0x45, 0x58, 0x74];
    assert !Allowed(text) && text != IEND;
    assert WordBytes(1)[3] == 1 && WordBytes(0)[3] == 0;
    data := BorrowedSizeChanges(Chunk(IHDR, [], zero), Chunk(text, [0], zero), Chunk(IEND, [], zero));
  }
}
