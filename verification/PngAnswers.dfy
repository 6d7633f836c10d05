/** What the chunk filter and the image checker answer, told by the bytes they stop at. */
module PngAnswers {
  import opened Common
  import opened PngChunks

  /** Four bytes that spell these characters. */
  predicate Spells(kind: Bytes, a: char, b: char, c: char, d: char) {
    && |kind| == 4 && kind[0] as int == a as int && kind[1] as int == b as int
    && kind[2] as int == c as int && kind[3] as int == d as int
  }

  /** A length word has its most significant byte first (section 2.1 of RFC 2083). */
  lemma WordMeaning(b: Bytes)
    requires |b| == 4
    ensures Word(b) == 16777216 * b[0] as int + 65536 * b[1] as int + 256 * b[2] as int + b[3] as int
  {
    var high := b[0] as int * 256 + b[1] as int;
    assert (high * 256 + b[2] as int) * 256 == high * 65536 + b[2] as int * 256;
    assert high * 65536 == b[0] as int * 16777216 + b[1] as int * 65536;
  }

  /** The nine types that both scripts let through, and the one that ends a stream. */
  lemma AllowedMeaning(kind: Bytes)
    ensures Allowed(kind) <==>
      || Spells(kind, 'I', 'H', 'D', 'R') || Spells(kind, 'P', 'L', 'T', 'E') || Spells(kind, 't', 'R', 'N', 'S')
      || Spells(kind, 'I', 'D', 'A', 'T') || Spells(kind, 'I', 'E', 'N', 'D') || Spells(kind, 's', 'R', 'G', 'B')
      || Spells(kind, 'g', 'A', 'M', 'A') || Spells(kind, 'c', 'H', 'R', 'M') || Spells(kind, 'p', 'H', 'Y', 's')
    ensures kind == IEND <==> Spells(kind, 'I', 'E', 'N', 'D')
    ensures kind == IHDR <==> Spells(kind, 'I', 'H', 'D', 'R')
  {
    if |kind| == 4 {
      assert kind == [kind[0], kind[1], kind[2], kind[3]];
    }
  }

  /** The eight bytes of a PNG signature (section 3.1 of RFC 2083). */
  lemma SignatureMeaning(data: Bytes)
    ensures Signed(data) <==>
      && |data| >= 8 && data[0] == 137 && Spells(data[1..5], 'P', 'N', 'G', '\r')
      && data[5] == 10 && data[6] == 26 && data[7] == 10
  {
    if |data| >= 8 {
      assert data[..8] == [data[0], data[1], data[2], data[3], data[4], data[5], data[6], data[7]];
    }
  }

  /** Whole chunks before any IEND, and the bytes behind them. */
  ghost predicate Reaches(rest: Bytes, cs: seq<Chunk>, next: Bytes) {
    AllValid(cs) && (forall c :: c in cs ==> c.kind != IEND) && rest == EncodeAll(cs) + next
  }

  /** Bytes that announce a chunk longer than they are. */
  predicate CutShort(next: Bytes) {
    |next| >= 8 && 8 + Word(next[..4]) + 4 > |next|
  }

  lemma NextChunk(next: Bytes)
    ensures Read(next).None? <==> |next| < 8 || CutShort(next)
  {
  }

  lemma ReachesMore(c: Chunk, tail: Bytes, cs: seq<Chunk>, next: Bytes)
    requires Valid(c) && c.kind != IEND && Reaches(tail, cs, next)
    ensures Reaches(Encode(c) + tail, [c] + cs, next)
  {
    EncodedStart(c, cs);
    Associate(Encode(c), EncodeAll(cs), next);
  }

  // ---- the filter's refusals ----

  lemma {:induction false} KeepStops(ok: Bytes -> bool, rest: Bytes, kept: Bytes) returns (cs: seq<Chunk>, next: Bytes)
    requires Keep(ok, rest, kept).Err?
    ensures Reaches(rest, cs, next)
    ensures Keep(ok, rest, kept).error == (if |next| < 8 then NoEnd else Truncated)
    ensures |next| < 8 || CutShort(next)
    decreases |rest|
  {
    if |rest| < 8 || Read(rest).None? {
      cs, next := [], rest;
      assert [] + rest == rest;
    } else {
      var (c, tail) := Read(rest).value;
      EncodeRead(rest);
      var more := if ok(c.kind) then kept + rest[..12 + |c.body|] else kept;
      var cs', next' := KeepStops(ok, tail, more);
      ReachesMore(c, tail, cs', next');
      cs, next := [c] + cs', next';
    }
  }

  lemma {:induction false} KeepReaches(ok: Bytes -> bool, cs: seq<Chunk>, next: Bytes, kept: Bytes)
    requires AllValid(cs) && forall c :: c in cs ==> c.kind != IEND
    requires |next| < 8 || CutShort(next)
    ensures Keep(ok, EncodeAll(cs) + next, kept) == Err(if |next| < 8 then NoEnd else Truncated)
    decreases |cs|
  {
    if cs == [] {
      assert [] + next == next;
    } else {
      var c := cs[0];
      assert EncodeAll(cs) + next == Encode(c) + (EncodeAll(cs[1..]) + next);
      KeepEncoded(ok, c, EncodeAll(cs[1..]) + next, kept);
      KeepReaches(ok, cs[1..], next, if ok(c.kind) then kept + Encode(c) else kept);
    }
  }

  /** Each refusal of the filter: no signature; or, behind whole chunks none of which is an IEND, fewer than eight
    * bytes, or a chunk that the file is too short for.
    */
  lemma FilterRefusals(data: Bytes)
    ensures PixelChunksOnly(data) == Err(NotPng) <==> !Signed(data)
    ensures PixelChunksOnly(data) == Err(NoEnd) <==>
      Signed(data) && exists cs, next :: Reaches(data[8..], cs, next) && |next| < 8
    ensures PixelChunksOnly(data) == Err(Truncated) <==>
      Signed(data) && exists cs, next :: Reaches(data[8..], cs, next) && CutShort(next)
  {
    if Signed(data) {
      forall cs, next | Reaches(data[8..], cs, next) && (|next| < 8 || CutShort(next))
        ensures PixelChunksOnly(data) == Err(if |next| < 8 then NoEnd else Truncated)
      {
        KeepReaches(Allowed, cs, next, SIGNATURE);
      }
      if PixelChunksOnly(data).Err? {
        var cs, next := KeepStops(Allowed, data[8..], SIGNATURE);
      }
    }
  }

  // ---- the checker's problems ----

  /** What the checker finds at the first bytes it objects to, if they start a whole chunk. */
  predicate Objects(ok: Bytes -> bool, crc: Bytes -> nat, p: Problem, c: Chunk, tail: Bytes)
    requires Valid(c)
  {
    var intact := Word(c.crc) == crc(c.kind + c.body) % 4294967296;
    match p
    case ForeignChunk => !ok(c.kind)
    case CorruptChunk => ok(c.kind) && !intact
    case TrailingBytes => ok(c.kind) && intact && c.kind == IEND && tail != []
    case _ => false
  }

  /** The bytes behind the last chunk that passed show this problem. */
  ghost predicate Shows(ok: Bytes -> bool, crc: Bytes -> nat, p: Problem, next: Bytes) {
    if next == [] then p == MissingEnd
    else if |next| < 8 || CutShort(next) then p == TruncatedChunk
    else exists c, tail :: Valid(c) && next == Encode(c) + tail && Objects(ok, crc, p, c, tail)
  }

  lemma ShownIsReported(ok: Bytes -> bool, crc: Bytes -> nat, p: Problem, next: Bytes)
    requires Shows(ok, crc, p, next)
    ensures Walk(ok, crc, next, false) == Some(p)
  {
    NextChunk(next);
    if next != [] && Read(next).Some? {
      var c, tail :| Valid(c) && next == Encode(c) + tail && Objects(ok, crc, p, c, tail);
      ReadEncode(c, tail);
    }
  }

  lemma {:induction false} WalkReaches(ok: Bytes -> bool, crc: Bytes -> nat, p: Problem, cs: seq<Chunk>, next: Bytes)
    requires AllGood(ok, crc, cs) && (forall c :: c in cs ==> c.kind != IEND) && Shows(ok, crc, p, next)
    ensures Walk(ok, crc, EncodeAll(cs) + next, false) == Some(p)
  {
    if cs == [] {
      assert [] + next == next;
      ShownIsReported(ok, crc, p, next);
    } else {
      var c := cs[0];
      Associate(Encode(c), EncodeAll(cs[1..]), next);
      ReadEncode(c, EncodeAll(cs[1..]) + next);
      assert Intact(crc, c);
      WalkReaches(ok, crc, p, cs[1..], next);
    }
  }

  lemma {:induction false} WalkStops(ok: Bytes -> bool, crc: Bytes -> nat, rest: Bytes)
      returns (cs: seq<Chunk>, next: Bytes)
    requires Walk(ok, crc, rest, false).Some?
    ensures Reaches(rest, cs, next) && AllGood(ok, crc, cs)
    ensures Shows(ok, crc, Walk(ok, crc, rest, false).value, next)
    decreases |rest|
  {
    NextChunk(rest);
    cs, next := [], rest;
    assert [] + rest == rest;
    if rest != [] && Read(rest).Some? {
      var (c, tail) := Read(rest).value;
      EncodeRead(rest);
      if ok(c.kind) && Intact(crc, c) && c.kind != IEND {
        var cs', next' := WalkStops(ok, crc, tail);
        ReachesMore(c, tail, cs', next');
        cs, next := [c] + cs', next';
      } else {
        assert Objects(ok, crc, Walk(ok, crc, rest, false).value, c, tail);
      }
    }
  }

  /** Each problem of the checker is reported exactly when it is the first: the size, then the signature, then what
    * the bytes behind a run of allowed chunks with intact checksums show.
    */
  lemma CheckerProblems(crc: Bytes -> nat, data: Bytes, p: Problem)
    ensures ReviewImage(crc, data) == Some(TooLarge) <==> |data| > 200_000
    ensures ReviewImage(crc, data) == Some(MustBePng) <==> |data| <= 200_000 && !Signed(data)
    ensures p != TooLarge && p != MustBePng ==>
      (ReviewImage(crc, data) == Some(p) <==>
        |data| <= 200_000 && Signed(data) && exists cs, next ::
          Reaches(data[8..], cs, next) && AllGood(Allowed, crc, cs) && Shows(Allowed, crc, p, next))
  {
    if |data| <= 200_000 && Signed(data) {
      forall cs, next | Reaches(data[8..], cs, next) && AllGood(Allowed, crc, cs) && Shows(Allowed, crc, p, next)
        ensures ReviewImage(crc, data) == Some(p)
      {
        WalkReaches(Allowed, crc, p, cs, next);
      }
      if ReviewImage(crc, data).Some? {
        var cs, next := WalkStops(Allowed, crc, data[8..]);
      }
    }
  }

  // ---- the size ----

  /** The size is the width and then the height of a first chunk that holds both. */
  lemma SizeMeaning(data: Bytes, cs: seq<Chunk>, tail: Bytes)
    requires IsStream(data, cs, tail) && |cs[0].body| >= 8
    ensures PngSize(data) == Some((Word(cs[0].body[..4]), Word(cs[0].body[4..8])))
  {
    var c := cs[0];
    assert c in cs;
    var head, rest := SIGNATURE + WordBytes(|c.body|) + c.kind, c.crc + EncodeAll(cs[1..]) + tail;
    assert data == head + (c.body + rest) && |head| == 16;
    assert data[16..20] == c.body[..4] && data[20..24] == c.body[4..8];
  }
}
