/** Bodies in the chunked coding of section 7.1 of RFC 9112 and what the decoder makes of them. */
module ChunkedCodings {

  import opened Bytes
  import opened Chunks
  import opened ChunkedDecoders

  /** A chunk as written: its size in hex digits, an extension (empty or begun by a delimiter), the
      payload. */
  datatype Chunk = Chunk(size: seq<Byte>, ext: seq<Byte>, data: seq<Byte>)

  ghost predicate AllHex(digits: seq<Byte>) {
    forall i :: 0 <= i < |digits| ==> Hex(digits[i]) >= 0
  }

  /** The number the digits spell, read on from `left`. */
  function HexValue(digits: seq<Byte>, left: nat): nat
    requires AllHex(digits)
  {
    if digits == [] then left else HexValue(digits[1..], left * 16 + Hex(digits[0]))
  }

  ghost predicate SizeLine(size: seq<Byte>, ext: seq<Byte>) {
    && 1 <= |size| <= MAX_DIGITS && AllHex(size)
    && LF !in ext && (ext != [] ==> EndsSize(ext[0]))
  }

  ghost predicate ValidChunk(c: Chunk) {
    SizeLine(c.size, c.ext) && c.data != [] && HexValue(c.size, 0) == |c.data|
  }

  ghost predicate ValidLast(c: Chunk) {
    SizeLine(c.size, c.ext) && c.data == [] && HexValue(c.size, 0) == 0
  }

  /** A trailer line without its line feed. */
  ghost predicate ValidTrailer(line: seq<Byte>) {
    line != [] && line[0] != CR && LF !in line
  }

  function Line(c: Chunk): seq<Byte> {
    c.size + (c.ext + CRLF)
  }

  function EncodeChunks(chunks: seq<Chunk>): seq<Byte> {
    if chunks == [] then [] else Line(chunks[0]) + (chunks[0].data + (CRLF + EncodeChunks(chunks[1..])))
  }

  function EncodeTrailers(lines: seq<seq<Byte>>): seq<Byte> {
    if lines == [] then CRLF else lines[0] + ([LF] + EncodeTrailers(lines[1..]))
  }

  function Payload(chunks: seq<Chunk>): seq<Byte> {
    if chunks == [] then [] else chunks[0].data + Payload(chunks[1..])
  }

  // ----- reading one part after another -----

  /** Reading `part` takes the decoder from `d` to `e` and yields `out`. */
  ghost predicate Reads(d: Decoder, part: seq<Byte>, e: Decoder, out: seq<Byte>) {
    Sound(d) && Sound(e) && Run(d, part, 0) == Reading(More(e), |part|, out)
  }

  lemma ReadsThen(d: Decoder, a: seq<Byte>, e: Decoder, out: seq<Byte>, b: seq<Byte>)
    requires Reads(d, a, e, out)
    ensures Run(d, a + b, 0) == Later(|a|, Emit(out, Run(e, b, 0)))
  {
    RunSplits(d, a, b);
  }

  lemma ReadsTwo(d: Decoder, a: seq<Byte>, e: Decoder, out: seq<Byte>, b: seq<Byte>, f: Decoder, out': seq<Byte>)
    requires Reads(d, a, e, out) && Reads(e, b, f, out')
    ensures Reads(d, a + b, f, out + out')
  {
    ReadsThen(d, a, e, out, b);
  }

  lemma ReadsQuietly(d: Decoder, a: seq<Byte>, e: Decoder, b: seq<Byte>, f: Decoder)
    requires Reads(d, a, e, []) && Reads(e, b, f, [])
    ensures Reads(d, a + b, f, [])
  {
    ReadsTwo(d, a, e, [], b, f, []);
  }

  /** One byte that yields nothing. */
  lemma ReadsOne(d: Decoder, b: Byte)
    requires Sound(d) && d.phase != Data && OnByte(d, b).More?
    ensures Reads(d, [b], OnByte(d, b).d, [])
  {
    StepIsSound(d, b);
    assert Run(OnByte(d, b).d, [b], 1) == Reading(More(OnByte(d, b).d), 1, []);
  }

  lemma {:induction false} ReadsDigits(d: Decoder, digits: seq<Byte>)
    requires Sound(d) && d.phase == Size && AllHex(digits) && d.digits + |digits| <= MAX_DIGITS
    ensures Reads(d, digits, d.(left := HexValue(digits, d.left), digits := d.digits + |digits|), [])
    decreases |digits|
  {
    if digits != [] {
      StepIsSound(d, digits[0]);
      ReadsOne(d, digits[0]);
      var e := OnByte(d, digits[0]).d;
      ReadsDigits(e, digits[1..]);
      assert digits == [digits[0]] + digits[1..];
      ReadsQuietly(d, [digits[0]], e, digits[1..], d.(left := HexValue(digits, d.left), digits := d.digits + |digits|));
    }
  }

  /** Bytes without a line feed keep an extension or a trailer line going. */
  lemma {:induction false} ReadsOn(d: Decoder, part: seq<Byte>)
    requires Sound(d) && (d.phase == Ext || d.phase == Middle) && LF !in part
    ensures Reads(d, part, d, [])
    decreases |part|
  {
    if part != [] {
      assert part[0] in part;
      ReadsOne(d, part[0]);
      ReadsOn(d, part[1..]);
      assert part == [part[0]] + part[1..];
      ReadsQuietly(d, [part[0]], d, part[1..], d);
    }
  }

  /** From the size digits to the end of the extension; the closing line feed is still to come. */
  lemma ReadsSizeLine(trailer: bool, size: seq<Byte>, ext: seq<Byte>)
    requires SizeLine(size, ext)
    ensures HexValue(size, 0) < WORD
    ensures Reads(Start(trailer), size + (ext + [CR]), Decoder(Ext, HexValue(size, 0), 0, trailer), [])
  {
    hide Reads, Run, HexValue;
    var start := Start(trailer);
    StartIsSound(trailer);
    ReadsDigits(start, size);
    var d := start.(left := HexValue(size, 0), digits := |size|);
    var tail := ext + [CR];
    var e := d.(phase := Ext, digits := 0);
    ReadsGivesSound(start, size, d, []);
    assert EndsSize(tail[0]) && Hex(tail[0]) < 0 && tail[0] != LF by {
      if ext != [] { assert ext[0] in ext; }
    }
    ReadsOne(d, tail[0]);
    ReadsGivesSound(d, [tail[0]], e, []);
    assert LF !in tail[1..];
    ReadsOn(e, tail[1..]);
    assert tail == [tail[0]] + tail[1..];
    ReadsQuietly(d, [tail[0]], e, tail[1..], e);
    ReadsQuietly(start, size, d, tail, e);
  }

  lemma StartIsSound(trailer: bool)
    ensures Sound(Start(trailer))
  {
  }

  lemma ReadsGivesSound(d: Decoder, part: seq<Byte>, e: Decoder, out: seq<Byte>)
    requires Reads(d, part, e, out)
    ensures Sound(e)
  {
  }

  lemma ReadsData(d: Decoder, data: seq<Byte>)
    requires Sound(d) && d.phase == Data && d.left == |data|
    ensures Reads(d, data, d.(left := 0, phase := Crlf), data)
  {
    DataRuns(d, data, 0, |data|);
    assert data[0..|data|] == data && data + [] == data;
  }

  /** A whole chunk yields its payload and leaves the decoder where it started. */
  lemma ReadsChunk(trailer: bool, c: Chunk)
    requires ValidChunk(c)
    ensures Reads(Start(trailer), Line(c) + (c.data + CRLF), Start(trailer), c.data)
  {
    hide Reads, Run, HexValue;
    ReadsSizeLine(trailer, c.size, c.ext);
    var start, head := Start(trailer), c.size + (c.ext + [CR]);
    var e := Decoder(Ext, |c.data|, 0, trailer);
    var d, f := e.(phase := Data), Decoder(Crlf, 0, 0, trailer);
    ReadsGivesSound(start, head, e, []);
    ReadsOne(e, LF);
    ReadsQuietly(start, head, e, [LF], d);
    ReadsGivesSound(e, [LF], d, []);
    ReadsData(d, c.data);
    ReadsGivesSound(d, c.data, f, c.data);
    ReadsOne(f, CR);
    ReadsOne(f, LF);
    ReadsQuietly(f, [CR], f, [LF], start);
    var quiet: seq<Byte> := [];
    ReadsTwo(d, c.data, f, c.data, [CR] + [LF], start, quiet);
    ReadsTwo(start, head + [LF], d, quiet, c.data + ([CR] + [LF]), start, c.data + quiet);
    assert head + [LF] == Line(c) && [CR] + [LF] == CRLF;
    assert c.data + quiet == c.data && quiet + c.data == c.data;
  }

  lemma {:induction false} ReadsChunks(trailer: bool, chunks: seq<Chunk>)
    requires forall i :: 0 <= i < |chunks| ==> ValidChunk(chunks[i])
    ensures Reads(Start(trailer), EncodeChunks(chunks), Start(trailer), Payload(chunks))
    decreases |chunks|
  {
    hide Reads, Run, ValidChunk;
    var start := Start(trailer);
    if chunks == [] {
      ReadsNothing(start);
    } else {
      var c := chunks[0];
      ReadsChunk(trailer, c);
      ReadsChunks(trailer, chunks[1..]);
      ReadsTwo(start, Line(c) + (c.data + CRLF), start, c.data, EncodeChunks(chunks[1..]), start, Payload(chunks[1..]));
      assert Line(c) + (c.data + CRLF) + EncodeChunks(chunks[1..]) == EncodeChunks(chunks);
    }
  }

  lemma ReadsNothing(d: Decoder)
    requires d.phase == Size && d.left == 0 && d.digits == 0
    ensures Reads(d, [], d, [])
  {
  }

  lemma ReadsTrailer(line: seq<Byte>)
    requires ValidTrailer(line)
    ensures Reads(Decoder(Head, 0, 0, true), line + [LF], Decoder(Head, 0, 0, true), [])
  {
    hide Reads, Run;
    var d, m := Decoder(Head, 0, 0, true), Decoder(Middle, 0, 0, true);
    assert line[0] in line;
    ReadsOne(d, line[0]);
    ReadsOn(m, line[1..]);
    ReadsQuietly(d, [line[0]], m, line[1..], m);
    assert line == [line[0]] + line[1..];
    ReadsOne(m, LF);
    ReadsQuietly(d, line, m, [LF], d);
  }

  lemma {:induction false} ReadsTrailers(lines: seq<seq<Byte>>, rest: seq<Byte>)
    requires forall i :: 0 <= i < |lines| ==> ValidTrailer(lines[i])
    ensures Sound(Decoder(Head, 0, 0, true))
    ensures Run(Decoder(Head, 0, 0, true), EncodeTrailers(lines) + rest, 0) == Reading(Done, |EncodeTrailers(lines)|, [])
    decreases |lines|
  {
    hide Reads, Run, ValidTrailer;
    var d := Decoder(Head, 0, 0, true);
    if lines == [] {
      ReadsOne(d, CR);
      ReadsThen(d, [CR], d, [], [LF] + rest);
      assert EncodeTrailers(lines) + rest == [CR] + ([LF] + rest);
      EndsWith(d, LF, rest);
      EmitNothing([], Run(d, [LF] + rest, 0));
    } else {
      var more := EncodeTrailers(lines[1..]) + rest;
      ReadsTrailer(lines[0]);
      ReadsTrailers(lines[1..], rest);
      ReadsThen(d, lines[0] + [LF], d, [], more);
      assert (lines[0] + [LF]) + more == EncodeTrailers(lines) + rest;
      EmitNothing([], Run(d, more, 0));
    }
  }

  lemma EndsWith(d: Decoder, b: Byte, rest: seq<Byte>)
    requires Sound(d) && d.phase != Data && OnByte(d, b).Done?
    ensures Run(d, [b] + rest, 0) == Reading(Done, 1, [])
  {
  }

  /** The body: chunks, the last chunk, and the trailer section if the decoder is to consume it. */
  function Encode(chunks: seq<Chunk>, last: Chunk, lines: seq<seq<Byte>>, trailer: bool): seq<Byte> {
    EncodeChunks(chunks) + (Line(last) + if trailer then EncodeTrailers(lines) else [])
  }

  /** Decoding a coded body followed by any bytes gives back its payload and stops right behind it. */
  lemma DecodeEncode(chunks: seq<Chunk>, last: Chunk, lines: seq<seq<Byte>>, trailer: bool, rest: seq<Byte>)
    requires forall i :: 0 <= i < |chunks| ==> ValidChunk(chunks[i])
    requires forall i :: 0 <= i < |lines| ==> ValidTrailer(lines[i])
    requires ValidLast(last)
    ensures Run(Start(trailer), Encode(chunks, last, lines, trailer) + rest, 0) ==
      Reading(Done, |Encode(chunks, last, lines, trailer)|, Payload(chunks))
  {
    hide Reads, Run, ValidChunk, ValidTrailer, ValidLast;
    ReadsToTheEnd(trailer, chunks, last);
    var front := EncodeChunks(chunks) + (last.size + (last.ext + [CR]));
    var d := Decoder(Ext, 0, 0, trailer);
    if trailer {
      EndsInTrailers(front, Payload(chunks), lines, rest);
      assert Encode(chunks, last, lines, trailer) + rest == (front + [LF]) + (EncodeTrailers(lines) + rest);
      assert |Encode(chunks, last, lines, trailer)| == |front| + 1 + |EncodeTrailers(lines)|;
    } else {
      EndsPlainly(front, Payload(chunks), rest);
      assert Encode(chunks, last, lines, trailer) + rest == front + ([LF] + rest);
      assert |Encode(chunks, last, lines, trailer)| == |front| + 1;
    }
  }

  /** Up to the line feed that closes the last chunk. */
  lemma ReadsToTheEnd(trailer: bool, chunks: seq<Chunk>, last: Chunk)
    requires forall i :: 0 <= i < |chunks| ==> ValidChunk(chunks[i])
    requires ValidLast(last)
    ensures Reads(Start(trailer), EncodeChunks(chunks) + (last.size + (last.ext + [CR])), Decoder(Ext, 0, 0, trailer), Payload(chunks))
  {
    hide Reads, Run, HexValue, ValidChunk, SizeLine;
    var start, d := Start(trailer), Decoder(Ext, 0, 0, trailer);
    var head := last.size + (last.ext + [CR]);
    ReadsChunks(trailer, chunks);
    ReadsSizeLine(trailer, last.size, last.ext);
    ReadsTwo(start, EncodeChunks(chunks), start, Payload(chunks), head, d, []);
    assert Payload(chunks) + [] == Payload(chunks);
  }

  lemma EndsPlainly(front: seq<Byte>, out: seq<Byte>, rest: seq<Byte>)
    requires Reads(Start(false), front, Decoder(Ext, 0, 0, false), out)
    ensures Run(Start(false), front + ([LF] + rest), 0) == Reading(Done, |front| + 1, out)
  {
    hide Reads, Run;
    var start, d := Start(false), Decoder(Ext, 0, 0, false);
    ReadsGivesSound(start, front, d, out);
    EndsWith(d, LF, rest);
    ReadsThen(start, front, d, out, [LF] + rest);
    assert out + [] == out;
  }

  lemma EndsInTrailers(front: seq<Byte>, out: seq<Byte>, lines: seq<seq<Byte>>, rest: seq<Byte>)
    requires Reads(Start(true), front, Decoder(Ext, 0, 0, true), out)
    requires forall i :: 0 <= i < |lines| ==> ValidTrailer(lines[i])
    ensures Run(Start(true), (front + [LF]) + (EncodeTrailers(lines) + rest), 0) ==
      Reading(Done, |front| + 1 + |EncodeTrailers(lines)|, out)
  {
    hide Reads, Run, ValidTrailer;
    var start, d, h := Start(true), Decoder(Ext, 0, 0, true), Decoder(Head, 0, 0, true);
    ReadsGivesSound(start, front, d, out);
    ReadsOne(d, LF);
    ReadsTwo(start, front, d, out, [LF], h, []);
    ReadsTrailers(lines, rest);
    assert out + [] == out;
    ReadsThen(start, front + [LF], h, out, EncodeTrailers(lines) + rest);
  }

  // ----- every size can be written -----

  function HexDigit(v: nat): (b: Byte)
    requires v < 16
    ensures Hex(b) == v
  {
    if v < 10 then 48 + v else 87 + v
  }

  /** The size in lower-case digits, without leading zeros. */
  function HexOf(n: nat): (digits: seq<Byte>)
    ensures digits != [] && AllHex(digits)
  {
    if n < 16 then [HexDigit(n)] else HexOf(n / 16) + [HexDigit(n % 16)]
  }

  lemma {:induction false} HexValueSnoc(digits: seq<Byte>, b: Byte, left: nat)
    requires AllHex(digits) && Hex(b) >= 0
    ensures AllHex(digits + [b]) && HexValue(digits + [b], left) == HexValue(digits, left) * 16 + Hex(b)
    decreases |digits|
  {
    if digits != [] {
      HexValueSnoc(digits[1..], b, left * 16 + Hex(digits[0]));
      assert (digits + [b])[1..] == digits[1..] + [b];
    }
  }

  lemma {:induction false} HexRoundTrip(n: nat, k: nat)
    requires n < Pow16(k) && k > 0
    ensures HexValue(HexOf(n), 0) == n && |HexOf(n)| <= k
  {
    if n >= 16 {
      assert Pow16(k) == 16 * Pow16(k - 1);
      assert k > 1 by { assert Pow16(1) == 16 * Pow16(0); }
      HexRoundTrip(n / 16, k - 1);
      HexValueSnoc(HexOf(n / 16), HexDigit(n % 16), 0);
    }
  }

  /** Any payload that a 64-bit word can count has a chunk. */
  lemma AnyPayloadHasAChunk(data: seq<Byte>)
    requires 0 < |data| < WORD
    ensures ValidChunk(Chunk(HexOf(|data|), [], data))
  {
    hide Hex, HexOf, HexValue, Pow16;
    Pow16Word();
    HexRoundTrip(|data|, 16);
  }
}
