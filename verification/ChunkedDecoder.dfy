/** The decoder that removes the chunked coding from a buffer in place. */
module ChunkedDecoders {

  import opened Bytes
  import opened Chunks

  const INCOMPLETE: int := -2
  const FAILED: int := -1

  /** Move the bytes `src..src + n` down to `dst`; the two stretches may overlap. */
  method MoveDown(buf: array<Byte>, dst: nat, src: nat, n: nat)
    requires dst <= src && src + n <= buf.Length
    modifies buf
    ensures buf[dst..dst + n] == old(buf[src..src + n])
    ensures buf[..dst] == old(buf[..dst])
    ensures buf[src + n..] == old(buf[src + n..])
  {
    ghost var was := buf[..];
    var i := 0;
    while i < n
      invariant i <= n
      invariant forall j :: dst <= j < dst + i ==> buf[j] == was[j + (src - dst)]
      invariant forall j :: dst + i <= j < buf.Length ==> buf[j] == was[j]
      invariant forall j :: 0 <= j < dst ==> buf[j] == was[j]
    {
      buf[dst + i] := buf[src + i];
      i := i + 1;
    }
  }

  class ChunkedDecoder {
    var phase: Phase
    var left: nat
    var digits: nat
    const trailer: bool
    var totalRead: nat
    var totalOverhead: nat

    constructor (trailer: bool)
      ensures Now() == Start(trailer) && Sound(Now()) && totalRead == 0 && totalOverhead == 0
    {
      phase, left, digits := Size, 0, 0;
      this.trailer := trailer;
      totalRead, totalOverhead := 0, 0;
    }

    ghost function Now(): Decoder reads this {
      Decoder(phase, left, digits, trailer)
    }

    /** The bytes still to be read, `s` from `src` on, are in the buffer. */
    ghost predicate Unread(buf: array<Byte>, src: nat, s: seq<Byte>)
      reads buf
    {
      src <= |s| <= buf.Length && forall j :: src <= j < |s| ==> buf[j] == s[j]
    }

    // ----- one scan per phase -----

    /** Read digits of the chunk size; `ok` is false at a byte that may not stand there. */
    method ScanSize(buf: array<Byte>, from: nat, size: nat, ghost s: seq<Byte>) returns (src: nat, ok: bool)
      requires |s| == size && Unread(buf, from, s) && Sound(Now()) && phase == Size
      modifies this`phase, this`left, this`digits
      ensures from <= src <= size && Sound(Now())
      ensures ok ==> Run(old(Now()), s, from) == Run(Now(), s, src) && (src == size || phase == Ext)
      ensures !ok ==> Run(old(Now()), s, from) == Reading(Bad, src, [])
    {
      hide Pow16;
      src, ok := from, true;
      while src < size
        invariant from <= src <= size && Sound(Now()) && phase == Size
        invariant Run(old(Now()), s, from) == Run(Now(), s, src)
      {
        StepIsSound(Now(), s[src]);
        var v := Hex(buf[src]);
        if v == -1 {
          ok := digits != 0 && EndsSize(buf[src]);
          if ok {
            SizeEnds(Now(), s, src);
            digits := 0;
            phase := Ext;
          }
          return;
        }
        if digits == MAX_DIGITS {
          ok := false;
          return;
        }
        left := (left * 16 + v) % WORD;
        digits := digits + 1;
        src := src + 1;
      }
    }

    /** Read on through the bytes before the line feed of an extension or of a trailer line. */
    method ScanLine(buf: array<Byte>, from: nat, size: nat, ghost s: seq<Byte>) returns (src: nat)
      requires |s| == size && Unread(buf, from, s) && Sound(Now()) && (phase == Ext || phase == Middle)
      ensures from <= src <= size && (src < size ==> buf[src] == LF)
      ensures Run(Now(), s, from) == Run(Now(), s, src)
    {
      hide Pow16;
      src := from;
      while src < size && buf[src] != LF
        invariant from <= src <= size
        invariant Run(Now(), s, from) == Run(Now(), s, src)
      {
        assert s[src] != LF;
        src := src + 1;
      }
    }

    /** Skip carriage returns. */
    method SkipReturns(buf: array<Byte>, from: nat, size: nat, ghost s: seq<Byte>) returns (src: nat)
      requires |s| == size && Unread(buf, from, s) && Sound(Now()) && (phase == Crlf || phase == Head)
      ensures from <= src <= size && (src < size ==> buf[src] != CR)
      ensures Run(Now(), s, from) == Run(Now(), s, src)
    {
      hide Pow16;
      src := from;
      while src < size && buf[src] == CR
        invariant from <= src <= size
        invariant Run(Now(), s, from) == Run(Now(), s, src)
      {
        assert s[src] == CR;
        src := src + 1;
      }
    }

    // ----- one phase -----

    method TurnExt(buf: array<Byte>, from: nat, size: nat, ghost s: seq<Byte>) returns (src: nat, stop: bool)
      requires |s| == size && Unread(buf, from, s) && Sound(Now()) && phase == Ext && from < size
      modifies this`phase
      ensures from < src <= size && Sound(Now())
      ensures Run(old(Now()), s, from) == if stop then Reading(Done, src, []) else Run(Now(), s, src)
    {
      hide Pow16;
      stop := false;
      src := ScanLine(buf, from, size, s);
      if src < size {
        assert s[src] == LF;
        src := src + 1;
        if left > 0 {
          phase := Data;
        } else if trailer {
          phase := Head;
        } else {
          stop := true;
        }
      }
    }

    method TurnCrlf(buf: array<Byte>, from: nat, size: nat, ghost s: seq<Byte>) returns (src: nat, ok: bool)
      requires |s| == size && Unread(buf, from, s) && Sound(Now()) && phase == Crlf && from < size
      modifies this`phase
      ensures from <= src <= size && Sound(Now()) && (ok ==> from < src)
      ensures Run(old(Now()), s, from) == if ok then Run(Now(), s, src) else Reading(Bad, src, [])
    {
      hide Pow16;
      ok := true;
      src := SkipReturns(buf, from, size, s);
      if src < size {
        assert s[src] == buf[src];
        ok := buf[src] == LF;
        if ok {
          src := src + 1;
          AnySizeStart(Now());
          phase := Size;
        }
      }
    }

    method TurnHead(buf: array<Byte>, from: nat, size: nat, ghost s: seq<Byte>) returns (src: nat, stop: bool)
      requires |s| == size && Unread(buf, from, s) && Sound(Now()) && phase == Head && from < size
      modifies this`phase
      ensures from < src <= size && Sound(Now())
      ensures Run(old(Now()), s, from) == if stop then Reading(Done, src, []) else Run(Now(), s, src)
    {
      hide Pow16;
      stop := false;
      src := SkipReturns(buf, from, size, s);
      if src < size {
        assert s[src] == buf[src];
        stop := buf[src] == LF;
        src := src + 1;
        if !stop {
          phase := Middle;
        }
      }
    }

    method TurnMiddle(buf: array<Byte>, from: nat, size: nat, ghost s: seq<Byte>) returns (src: nat)
      requires |s| == size && Unread(buf, from, s) && Sound(Now()) && phase == Middle && from < size
      modifies this`phase
      ensures from < src <= size && Sound(Now())
      ensures Run(old(Now()), s, from) == Run(Now(), s, src)
    {
      hide Pow16;
      src := ScanLine(buf, from, size, s);
      if src < size {
        assert s[src] == LF;
        src := src + 1;
        phase := Head;
      }
    }

    /** Move payload down over the coding already removed: never over bytes still to be read. */
    method TurnData(buf: array<Byte>, dst: nat, src: nat, size: nat, ghost s: seq<Byte>) returns (n: nat)
      requires |s| == size && Unread(buf, src, s) && Sound(Now()) && phase == Data && dst <= src < size
      modifies this`phase, this`left, buf
      ensures 0 < n <= size - src && Sound(Now()) && Unread(buf, src + n, s)
      ensures buf[..dst + n] == old(buf[..dst]) + s[src..src + n]
      ensures buf[size..] == old(buf[size..])
      ensures Run(old(Now()), s, src) == Emit(s[src..src + n], Run(Now(), s, src + n))
    {
      hide Run;
      var avail := size - src;
      n := if avail < left then avail else left;
      DataRuns(Now(), s, src, n);
      assert s[src..src + n] == buf[src..src + n];
      ghost var tail := buf[src + n..];
      if dst != src {
        MoveDown(buf, dst, src, n);
      }
      assert buf[src + n..] == tail;
      assert buf[..dst + n] == buf[..dst] + buf[dst..dst + n];
      assert forall j :: src + n <= j < size ==> buf[j] == tail[j - src - n] == s[j];
      assert buf[size..] == tail[size - src - n..];
      left := left - n;
      if left == 0 {
        phase := Crlf;
      }
    }

    // ----- the whole call -----

    /** What is known between two phases: the payload so far stands at the front, the bytes still to
        be read are untouched, and reading on gives what reading from the start gives. */
    ghost predicate Ahead(buf: array<Byte>, dst: nat, src: nat, d: Decoder, s: seq<Byte>)
      reads this, buf
      requires Sound(d)
    {
      && dst <= src && Unread(buf, src, s) && Sound(Now())
      && Run(d, s, 0) == Emit(buf[..dst], Run(Now(), s, src))
    }

    /** One turn of the decoding loop: finish the phase the decoder is in. */
    method Turn(buf: array<Byte>, dst: nat, src: nat, size: nat, ghost d: Decoder, ghost s: seq<Byte>)
      returns (dst': nat, src': nat, ret: int)
      requires Sound(d) && |s| == size && src < size && Ahead(buf, dst, src, d, s)
      modifies this`phase, this`left, this`digits, buf
      ensures buf[size..] == old(buf[size..])
      ensures dst' <= src' <= size && src <= src' && Unread(buf, src', s)
      ensures ret == INCOMPLETE ==>
        && Ahead(buf, dst', src', d, s)
        && (src' > src || (old(phase) == Size && phase == Ext))
      ensures ret != INCOMPLETE ==> Run(d, s, 0) == Reading(if ret == FAILED then Bad else Done, src', buf[..dst'])
      ensures ret == INCOMPLETE || ret == FAILED || ret == size - src'
    {
      hide Run, Sound;
      dst', src', ret := dst, src, INCOMPLETE;
      var stop, ok := false, true;
      match phase {
      case Size => src', ok := ScanSize(buf, src, size, s);
      case Ext => src', stop := TurnExt(buf, src, size, s);
      case Crlf => src', ok := TurnCrlf(buf, src, size, s);
      case Head => src', stop := TurnHead(buf, src, size, s);
      case Middle => src' := TurnMiddle(buf, src, size, s);
      case Data =>
        ghost var front := buf[..dst];
        var n := TurnData(buf, dst, src, size, s);
        EmitTwice(front, s[src..src + n], Run(Now(), s, src + n));
        dst', src' := dst + n, src + n;
      }
      if !ok {
        ret := FAILED;
      } else if stop {
        ret := size - src';
      }
      assert buf[..dst'] + [] == buf[..dst'];
    }

    /** Decode the first `size` bytes of `buf` in place: afterwards the payload stands at the front,
        `len` bytes of it, with the bytes not decoded behind it. `ret` counts those when the body is
        complete; it is -2 when more is needed and -1 when the body is malformed or too wasteful. */
    method Decode(buf: array<Byte>, size: nat) returns (ret: int, len: nat)
      requires size <= buf.Length && Sound(Now())
      modifies this, buf
      ensures var r := Run(old(Now()), old(buf[..size]), 0);
        && len == |r.out| && len + (size - r.used) <= size
        && buf[..len] == r.out
        && buf[len..len + (size - r.used)] == old(buf[r.used..size])
        && buf[size..] == old(buf[size..])
        && totalRead == old(totalRead) + size
        && totalOverhead == old(totalOverhead) + (if r.end.More? then size - len else 0)
        && (r.end.Done? ==> ret == size - r.used)
        && (r.end.Bad? ==> ret == FAILED)
        && (r.end.More? ==>
              && Now() == r.end.d && Sound(Now())
              && ret == if Wasteful(totalRead, totalOverhead) then FAILED else INCOMPLETE)
    {
      hide Run, Sound;
      ghost var d, s := Now(), buf[..size];
      totalRead := totalRead + size;
      var dst: nat, src: nat;
      dst, src, ret := Turns(buf, size, s);
      ghost var r := Run(d, s, 0);
      ghost var payload, rest, beyond := buf[..dst], buf[src..size], buf[size..];
      assert rest == s[src..];
      if dst != src {
        MoveDown(buf, dst, src, size - src);
      }
      assert buf[..dst] == payload && buf[dst..dst + (size - src)] == rest && buf[size..] == beyond;
      len := dst;
      if ret == INCOMPLETE {
        totalOverhead := totalOverhead + (size - dst);
        if Wasteful(totalRead, totalOverhead) {
          ret := FAILED;
        }
      }
    }

    /** The decoding loop: turns until the input is used up or the outcome is known. */
    method Turns(buf: array<Byte>, size: nat, ghost s: seq<Byte>) returns (dst: nat, src: nat, ret: int)
      requires size <= buf.Length && Sound(Now()) && s == buf[..size]
      modifies this`phase, this`left, this`digits, buf
      ensures dst <= src <= size && Unread(buf, src, s) && buf[size..] == old(buf[size..])
      ensures var r := Run(old(Now()), s, 0);
        && r.out == buf[..dst] && r.used == src
        && (r.end.Done? ==> ret == size - src)
        && (r.end.Bad? ==> ret == FAILED)
        && (r.end.More? ==> ret == INCOMPLETE && Now() == r.end.d && Sound(Now()))
    {
      hide Run, Sound;
      ghost var d := Now();
      dst, src, ret := 0, 0, INCOMPLETE;
      EmitNothing(buf[..0], Run(d, s, 0));
      while src < size && ret == INCOMPLETE
        invariant dst <= src <= size && Unread(buf, src, s) && buf[size..] == old(buf[size..])
        invariant ret == INCOMPLETE ==> Ahead(buf, dst, src, d, s)
        invariant ret != INCOMPLETE ==> Run(d, s, 0) == Reading(if ret == FAILED then Bad else Done, src, buf[..dst])
        invariant ret == INCOMPLETE || ret == FAILED || ret == size - src
        decreases if ret == INCOMPLETE then 1 else 0, size - src, if phase == Size then 1 else 0
      {
        dst, src, ret := Turn(buf, dst, src, size, d, s);
      }
      if ret == INCOMPLETE {
        RunsOut(Now(), s);
        assert buf[..dst] + [] == buf[..dst];
      }
    }
  }

  lemma AnySizeStart(d: Decoder)
    requires Sound(d) && d.phase == Crlf
    ensures Sound(d.(phase := Size))
  {
  }

  lemma EmitTwice(a: seq<Byte>, b: seq<Byte>, r: Reading)
    ensures Emit(a, Emit(b, r)) == Emit(a + b, r)
  {
    assert a + (b + r.out) == (a + b) + r.out;
  }

  lemma EmitNothing(a: seq<Byte>, r: Reading)
    requires a == []
    ensures Emit(a, r) == r
  {
    assert a + r.out == r.out;
  }

  lemma RunsOut(d: Decoder, s: seq<Byte>)
    requires Sound(d)
    ensures Run(d, s, |s|) == Reading(More(d), |s|, [])
  {
  }

  /** The byte that ends the size is read again as the first byte of the extension. */
  lemma SizeEnds(d: Decoder, s: seq<Byte>, i: nat)
    requires Sound(d) && i < |s| && d.phase == Size && Hex(s[i]) < 0 && d.digits > 0 && EndsSize(s[i])
    ensures Pow16(d.digits) <= WORD && Sound(d.(phase := Ext, digits := 0))
    ensures Run(d, s, i) == Run(d.(phase := Ext, digits := 0), s, i)
  {
    Pow16Grows(d.digits, MAX_DIGITS);
    Pow16Word();
  }

  lemma DataRunsOne(d: Decoder, s: seq<Byte>, i: nat)
    requires Sound(d) && d.phase == Data && i < |s|
    ensures var e := OnByte(d, s[i]).d; Sound(e) && Run(d, s, i) == Emit([s[i]], Run(e, s, i + 1))
  {
  }

  lemma {:induction false} DataRuns(d: Decoder, s: seq<Byte>, i: nat, n: nat)
    requires Sound(d) && d.phase == Data && i + n <= |s| && n <= d.left
    ensures var e := d.(left := d.left - n, phase := if n == d.left then Crlf else Data);
      Sound(e) && Run(d, s, i) == Emit(s[i..i + n], Run(e, s, i + n))
    decreases n
  {
    hide Run, Emit;
    if n == 0 {
      EmitNothing(s[i..i], Run(d, s, i));
    } else {
      var e := OnByte(d, s[i]).d;
      DataRunsOne(d, s, i);
      if n > 1 {
        DataRuns(e, s, i + 1, n - 1);
        EmitTwice([s[i]], s[i + 1..i + n], Run(d.(left := d.left - n, phase := if n == d.left then Crlf else Data), s, i + n));
        assert s[i..i + n] == [s[i]] + s[i + 1..i + n];
      } else {
        assert s[i..i + 1] == [s[i]];
      }
    }
  }
}
