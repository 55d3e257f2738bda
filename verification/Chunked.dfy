/** The chunked transfer coding, one byte at a time: the machine that the in-place decoder must
    agree with, and what it means to feed it a body in pieces. */
module Chunks {

  import opened Bytes

  const MAX_DIGITS: nat := 16

  datatype Phase = Size | Ext | Data | Crlf | Head | Middle

  /** `left` bytes are missing from the chunk; `digits` of its size have been read. */
  datatype Decoder = Decoder(phase: Phase, left: nat, digits: nat, trailer: bool)

  datatype End = More(d: Decoder) | Done | Bad

  /** How reading ends, the index it ends at, and the payload. */
  datatype Reading = Reading(end: End, used: nat, out: seq<Byte>)

  function Start(trailer: bool): Decoder {
    Decoder(Size, 0, 0, trailer)
  }

  function Hex(b: Byte): (v: int)
    ensures -1 <= v < 16
  {
    if 48 <= b <= 57 then b - 48
    else if 65 <= b <= 70 then b - 55
    else if 97 <= b <= 102 then b - 87
    else -1
  }

  predicate EndsSize(b: Byte) {
    b == SP || b == HT || b == SEMICOLON || b == LF || b == CR
  }

  // ----- the machine -----

  function SizeByte(d: Decoder, b: Byte): End
  {
    var v := Hex(b);
    if v >= 0 then
      if d.digits == MAX_DIGITS then Bad else More(d.(left := d.left * 16 + v, digits := d.digits + 1))
    else if d.digits == 0 || !EndsSize(b) then Bad
    else ExtByte(d.(phase := Ext, digits := 0), b)
  }

  function ExtByte(d: Decoder, b: Byte): End {
    if b != LF then More(d)
    else if d.left > 0 then More(d.(phase := Data))
    else if d.trailer then More(d.(phase := Head))
    else Done
  }

  function CrlfByte(d: Decoder, b: Byte): End {
    if b == CR then More(d) else if b == LF then More(d.(phase := Size)) else Bad
  }

  function HeadByte(d: Decoder, b: Byte): End {
    if b == CR then More(d) else if b == LF then Done else More(d.(phase := Middle))
  }

  function MiddleByte(d: Decoder, b: Byte): End {
    More(if b == LF then d.(phase := Head) else d)
  }

  function DataByte(d: Decoder): End
    requires d.left > 0
  {
    More(if d.left == 1 then d.(left := 0, phase := Crlf) else d.(left := d.left - 1))
  }

  function OnByte(d: Decoder, b: Byte): End
    requires Sound(d)
  {
    match d.phase
    case Size => SizeByte(d, b)
    case Ext => ExtByte(d, b)
    case Data => DataByte(d)
    case Crlf => CrlfByte(d, b)
    case Head => HeadByte(d, b)
    case Middle => MiddleByte(d, b)
  }

  function Pow16(n: nat): (p: nat)
    ensures p > 0
  {
    if n == 0 then 1 else 16 * Pow16(n - 1)
  }

  /** What holds of a decoder between bytes; it keeps the chunk size inside a 64-bit word. */
  predicate Sound(d: Decoder) {
    && d.digits <= MAX_DIGITS
    && d.left < WORD
    && (d.phase == Size ==> d.left < Pow16(d.digits))
    && (d.phase == Data ==> d.left > 0)
    && (d.phase != Size ==> d.digits == 0)
    && (d.phase == Crlf || d.phase == Head || d.phase == Middle ==> d.left == 0)
  }

  lemma Pow16Word()
    ensures Pow16(16) == WORD
  {
    assert Pow16(4) == 0x1_0000;
    assert Pow16(8) == 0x1_0000 * 0x1_0000;
    assert Pow16(12) == 0x1_0000 * 0x1_0000 * 0x1_0000;
  }

  lemma {:induction false} Pow16Grows(m: nat, n: nat)
    requires m <= n
    ensures Pow16(m) <= Pow16(n)
    decreases n
  {
    if m < n {
      Pow16Grows(m, n - 1);
    }
  }

  /** Every step keeps the decoder sound: sixteen hex digits never leave the word. */
  lemma StepIsSound(d: Decoder, b: Byte)
    requires Sound(d)
    ensures OnByte(d, b).More? ==> Sound(OnByte(d, b).d) && OnByte(d, b).d.trailer == d.trailer
    ensures d.phase == Size && Hex(b) >= 0 && d.digits < MAX_DIGITS ==> d.left * 16 + Hex(b) < WORD
  {
    hide Pow16;
    if d.phase == Size && Hex(b) >= 0 && d.digits < MAX_DIGITS {
      OneMoreDigit(d.left, d.digits, Hex(b));
    }
  }

  lemma OneMoreDigit(left: nat, digits: nat, v: int)
    requires left < Pow16(digits) && digits < MAX_DIGITS && 0 <= v < 16
    ensures left * 16 + v < Pow16(digits + 1) && left * 16 + v < WORD
  {
    Pow16Grows(digits + 1, MAX_DIGITS);
    Pow16Word();
  }

  /** Read `s` from index `i` on. */
  function Run(d: Decoder, s: seq<Byte>, i: nat): (r: Reading)
    requires Sound(d) && i <= |s|
    ensures i <= r.used <= |s| && |r.out| <= r.used - i
    ensures r.end.More? ==> Sound(r.end.d) && r.used == |s|
    decreases |s| - i
  {
    if i == |s| then Reading(More(d), i, [])
    else
      var next := OnByte(d, s[i]);
      StepIsSound(d, s[i]);
      match next
      case Done => Reading(Done, i + 1, [])
      case Bad => Reading(Bad, i, [])
      case More(e) =>
        var r := Run(e, s, i + 1);
        if d.phase == Data then r.(out := [s[i]] + r.out) else r
  }

  function Emit(out: seq<Byte>, r: Reading): Reading {
    r.(out := out + r.out)
  }

  function Later(n: nat, r: Reading): Reading {
    r.(used := n + r.used)
  }

  // ----- reading in pieces -----

  /** Reading depends only on what lies ahead. */
  lemma {:induction false} RunShifts(d: Decoder, s: seq<Byte>, t: seq<Byte>, i: nat)
    requires Sound(d) && i <= |t|
    ensures Run(d, s + t, |s| + i) == Later(|s|, Run(d, t, i))
    decreases |t| - i
  {
    if i < |t| {
      assert (s + t)[|s| + i] == t[i];
      StepIsSound(d, t[i]);
      var next := OnByte(d, t[i]);
      if next.More? {
        RunShifts(next.d, s, t, i + 1);
      }
    }
  }

  /** Bytes to come do not change what was read; an unfinished reading goes on with them. */
  lemma {:induction false} RunExtends(d: Decoder, s: seq<Byte>, t: seq<Byte>, i: nat)
    requires Sound(d) && i <= |s|
    ensures var r := Run(d, s, i);
      Run(d, s + t, i) == if r.end.More? then Emit(r.out, Run(r.end.d, s + t, |s|)) else r
    decreases |s| - i
  {
    if i < |s| {
      assert (s + t)[i] == s[i];
      StepIsSound(d, s[i]);
      var next := OnByte(d, s[i]);
      if next.More? {
        RunExtends(next.d, s, t, i + 1);
        var r := Run(next.d, s, i + 1);
        if r.end.More? {
          var rest := Run(r.end.d, s + t, |s|).out;
          assert [s[i]] + (r.out + rest) == ([s[i]] + r.out) + rest;
        }
      }
    } else {
      var rest := Run(d, s + t, |s|);
      assert [] + rest.out == rest.out;
    }
  }

  /** Two calls are one. */
  lemma RunSplits(d: Decoder, s: seq<Byte>, t: seq<Byte>)
    requires Sound(d)
    ensures var r := Run(d, s, 0);
      Run(d, s + t, 0) == if r.end.More? then Later(|s|, Emit(r.out, Run(r.end.d, t, 0))) else r
  {
    RunExtends(d, s, t, 0);
    var r := Run(d, s, 0);
    if r.end.More? {
      RunShifts(r.end.d, s, t, 0);
    }
  }

  function Flatten(pieces: seq<seq<Byte>>): seq<Byte> {
    if pieces == [] then [] else pieces[0] + Flatten(pieces[1..])
  }

  /** Bytes were read and not decoded: is that too much overhead to go on? */
  predicate Wasteful(read: nat, overhead: nat)
  {
    overhead >= 100 * 1024 && read - overhead < read / 4
  }

  /** What the caller of the decoder sees, call by call, with the totals the decoder carries: `used`
      counts from the first piece on. An unfinished call that has become wasteful fails. */
  function Feed(d: Decoder, pieces: seq<seq<Byte>>, read: nat, overhead: nat): (r: Reading)
    requires Sound(d)
    decreases |pieces|
  {
    if pieces == [] then Reading(More(d), 0, [])
    else
      var r := Run(d, pieces[0], 0);
      var total, lost := read + |pieces[0]|, overhead + |pieces[0]| - |r.out|;
      if !r.end.More? then r
      else if Wasteful(total, lost) then r.(end := Bad)
      else Later(|pieces[0]|, Emit(r.out, Feed(r.end.d, pieces[1..], total, lost)))
  }

  /** Would the guard fire at the end of an unfinished call that has seen `s` in all? */
  predicate Trips(d: Decoder, s: seq<Byte>, read: nat, overhead: nat)
    requires Sound(d)
  {
    var r := Run(d, s, 0);
    r.end.More? && Wasteful(read + |s|, overhead + |s| - |r.out|)
  }

  /** No call of this feed trips the guard. */
  predicate Thrifty(d: Decoder, pieces: seq<seq<Byte>>, read: nat, overhead: nat)
    requires Sound(d)
  {
    forall k :: 0 < k <= |pieces| ==> !Trips(d, Flatten(pieces[..k]), read, overhead)
  }

  lemma TripsLater(d: Decoder, s: seq<Byte>, t: seq<Byte>, read: nat, overhead: nat)
    requires Sound(d) && Run(d, s, 0).end.More?
    ensures var r := Run(d, s, 0);
      Trips(d, s + t, read, overhead) <==> Trips(r.end.d, t, read + |s|, overhead + |s| - |r.out|)
  {
    RunSplits(d, s, t);
  }

  lemma ThriftyTail(d: Decoder, pieces: seq<seq<Byte>>, read: nat, overhead: nat)
    requires Sound(d) && pieces != [] && Run(d, pieces[0], 0).end.More?
    ensures var r := Run(d, pieces[0], 0);
      Thrifty(d, pieces, read, overhead) <==>
        (!Trips(d, pieces[0], read, overhead) &&
         Thrifty(r.end.d, pieces[1..], read + |pieces[0]|, overhead + |pieces[0]| - |r.out|))
  {
    hide Trips, Run;
    var r := Run(d, pieces[0], 0);
    var lost := overhead + |pieces[0]| - |r.out|;
    FlattenOne(pieces);
    forall k | 0 < k < |pieces|
      ensures Trips(d, Flatten(pieces[..k + 1]), read, overhead) <==>
              Trips(r.end.d, Flatten(pieces[1..][..k]), read + |pieces[0]|, lost)
    {
      assert pieces[..k + 1][1..] == pieces[1..][..k];
      TripsLater(d, pieces[0], Flatten(pieces[1..][..k]), read, overhead);
    }
    if Thrifty(d, pieces, read, overhead) {
      assert !Trips(d, Flatten(pieces[..1]), read, overhead);
      forall k | 0 < k <= |pieces[1..]|
        ensures !Trips(r.end.d, Flatten(pieces[1..][..k]), read + |pieces[0]|, lost)
      {
        assert !Trips(d, Flatten(pieces[..k + 1]), read, overhead);
      }
    } else {
      var k :| 0 < k <= |pieces| && Trips(d, Flatten(pieces[..k]), read, overhead);
      if k > 1 {
        assert Trips(r.end.d, Flatten(pieces[1..][..k - 1]), read + |pieces[0]|, lost);
      }
    }
  }

  lemma FlattenOne(pieces: seq<seq<Byte>>)
    requires pieces != []
    ensures Flatten(pieces[..1]) == pieces[0]
  {
    assert pieces[..1][1..] == [];
  }

  /** However a body is cut into pieces, feeding them gives what one reading of the whole gives,
      unless the guard fires at the end of one of the unfinished calls. */
  lemma {:induction false} PiecesDoNotMatter(d: Decoder, pieces: seq<seq<Byte>>, read: nat, overhead: nat)
    requires Sound(d)
    ensures Thrifty(d, pieces, read, overhead) ==> Feed(d, pieces, read, overhead) == Run(d, Flatten(pieces), 0)
    ensures !Thrifty(d, pieces, read, overhead) ==> Feed(d, pieces, read, overhead).end == Bad
    decreases |pieces|
  {
    hide Wasteful, Thrifty, Run, Sound;
    if pieces == [] {
      NoPieces(d, read, overhead);
    } else {
      var r := Run(d, pieces[0], 0);
      RunSplits(d, pieces[0], Flatten(pieces[1..]));
      if r.end.More? {
        ThriftyTail(d, pieces, read, overhead);
        if !Trips(d, pieces[0], read, overhead) {
          PiecesDoNotMatter(r.end.d, pieces[1..], read + |pieces[0]|, overhead + |pieces[0]| - |r.out|);
        }
      } else {
        FinishedIsThrifty(d, pieces, read, overhead);
      }
    }
  }

  lemma NoPieces(d: Decoder, read: nat, overhead: nat)
    requires Sound(d)
    ensures Thrifty(d, [], read, overhead) && Feed(d, [], read, overhead) == Run(d, Flatten([]), 0)
  {
  }

  lemma FinishedIsThrifty(d: Decoder, pieces: seq<seq<Byte>>, read: nat, overhead: nat)
    requires Sound(d) && pieces != [] && !Run(d, pieces[0], 0).end.More?
    ensures Thrifty(d, pieces, read, overhead)
  {
    forall k | 0 < k <= |pieces| ensures !Trips(d, Flatten(pieces[..k]), read, overhead) {
      RunSplits(d, pieces[0], Flatten(pieces[..k][1..]));
      assert pieces[..k][0] == pieces[0];
    }
  }
}
