/** The head parser as the program runs it: loops over a buffer, the connection that collects a head
    read by read, and the writer. */
module HeadParsers {

  import opened Options
  import opened Bytes
  import opened Heads
  import opened HeadPrinters

  // ----- scanning loops -----

  method FindStop(s: seq<Byte>, i: nat, stop: Stop) returns (j: nat)
    requires i <= |s|
    ensures j == Scan(s, i, stop)
  {
    j := i;
    while j < |s| && !Stops(stop, s[j])
      invariant i <= j <= |s| && Scan(s, i, stop) == Scan(s, j, stop)
    {
      j := j + 1;
    }
  }

  method ParseToken(s: seq<Byte>, i: nat, closing: Byte) returns (r: Parse<seq<Byte>>)
    requires i <= |s| && !IsToken(closing)
    ensures r == Token(s, i, closing)
  {
    if i == |s| {
      return Partial;
    }
    var j := i;
    while s[j] != closing
      invariant i <= j < |s| && Scan(s, i, NotToken) == Scan(s, j, NotToken)
      decreases |s| - j
    {
      if !IsToken(s[j]) {
        return Fail;
      }
      j := j + 1;
      if j == |s| {
        return Partial;
      }
    }
    return Ok(j, s[i..j]);
  }

  /** Skip the space at `i - 1` and any that follow. */
  method SkipSpaces(s: seq<Byte>, i: nat) returns (r: Parse<()>)
    requires i <= |s|
    ensures r == Skip(s, i, NotSpace)
  {
    var j := FindStop(s, i, NotSpace);
    return if j == |s| then Partial else Ok(j, ());
  }

  method TokenToEndOfLine(s: seq<Byte>, i: nat) returns (r: Parse<seq<Byte>>)
    requires i <= |s|
    ensures r == match EndOfLine(s, Scan(s, i, Control))
                 case Ok(k, _) => Ok(k, s[i..Scan(s, i, Control)])
                 case Fail => Fail
                 case Partial => Partial
  {
    var j := FindStop(s, i, Control);
    if j == |s| {
      return Partial;
    } else if s[j] == CR {
      if j + 1 == |s| {
        return Partial;
      }
      return if s[j + 1] == LF then Ok(j + 2, s[i..j]) else Fail;
    } else if s[j] == LF {
      return Ok(j + 1, s[i..j]);
    }
    return Fail;
  }

  method TrimEnd(v: seq<Byte>) returns (r: seq<Byte>)
    ensures r == Trim(v)
  {
    var n := |v|;
    assert v[..n] == v;
    while n > 0 && IsBlank(v[n - 1])
      invariant n <= |v| && Trim(v) == Trim(v[..n])
    {
      assert v[..n][..n - 1] == v[..n - 1];
      n := n - 1;
    }
    r := v[..n];
  }

  // ----- header lines -----

  /** Name, colon and blanks: the name and where the value starts. */
  method ParseName(s: seq<Byte>, i: nat) returns (r: Parse<seq<Byte>>)
    requires i < |s|
    ensures r == match Token(s, i, COLON)
                 case Fail => Fail
                 case Partial => Partial
                 case Ok(j, name) =>
                   if name == [] then Fail
                   else match Skip(s, j + 1, NotBlank)
                     case Ok(k, _) => Ok(k, name)
                     case _ => Partial
  {
    hide Scan;
    var token := ParseToken(s, i, COLON);
    if !token.Ok? {
      return token;
    }
    if token.value == [] {
      return Fail;
    }
    var k := FindStop(s, token.next + 1, NotBlank);
    return if k == |s| then Partial else Ok(k, token.value);
  }

  method ParseHeader(s: seq<Byte>, i: nat, first: bool) returns (r: Parse<Header>)
    requires i < |s|
    ensures r == HeaderLine(s, i, first)
  {
    hide Trim, Scan, IsBlank, Token;
    var name: Option<seq<Byte>>, k := None, i;
    if first || !IsBlank(s[i]) {
      var start := ParseName(s, i);
      if !start.Ok? {
        return start.PropagateFailure();
      }
      name, k := Some(start.value), start.next;
    }
    var line := TokenToEndOfLine(s, k);
    if !line.Ok? {
      return line.PropagateFailure();
    }
    var value := TrimEnd(line.value);
    return Ok(line.next, Header(name, value));
  }

  method ParseHeaders(s: seq<Byte>, i: nat) returns (r: Parse<seq<Header>>)
    requires i <= |s|
    ensures r == Headers(s, i, 0)
  {
    hide HeaderLine;
    var j, headers := i, [];
    BehindNothing(Headers(s, i, 0));
    while j < |s|
      invariant j <= |s|
      invariant Headers(s, i, 0) == Behind(headers, Headers(s, j, |headers|))
      decreases |s| - j
    {
      if s[j] == CR {
        if j + 1 == |s| {
          return Partial;
        }
        assert headers + [] == headers;
        return if s[j + 1] == LF then Ok(j + 2, headers) else Fail;
      } else if s[j] == LF {
        assert headers + [] == headers;
        return Ok(j + 1, headers);
      }
      if |headers| == MAX_HEADERS {
        return Fail;
      }
      var line := ParseHeader(s, j, headers == []);
      if !line.Ok? {
        return line.PropagateFailure();
      }
      BehindTwice(headers, [line.value], Headers(s, line.next, |headers| + 1));
      j, headers := line.next, headers + [line.value];
    }
    return Partial;
  }

  /** A parse whose headers follow others. */
  function Behind(before: seq<Header>, r: Parse<seq<Header>>): Parse<seq<Header>> {
    if r.Ok? then Ok(r.next, before + r.value) else r
  }

  lemma BehindNothing(r: Parse<seq<Header>>)
    ensures Behind([], r) == r
  {
    if r.Ok? {
      assert [] + r.value == r.value;
    }
  }

  lemma BehindTwice(a: seq<Header>, b: seq<Header>, r: Parse<seq<Header>>)
    ensures Behind(a, Behind(b, r)) == Behind(a + b, r)
  {
    if r.Ok? {
      assert a + (b + r.value) == (a + b) + r.value;
    }
  }

  // ----- the head -----

  method ParseVersion(s: seq<Byte>, i: nat) returns (r: Parse<nat>)
    requires i <= |s|
    ensures r == Version(s, i)
  {
    if |s| - i < 9 {
      return Partial;
    }
    var k := 0;
    while k < 7
      invariant k <= 7 && s[i..i + k] == VERSION[..k]
    {
      if s[i + k] != VERSION[k] {
        assert s[i..i + 7][k] != VERSION[k];
        return Fail;
      }
      assert s[i..i + k + 1] == s[i..i + k] + [s[i + k]];
      k := k + 1;
    }
    assert VERSION[..7] == VERSION;
    if s[i + 7] < 48 || 57 < s[i + 7] {
      return Fail;
    }
    return Ok(i + 8, s[i + 7] - 48);
  }

  method ParseTarget(s: seq<Byte>, i: nat) returns (r: Parse<(seq<Byte>, seq<Byte>)>)
    requires i <= |s|
    ensures r == Target(s, i)
  {
    hide Scan;
    var verb := ParseToken(s, i, SP);
    if !verb.Ok? {
      return verb.PropagateFailure();
    }
    var gap := SkipSpaces(s, verb.next + 1);
    if !gap.Ok? {
      return gap.PropagateFailure();
    }
    var l := FindStop(s, gap.next, PathEnd);
    if l == |s| {
      return Partial;
    }
    if s[l] != SP {
      return Fail;
    }
    var path := s[gap.next..l];
    gap := SkipSpaces(s, l + 1);
    if !gap.Ok? {
      return gap.PropagateFailure();
    }
    return if verb.value == [] || path == [] then Fail else Ok(gap.next, (verb.value, path));
  }

  method ParseRequest(s: seq<Byte>) returns (r: Parse<Request>)
    ensures r == Head(s)
  {
    hide Target, Version, Headers;
    var i := 0;
    if s == [] {
      return Partial;
    } else if s[0] == CR {
      if |s| == 1 {
        return Partial;
      }
      if s[1] != LF {
        return Fail;
      }
      i := 2;
    } else if s[0] == LF {
      i := 1;
    }
    var target := ParseTarget(s, i);
    if !target.Ok? {
      return target.PropagateFailure();
    }
    var version := ParseVersion(s, target.next);
    if !version.Ok? {
      return version.PropagateFailure();
    }
    var j := version.next;
    if s[j] == CR {
      j := j + 1;
      if j == |s| {
        return Partial;
      }
    }
    if s[j] != LF {
      return Fail;
    }
    var headers := ParseHeaders(s, j + 1);
    if !headers.Ok? {
      return headers.PropagateFailure();
    }
    return Ok(headers.next, Request(Line(target.value.0, target.value.1, version.value), headers.value));
  }

  /** Are there two line ends in a row near the end? */
  method IsComplete(s: seq<Byte>, last: nat) returns (r: Parse<()>)
    requires last <= |s|
    ensures r == TwoEnds(s, if last < 3 then 0 else last - 3, 0)
  {
    var i := if last < 3 then 0 else last - 3;
    var count := 0;
    ghost var p := i;
    while i < |s|
      invariant i <= |s| && count < 2 && TwoEnds(s, p, 0) == TwoEnds(s, i, count)
      decreases |s| - i
    {
      if s[i] == CR {
        if i + 1 == |s| {
          return Partial;
        }
        if s[i + 1] != LF {
          return Fail;
        }
        i, count := i + 2, count + 1;
      } else if s[i] == LF {
        i, count := i + 1, count + 1;
      } else {
        i, count := i + 1, 0;
      }
      if count == 2 {
        return Ok(i, ());
      }
    }
    return Partial;
  }

  method ParseSince(s: seq<Byte>, last: nat) returns (r: Parse<Request>)
    requires last <= |s|
    ensures r == HeadSince(s, last)
  {
    hide TwoEnds, Head;
    if last != 0 {
      var complete := IsComplete(s, last);
      if !complete.Ok? {
        return complete.PropagateFailure();
      }
    }
    r := ParseRequest(s);
  }

  // ----- the connection -----

  /** What a read leads to; after the last three the connection or the program ends. */
  datatype Outcome = Waiting | Received(request: Request) | Malformed | Excess | TooLong

  class Http1Connection {
    const buf: array<Byte>
    var bufLen: nat
    var prevBufLen: nat

    constructor (size: nat)
      ensures Valid() && fresh(buf) && buf.Length == size && Contents() == []
    {
      buf := new Byte[size](i => 0);
      bufLen, prevBufLen := 0, 0;
    }

    ghost predicate Valid() reads this {
      prevBufLen <= bufLen <= buf.Length
    }

    ghost function Contents(): seq<Byte>
      requires Valid()
      reads this, buf
    {
      buf[..bufLen]
    }

    /** One read of a request: if they fit, append the bytes and parse what there is, knowing how much of it was there
        before. A complete head that ends with the bytes read leaves the connection empty again. */
    method Read(piece: seq<Byte>) returns (r: Outcome)
      requires Valid()
      modifies this, buf
      ensures Valid()
      ensures piece == [] ==> r == Waiting
      ensures r == TooLong <==> |piece| > old(buf.Length - bufLen)
      ensures piece == [] || r == TooLong ==> Contents() == old(Contents())
      ensures piece != [] && r != TooLong ==>
        var now := old(Contents()) + piece;
        var parse := HeadSince(now, |old(Contents())|);
        && r == (match parse
                 case Partial => Waiting
                 case Fail => Malformed
                 case Ok(n, request) => if n < |now| then Excess else Received(request))
        && Contents() == if r.Received? then [] else now
    {
      hide HeadSince;
      if piece == [] {
        return Waiting;
      }
      if |piece| > buf.Length - bufLen {
        return TooLong;
      }
      ghost var front := buf[..bufLen];
      forall i | 0 <= i < |piece| {
        buf[bufLen + i] := piece[i];
      }
      assert buf[..bufLen + |piece|] == front + piece;
      prevBufLen := bufLen;
      bufLen := bufLen + |piece|;
      var parse := ParseSince(buf[..bufLen], prevBufLen);
      if parse.Partial? {
        return Waiting;
      } else if parse.Fail? {
        return Malformed;
      } else if bufLen > parse.next {
        return Excess;
      }
      bufLen, prevBufLen := 0, 0;
      return Received(parse.value);
    }
  }

  // ----- the writer -----

  class Buffer {
    const data: array<Byte>
    var filled: nat

    constructor (size: nat)
      ensures Valid() && fresh(data) && data.Length == size && Contents() == []
    {
      data := new Byte[size](i => 0);
      filled := 0;
    }

    ghost predicate Valid() reads this {
      filled <= data.Length
    }

    ghost function Contents(): seq<Byte>
      requires Valid()
      reads this, data
    {
      data[..filled]
    }

    /** Print where this write stands, not where the buffer is filled to; a zero byte must fit behind the
        text in what is not filled, or the program stops (`ok` is false). */
    method Append(text: seq<Byte>, written: nat) returns (ok: bool, total: nat)
      requires Valid() && written <= filled
      modifies this, data
      ensures Valid() && (ok <==> old(filled) + |text| < data.Length)
      ensures ok ==> total == written + |text| && filled == old(filled) + |text|
      ensures ok ==> data[..total] == old(data[..written]) + text
      ensures !ok ==> filled == old(filled) && data[..] == old(data[..])
    {
      total := written;
      ok := |text| < data.Length - filled;
      if ok {
        ghost var front := data[..written];
        forall i | 0 <= i < |text| {
          data[written + i] := text[i];
        }
        data[written + |text|] := 0;
        total := written + |text|;
        filled := filled + |text|;
        assert data[..total] == front + text;
      }
    }

    /** Write the head of a request: it stands at the front of the buffer, whatever was there before. */
    method WriteRequest(r: Request) returns (ok: bool)
      requires Valid()
      modifies this, data
      ensures Valid() && (ok <==> old(filled) + |Print(r)| < data.Length)
      ensures ok ==> filled == old(filled) + |Print(r)| && data[..|Print(r)|] == Print(r)
      ensures ok && old(filled) == 0 ==> Contents() == Print(r)
    {
      hide PrintLine, PrintHeader;
      ghost var start := filled;
      var written: nat;
      ok, written := Append(PrintLine(r.line), 0);
      var i := 0;
      assert r.headers[0..] == r.headers;
      while ok && i < |r.headers|
        invariant i <= |r.headers| && Valid()
        invariant ok ==> written == filled - start && data[..written] + PrintHeaders(r.headers[i..]) == Print(r)
        invariant !ok ==> start + |Print(r)| >= data.Length
      {
        assert r.headers[i..][1..] == r.headers[i + 1..];
        ok, written := Append(PrintHeader(r.headers[i]), written);
        i := i + 1;
      }
      if ok {
        ok, written := Append(CRLF, written);
      }
    }
  }
}
