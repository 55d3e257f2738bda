/** The head of an HTTP/1 request: what the parser accepts, rejects and waits for. */
module Heads {

  import opened Options
  import opened Bytes

  /** Parsed up to `next`, malformed, or unfinished. */
  datatype Parse<T> = Ok(next: nat, value: T) | Fail | Partial
  {
    predicate IsFailure() {
      !Ok?
    }

    function PropagateFailure<U>(): Parse<U>
      requires IsFailure()
    {
      if Fail? then Parse<U>.Fail else Parse<U>.Partial
    }

    function Extract(): (nat, T)
      requires !IsFailure()
    {
      (next, value)
    }
  }

  /** A header line; a continuation line has no name. */
  datatype Header = Header(name: Option<seq<Byte>>, value: seq<Byte>)

  datatype Line = Line(verb: seq<Byte>, path: seq<Byte>, minor: nat)

  datatype Request = Request(line: Line, headers: seq<Header>)

  const MAX_HEADERS: nat := 10

  /** `HTTP/1.` */
  const VERSION: seq<Byte> := [72, 84, 84, 80, 47, 49, 46]

  // ----- classes of bytes -----

  /** The bytes that stop a scan. */
  datatype Stop = NotToken | PathEnd | Control | NotBlank | NotSpace

  predicate IsControl(b: Byte) {
    b < SP || b == DEL
  }

  predicate IsBlank(b: Byte) {
    b == SP || b == HT
  }

  predicate IsLetterOrDigit(b: Byte) {
    48 <= b <= 57 || 65 <= b <= 90 || 97 <= b <= 122
  }

  /** Letters, digits and `!#$%&'*+-.^_` and the grave accent, `|`, `~`. */
  predicate IsToken(b: Byte) {
    || IsLetterOrDigit(b)
    || b == 33 || 35 <= b <= 39 || b == 42 || b == 43 || b == 45 || b == 46
    || b == 94 || b == 95 || b == 96 || b == 124 || b == 126
  }

  predicate Stops(stop: Stop, b: Byte) {
    match stop
    case NotToken => !IsToken(b)
    case PathEnd => b == SP || IsControl(b)
    case Control => IsControl(b) && b != HT
    case NotBlank => !IsBlank(b)
    case NotSpace => b != SP
  }

  /** The first byte, from `i` on, that stops the scan; `|s|` when none does. */
  function Scan(s: seq<Byte>, i: nat, stop: Stop): (j: nat)
    requires i <= |s|
    ensures i <= j <= |s| && (j < |s| ==> Stops(stop, s[j]))
    ensures forall k :: i <= k < j ==> !Stops(stop, s[k])
    decreases |s| - i
  {
    if i == |s| || Stops(stop, s[i]) then i else Scan(s, i + 1, stop)
  }

  // ----- the pieces of a head -----

  function EndOfLine(s: seq<Byte>, i: nat): (r: Parse<()>)
    requires i <= |s|
    ensures r.Ok? ==> i < r.next <= |s| && s[r.next - 1] == LF
  {
    if i == |s| then Partial
    else if s[i] == LF then Ok(i + 1, ())
    else if s[i] != CR then Fail
    else if i + 1 == |s| then Partial
    else if s[i + 1] == LF then Ok(i + 2, ())
    else Fail
  }

  predicate StartsLineEnd(b: Byte) {
    b == CR || b == LF
  }

  function Token(s: seq<Byte>, i: nat, closing: Byte): (r: Parse<seq<Byte>>)
    requires i <= |s|
    ensures r.Ok? ==> i <= r.next < |s|
  {
    var j := Scan(s, i, NotToken);
    if j == |s| then Partial else if s[j] == closing then Ok(j, s[i..j]) else Fail
  }

  /** Skip to the first byte outside a class. */
  function Skip(s: seq<Byte>, i: nat, stop: Stop): (r: Parse<()>)
    requires i <= |s|
    ensures r.Ok? ==> i <= r.next < |s|
  {
    var j := Scan(s, i, stop);
    if j == |s| then Partial else Ok(j, ())
  }

  function Path(s: seq<Byte>, i: nat): (r: Parse<seq<Byte>>)
    requires i <= |s|
    ensures r.Ok? ==> i <= r.next < |s|
  {
    var j := Scan(s, i, PathEnd);
    if j == |s| then Partial else if s[j] == SP then Ok(j, s[i..j]) else Fail
  }

  /** The version needs a byte behind its digit before it is looked at. */
  function Version(s: seq<Byte>, i: nat): (r: Parse<nat>)
    requires i <= |s|
    ensures r.Ok? ==> i < r.next < |s|
  {
    if |s| - i < 9 then Partial
    else if s[i..i + 7] != VERSION || !(48 <= s[i + 7] <= 57) then Fail
    else Ok(i + 8, s[i + 7] - 48)
  }

  /** Drop blanks at the end. */
  function Trim(v: seq<Byte>): seq<Byte> {
    if v != [] && IsBlank(v[|v| - 1]) then Trim(v[..|v| - 1]) else v
  }

  /** A header value runs to the end of its line. */
  function Value(s: seq<Byte>, i: nat): (r: Parse<seq<Byte>>)
    requires i <= |s|
    ensures r.Ok? ==> i < r.next <= |s| && s[r.next - 1] == LF
  {
    var j := Scan(s, i, Control);
    var (k, _) :- EndOfLine(s, j);
    Ok(k, Trim(s[i..j]))
  }

  function NamedHeader(s: seq<Byte>, i: nat): (r: Parse<Header>)
    requires i <= |s|
    ensures r.Ok? ==> i < r.next <= |s| && s[r.next - 1] == LF
  {
    var (j, name) :- Token(s, i, COLON);
    if name == [] then Fail
    else
      var (k, _) :- Skip(s, j + 1, NotBlank);
      var (n, value) :- Value(s, k);
      Ok(n, Header(Some(name), value))
  }

  function FoldedHeader(s: seq<Byte>, i: nat): (r: Parse<Header>)
    requires i <= |s|
    ensures r.Ok? ==> i < r.next <= |s| && s[r.next - 1] == LF
  {
    var (n, value) :- Value(s, i);
    Ok(n, Header(None, value))
  }

  function HeaderLine(s: seq<Byte>, i: nat, first: bool): (r: Parse<Header>)
    requires i < |s|
    ensures r.Ok? ==> i < r.next <= |s| && s[r.next - 1] == LF
  {
    if !first && IsBlank(s[i]) then FoldedHeader(s, i) else NamedHeader(s, i)
  }

  /** Header lines up to the empty line; `count` have been read. */
  function Headers(s: seq<Byte>, i: nat, count: nat): (r: Parse<seq<Header>>)
    requires i <= |s|
    ensures r.Ok? ==> i < r.next <= |s|
    decreases |s| - i
  {
    if i == |s| then Partial
    else if StartsLineEnd(s[i]) then
      var (n, _) :- EndOfLine(s, i);
      Ok(n, [])
    else if count == MAX_HEADERS then Fail
    else
      var (n, header) :- HeaderLine(s, i, count == 0);
      var (m, more) :- Headers(s, n, count + 1);
      Ok(m, [header] + more)
  }

  /** An empty line before the request line is skipped. */
  function EmptyLine(s: seq<Byte>): (r: Parse<()>)
    ensures r.Ok? ==> r.next <= |s|
  {
    if s == [] then Partial else if StartsLineEnd(s[0]) then EndOfLine(s, 0) else Ok(0, ())
  }

  /** Method, spaces, path, spaces: the part of the request line before the version. */
  function Target(s: seq<Byte>, i: nat): (r: Parse<(seq<Byte>, seq<Byte>)>)
    requires i <= |s|
    ensures r.Ok? ==> i < r.next < |s|
  {
    var (j, verb) :- Token(s, i, SP);
    var (k, _) :- Skip(s, j + 1, NotSpace);
    var (l, path) :- Path(s, k);
    var (m, _) :- Skip(s, l + 1, NotSpace);
    if verb == [] || path == [] then Fail else Ok(m, (verb, path))
  }

  function RequestLine(s: seq<Byte>, i: nat): (r: Parse<Line>)
    requires i <= |s|
    ensures r.Ok? ==> i < r.next <= |s| && s[r.next - 1] == LF
  {
    var (m, target) :- Target(s, i);
    var (v, minor) :- Version(s, m);
    var (n, _) :- EndOfLine(s, v);
    Ok(n, Line(target.0, target.1, minor))
  }

  /** The whole head. */
  function Head(s: seq<Byte>): (r: Parse<Request>)
    ensures r.Ok? ==> 0 < r.next <= |s|
  {
    var (i, _) :- EmptyLine(s);
    var (j, line) :- RequestLine(s, i);
    var (n, headers) :- Headers(s, j, 0);
    Ok(n, Request(line, headers))
  }

  // ----- the shortcut for a head that comes in pieces -----

  /** Look for two line ends in a row, `count` having been seen right before `i`. */
  function TwoEnds(s: seq<Byte>, i: nat, count: nat): (r: Parse<()>)
    requires i <= |s|
    ensures r.Ok? ==> r.next <= |s|
    decreases |s| - i
  {
    if i == |s| then Partial
    else if StartsLineEnd(s[i]) then
      var (n, _) :- EndOfLine(s, i);
      if count + 1 == 2 then Ok(n, ()) else TwoEnds(s, n, count + 1)
    else TwoEnds(s, i + 1, 0)
  }

  /** Parse `s`, of which `last` bytes were seen before: look at the end first. */
  function HeadSince(s: seq<Byte>, last: nat): (r: Parse<Request>)
    requires last <= |s|
    ensures r.Ok? ==> 0 < r.next <= |s|
  {
    if last == 0 then Head(s)
    else
      var _ :- TwoEnds(s, if last < 3 then 0 else last - 3, 0);
      Head(s)
  }
}
