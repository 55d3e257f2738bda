/** Writing a request head, and reading back what was written. */
module HeadPrinters {

  import opened Bytes
  import opened Heads

  /** What the C formatter prints of a counted string: it stops at a zero byte. */
  function Counted(v: seq<Byte>): (p: seq<Byte>)
    ensures 0 !in v ==> p == v
  {
    if v == [] || v[0] == 0 then [] else [v[0]] + Counted(v[1..])
  }

  function Decimal(n: nat): seq<Byte> {
    if n < 10 then [48 + n] else Decimal(n / 10) + [48 + n % 10]
  }

  function PrintLine(line: Line): seq<Byte> {
    Counted(line.verb) + ([SP] + (Counted(line.path) + ([SP] + (VERSION + (Decimal(line.minor) + CRLF)))))
  }

  function NameOf(h: Header): seq<Byte> {
    if h.name.Some? then h.name.value else []
  }

  function PrintHeader(h: Header): seq<Byte> {
    Counted(NameOf(h)) + ([COLON, SP] + (Counted(h.value) + CRLF))
  }

  function PrintHeaders(hs: seq<Header>): seq<Byte> {
    if hs == [] then CRLF else PrintHeader(hs[0]) + PrintHeaders(hs[1..])
  }

  function Print(r: Request): seq<Byte> {
    PrintLine(r.line) + PrintHeaders(r.headers)
  }

  // ----- what can be read back -----

  ghost predicate AllFree(v: seq<Byte>, stop: Stop) {
    forall k :: 0 <= k < |v| ==> !Stops(stop, v[k])
  }

  ghost predicate ValidLine(line: Line) {
    && line.verb != [] && AllFree(line.verb, NotToken)
    && line.path != [] && AllFree(line.path, PathEnd)
    && line.minor < 10
  }

  /** No control byte but tabs, and nothing to trim at the end. */
  ghost predicate ValidValue(v: seq<Byte>) {
    AllFree(v, Control) && (v != [] ==> !IsBlank(v[|v| - 1]))
  }

  ghost predicate ValidHeader(h: Header) {
    && h.name.Some? && h.name.value != [] && AllFree(h.name.value, NotToken)
    && ValidValue(h.value) && (h.value != [] ==> !IsBlank(h.value[0]))
  }

  ghost predicate Folded(h: Header) {
    h.name.None? && ValidValue(h.value)
  }

  /** What the parser can yield. */
  ghost predicate Parsable(r: Request) {
    && ValidLine(r.line) && |r.headers| <= MAX_HEADERS
    && forall k :: 0 <= k < |r.headers| ==> ValidHeader(r.headers[k]) || Folded(r.headers[k])
  }

  ghost predicate NoneFolded(hs: seq<Header>) {
    forall k :: 0 <= k < |hs| ==> hs[k].name.Some?
  }

  // ----- reading one piece -----

  /** `part` stands in `s` at `i`. */
  ghost predicate At(s: seq<Byte>, i: nat, part: seq<Byte>) {
    i + |part| <= |s| && s[i..i + |part|] == part
  }

  lemma AtSplits(s: seq<Byte>, i: nat, a: seq<Byte>, b: seq<Byte>)
    requires At(s, i, a + b)
    ensures At(s, i, a) && At(s, i + |a|, b)
  {
    assert (a + b)[..|a|] == a && (a + b)[|a|..] == b;
    assert s[i..i + |a + b|][..|a|] == s[i..i + |a|];
    assert s[i..i + |a + b|][|a|..] == s[i + |a|..i + |a + b|];
  }

  lemma AtByte(s: seq<Byte>, i: nat, part: seq<Byte>, k: nat)
    requires At(s, i, part) && k < |part|
    ensures s[i + k] == part[k]
  {
    assert s[i..i + |part|][k] == part[k];
  }

  lemma {:induction false} ScanIs(s: seq<Byte>, i: nat, j: nat, stop: Stop)
    requires i <= j < |s| && Stops(stop, s[j])
    requires forall k :: i <= k < j ==> !Stops(stop, s[k])
    ensures Scan(s, i, stop) == j
    decreases j - i
  {
    if i < j {
      ScanIs(s, i + 1, j, stop);
    }
  }

  /** A stretch free of stops, and a byte that stops. */
  lemma ScanPast(s: seq<Byte>, i: nat, part: seq<Byte>, b: Byte, stop: Stop)
    requires At(s, i, part + [b]) && AllFree(part, stop) && Stops(stop, b)
    ensures i + |part| < |s| && s[i + |part|] == b && s[i..i + |part|] == part
    ensures Scan(s, i, stop) == i + |part|
  {
    AtSplits(s, i, part, [b]);
    AtByte(s, i + |part|, [b], 0);
    forall k | i <= k < i + |part| ensures !Stops(stop, s[k]) {
      AtByte(s, i, part, k - i);
    }
    ScanIs(s, i, i + |part|, stop);
  }

  lemma FreeHasNoZero(v: seq<Byte>, stop: Stop)
    requires AllFree(v, stop) && Stops(stop, 0)
    ensures Counted(v) == v
  {
    assert 0 !in v;
  }

  lemma ReadsTarget(s: seq<Byte>, i: nat, verb: seq<Byte>, path: seq<Byte>, b: Byte)
    requires At(s, i, verb + ([SP] + (path + ([SP] + [b])))) && b != SP
    requires verb != [] && AllFree(verb, NotToken) && path != [] && AllFree(path, PathEnd)
    ensures Target(s, i) == Ok(i + |verb| + |path| + 2, (verb, path))
  {
    hide Scan, AllFree, At, Stops;
    var j := i + |verb| + 1;
    AtSplits(s, i, verb, [SP] + (path + ([SP] + [b])));
    assert verb + ([SP] + (path + ([SP] + [b]))) == (verb + [SP]) + (path + ([SP] + [b]));
    AtSplits(s, i, verb + [SP], path + ([SP] + [b]));
    ScanPast(s, i, verb, SP, NotToken) by { SpaceStops(); }
    FirstOf(s, j, path, [SP] + [b]);
    FreeStartsNoSpace(path);
    ScanHere(s, j, NotSpace);
    assert path + ([SP] + [b]) == (path + [SP]) + [b];
    AtSplits(s, j, path + [SP], [b]);
    ScanPast(s, j, path, SP, PathEnd) by { SpaceStops(); }
    AtOne(s, j + |path| + 1, b);
    ScanHere(s, j + |path| + 1, NotSpace);
  }

  lemma SpaceStops()
    ensures Stops(NotToken, SP) && Stops(PathEnd, SP) && Stops(NotToken, COLON)
  {
  }

  lemma AtOne(s: seq<Byte>, i: nat, b: Byte)
    requires At(s, i, [b])
    ensures i < |s| && s[i] == b
  {
    AtByte(s, i, [b], 0);
  }

  lemma FirstOf(s: seq<Byte>, i: nat, a: seq<Byte>, b: seq<Byte>)
    requires At(s, i, a + b) && a != []
    ensures i < |s| && s[i] == a[0]
  {
    AtByte(s, i, a + b, 0);
  }

  lemma FreeStartsNoSpace(path: seq<Byte>)
    requires path != [] && AllFree(path, PathEnd)
    ensures path[0] != SP
  {
    assert !Stops(PathEnd, path[0]);
  }

  lemma ScanHere(s: seq<Byte>, i: nat, stop: Stop)
    requires i < |s| && Stops(stop, s[i])
    ensures Scan(s, i, stop) == i
  {
  }

  lemma ReadsVersion(s: seq<Byte>, i: nat, minor: nat)
    requires minor < 10 && At(s, i, VERSION + ([48 + minor] + CRLF))
    ensures Version(s, i) == Ok(i + 8, minor) && EndOfLine(s, i + 8) == Ok(i + 10, ())
  {
    AtSplits(s, i, VERSION, [48 + minor] + CRLF);
    AtSplits(s, i + 7, [48 + minor], CRLF);
    AtOne(s, i + 7, 48 + minor);
    AtByte(s, i + 8, CRLF, 0);
    AtByte(s, i + 8, CRLF, 1);
  }

  lemma ReadsLine(s: seq<Byte>, line: Line, rest: seq<Byte>)
    requires ValidLine(line) && s == PrintLine(line) + rest
    ensures RequestLine(s, 0) == Ok(|PrintLine(line)|, line) && !StartsLineEnd(s[0])
  {
    hide Target, Version, EndOfLine, At, PrintLine;
    LineParts(s, line, rest);
    ReadsTarget(s, 0, line.verb, line.path, VERSION[0]);
    ReadsVersion(s, |line.verb| + |line.path| + 2, line.minor);
    FirstOf(s, 0, line.verb, [SP] + (line.path + ([SP] + [VERSION[0]])));
    TokenStart(line.verb);
  }

  lemma LineParts(s: seq<Byte>, line: Line, rest: seq<Byte>)
    requires ValidLine(line) && s == PrintLine(line) + rest
    ensures |PrintLine(line)| == |line.verb| + |line.path| + 12
    ensures At(s, 0, line.verb + ([SP] + (line.path + ([SP] + [VERSION[0]]))))
    ensures At(s, |line.verb| + |line.path| + 2, VERSION + ([48 + line.minor] + CRLF))
  {
    hide At, AllFree, PrintLine;
    LineIsPlain(line);
    var tail: seq<Byte> := [48 + line.minor] + CRLF;
    var front := line.verb + ([SP] + (line.path + ([SP] + [VERSION[0]])));
    assert s == front + (VERSION[1..] + (tail + rest));
    AtStart(s, front, VERSION[1..] + (tail + rest));
    var before := line.verb + ([SP] + (line.path + [SP]));
    assert s == before + ((VERSION + tail) + rest);
    AtMiddle(s, before, VERSION + tail, rest);
  }

  lemma TokenStart(name: seq<Byte>)
    requires name != [] && AllFree(name, NotToken)
    ensures !StartsLineEnd(name[0]) && !IsBlank(name[0])
  {
    assert !Stops(NotToken, name[0]);
  }

  lemma LineIsPlain(line: Line)
    requires ValidLine(line)
    ensures PrintLine(line) == line.verb + ([SP] + (line.path + ([SP] + (VERSION + ([48 + line.minor] + CRLF)))))
  {
    FreeHasNoZero(line.verb, NotToken);
    FreeHasNoZero(line.path, PathEnd);
  }

  lemma AtStart(s: seq<Byte>, a: seq<Byte>, b: seq<Byte>)
    requires s == a + b
    ensures At(s, 0, a)
  {
    assert s[0..0 + |a|] == a;
  }

  lemma AtMiddle(s: seq<Byte>, a: seq<Byte>, b: seq<Byte>, c: seq<Byte>)
    requires s == a + (b + c)
    ensures At(s, |a|, b) && At(s, |a|, b + c)
  {
    assert s[|a|..|a| + |b|] == b;
    assert s[|a|..|a| + |b + c|] == b + c;
  }

  lemma TrimKeeps(v: seq<Byte>)
    requires v != [] ==> !IsBlank(v[|v| - 1])
    ensures Trim(v) == v
  {
  }

  lemma ReadsValue(s: seq<Byte>, i: nat, v: seq<Byte>)
    requires At(s, i, v + CRLF) && ValidValue(v)
    ensures Value(s, i) == Ok(i + |v| + 2, v)
  {
    hide Trim;
    assert v + CRLF == (v + [CR]) + [LF];
    AtSplits(s, i, v + [CR], [LF]);
    ScanPast(s, i, v, CR, Control);
    AtOne(s, i + |v| + 1, LF);
    TrimKeeps(v);
  }

  lemma ValueStart(s: seq<Byte>, i: nat, v: seq<Byte>)
    requires At(s, i, v + CRLF) && (v != [] ==> !IsBlank(v[0]))
    ensures i < |s| && !IsBlank(s[i])
  {
    AtByte(s, i, v + CRLF, 0);
  }

  lemma ReadsHeader(s: seq<Byte>, i: nat, h: Header, first: bool)
    requires At(s, i, PrintHeader(h)) && ValidHeader(h)
    ensures i < |s| && !StartsLineEnd(s[i]) && HeaderLine(s, i, first) == Ok(i + |PrintHeader(h)|, h)
  {
    hide Value, At, Scan, AllFree, IsBlank, StartsLineEnd, Stops, PrintHeader, ValidValue;
    var name := h.name.value;
    HeaderIsPlain(h);
    assert PrintHeader(h) == (name + [COLON]) + ([SP] + (h.value + CRLF));
    AtSplits(s, i, name + [COLON], [SP] + (h.value + CRLF));
    SpaceStops();
    ScanPast(s, i, name, COLON, NotToken);
    TokenStart(name);
    FirstOf(s, i, name, [COLON]);
    var j := i + |name| + 1;
    AtSplits(s, j, [SP], h.value + CRLF);
    AtOne(s, j, SP);
    ValueStart(s, j + 1, h.value);
    OneBlank(s, j);
    ReadsValue(s, j + 1, h.value);
  }

  lemma OneBlank(s: seq<Byte>, j: nat)
    requires j + 1 < |s| && s[j] == SP && !IsBlank(s[j + 1])
    ensures Scan(s, j, NotBlank) == j + 1
  {
    ScanIs(s, j, j + 1, NotBlank);
  }

  lemma HeaderIsPlain(h: Header)
    requires ValidHeader(h) || Folded(h)
    ensures PrintHeader(h) == NameOf(h) + ([COLON, SP] + (h.value + CRLF))
  {
    if h.name.Some? {
      FreeHasNoZero(h.name.value, NotToken);
    }
    FreeHasNoZero(h.value, Control);
  }

  /** A continuation line is written without a name and cannot be read back. */
  lemma FoldedIsLost(s: seq<Byte>, i: nat, h: Header, first: bool)
    requires At(s, i, PrintHeader(h)) && Folded(h)
    ensures i < |s| && !StartsLineEnd(s[i]) && HeaderLine(s, i, first).Fail?
  {
    hide Value, At, Scan;
    HeaderIsPlain(h);
    assert PrintHeader(h) == [COLON] + ([SP] + (h.value + CRLF));
    FirstOf(s, i, [COLON], [SP] + (h.value + CRLF));
    ScanHere(s, i, NotToken);
    assert s[i..i] == [];
  }

  /** Printed header lines are read back, unless one of them is folded: then they are refused. */
  lemma {:induction false} ReadsHeaders(s: seq<Byte>, i: nat, hs: seq<Header>, count: nat)
    requires At(s, i, PrintHeaders(hs)) && count + |hs| <= MAX_HEADERS
    requires forall k :: 0 <= k < |hs| ==> ValidHeader(hs[k]) || Folded(hs[k])
    ensures i <= |s|
    ensures Headers(s, i, count) == if NoneFolded(hs) then Ok(i + |PrintHeaders(hs)|, hs) else Fail
    decreases |hs|
  {
    hide HeaderLine, PrintHeader, At, ValidHeader, Folded, NoneFolded;
    NoneFoldedTail(hs);
    if hs == [] {
      AtByte(s, i, CRLF, 0);
      AtByte(s, i, CRLF, 1);
      AtBound(s, i, CRLF);
    } else {
      AtSplits(s, i, PrintHeader(hs[0]), PrintHeaders(hs[1..]));
      ReadsHeaders(s, i + |PrintHeader(hs[0])|, hs[1..], count + 1);
      if Folded(hs[0]) {
        FoldedIsLost(s, i, hs[0], count == 0);
      } else {
        ReadsHeader(s, i, hs[0], count == 0);
        assert [hs[0]] + hs[1..] == hs;
      }
    }
  }

  /** One header line more than the parser has room for is refused. */
  lemma {:induction false} RefusesTooMany(s: seq<Byte>, i: nat, hs: seq<Header>, count: nat)
    requires At(s, i, PrintHeaders(hs)) && count <= MAX_HEADERS < count + |hs|
    requires forall k :: 0 <= k < |hs| ==> ValidHeader(hs[k])
    ensures i <= |s| && Headers(s, i, count).Fail?
    decreases |hs|
  {
    hide HeaderLine, PrintHeader, At, ValidHeader;
    AtSplits(s, i, PrintHeader(hs[0]), PrintHeaders(hs[1..]));
    ReadsHeader(s, i, hs[0], count == 0);
    if count < MAX_HEADERS {
      RefusesTooMany(s, i + |PrintHeader(hs[0])|, hs[1..], count + 1);
    }
  }

  lemma AtBound(s: seq<Byte>, i: nat, part: seq<Byte>)
    requires At(s, i, part)
    ensures i + |part| <= |s|
  {
  }

  lemma NoneFoldedTail(hs: seq<Header>)
    ensures hs == [] ==> NoneFolded(hs)
    ensures hs != [] ==> (NoneFolded(hs) <==> hs[0].name.Some? && NoneFolded(hs[1..]))
    ensures hs != [] && Folded(hs[0]) ==> hs[0].name.None?
    ensures hs != [] && ValidHeader(hs[0]) ==> hs[0].name.Some?
  {
    if hs != [] {
      assert forall k :: 0 <= k < |hs[1..]| ==> hs[1..][k] == hs[k + 1];
      assert forall k :: 1 <= k < |hs| ==> hs[k] == hs[1..][k - 1];
    }
  }

  /** Writing a request that the parser can yield and parsing what was written gives the request back
      and takes every byte, exactly when no header is folded. */
  lemma PrintThenParse(r: Request)
    requires Parsable(r)
    ensures Head(Print(r)) == if NoneFolded(r.headers) then Ok(|Print(r)|, r) else Fail
  {
    hide RequestLine, Headers, PrintLine, PrintHeaders, ValidHeader, Folded, NoneFolded, ValidLine;
    var s := Print(r);
    ReadsLine(s, r.line, PrintHeaders(r.headers));
    assert PrintHeaders(r.headers) + [] == PrintHeaders(r.headers);
    AtMiddle(s, PrintLine(r.line), PrintHeaders(r.headers), []);
    ReadsHeaders(s, |PrintLine(r.line)|, r.headers, 0);
  }

  /** The head of a request with valid headers, however many: read back up to ten, refused beyond. */
  lemma PrintManyThenParse(r: Request)
    requires ValidLine(r.line) && forall k :: 0 <= k < |r.headers| ==> ValidHeader(r.headers[k])
    ensures Head(Print(r)) == if |r.headers| <= MAX_HEADERS then Ok(|Print(r)|, r) else Fail
  {
    hide RequestLine, Headers, PrintLine, PrintHeaders, ValidLine;
    if |r.headers| <= MAX_HEADERS {
      PrintThenParse(r);
    } else {
      var s := Print(r);
      ReadsLine(s, r.line, PrintHeaders(r.headers));
      assert PrintHeaders(r.headers) + [] == PrintHeaders(r.headers);
      AtMiddle(s, PrintLine(r.line), PrintHeaders(r.headers), []);
      RefusesTooMany(s, |PrintLine(r.line)|, r.headers, 0);
    }
  }

  // ----- everything the parser yields can be read back -----

  lemma FreeSlice(s: seq<Byte>, i: nat, j: nat, stop: Stop)
    requires i <= |s| && i <= j <= Scan(s, i, stop)
    ensures AllFree(s[i..j], stop)
  {
  }

  lemma {:induction false} TrimIsPrefix(v: seq<Byte>)
    ensures Trim(v) <= v && (Trim(v) != [] ==> !IsBlank(Trim(v)[|Trim(v)| - 1]))
    decreases |v|
  {
    if v != [] {
      TrimIsPrefix(v[..|v| - 1]);
    }
  }

  lemma ValueIsValid(s: seq<Byte>, i: nat)
    requires i <= |s| && Value(s, i).Ok?
    ensures ValidValue(Value(s, i).value)
    ensures i < |s| && !IsBlank(s[i]) && Value(s, i).value != [] ==> !IsBlank(Value(s, i).value[0])
  {
    hide Trim, IsBlank;
    var j := Scan(s, i, Control);
    var v := s[i..j];
    TrimIsPrefix(v);
    FreeSlice(s, i, j, Control);
    PrefixIsFree(Trim(v), v, Control);
  }

  lemma PrefixIsFree(u: seq<Byte>, v: seq<Byte>, stop: Stop)
    requires u <= v && AllFree(v, stop)
    ensures AllFree(u, stop)
  {
    forall k | 0 <= k < |u| ensures !Stops(stop, u[k]) {
      assert u[k] == v[k];
    }
  }

  lemma HeaderLineYields(s: seq<Byte>, i: nat, first: bool)
    requires i < |s| && HeaderLine(s, i, first).Ok?
    ensures ValidHeader(HeaderLine(s, i, first).value) || Folded(HeaderLine(s, i, first).value)
  {
    hide Value, Scan, ValidValue;
    if !first && IsBlank(s[i]) {
      ValueIsValid(s, i);
    } else {
      var j := Token(s, i, COLON).next;
      FreeSlice(s, i, j, NotToken);
      var k := Skip(s, j + 1, NotBlank).next;
      ValueIsValid(s, k);
    }
  }

  lemma {:induction false} HeadersYield(s: seq<Byte>, i: nat, count: nat)
    requires i <= |s| && Headers(s, i, count).Ok? && count <= MAX_HEADERS
    ensures var hs := Headers(s, i, count).value;
      && count + |hs| <= MAX_HEADERS
      && forall k :: 0 <= k < |hs| ==> ValidHeader(hs[k]) || Folded(hs[k])
    decreases |s| - i
  {
    hide HeaderLine, ValidHeader, Folded;
    if !StartsLineEnd(s[i]) {
      HeaderLineYields(s, i, count == 0);
      HeadersYield(s, HeaderLine(s, i, count == 0).next, count + 1);
    }
  }

  lemma LineYields(s: seq<Byte>, i: nat)
    requires i <= |s| && RequestLine(s, i).Ok?
    ensures ValidLine(RequestLine(s, i).value)
  {
    hide Scan;
    var j := Token(s, i, SP).next;
    FreeSlice(s, i, j, NotToken);
    var k := Skip(s, j + 1, NotSpace).next;
    FreeSlice(s, k, Path(s, k).next, PathEnd);
  }

  lemma HeadYields(s: seq<Byte>)
    requires Head(s).Ok?
    ensures Parsable(Head(s).value)
  {
    hide RequestLine, Headers, ValidLine, ValidHeader, Folded;
    var i := EmptyLine(s).next;
    LineYields(s, i);
    HeadersYield(s, RequestLine(s, i).next, 0);
  }

  /** A request survives being written and parsed exactly when the parser can yield it and none of its
      headers is folded. */
  lemma ReadBackIff(r: Request)
    ensures Head(Print(r)) == Ok(|Print(r)|, r) <==> Parsable(r) && NoneFolded(r.headers)
  {
    hide Head, Print, Parsable, NoneFolded;
    if Parsable(r) {
      PrintThenParse(r);
    } else if Head(Print(r)).Ok? {
      HeadYields(Print(r));
    }
  }

  /** What the writer's format makes of a parsed request parses to that request again, unless a header is folded.
      This is about the format and the parser; what is written for a received request is up to `HeaderRelays`. */
  lemma ParsePrintParse(s: seq<Byte>)
    requires Head(s).Ok?
    ensures var r := Head(s).value;
      Head(Print(r)) == Ok(|Print(r)|, r) <==> NoneFolded(r.headers)
  {
    hide Head, Print, Parsable, NoneFolded;
    HeadYields(s);
    ReadBackIff(Head(s).value);
  }
}
