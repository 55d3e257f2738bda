/** A request from one parser to the next: received, stored, completed with the headers of the place it passes,
    written, and parsed by the next hop. */
module HeaderRelays {

  import opened Options
  import opened Bytes
  import opened Heads
  import opened HeadPrinters
  import opened RpcIds
  import opened RpcMappers
  import opened RpcHeaders

  /** `Content-Length` */
  const CONTENT_LENGTH: seq<Byte> := [67, 111, 110, 116, 101, 110, 116, 45, 76, 101, 110, 103, 116, 104]

  /** `http://` */
  const SCHEME: seq<Byte> := [104, 116, 116, 112, 58, 47, 47]

  const SLASH: Byte := 47
  const QUESTION: Byte := 63

  /** Where a request passes: an ingress, which numbers it and gives it a priority; a sidecar handing it to its
      service; a sidecar sending its service's sub-request on. */
  datatype Place = AtIngress(service: seq<Byte>, id: nat, priority: nat) | ToService | ToDownstream

  function KindOf(place: Place): Kind {
    if place.ToService? then INGRESS else EGRESS
  }

  // ----- what is refused at once -----

  /** The library's conversion to an unsigned 64-bit number: no digits read as zero, too many saturate. */
  function Strtoul(v: seq<Byte>): nat {
    var (minus, digits) := Numeral(v);
    var n := Number(digits, 0);
    if n >= WORD then WORD - 1 else if minus && n > 0 then WORD - n else n
  }

  /** The last content length among the headers, -1 without one. Behind an empty value the conversion reads on in
      the buffer; `stray` is what it finds there. */
  function ContentLength(hs: seq<Header>, stray: int): int {
    if hs == [] then -1
    else
      var h := hs[|hs| - 1];
      if h.name.Some? && CONTENT_LENGTH <= h.name.value then if h.value == [] then stray else ToInt32(Strtoul(h.value))
      else ContentLength(hs[..|hs| - 1], stray)
  }

  function IndexOf(v: seq<Byte>, b: Byte): (i: nat)
    ensures i <= |v|
  {
    if v == [] || v[0] == b then 0 else 1 + IndexOf(v[1..], b)
  }

  /** The service a request target names: what stands between the first slash and a question mark. */
  function ServiceOf(path: seq<Byte>): Option<seq<Byte>> {
    var p := if SCHEME <= path then path[|SCHEME|..] else path;
    var slash := IndexOf(p, SLASH);
    if slash + 1 >= |p| then None
    else
      var rest := p[slash + 1..];
      Some(rest[..IndexOf(rest, QUESTION)])
  }

  predicate Admits(place: Place, r: Request, stray: int) {
    && ContentLength(r.headers, stray) < 0
    && ServiceOf(r.line.path).Some?
    && (place.AtIngress? ==> ServiceOf(r.line.path) == Some(place.service))
  }

  // ----- what is stored and added -----

  /** A value printed into a 32-byte field that is passed on with all its bytes. */
  function Padded(v: seq<Byte>): seq<Byte>
    requires |v| <= 32
  {
    v + Zeros(32 - |v|)
  }

  function Zeros(n: nat): (z: seq<Byte>)
    ensures |z| == n && (n > 0 ==> z[0] == 0)
  {
    if n == 0 then [] else [0] + Zeros(n - 1)
  }

  /** Names of the ingress's own headers are passed on with their closing zero. */
  function IdHeader(id: nat): Header
    requires |Decimal(id)| <= 32
  {
    Header(Some(RPC_ID + [0]), Padded(Decimal(id)))
  }

  function PriorityHeader(priority: nat): Header
    requires |Decimal(priority)| <= 32
  {
    Header(Some(PRIORITY + [0]), Padded(Decimal(priority)))
  }

  function SignedDecimal(x: int): seq<Byte> {
    if x < 0 then [45] + Decimal(-x) else Decimal(x)
  }

  /** The ingress numbers its requests with 63 bits; its priority is configured. */
  predicate PlaceOk(place: Place) {
    place.AtIngress? ==> place.id < 0x8000_0000_0000_0000 && place.priority <= 3
  }

  /** The headers that the place adds go through the same store. */
  function Complete(place: Place, s: Stored): Option<Stored>
    requires PlaceOk(place)
  {
    match place
    case AtIngress(_, id, priority) =>
      NumbersAreShort(id, priority);
      (match AddHeader(EGRESS, true, s, IdHeader(id))
       case None => None
       case Some(t) => AddHeader(EGRESS, true, t, PriorityHeader(priority)))
    case ToService => AddHeader(INGRESS, false, s, Header(Some(RPC_LOCAL_ID), SignedDecimal(s.localId)))
    case ToDownstream => Some(s)
  }

  /** A request is only written with an id and a priority, except at a plain frontend. */
  predicate Identified(plain: bool, s: Stored) {
    plain || (s.localId != -1 && s.priority != -1)
  }

  /** The bytes written for a parsed request, if any are: `room` is the size of the output buffer, `s` the empty
      message. */
  function Relay(place: Place, plain: bool, s: Stored, r: Request, stray: int, room: nat): Option<seq<Byte>>
    requires PlaceOk(place)
  {
    if !Admits(place, r, stray) then None
    else
      match AddAll(KindOf(place), place.AtIngress?, s, r.headers)
      case None => None
      case Some(t) =>
        match Complete(place, t)
        case None => None
        case Some(u) =>
          var w := Print(Request(r.line, u.headers));
          if Identified(plain, u) && |w| < room then Some(w) else None
  }

  // ----- the same, seen from the request -----

  predicate IsLocalId(h: Header) {
    h.name.Some? && RPC_LOCAL_ID <= h.name.value
  }

  predicate IsId(h: Header) {
    h.name.Some? && RPC_ID <= h.name.value
  }

  predicate IsPriority(h: Header) {
    h.name.Some? && PRIORITY <= h.name.value
  }

  predicate Short(h: Header)
    requires h.name.Some?
  {
    |h.name.value| < MAX_HEADER_FIELD_SIZE && |h.value| < MAX_HEADER_FIELD_SIZE
  }

  /** The header does not stop the program. */
  predicate Fine(kind: Kind, h: Header) {
    && h.name.Some?
    && (IsLocalId(h) || IsId(h) || IsPriority(h) ==> Stoll(h.value).Some?)
    && (if !IsLocalId(h) then Short(h)
        else if kind == INGRESS then Stoll(h.value) != Some(-1) && Short(h)
        else Stoll(h.value).Some? && 0 < Stoll(h.value).value <= UINT32_MAX)
  }

  predicate AllFine(kind: Kind, hs: seq<Header>) {
    forall k :: 0 <= k < |hs| ==> Fine(kind, hs[k])
  }

  /** The headers that are passed on: an `rpc-local-id` of a sub-request is not. */
  function Kept(kind: Kind, hs: seq<Header>): (k: seq<Header>)
    ensures |k| <= |hs|
  {
    if hs == [] then []
    else Kept(kind, hs[..|hs| - 1]) + if kind == EGRESS && IsLocalId(hs[|hs| - 1]) then [] else [hs[|hs| - 1]]
  }

  /** Does the header set the local id? */
  predicate SetsId(kind: Kind, atIngress: bool, h: Header) {
    if IsLocalId(h) then kind == EGRESS else IsId(h) && (atIngress || kind == INGRESS)
  }

  function IdsSet(kind: Kind, atIngress: bool, hs: seq<Header>): nat {
    if hs == [] then 0
    else IdsSet(kind, atIngress, hs[..|hs| - 1]) + if SetsId(kind, atIngress, hs[|hs| - 1]) then 1 else 0
  }

  /** The local id after the headers: made for the last header that sets one. */
  function LocalIdOf(kind: Kind, atIngress: bool, counter: nat, before: int, hs: seq<Header>): int {
    if hs == [] then before
    else
      var h := hs[|hs| - 1];
      if !SetsId(kind, atIngress, h) then LocalIdOf(kind, atIngress, counter, before, hs[..|hs| - 1])
      else
        Pack(counter + IdsSet(kind, atIngress, hs),
             if IsLocalId(h) && Stoll(h.value).Some? then Stoll(h.value).value else 0)
  }

  function PriorityOf(before: int, hs: seq<Header>): int {
    if hs == [] then before
    else
      var h := hs[|hs| - 1];
      if IsPriority(h) && Stoll(h.value).Some? then ToInt32(Stoll(h.value).value) else PriorityOf(before, hs[..|hs| - 1])
  }

  /** The headers that the next hop sees behind those of the request. */
  function Added(place: Place, localId: int): seq<Header> {
    match place
    case AtIngress(_, id, priority) => [Header(Some(RPC_ID), Decimal(id)), Header(Some(PRIORITY), Decimal(priority))]
    case ToService => [Header(Some(RPC_LOCAL_ID), SignedDecimal(localId))]
    case ToDownstream => []
  }

  /** What the request must bring along to be written at all. */
  predicate MayPass(place: Place, plain: bool, s: Stored, hs: seq<Header>) {
    var kind, atIngress := KindOf(place), place.AtIngress?;
    && AllFine(kind, hs)
    && (place.ToService? ==> LocalIdOf(kind, atIngress, s.counter, s.localId, hs) != -1)
    && (atIngress || plain || (LocalIdOf(kind, atIngress, s.counter, s.localId, hs) != -1 && PriorityOf(s.priority, hs) != -1))
  }

  function Passed(place: Place, s: Stored, hs: seq<Header>): seq<Header> {
    Kept(KindOf(place), hs) + Added(place, LocalIdOf(KindOf(place), place.AtIngress?, s.counter, s.localId, hs))
  }

  // ----- proofs -----

  lemma {:induction false} DecimalIsShort(n: nat, k: nat)
    requires k > 0 && n < Pow10(k)
    ensures |Decimal(n)| <= k
  {
    if n >= 10 {
      assert k > 1 by { assert Pow10(1) == 10 * Pow10(0); }
      DecimalIsShort(n / 10, k - 1);
    }
  }

  function Pow10(k: nat): nat {
    if k == 0 then 1 else 10 * Pow10(k - 1)
  }

  lemma NumbersAreShort(id: nat, priority: nat)
    requires id < 0x8000_0000_0000_0000 && priority <= 3
    ensures |Decimal(id)| <= 19 && |Decimal(priority)| <= 1
  {
    hide Decimal;
    assert Pow10(1) == 10 * Pow10(0);
    assert Pow10(4) == 10_000;
    assert Pow10(7) == 1_000 * Pow10(4);
    assert Pow10(10) == 1_000 * Pow10(7);
    assert Pow10(13) == 1_000 * Pow10(10);
    assert Pow10(16) == 1_000 * Pow10(13);
    assert Pow10(19) == 1_000 * Pow10(16);
    DecimalIsShort(id, 19);
    DecimalIsShort(priority, 1);
  }

  lemma AddOne(kind: Kind, atIngress: bool, s: Stored, h: Header)
    requires |s.headers| < MAX_HEADER_FIELD_NUMBER
    ensures AddHeader(kind, atIngress, s, h).Some? <==> Fine(kind, h)
    ensures var r := AddHeader(kind, atIngress, s, h); r.Some? ==>
      && r.value.headers == s.headers + (if kind == EGRESS && IsLocalId(h) then [] else [h])
      && r.value.counter == s.counter + (if SetsId(kind, atIngress, h) then 1 else 0)
      && r.value.localId == (if !SetsId(kind, atIngress, h) then s.localId
                             else Pack(s.counter + 1, if IsLocalId(h) then Stoll(h.value).value else 0))
      && r.value.priority == (if IsPriority(h) then ToInt32(Stoll(h.value).value) else s.priority)
  {
    hide Stoll, ToInt32, Pack;
    if h.name.Some? {
      NamesDiffer(h.name.value);
    }
  }

  /** The whole request is stored exactly when each of its headers is fine; what is then known of the message. */
  lemma {:induction false} AddAllIff(kind: Kind, atIngress: bool, s: Stored, hs: seq<Header>)
    requires |s.headers| + |hs| <= MAX_HEADER_FIELD_NUMBER
    ensures AddAll(kind, atIngress, s, hs).Some? <==> AllFine(kind, hs)
    ensures var r := AddAll(kind, atIngress, s, hs); r.Some? ==>
      && r.value.headers == s.headers + Kept(kind, hs)
      && r.value.counter == s.counter + IdsSet(kind, atIngress, hs)
      && r.value.localId == LocalIdOf(kind, atIngress, s.counter, s.localId, hs)
      && r.value.priority == PriorityOf(s.priority, hs)
    decreases |hs|
  {
    hide Stoll, ToInt32, Pack, AddHeader, Fine;
    if hs != [] {
      var front, h := hs[..|hs| - 1], hs[|hs| - 1];
      AddAllIff(kind, atIngress, s, front);
      AllFineSplits(kind, hs);
      var t := AddAll(kind, atIngress, s, front);
      if t.Some? {
        AddOne(kind, atIngress, t.value, h);
        FineNumbers(kind, h);
      }
    }
  }

  lemma AllFineSplits(kind: Kind, hs: seq<Header>)
    requires hs != []
    ensures AllFine(kind, hs) <==> AllFine(kind, hs[..|hs| - 1]) && Fine(kind, hs[|hs| - 1])
  {
    hide Fine;
  }

  lemma FineNumbers(kind: Kind, h: Header)
    ensures Fine(kind, h) && (IsLocalId(h) || IsId(h) || IsPriority(h)) ==> Stoll(h.value).Some?
  {
  }

  // ----- the added headers -----

  lemma CountedStops(v: seq<Byte>, behind: seq<Byte>)
    requires 0 !in v && behind != [] && behind[0] == 0
    ensures Counted(v + behind) == v
    decreases |v|
  {
    if v == [] {
      assert v + behind == behind;
    } else {
      assert v[0] in v && (v + behind)[1..] == v[1..] + behind;
      CountedStops(v[1..], behind);
    }
  }

  /** Decimal digits are a valid header value and hold no zero byte. */
  lemma DigitsAreValid(n: nat)
    ensures 0 !in Decimal(n) && ValidValue(Decimal(n)) && Decimal(n) != [] && !IsBlank(Decimal(n)[0])
  {
    NumberOfDecimal(n);
    var v := Decimal(n);
    forall k | 0 <= k < |v| ensures !Stops(Control, v[k]) && !IsBlank(v[k]) && v[k] != 0 {
      assert IsDigit(v[k]);
    }
  }

  lemma OwnNamesAreTokens()
    ensures AllFree(RPC_ID, NotToken) && AllFree(PRIORITY, NotToken) && AllFree(RPC_LOCAL_ID, NotToken)
    ensures 0 !in RPC_ID && 0 !in PRIORITY && 0 !in RPC_LOCAL_ID
  {
  }

  /** The ingress's headers are printed without their zero bytes. */
  lemma OwnHeaderPrints(name: seq<Byte>, v: seq<Byte>)
    requires 0 !in name && 0 !in v && |v| < 32
    ensures PrintHeader(Header(Some(name + [0]), Padded(v))) == PrintHeader(Header(Some(name), v))
  {
    hide Counted, Zeros;
    CountedStops(name, [0]);
    CountedStops(v, Zeros(32 - |v|));
    assert Counted(name) == name && Counted(v) == v;
  }

  lemma AddedAreValid(place: Place, localId: int)
    requires PlaceOk(place) && (place.ToService? ==> localId >= 0)
    ensures forall k :: 0 <= k < |Added(place, localId)| ==> ValidHeader(Added(place, localId)[k])
  {
    hide Decimal, ValidValue, AllFree;
    OwnNamesAreTokens();
    match place
    case AtIngress(_, id, priority) =>
      DigitsAreValid(id);
      DigitsAreValid(priority);
    case ToService =>
      DigitsAreValid(localId);
    case ToDownstream =>
  }

  lemma {:induction false} PrintSame(a: seq<Header>, b: seq<Header>)
    requires |a| == |b| && forall k :: 0 <= k < |a| ==> PrintHeader(a[k]) == PrintHeader(b[k])
    ensures PrintHeaders(a) == PrintHeaders(b)
    decreases |a|
  {
    hide PrintHeader;
    if a != [] {
      PrintSame(a[1..], b[1..]);
    }
  }

  /** What an ingress adds fits, and is printed as two clean headers. */
  lemma CompleteAtIngress(place: Place, s: Stored)
    requires place.AtIngress? && PlaceOk(place) && |s.headers| <= MAX_HEADERS
    ensures var u := Complete(place, s);
      && u.Some? && u.value.localId != -1 && u.value.priority != -1
      && PrintHeaders(u.value.headers) == PrintHeaders(s.headers + Added(place, s.localId))
      && |u.value.headers| == |s.headers| + 2
  {
    hide Decimal, Pack, Stoll, PrintHeader, ToInt32;
    var id, priority := place.id, place.priority;
    NumbersAreShort(id, priority);
    StollOfDecimal(id, Zeros(32 - |Decimal(id)|));
    StollOfDecimal(priority, Zeros(32 - |Decimal(priority)|));
    AddOne(EGRESS, true, s, IdHeader(id));
    NamesDiffer(RPC_ID + [0]);
    assert RPC_ID <= RPC_ID + [0] && PRIORITY <= PRIORITY + [0];
    assert Fine(EGRESS, IdHeader(id));
    var t := AddHeader(EGRESS, true, s, IdHeader(id)).value;
    TopIdIsParent(s.counter + 1);
    NamesDiffer(PRIORITY + [0]);
    AddOne(EGRESS, true, t, PriorityHeader(priority));
    assert Fine(EGRESS, PriorityHeader(priority));
    SmallStays(priority);
    OwnNamesAreTokens();
    DigitsAreValid(id);
    DigitsAreValid(priority);
    OwnHeaderPrints(RPC_ID, Decimal(id));
    OwnHeaderPrints(PRIORITY, Decimal(priority));
    var u := AddHeader(EGRESS, true, t, PriorityHeader(priority)).value;
    assert u.headers == s.headers + [IdHeader(id), PriorityHeader(priority)];
    PrintSame(u.headers, s.headers + Added(place, s.localId));
  }

  lemma SmallStays(x: nat)
    requires x <= 3
    ensures ToInt32(x) == x
  {
  }

  /** A request without an id is not handed to a service; with one, its local id goes along. */
  lemma CompleteToService(s: Stored)
    requires |s.headers| <= MAX_HEADERS && (s.localId == -1 || 0 <= s.localId < HALF)
    ensures var u := Complete(ToService, s);
      && (u.Some? <==> s.localId != -1)
      && (u.Some? ==> u.value == s.(headers := s.headers + Added(ToService, s.localId)))
  {
    hide Decimal, Pack, Stoll, ToInt32;
    var h := Header(Some(RPC_LOCAL_ID), SignedDecimal(s.localId));
    NamesDiffer(RPC_LOCAL_ID);
    AddOne(INGRESS, false, s, h);
    if s.localId == -1 {
      MinusOne();
    } else {
      LocalIdIsShort(s.localId);
      StollOfDecimal(s.localId, []);
      assert Decimal(s.localId) + [] == Decimal(s.localId);
      LocalIdIsKept(s, h);
    }
  }

  lemma LocalIdIsKept(s: Stored, h: Header)
    requires IsLocalId(h) && Short(h) && |s.headers| < MAX_HEADER_FIELD_NUMBER
    requires Stoll(h.value).Some? && Stoll(h.value).value != -1
    ensures AddHeader(INGRESS, false, s, h) == Some(s.(headers := s.headers + [h]))
  {
    hide Stoll;
  }

  lemma MinusOne()
    ensures Stoll(SignedDecimal(-1)) == Some(-1)
  {
    assert Decimal(1) == [49];
    var v: seq<Byte> := [45, 49];
    assert SignedDecimal(-1) == v && SkipSpace(v) == v && v[1..] == [49];
    assert Number([49], 0) == 1 by { assert [49][1..] == []; }
  }

  lemma LocalIdIsShort(id: nat)
    requires id < HALF
    ensures |Decimal(id)| < MAX_HEADER_FIELD_SIZE
  {
    NumbersAreShort(id, 0);
  }

  lemma {:induction false} HostedIdIsSmall(atIngress: bool, counter: nat, hs: seq<Header>)
    ensures var id := LocalIdOf(INGRESS, atIngress, counter, -1, hs); id == -1 || 0 <= id < HALF
    decreases |hs|
  {
    hide Stoll, Pack;
    if hs != [] {
      HostedIdIsSmall(atIngress, counter, hs[..|hs| - 1]);
      TopIdIsParent(counter + IdsSet(INGRESS, atIngress, hs));
      SmallPack(counter + IdsSet(INGRESS, atIngress, hs));
    }
  }

  lemma SmallPack(counter: nat)
    ensures 0 <= Pack(counter, 0) < HALF
  {
    TopIdIsParent(counter);
  }

  lemma {:induction false} KeptAreValid(kind: Kind, hs: seq<Header>)
    requires forall k :: 0 <= k < |hs| ==> ValidHeader(hs[k])
    ensures forall k :: 0 <= k < |Kept(kind, hs)| ==> ValidHeader(Kept(kind, hs)[k])
    decreases |hs|
  {
    hide ValidHeader, IsLocalId;
    if hs != [] {
      KeptAreValid(kind, hs[..|hs| - 1]);
    }
  }

  // ----- the theorem -----

  /** The message as it comes from the pool. */
  predicate Empty(s: Stored) {
    s.localId == -1 && s.headers == []
  }

  /** The stored and completed headers print as those the next hop is to see. */
  lemma Completed(place: Place, plain: bool, s: Stored, hs: seq<Header>)
    requires PlaceOk(place) && Empty(s) && |hs| <= MAX_HEADERS
    ensures var t := AddAll(KindOf(place), place.AtIngress?, s, hs);
      var u := if t.Some? then Complete(place, t.value) else None;
      && (u.Some? && Identified(plain, u.value) <==> MayPass(place, plain, s, hs))
      && (u.Some? ==> PrintHeaders(u.value.headers) == PrintHeaders(Passed(place, s, hs)))
  {
    hide AddAll, AddHeader, AllFine, Stoll, Pack, ToInt32, Decimal, PrintHeaders;
    var kind, atIngress := KindOf(place), place.AtIngress?;
    AddAllIff(kind, atIngress, s, hs);
    var t := AddAll(kind, atIngress, s, hs);
    if t.Some? {
      assert [] + Kept(kind, hs) == Kept(kind, hs);
      match place
      case AtIngress(_, _, _) =>
        CompleteAtIngress(place, t.value);
      case ToService =>
        HostedIdIsSmall(false, s.counter, hs);
        CompleteToService(t.value);
      case ToDownstream =>
        assert Kept(kind, hs) + [] == Kept(kind, hs);
    }
  }

  lemma FineAreNamed(kind: Kind, r: Request)
    requires Parsable(r) && AllFine(kind, r.headers)
    ensures forall k :: 0 <= k < |r.headers| ==> ValidHeader(r.headers[k])
  {
    hide ValidHeader;
    forall k | 0 <= k < |r.headers| ensures ValidHeader(r.headers[k]) {
      assert Fine(kind, r.headers[k]);
    }
  }

  /** When anything is written for a parsed request, and how the next hop takes it: the request line and the
      headers passed on, or a refusal when they are more than ten. */
  lemma RelayedIsParsed(place: Place, plain: bool, s: Stored, r: Request, stray: int, room: nat)
    requires PlaceOk(place) && Empty(s) && Parsable(r)
    ensures var passed := Request(r.line, Passed(place, s, r.headers));
      var w := Relay(place, plain, s, r, stray, room);
      && (w.Some? <==> Admits(place, r, stray) && MayPass(place, plain, s, r.headers) && |Print(passed)| < room)
      && (w.Some? ==> w.value == Print(passed))
      && (w.Some? ==> Head(w.value) == if |passed.headers| <= MAX_HEADERS then Ok(|w.value|, passed) else Fail)
  {
    hide AddAll, Complete, Admits, Head, PrintHeaders, PrintLine, MayPass, Identified, ValidHeader, ValidLine, Passed;
    Completed(place, plain, s, r.headers);
    if MayPass(place, plain, s, r.headers) {
      PassedAreValid(place, plain, s, r);
      PrintManyThenParse(Request(r.line, Passed(place, s, r.headers)));
    }
  }

  lemma PassedAreValid(place: Place, plain: bool, s: Stored, r: Request)
    requires PlaceOk(place) && Empty(s) && Parsable(r) && MayPass(place, plain, s, r.headers)
    ensures forall k :: 0 <= k < |Passed(place, s, r.headers)| ==> ValidHeader(Passed(place, s, r.headers)[k])
  {
    hide ValidHeader, ValidLine, AllFine, Stoll, Pack;
    var kind := KindOf(place);
    FineAreNamed(kind, r);
    KeptAreValid(kind, r.headers);
    HostedIdIsSmall(place.AtIngress?, s.counter, r.headers);
    AddedAreValid(place, LocalIdOf(kind, place.AtIngress?, s.counter, s.localId, r.headers));
  }

  /** The bytes that leave for a received buffer: nothing unless it holds one whole head and no more. */
  function Forward(place: Place, plain: bool, s: Stored, input: seq<Byte>, stray: int, room: nat): Option<seq<Byte>>
    requires PlaceOk(place)
  {
    match Head(input)
    case Ok(next, r) => if next == |input| then Relay(place, plain, s, r, stray, room) else None
    case _ => None
  }

  /** Parse, store, write, parse: what is received reaches the next hop, as its request line with the headers passed
      on, if and only if it is one head with nothing behind it, it is admitted, each of its headers is fine, its ids
      are there, it fits the buffer, and the headers passed on are at most ten. */
  lemma RelayIff(place: Place, plain: bool, s: Stored, input: seq<Byte>, stray: int, room: nat)
    requires PlaceOk(place) && Empty(s)
    ensures var w := Forward(place, plain, s, input, stray, room);
      w.Some? && Head(w.value).Ok?
      <==>
      && Head(input).Ok? && Head(input).next == |input|
      && var r := Head(input).value;
         && Admits(place, r, stray)
         && MayPass(place, plain, s, r.headers)
         && |Print(Request(r.line, Passed(place, s, r.headers)))| < room
         && |Kept(KindOf(place), r.headers)| + |Added(place, 0)| <= MAX_HEADERS
    ensures var w := Forward(place, plain, s, input, stray, room);
      w.Some? && Head(w.value).Ok? ==>
        && Head(input).Ok?
        && Head(w.value) == Ok(|w.value|, Request(Head(input).value.line, Passed(place, s, Head(input).value.headers)))
  {
    hide Relay, Admits, MayPass, Head, Print, Parsable, LocalIdOf;
    if Head(input).Ok? {
      HeadYields(input);
      RelayedIsParsed(place, plain, s, Head(input).value, stray, room);
    }
  }

  /** At an ingress that is: at most eight headers, when none of them names a local id. */
  lemma IngressAddsTwo(place: Place, plain: bool, s: Stored, input: seq<Byte>, stray: int, room: nat)
    requires place.AtIngress? && PlaceOk(place) && Empty(s) && Head(input).Ok? && Head(input).next == |input|
    requires forall k :: 0 <= k < |Head(input).value.headers| ==> !IsLocalId(Head(input).value.headers[k])
    ensures var r := Head(input).value;
      var passed := Request(r.line, r.headers + Added(place, -1));
      var w := Forward(place, plain, s, input, stray, room);
      w.Some? && Head(w.value) == Ok(|w.value|, passed)
      <==>
      && Admits(place, r, stray)
      && AllFine(EGRESS, r.headers)
      && |Print(passed)| < room
      && |r.headers| + 2 <= MAX_HEADERS
  {
    hide Relay, Admits, AllFine, Head, Print, LocalIdOf;
    var r := Head(input).value;
    NothingIsDropped(r.headers);
    RelayIff(place, plain, s, input, stray, room);
    assert Passed(place, s, r.headers) == r.headers + Added(place, -1);
  }

  lemma {:induction false} NothingIsDropped(hs: seq<Header>)
    requires forall k :: 0 <= k < |hs| ==> !IsLocalId(hs[k])
    ensures Kept(EGRESS, hs) == hs
    decreases |hs|
  {
    hide IsLocalId;
    if hs != [] {
      NothingIsDropped(hs[..|hs| - 1]);
      assert hs == hs[..|hs| - 1] + [hs[|hs| - 1]];
    }
  }

  /** `GET /s HTTP/1.1` with nine headers `a: b`. */
  function NineHeaders(): Request {
    Request(Line([71, 69, 84], [SLASH, 115], 1), seq(9, i => Header(Some([97]), [98])))
  }

  /** A head with nine headers is accepted by an ingress, which writes eleven: the next hop refuses them. */
  lemma NineHeadersAreTooMany(place: Place, s: Stored, stray: int, room: nat)
    requires place == AtIngress([115], 1, 0) && Empty(s)
    requires room > |Print(Request(NineHeaders().line, NineHeaders().headers + Added(place, -1)))|
    ensures var head := Print(NineHeaders());
      && Head(head) == Ok(|head|, NineHeaders())
      && Forward(place, false, s, head, stray, room).Some?
      && Head(Forward(place, false, s, head, stray, room).value).Fail?
  {
    hide Relay, Head, Print, PrintHeaders, PrintLine, Stoll, Decimal;
    var r := NineHeaders();
    NineAreParsable();
    PrintThenParse(r);
    NineAreAdmitted(place, stray);
    NothingIsDropped(r.headers);
    assert Passed(place, s, r.headers) == r.headers + Added(place, -1);
    RelayedIsParsed(place, false, s, r, stray, room);
  }

  lemma NineAreParsable()
    ensures Parsable(NineHeaders()) && NoneFolded(NineHeaders().headers)
    ensures forall k :: 0 <= k < 9 ==> !IsLocalId(NineHeaders().headers[k])
    ensures AllFine(EGRESS, NineHeaders().headers)
  {
    hide Stoll;
    var h := Header(Some([97]), [98]);
    assert RPC_ID[0] != 97 && RPC_LOCAL_ID[0] != 97 && PRIORITY[0] != 97;
    assert ValidHeader(h) && !IsLocalId(h) && Fine(EGRESS, h);
  }

  lemma {:induction false} NoLength(hs: seq<Header>, stray: int)
    requires forall k :: 0 <= k < |hs| ==> hs[k] == Header(Some([97]), [98])
    ensures ContentLength(hs, stray) == -1
    decreases |hs|
  {
    if hs != [] {
      assert CONTENT_LENGTH[0] != 97;
      NoLength(hs[..|hs| - 1], stray);
    }
  }

  lemma NineAreAdmitted(place: Place, stray: int)
    requires place == AtIngress([115], 1, 0)
    ensures Admits(place, NineHeaders(), stray)
  {
    hide ContentLength;
    NoLength(NineHeaders().headers, stray);
    ServiceOfOne(115);
  }

  lemma ServiceOfOne(b: Byte)
    requires b != SLASH && b != QUESTION
    ensures ServiceOf([SLASH, b]) == Some([b])
  {
    var path, rest: seq<Byte> := [SLASH, b], [b];
    assert path[1..] == rest && rest[1..] == [] && rest[..1] == rest;
    assert IndexOf(path, SLASH) == 0 && IndexOf(rest, QUESTION) == 1;
  }
}
