/** What a request carries between parser and writer: the header store of a message, the ids and the priority
    that are read from it, and the ids that are written into it. */
module RpcHeaders {

  import opened Options
  import opened Bytes
  import opened Heads
  import opened HeadPrinters
  import opened RpcIds
  import opened RpcMappers

  const MAX_HEADER_FIELD_SIZE: nat := 60
  const MAX_HEADER_FIELD_NUMBER: nat := 13
  const UINT32_MAX: int := 0xFFFF_FFFF

  /** `rpc-id` */
  const RPC_ID: seq<Byte> := [114, 112, 99, 45, 105, 100]
  /** `rpc-local-id` */
  const RPC_LOCAL_ID: seq<Byte> := [114, 112, 99, 45, 108, 111, 99, 97, 108, 45, 105, 100]
  /** `priority` */
  const PRIORITY: seq<Byte> := [112, 114, 105, 111, 114, 105, 116, 121]

  // ----- numbers in header values -----

  predicate IsDigit(b: Byte) {
    48 <= b <= 57
  }

  predicate IsSpace(b: Byte) {
    b == SP || 9 <= b <= 13
  }

  function SkipSpace(v: seq<Byte>): seq<Byte> {
    if v != [] && IsSpace(v[0]) then SkipSpace(v[1..]) else v
  }

  /** The number that the digits at the start of `v` spell, read on from `read`. */
  function Number(v: seq<Byte>, read: nat): nat {
    if v == [] || !IsDigit(v[0]) then read else Number(v[1..], read * 10 + (v[0] - 48))
  }

  /** Sign and first digit onwards; no digits when there is no number. */
  function Numeral(v: seq<Byte>): (bool, seq<Byte>) {
    var w := SkipSpace(v);
    if w != [] && (w[0] == 45 || w[0] == 43) then (w[0] == 45, w[1..]) else (false, w)
  }

  /** The library's conversion to a signed 64-bit number: it throws without digits and out of range. */
  function Stoll(v: seq<Byte>): Option<int> {
    var (minus, digits) := Numeral(v);
    if digits == [] || !IsDigit(digits[0]) then None
    else
      var n: int := Number(digits, 0);
      var x := if minus then -n else n;
      if -0x8000_0000_0000_0000 <= x < 0x8000_0000_0000_0000 then Some(x) else None
  }

  ghost predicate AllDigits(v: seq<Byte>) {
    forall i :: 0 <= i < |v| ==> IsDigit(v[i])
  }

  lemma {:induction false} NumberSplits(a: seq<Byte>, b: seq<Byte>, read: nat)
    requires AllDigits(a)
    ensures Number(a + b, read) == Number(b, Number(a, read))
    decreases |a|
  {
    if a == [] {
      assert a + b == b;
    } else {
      NumberSplits(a[1..], b, read * 10 + (a[0] - 48));
      assert (a + b)[1..] == a[1..] + b;
    }
  }

  /** A printed number is read back. */
  lemma {:induction false} NumberOfDecimal(n: nat)
    ensures AllDigits(Decimal(n)) && Decimal(n) != [] && Number(Decimal(n), 0) == n
  {
    if n >= 10 {
      NumberOfDecimal(n / 10);
      NumberSplits(Decimal(n / 10), [48 + n % 10], 0);
    }
  }

  /** So it is by the library's conversion, whatever stands behind its digits. */
  lemma StollOfDecimal(n: nat, behind: seq<Byte>)
    requires n < 0x8000_0000_0000_0000 && (behind != [] ==> !IsDigit(behind[0]))
    ensures Stoll(Decimal(n) + behind) == Some(n)
  {
    hide Decimal;
    NumberOfDecimal(n);
    var v := Decimal(n) + behind;
    assert IsDigit(v[0]) && v[0] == Decimal(n)[0];
    NumberSplits(Decimal(n), behind, 0);
  }

  function ToInt32(x: int): int {
    var low := x % HALF;
    if low < HALF / 2 then low else low - HALF
  }

  // ----- the store of a message -----

  datatype StoredOf<H> = Stored(localId: int, globalId: int, priority: int, counter: nat, headers: H)

  /** The ids and the priority of a message, the running number of ids, and the headers to be written. */
  type Stored = StoredOf<seq<Header>>

  function Keep(s: Stored, h: Header): Option<Stored>
    requires h.name.Some?
  {
    if |s.headers| >= MAX_HEADER_FIELD_NUMBER || |h.name.value| >= MAX_HEADER_FIELD_SIZE || |h.value| >= MAX_HEADER_FIELD_SIZE
    then None
    else Some(s.(headers := s.headers + [h]))
  }

  /** `rpc-local-id` of a sub-request names its parent and is not kept; at the service side it is kept. */
  function AddLocalId(kind: Kind, s: Stored, h: Header): Option<Stored>
    requires h.name.Some?
  {
    match Stoll(h.value)
    case None => None
    case Some(id) =>
      if kind == INGRESS then if id == -1 then None else Keep(s, h)
      else if id <= 0 || id > UINT32_MAX then None
      else Some(s.(localId := Pack(s.counter + 1, id), counter := s.counter + 1))
  }

  /** `rpc-id` gives a call that arrives at the service side, or anywhere at an ingress, a local id. */
  function AddId(kind: Kind, atIngress: bool, s: Stored, h: Header): Option<Stored>
    requires h.name.Some?
  {
    match Stoll(h.value)
    case None => None
    case Some(id) =>
      var t := s.(globalId := id);
      Keep(if atIngress || kind == INGRESS then t.(localId := Pack(s.counter + 1, 0), counter := s.counter + 1) else t, h)
  }

  /** One parsed header goes into the store; `None` when the program stops. A folded header has a null name,
      which is read before anything else. */
  function AddHeader(kind: Kind, atIngress: bool, s: Stored, h: Header): Option<Stored> {
    if h.name.None? then None
    else if RPC_LOCAL_ID <= h.name.value then AddLocalId(kind, s, h)
    else if RPC_ID <= h.name.value then AddId(kind, atIngress, s, h)
    else if PRIORITY <= h.name.value then
      match Stoll(h.value)
      case None => None
      case Some(p) => Keep(s.(priority := ToInt32(p)), h)
    else Keep(s, h)
  }

  /** The headers of a request go into the store one after the other. */
  function AddAll(kind: Kind, atIngress: bool, s: Stored, hs: seq<Header>): Option<Stored> {
    if hs == [] then Some(s)
    else
      match AddAll(kind, atIngress, s, hs[..|hs| - 1])
      case None => None
      case Some(t) => AddHeader(kind, atIngress, t, hs[|hs| - 1])
  }

  /** The three names exclude each other. */
  lemma NamesDiffer(name: seq<Byte>)
    ensures !(RPC_ID <= name && RPC_LOCAL_ID <= name)
    ensures !(RPC_ID <= name && PRIORITY <= name) && !(RPC_LOCAL_ID <= name && PRIORITY <= name)
  {
    if RPC_ID <= name {
      assert name[4] == RPC_ID[4] && name[0] == RPC_ID[0];
    } else if RPC_LOCAL_ID <= name {
      assert name[0] == RPC_LOCAL_ID[0];
    }
  }

  class Message {
    const kind: Kind
    var localId: int
    var globalId: int
    var priority: int
    var headers: seq<Header>

    /** A message from the pool; its priority is what the last user left. */
    constructor (kind: Kind, stale: int)
      ensures this.kind == kind && localId == -1 && globalId == -1 && priority == stale && headers == []
    {
      this.kind := kind;
      localId, globalId, priority, headers := -1, -1, stale, [];
    }

    ghost function Model(ids: IdSource): Stored
      reads this, ids
    {
      Stored(localId, globalId, priority, ids.counter, headers)
    }

    /** `add_header_field` of a request; `ok` is false when the program stops. */
    method AddHeaderField(h: Header, atIngress: bool, ids: IdSource) returns (ok: bool)
      modifies this, ids
      ensures ok <==> AddHeader(kind, atIngress, old(Model(ids)), h).Some?
      ensures ok ==> Some(Model(ids)) == AddHeader(kind, atIngress, old(Model(ids)), h)
    {
      hide Stoll, ToInt32;
      if h.name.None? {
        return false;
      }
      var name := h.name.value;
      NamesDiffer(name);
      if RPC_ID <= name {
        var id := Stoll(h.value);
        if id.None? {
          return false;
        }
        globalId := id.value;
        if atIngress || kind == INGRESS {
          localId := ids.NewLocalId(0);
        }
      }
      if RPC_LOCAL_ID <= name {
        var id := Stoll(h.value);
        if id.None? || (kind == INGRESS && id.value == -1) {
          return false;
        }
        if kind == EGRESS {
          if id.value <= 0 || id.value > UINT32_MAX {
            return false;
          }
          localId := ids.NewLocalId(id.value);
          return true;
        }
      }
      if PRIORITY <= name {
        var p := Stoll(h.value);
        if p.None? {
          return false;
        }
        priority := ToInt32(p.value);
      }
      if |headers| >= MAX_HEADER_FIELD_NUMBER || |name| >= MAX_HEADER_FIELD_SIZE || |h.value| >= MAX_HEADER_FIELD_SIZE {
        return false;
      }
      headers := headers + [h];
      return true;
    }

    /** The loop of the connection that fills a message. */
    method AddHeaderFields(hs: seq<Header>, atIngress: bool, ids: IdSource) returns (ok: bool)
      modifies this, ids
      ensures ok <==> AddAll(kind, atIngress, old(Model(ids)), hs).Some?
      ensures ok ==> Some(Model(ids)) == AddAll(kind, atIngress, old(Model(ids)), hs)
    {
      hide AddHeader;
      var i := 0;
      assert hs[..|hs|] == hs;
      while i < |hs|
        invariant i <= |hs|
        invariant Some(Model(ids)) == AddAll(kind, atIngress, old(Model(ids)), hs[..i])
      {
        assert hs[..i + 1][..i] == hs[..i] && hs[..i + 1][i] == hs[i];
        ok := AddHeaderField(hs[i], atIngress, ids);
        if !ok {
          StopsForGood(kind, atIngress, old(Model(ids)), hs, i + 1);
          return;
        }
        i := i + 1;
      }
      return true;
    }
  }

  lemma {:induction false} StopsForGood(kind: Kind, atIngress: bool, s: Stored, hs: seq<Header>, i: nat)
    requires i <= |hs| && AddAll(kind, atIngress, s, hs[..i]).None?
    ensures AddAll(kind, atIngress, s, hs).None?
    decreases |hs|
  {
    if i < |hs| {
      assert hs[..|hs| - 1][..i] == hs[..i];
      StopsForGood(kind, atIngress, s, hs[..|hs| - 1], i);
    } else {
      assert hs[..i] == hs;
    }
  }

  /** A hosted call's id, printed into its header and handed back by its service on a sub-request, is accepted
      exactly when the running number is not a multiple of 2^32, and then the sub-request's own id leads back to
      the hosted call. */
  lemma HostIdComesBack(top: nat, s: Stored, name: seq<Byte>)
    requires RPC_LOCAL_ID <= name
    ensures var host := Pack(top, 0);
      var r := AddHeader(EGRESS, false, s, Header(Some(name), Decimal(host)));
      && host >= 0
      && (r.Some? <==> top % HALF != 0)
      && (r.Some? ==> Parent(r.value.localId) == host && r.value.headers == s.headers)
  {
    hide Pack, Parent, Decimal, Stoll;
    TopIdIsParent(top);
    var host := Pack(top, 0);
    StollOfDecimal(host, []);
    assert Decimal(host) + [] == Decimal(host);
    UnpackPack(s.counter + 1, host);
  }
}
