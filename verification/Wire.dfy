/** The protocol's datagrams: a 26-byte header and the service name. */
module Wires {

  import opened Bytes
  import opened Numbers

  const HEADER: nat := 26
  const UDP_BUFFER: nat := 256

  const REQUEST_TYPE: Byte := 1
  const RETURN_TYPE: Byte := 2

  /** The name a message carries; reading it can be refused, or run past the message. */
  datatype View = Refused | Past(length: nat) | Service(name: seq<Byte>)

  datatype Receiver = Nobody | Server | Client

  // ----- numbers, most significant byte first -----

  function Power256(n: nat): (p: int)
    ensures p > 0
  {
    if n == 0 then 1 else 256 * Power256(n - 1)
  }

  function BigEndian(x: int, n: nat): (b: seq<Byte>)
    ensures |b| == n
    decreases n
  {
    if n == 0 then [] else BigEndian(x / 256, n - 1) + [x % 256]
  }

  function Unsigned(b: seq<Byte>): (x: nat)
    ensures x < Power256(|b|)
  {
    if b == [] then 0 else Unsigned(b[..|b| - 1]) * 256 + b[|b| - 1]
  }

  /** The two's complement reading. */
  function Signed(b: seq<Byte>): int {
    var x := Unsigned(b);
    if 2 * x < Power256(|b|) then x else x - Power256(|b|)
  }

  /** Every number that fits is read back, negative ones too. */
  lemma {:induction false} UnsignedBigEndian(x: int, n: nat)
    ensures Unsigned(BigEndian(x, n)) == x % Power256(n)
    decreases n
  {
    if n > 0 {
      UnsignedBigEndian(x / 256, n - 1);
      assert BigEndian(x, n)[..n - 1] == BigEndian(x / 256, n - 1);
      LastDigit(x, Power256(n - 1));
    }
  }

  lemma LastDigit(x: int, p: int)
    requires p > 0
    ensures x % (256 * p) == (x / 256) % p * 256 + x % 256
  {
    var q, r := x / 256, x % 256;
    var a, b := q / p, q % p;
    assert q == a * p + b;
    assert x == a * (256 * p) + (b * 256 + r);
    assert 0 <= b * 256 + r < 256 * p;
    Remainder(x, 256 * p, a, b * 256 + r);
  }

  lemma SignedBigEndian(x: int, n: nat)
    requires -Power256(n) <= 2 * x < Power256(n)
    ensures Signed(BigEndian(x, n)) == x
  {
    UnsignedBigEndian(x, n);
    if x < 0 {
      Remainder(x, Power256(n), -1, x + Power256(n));
    } else {
      Remainder(x, Power256(n), 0, x);
    }
  }

  // ----- messages -----

  /** A Credit Request; the byte for the credits granted keeps whatever the buffer held. */
  function RequestBytes(service: seq<Byte>, held: Byte, id: int, priority: int, now: int, rtt: int): (m: seq<Byte>)
    ensures |m| == HEADER + |service|
  {
    [(HEADER + |service|) % 256, REQUEST_TYPE, 0, 1, held] + BigEndian(id, 8) + [priority % 256]
    + BigEndian(now, 8) + BigEndian(rtt, 4) + service
  }

  /** The Credit Grant that answers a request after `waited`. */
  function GrantBytes(request: seq<Byte>, waited: int): (m: seq<Byte>)
    requires |request| >= HEADER
    ensures |m| == |request|
  {
    request[2 := 1][4 := 1][..22] + BigEndian(waited, 4) + request[26..]
  }

  /** The Credit Return that gives a grant back. */
  function ReturnBytes(grant: seq<Byte>): (m: seq<Byte>)
    requires |grant| >= HEADER
    ensures |m| == |grant|
  {
    grant[1 := RETURN_TYPE]
  }

  function Id(m: seq<Byte>): int
    requires |m| >= HEADER
  {
    Signed(m[5..13])
  }

  function Priority(m: seq<Byte>): int
    requires |m| >= HEADER
  {
    SignedByte(m[13])
  }

  function Sent(m: seq<Byte>): int
    requires |m| >= HEADER
  {
    Signed(m[14..22])
  }

  function Delay(m: seq<Byte>): int
    requires |m| >= HEADER
  {
    Signed(m[22..26])
  }

  function SignedByte(b: Byte): int {
    if b < 128 then b else b - 256
  }

  /** The length byte is signed where the name is cut out, so a negative one wraps to a huge size. */
  function ReadService(m: seq<Byte>): View
    requires |m| >= HEADER
  {
    var length := SignedByte(m[0]);
    var size := if length < 0 then WORD + length else length;
    if m[1] != REQUEST_TYPE && m[1] != RETURN_TYPE then Refused
    else if size < HEADER then Refused
    else if size > |m| then Past(size - HEADER)
    else Service(m[HEADER..size])
  }

  /** Who handles a message: here the length byte is unsigned. */
  function Dispatch(m: seq<Byte>): Receiver {
    if |m| < 3 || m[0] < HEADER || m[0] > |m| then Nobody
    else if m[1] == RETURN_TYPE then Server
    else if m[1] == REQUEST_TYPE && m[2] == 0 then Server
    else if m[1] == REQUEST_TYPE && m[2] == 1 then Client
    else Nobody
  }

  // ----- what a reader gets -----

  predicate Int64(x: int) {
    -0x8000_0000_0000_0000 <= x < 0x8000_0000_0000_0000
  }

  predicate Int32(x: int) {
    -0x8000_0000 <= x < 0x8000_0000
  }

  lemma Powers()
    ensures Power256(4) == 0x1_0000_0000 && Power256(8) == 0x1_0000_0000_0000_0000
  {
    assert Power256(2) == 0x1_0000;
    assert Power256(6) == 0x1_0000 * Power256(4);
    assert Power256(8) == 0x1_0000 * Power256(6);
  }

  lemma RequestParts(service: seq<Byte>, held: Byte, id: int, priority: int, now: int, rtt: int)
    ensures var m := RequestBytes(service, held, id, priority, now, rtt);
      && m[0] == (HEADER + |service|) % 256 && m[1] == REQUEST_TYPE && m[2] == 0 && m[3] == 1 && m[4] == held
      && m[5..13] == BigEndian(id, 8) && m[13] == priority % 256
      && m[14..22] == BigEndian(now, 8) && m[22..26] == BigEndian(rtt, 4) && m[26..] == service
  {
    hide BigEndian;
  }

  /** The numbers of a request are read as they were written. */
  lemma RequestNumbers(service: seq<Byte>, held: Byte, id: int, priority: int, now: int, rtt: int)
    requires Int64(id) && Int64(now) && Int32(rtt) && -128 <= priority < 128
    ensures var m := RequestBytes(service, held, id, priority, now, rtt);
      Id(m) == id && Sent(m) == now && Delay(m) == rtt && Priority(m) == priority
  {
    hide BigEndian, Signed, RequestBytes, Power256;
    RequestParts(service, held, id, priority, now, rtt);
    Powers();
    SignedBigEndian(id, 8);
    SignedBigEndian(now, 8);
    SignedBigEndian(rtt, 4);
  }

  /** The service of a request is read back exactly when the whole message is shorter than 128 bytes, while
      it is delivered to the server up to 255: names in between are misread behind a check that passed. */
  lemma ServiceIsReadIff(service: seq<Byte>, held: Byte, id: int, priority: int, now: int, rtt: int)
    requires HEADER + |service| <= UDP_BUFFER
    ensures var m := RequestBytes(service, held, id, priority, now, rtt);
      && (ReadService(m) == Service(service) <==> HEADER + |service| < 128)
      && (ReadService(m).Past? <==> 128 <= HEADER + |service| <= 255)
      && (Dispatch(m) == Server <==> HEADER + |service| <= 255)
  {
    hide BigEndian, RequestBytes;
    RequestParts(service, held, id, priority, now, rtt);
    var m := RequestBytes(service, held, id, priority, now, rtt);
    assert m[26..] == m[26..26 + |service|];
  }

  /** A name of 102 bytes: accepted by the dispatcher, then read past the end of the message. */
  lemma LongNameIsMisread()
    ensures var m := RequestBytes(seq(102, i => 97), 0, 1, 0, 0, 0);
      Dispatch(m) == Server && ReadService(m) == Past(WORD - 128 - HEADER)
  {
    hide BigEndian, RequestBytes;
    RequestParts(seq(102, i => 97), 0, 1, 0, 0, 0);
  }

  /** A grant carries the id, the name, the priority and the send time of its request, asks for as many
      credits as it gives, and goes to the client. */
  lemma GrantCarriesRequest(request: seq<Byte>, waited: int)
    requires |request| >= HEADER && Dispatch(request) == Server && request[1] == REQUEST_TYPE && request[3] == 1
    requires Int32(waited)
    ensures var m := GrantBytes(request, waited);
      && Id(m) == Id(request) && Priority(m) == Priority(request) && Sent(m) == Sent(request)
      && Delay(m) == waited && m[3] == m[4] == 1
      && ReadService(m) == ReadService(request) && Dispatch(m) == Client
  {
    hide BigEndian, Signed, Power256;
    var m := GrantBytes(request, waited);
    assert m[5..13] == request[5..13] && m[14..22] == request[14..22];
    assert m[22..26] == BigEndian(waited, 4);
    Powers();
    SignedBigEndian(waited, 4);
    var length := SignedByte(m[0]);
    if HEADER <= length <= |m| {
      assert m[HEADER..length] == request[HEADER..length];
    }
  }

  /** A return names the service of its grant and goes to the server. */
  lemma ReturnCarriesGrant(grant: seq<Byte>)
    requires |grant| >= HEADER && Dispatch(grant) == Client
    ensures var m := ReturnBytes(grant);
      Id(m) == Id(grant) && ReadService(m) == ReadService(grant) && Dispatch(m) == Server
  {
    var m := ReturnBytes(grant);
    assert m[5..13] == grant[5..13];
    var length := SignedByte(m[0]);
    if HEADER <= length <= |m| {
      assert m[HEADER..length] == grant[HEADER..length];
    }
  }

  /** From request over grant to return: all three name the same service and id, and each reaches the side
      that handles it, for every name the request can carry. */
  lemma ServiceSurvivesTheTrip(service: seq<Byte>, held: Byte, id: int, priority: int, now: int, rtt: int, waited: int)
    requires Int64(id) && Int64(now) && Int32(rtt) && Int32(waited) && -128 <= priority < 128
    requires HEADER + |service| < 128
    ensures var request := RequestBytes(service, held, id, priority, now, rtt);
      var grant := GrantBytes(request, waited);
      var back := ReturnBytes(grant);
      && Dispatch(request) == Server && Dispatch(grant) == Client && Dispatch(back) == Server
      && Id(request) == Id(grant) == Id(back) == id
      && ReadService(request) == ReadService(grant) == ReadService(back) == Service(service)
  {
    hide BigEndian, Signed, RequestBytes, GrantBytes, ReturnBytes, ReadService, Dispatch;
    var request := RequestBytes(service, held, id, priority, now, rtt);
    RequestParts(service, held, id, priority, now, rtt);
    RequestNumbers(service, held, id, priority, now, rtt);
    ServiceIsReadIff(service, held, id, priority, now, rtt);
    GrantCarriesRequest(request, waited);
    ReturnCarriesGrant(GrantBytes(request, waited));
  }

  // ----- writing into a datagram buffer -----

  method WriteNumber(buf: array<Byte>, at: nat, n: nat, x: int)
    requires at + n <= buf.Length
    modifies buf
    ensures buf[at..at + n] == BigEndian(x, n)
    ensures buf[..at] == old(buf[..at]) && buf[at + n..] == old(buf[at + n..])
  {
    var digits := BigEndian(x, n);
    forall i | 0 <= i < n {
      buf[at + i] := digits[i];
    }
  }

  /** Fill a buffer with a Credit Request; `len` bytes of it are sent. */
  method WriteRequest(buf: array<Byte>, service: seq<Byte>, id: int, priority: int, now: int, rtt: int) returns (len: nat)
    requires HEADER + |service| <= buf.Length
    modifies buf
    ensures len == HEADER + |service|
    ensures buf[..len] == RequestBytes(service, old(buf[4]), id, priority, now, rtt)
  {
    hide BigEndian;
    len := HEADER + |service|;
    ghost var head: seq<Byte> := [len % 256, REQUEST_TYPE, 0, 1, buf[4]];
    buf[0], buf[1], buf[2], buf[3] := len % 256, REQUEST_TYPE, 0, 1;
    assert buf[..5] == head;
    WriteAfter(buf, 5, 8, id);
    buf[13] := priority % 256;
    assert buf[..14] == head + BigEndian(id, 8) + [priority % 256];
    WriteAfter(buf, 14, 8, now);
    WriteAfter(buf, 22, 4, rtt);
    ghost var front := buf[..26];
    forall i | 0 <= i < |service| {
      buf[HEADER + i] := service[i];
    }
    assert buf[..26] == front && buf[26..len] == service;
    assert buf[..len] == front + service;
  }

  /** Extend what stands in front of a place by a number. */
  method WriteAfter(buf: array<Byte>, at: nat, n: nat, x: int)
    requires at + n <= buf.Length
    modifies buf
    ensures buf[..at + n] == old(buf[..at]) + BigEndian(x, n)
  {
    hide BigEndian;
    WriteNumber(buf, at, n, x);
    assert buf[..at + n] == buf[..at] + buf[at..at + n];
  }

  /** Copy a request into the buffer that will carry its grant; the waiting time is filled in when the grant
      leaves the queue. */
  method WriteGrant(buf: array<Byte>, request: seq<Byte>, waited: int)
    requires HEADER <= |request| <= buf.Length
    modifies buf
    ensures buf[..|request|] == GrantBytes(request, waited)
  {
    hide BigEndian;
    forall i | 0 <= i < |request| {
      buf[i] := request[i];
    }
    buf[2], buf[4] := 1, 1;
    ghost var copy, tail := request[2 := 1][4 := 1], request[26..];
    assert buf[..22] == copy[..22];
    assert buf[26..|request|] == tail;
    ghost var back := buf[26..];
    assert back[..|request| - 26] == tail;
    WriteNumber(buf, 22, 4, waited);
    assert buf[26..|request|] == buf[26..][..|request| - 26] == tail;
    assert buf[..|request|] == buf[..22] + buf[22..26] + buf[26..|request|];
  }
}
