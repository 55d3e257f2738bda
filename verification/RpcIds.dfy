/** Local ids: the id of the hosted call in the high half, a running number in the low half. */
module RpcIds {

  import opened Bytes

  const HALF: int := 0x1_0000_0000

  /** The id that a new RPC under `parent` gets, as a signed 64-bit number. */
  function Pack(counter: nat, parent: int): (id: int)
  {
    var bits := (parent % HALF) * HALF + counter % HALF;
    if bits < WORD / 2 then bits else bits - WORD
  }

  /** The upper half of an id: the parent it was made for. */
  function Parent(id: int): (p: int) {
    (id % WORD) / HALF
  }

  /** The lower half of an id. */
  function Branch(id: int): int {
    id % HALF
  }

  /** Nothing of either half is lost, also when the packed number is negative. */
  lemma UnpackPack(counter: nat, parent: int)
    ensures Parent(Pack(counter, parent)) == parent % HALF
    ensures Branch(Pack(counter, parent)) == counter % HALF
    ensures -(WORD / 2) <= Pack(counter, parent) < WORD / 2
  {
    var high, low := parent % HALF, counter % HALF;
    var bits := high * HALF + low;
    assert 0 <= bits < WORD;
    assert Pack(counter, parent) % WORD == bits;
    assert bits / HALF == high && bits % HALF == low;
    assert (bits - WORD) % HALF == low by {
      assert bits - WORD == HALF * (high - HALF) + low;
      ModOf(high - HALF, low);
    }
  }

  lemma ModOf(k: int, low: int)
    requires 0 <= low < HALF
    ensures (HALF * k + low) % HALF == low
  {
  }

  /** Two ids are equal exactly when both halves are, so ids repeat only once the 32-bit number wraps. */
  lemma PackedIdsDiffer(c: nat, p: int, d: nat, q: int)
    ensures Pack(c, p) == Pack(d, q) <==> c % HALF == d % HALF && p % HALF == q % HALF
    ensures c < d < c + HALF ==> Pack(c, p) != Pack(d, q)
  {
    hide Pack, Parent, Branch;
    UnpackPack(c, p);
    UnpackPack(d, q);
    if c % HALF == d % HALF && p % HALF == q % HALF {
      SameHalves(c, p, d, q);
    }
    if c < d < c + HALF {
      NearNumbersDiffer(c, d);
    }
  }

  lemma SameHalves(c: nat, p: int, d: nat, q: int)
    requires c % HALF == d % HALF && p % HALF == q % HALF
    ensures Pack(c, p) == Pack(d, q)
  {
  }

  lemma NearNumbersDiffer(c: nat, d: nat)
    requires c < d < c + HALF
    ensures c % HALF != d % HALF
  {
  }

  /** An id made without a parent is a fit parent for sub-requests exactly when the running number is not
      a multiple of 2^32. */
  lemma TopIdIsParent(counter: nat)
    ensures 0 < Pack(counter, 0) < HALF <==> counter % HALF != 0
    ensures Pack(counter, 0) == counter % HALF
  {
  }

  /** The id of a sub-request leads back to the hosted call that made it. */
  lemma SubRequestFindsParent(top: nat, counter: nat)
    requires top % HALF != 0
    ensures Parent(Pack(counter, Pack(top, 0))) == Pack(top, 0) != 0
  {
    TopIdIsParent(top);
    UnpackPack(counter, Pack(top, 0));
  }

  /** An id reads as "no id" exactly at one pair of halves. */
  lemma NoIdIff(counter: nat, parent: int)
    ensures Pack(counter, parent) == -1 <==> parent % HALF == HALF - 1 && counter % HALF == HALF - 1
  {
    PackedIdsDiffer(counter, parent, 0xFFFF_FFFF, 0xFFFF_FFFF);
  }

  class IdSource {
    var counter: nat

    constructor ()
      ensures counter == 1
    {
      counter := 1;
    }

    method NewLocalId(parent: int) returns (id: int)
      modifies this
      ensures counter == old(counter) + 1 && id == Pack(counter, parent)
      ensures Parent(id) == parent % HALF
    {
      counter := counter + 1;
      id := Pack(counter, parent);
      UnpackPack(counter, parent);
    }
  }
}
