/** The three indexes over the RPCs in flight. The nested tables of the program, by connection type, file
    descriptor and stream, are one table each here. */
module RpcMappers {

  import RpcIds

  datatype Kind = INGRESS | EGRESS

  datatype Key = Key(kind: Kind, fd: int, stream: int)

  datatype Id = Id(kind: Kind, id: int)

  class Rpc {
    const kind: Kind
    const dsFd: int
    const dsStream: int
    var usFd: int
    var usStream: int
    var localId: int

    constructor (kind: Kind, stream: int, fd: int)
      ensures this.kind == kind && DsKey() == Key(kind, fd, stream) && localId == -1
    {
      this.kind := kind;
      dsFd, dsStream := fd, stream;
      usFd, usStream, localId := -1, 0, -1;
    }

    function DsKey(): Key {
      Key(kind, dsFd, dsStream)
    }

    function UsKey(): Key reads this {
      Key(kind, usFd, usStream)
    }

    function IdKey(): Id reads this {
      Id(kind, localId)
    }
  }

  class RpcMapper {
    var dsMap: map<Key, Rpc>
    var usMap: map<Key, Rpc>
    var idMap: map<Id, Rpc>

    constructor ()
      ensures Consistent() && dsMap == map[] && usMap == map[] && idMap == map[]
    {
      dsMap, usMap, idMap := map[], map[], map[];
    }

    /** An RPC that was routed and not removed: all three indexes have it, under its own keys. */
    ghost predicate Routed(rpc: Rpc) reads this, rpc {
      && rpc.DsKey() in dsMap && dsMap[rpc.DsKey()] == rpc
      && rpc.UsKey() in usMap && usMap[rpc.UsKey()] == rpc
      && rpc.IdKey() in idMap && idMap[rpc.IdKey()] == rpc
    }

    /** Every entry stands under its RPC's key, and no entry of the two inner indexes dangles. */
    ghost predicate Consistent() reads this, dsMap.Values, usMap.Values, idMap.Values {
      && (forall k :: k in dsMap ==> dsMap[k].DsKey() == k)
      && (forall k :: k in usMap ==> usMap[k].UsKey() == k && Routed(usMap[k]))
      && (forall i :: i in idMap ==> idMap[i].IdKey() == i && Routed(idMap[i]))
    }

    /** A new RPC, known by its downstream key; a second one under the same key stops the program. */
    method Allocate(kind: Kind, stream: int, fd: int) returns (rpc: Rpc)
      requires Consistent() && Key(kind, fd, stream) !in dsMap
      modifies this`dsMap
      ensures Consistent() && fresh(rpc)
      ensures dsMap == old(dsMap)[Key(kind, fd, stream) := rpc] && rpc.DsKey() == Key(kind, fd, stream)
    {
      rpc := new Rpc(kind, stream, fd);
      dsMap := dsMap[Key(kind, fd, stream) := rpc];
    }

    /** Make a routed RPC known by its upstream key and its id. An id in use stops the program; an upstream
        key in use does not: its entry stays, and the indexes no longer agree. */
    method Route(kind: Kind, dsStream: int, dsFd: int, usStream: int, usFd: int)
      requires Consistent() && Key(kind, dsFd, dsStream) in dsMap
      requires var rpc := dsMap[Key(kind, dsFd, dsStream)];
        rpc.UsKey() == Key(kind, usFd, usStream) && rpc.IdKey() !in idMap
      modifies this`usMap, this`idMap
      ensures var rpc := dsMap[Key(kind, dsFd, dsStream)];
        && idMap == old(idMap)[rpc.IdKey() := rpc]
        && usMap == (if rpc.UsKey() in old(usMap) then old(usMap) else old(usMap)[rpc.UsKey() := rpc])
        && (Consistent() <==> rpc.UsKey() !in old(usMap))
        && (Consistent() ==> Routed(rpc))
    {
      var rpc := dsMap[Key(kind, dsFd, dsStream)];
      idMap := idMap[rpc.IdKey() := rpc];
      if Key(kind, usFd, usStream) !in usMap {
        usMap := usMap[Key(kind, usFd, usStream) := rpc];
      }
      assert idMap[rpc.IdKey()] == rpc;
    }

    /** Forget a routed RPC: nothing leads to it any more, and every other RPC keeps its entries. */
    method Remove(rpc: Rpc)
      requires Consistent() && Routed(rpc)
      modifies this
      ensures Consistent()
      ensures rpc !in dsMap.Values && rpc !in usMap.Values && rpc !in idMap.Values
      ensures dsMap == old(dsMap) - {rpc.DsKey()} && usMap == old(usMap) - {rpc.UsKey()}
      ensures idMap == old(idMap) - {rpc.IdKey()}
    {
      usMap := usMap - {rpc.UsKey()};
      dsMap := dsMap - {rpc.DsKey()};
      idMap := idMap - {rpc.IdKey()};
    }

    function GetDs(kind: Kind, stream: int, fd: int): (rpc: Rpc)
      requires Key(kind, fd, stream) in dsMap
      reads this
    {
      dsMap[Key(kind, fd, stream)]
    }

    function GetUs(kind: Kind, stream: int, fd: int): (rpc: Rpc)
      requires Key(kind, fd, stream) in usMap
      reads this
    {
      usMap[Key(kind, fd, stream)]
    }

    /** The hosted call that a sub-request's id names. */
    function GetIngress(id: int): (rpc: Rpc)
      requires RpcIds.Parent(id) != 0 && Id(INGRESS, RpcIds.Parent(id)) in idMap
      reads this
    {
      idMap[Id(INGRESS, RpcIds.Parent(id))]
    }

    /** A routed RPC is found under each of its keys, and only it. */
    lemma RoutedIsFound(rpc: Rpc)
      requires Consistent() && Routed(rpc)
      ensures GetDs(rpc.kind, rpc.dsStream, rpc.dsFd) == rpc == GetUs(rpc.kind, rpc.usStream, rpc.usFd)
      ensures forall k :: k in dsMap && dsMap[k] == rpc ==> k == rpc.DsKey()
      ensures forall k :: k in usMap && usMap[k] == rpc ==> k == rpc.UsKey()
      ensures forall i :: i in idMap && idMap[i] == rpc ==> i == rpc.IdKey()
    {
    }

    /** The packed id of a sub-request finds the hosted call it was made for. */
    lemma SubRequestFindsHost(host: Rpc, top: nat, counter: nat)
      requires Consistent() && Routed(host) && host.kind == INGRESS
      requires host.localId == RpcIds.Pack(top, 0) && top % RpcIds.HALF != 0
      ensures var id := RpcIds.Pack(counter, host.localId);
        RpcIds.Parent(id) != 0 && Id(INGRESS, RpcIds.Parent(id)) in idMap && GetIngress(id) == host
    {
      RpcIds.SubRequestFindsParent(top, counter);
    }
  }
}
