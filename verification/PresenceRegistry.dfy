/** The registry as it runs: two maps written in place, and a loop that empties a socket. */
module PresenceRegistry {
  import opened Presence

  /** The auctions of a socket, copied out before they are let go one by one; the order is the map's own. */
  method Spread(auctions: map<Id, Id>) returns (order: seq<Id>)
    ensures forall i, j | 0 <= i < j < |order| :: order[i] != order[j]
    ensures forall a: Id :: a in order <==> a in auctions
  {
    order := [];
    var left := auctions.Keys;
    while left != {}
      invariant forall i, j | 0 <= i < j < |order| :: order[i] != order[j]
      invariant forall a: Id :: a in auctions <==> a in order || a in left
      invariant forall a: Id | a in order :: a !in left
      decreases left
    {
      var a :| a in left;
      order := order + [a];
      left := left - {a};
    }
  }

  class PresenceRegistry {
    var bySocket: map<SocketId, map<Id, Id>>
    var connections: map<string, int>

    function State(): Registry
      reads this
    {
      Registry(bySocket, connections)
    }

    ghost predicate Valid()
      reads this
    {
      Sound(State())
    }

    constructor ()
      ensures Valid() && State() == EMPTY
    {
      bySocket, connections := map[], map[];
    }

    method Register(socketId: SocketId, auctionId: Id, userId: Id)
      requires Valid()
      modifies this
      ensures State() == RegisterStep(old(State()), socketId, auctionId, userId)
      ensures Valid()
      ensures old(Agrees(State())) ==> (Agrees(State()) <==> !Swaps(old(State()), socketId, auctionId, userId))
    {
      RegisterKeeps(State(), socketId, auctionId, userId);
      if Agrees(State()) { RegisterAgreesExactly(State(), socketId, auctionId, userId); }
      hide Sound, Agrees, Key, Bump;
      var auctions := if socketId in bySocket then bySocket[socketId] else map[];
      if auctionId in auctions && auctions[auctionId] == userId { return; }
      auctions := auctions[auctionId := userId];
      bySocket := bySocket[socketId := auctions];
      var _ := BumpCount(auctionId, userId, 1);
    }

    method Drop(socketId: SocketId, auctionId: Id) returns (last: bool)
      modifies this
      ensures (State(), last) == UnregisterStep(old(State()), socketId, auctionId)
    {
      hide Key, Bump;
      if socketId !in bySocket || auctionId !in bySocket[socketId] { return false; }
      var userId := bySocket[socketId][auctionId];
      var auctions := bySocket[socketId] - {auctionId};
      bySocket := bySocket[socketId := auctions];
      if auctions == map[] {
        bySocket := bySocket - {socketId};
      }
      assert bySocket == Put(old(bySocket), socketId, auctions);
      var left := BumpCount(auctionId, userId, -1);
      last := left == 0;
    }

    /** Yes only when this was the person's last connection. */
    method Unregister(socketId: SocketId, auctionId: Id) returns (last: bool)
      requires Valid()
      modifies this
      ensures (State(), last) == UnregisterStep(old(State()), socketId, auctionId)
      ensures Valid()
      ensures old(Agrees(State())) ==> Agrees(State())
      ensures old(Agrees(State())) && Held(old(bySocket), socketId, auctionId).Some? ==>
                (last <==> Holders(bySocket, auctionId, Held(old(bySocket), socketId, auctionId).value) == {})
    {
      ghost var before := State();
      last := Drop(socketId, auctionId);
      hide UnregisterStep, Sound, Agrees, Holders, Held;
      UnregisterAgrees(before, socketId, auctionId);
    }

    /** Everything the socket was holding; returns the people who are now gone. */
    method ReleaseSocket(socketId: SocketId) returns (gone: seq<Membership>, ghost order: seq<Id>)
      requires Valid()
      modifies this
      ensures Enumerates(order, old(State()), socketId)
      ensures (State(), gone) == ReleaseStep(old(State()), socketId, order)
      ensures Valid() && bySocket == old(bySocket) - {socketId}
      ensures old(Agrees(State())) ==> Agrees(State())
      ensures old(Agrees(State())) ==> forall a: Id, u: Id ::
          Membership(a, u) in gone <==> Holders(old(bySocket), a, u) == {socketId}
    {
      hide Sound, Agrees, UnregisterStep;
      gone, order := [], [];
      if socketId !in bySocket {
        ReleaseReturnsTheGone(State(), socketId, []);
        return;
      }
      var auctions := bySocket[socketId];
      var copied := Spread(auctions);
      order := copied;
      for i := 0 to |copied|
        invariant Valid()
        invariant (State(), gone) == ReleaseStep(old(State()), socketId, copied[..i])
      {
        assert copied[..i + 1][..i] == copied[..i];
        var last := Unregister(socketId, copied[i]);
        if last {
          gone := gone + [Membership(copied[i], auctions[copied[i]])];
        }
      }
      assert copied[..|copied|] == copied;
      ReleaseReturnsTheGone(old(State()), socketId, order);
    }

    method BumpCount(auctionId: Id, userId: Id, change: int) returns (left: int)
      modifies this`connections
      ensures (connections, left) == Bump(old(connections), Key(auctionId, userId), change)
      ensures RealKeys(old(connections)) && Count(old(connections), Key(auctionId, userId)) + change >= 0 ==>
                && RealKeys(connections)
                && left == Count(connections, Key(auctionId, userId))
                    == Count(old(connections), Key(auctionId, userId)) + change
                && forall a: Id, u: Id | a != auctionId || u != userId ::
                    Count(connections, Key(a, u)) == Count(old(connections), Key(a, u))
    {
      if RealKeys(connections) && Count(connections, Key(auctionId, userId)) + change >= 0 {
        BumpCounts(connections, auctionId, userId, change);
      }
      hide Key, RealKeys;
      var key := Key(auctionId, userId);
      var next := (if key in connections then connections[key] else 0) + change;
      if next <= 0 {
        connections := connections - {key};
        return 0;
      }
      connections := connections[key := next];
      return next;
    }
  }

  lemma {:induction false} UnregisterAgrees(r: Registry, s: SocketId, a: Id)
    requires Sound(r)
    ensures
      var (after, last) := UnregisterStep(r, s, a);
      && Sound(after)
      && (Agrees(r) ==> Agrees(after))
      && (Agrees(r) && Held(r.bySocket, s, a).Some? ==>
          (last <==> Holders(after.bySocket, a, Held(r.bySocket, s, a).value) == {}))
  {
    UnregisterKeeps(r, s, a);
    var (after, last) := UnregisterStep(r, s, a);
    hide Sound, UnregisterStep, Holders, Key, Count, Switched;
    if Held(r.bySocket, s, a).Some? {
      var u := Held(r.bySocket, s, a).value;
      assert Holders(after.bySocket, a, u) == {} <==> |Holders(after.bySocket, a, u)| == 0;
    }
  }
}
